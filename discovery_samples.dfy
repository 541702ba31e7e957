/**
 * A worked discovery example over three build properties under the prefix
 * "m.": a complete host/port pair, the port property itself, and a host
 * whose port property is missing. Only the complete pair becomes a server.
 */
module DiscoverySamples {
  import opened Php
  import opened Resolver

  const Host1 := "m.ahost"
  const Port1 := "m.aport"
  const Host2 := "m.bhost"

  const Props := map[Host1 := "a", Port1 := "11211", Host2 := "b"]

  lemma Host1BeforePort1()
    ensures Below(Host1, Port1)
  {
    assert Host1 == "m.a" + "host" && Port1 == "m.a" + "port";
    BelowCommonPrefix("m.a", "host", "port");
  }

  lemma Port1BeforeHost2()
    ensures Below(Port1, Host2)
  {
    assert Port1 == "m." + "aport" && Host2 == "m." + "bhost";
    BelowCommonPrefix("m.", "aport", "bhost");
  }

  lemma SampleAscending()
    ensures Ascending([Host1, Port1, Host2])
  {
    Host1BeforePort1();
    Port1BeforeHost2();
    BelowTransitive(Host1, Port1, Host2);
  }

  /** `ksort` puts the three keys in the order host a, port a, host b. */
  lemma SortedSample()
    ensures SortedKeys(Props.Keys) == [Host1, Port1, Host2]
  {
    SampleAscending();
    assert Props.Keys == {Host1, Port1, Host2};
    AscendingUnique([Host1, Port1, Host2], SortedKeys(Props.Keys));
  }

  lemma PortKeySample()
    ensures PortKey(Host1) == Port1 && PortKey(Host2) == "m.bport"
  {
    assert EndsWith(Host1, "host") && EndsWith(Host2, "host");
  }

  /** The port property is not a host key. */
  lemma Port1DoesNotYield(prefix: string)
    ensures !Yields(Props, prefix, Port1)
  {
    assert 's' in "host" && 's' !in Port1;
    if Contains(Port1, "host") {
      ContainsOnlyChars(Port1, "host");
    }
  }

  /** Host b has no port property. */
  lemma Host2DoesNotYield(prefix: string)
    ensures !Yields(Props, prefix, Host2)
  {
    PortKeySample();
    assert "m.bport" !in Props;
  }

  lemma Host1Yields(prefix: string)
    requires prefix == "m." || prefix == "m.a"
    ensures Yields(Props, prefix, Host1) && ServerAt(Props, Host1) == Server("a", "11211")
  {
    PortKeySample();
    ContainsAt(Host1, "host", 3);
  }

  lemma CollectSample(prefix: string)
    requires prefix == "m." || prefix == "m.a"
    ensures Collect(Props, prefix, [Host1, Port1, Host2]) == [Server("a", "11211")]
  {
    Host1Yields(prefix);
    Port1DoesNotYield(prefix);
    Host2DoesNotYield(prefix);
    var ks := [Host1, Port1, Host2];
    var s0 := Server("a", "11211");
    assert ks[..0] == [];
    CollectStep(Props, prefix, ks, 0);
    assert Collect(Props, prefix, ks[..1]) == [s0];
    CollectStep(Props, prefix, ks, 1);
    assert Collect(Props, prefix, ks[..2]) == [s0];
    CollectStep(Props, prefix, ks, 2);
    assert ks[..3] == ks;
  }

  /**
   * Discovery over the sample finds the one complete pair and skips the
   * host whose port property is missing, under the prefix "m." and under
   * the narrower "m.a".
   */
  lemma DiscoverSample(prefix: string)
    requires prefix == "m." || prefix == "m.a"
    ensures Discover(Props, prefix) == Ok([Server("a", "11211")])
  {
    SortedSample();
    CollectSample(prefix);
  }

  lemma NoKeyStartsWithX(k: string)
    requires k in Props
    ensures !StartsWith(k, "x.")
  {
    assert k == Host1 || k == Port1 || k == Host2;
    assert k[0] == 'm';
  }

  /** Under a prefix no property starts with, discovery is a configuration error. */
  lemma DiscoverNothingSample()
    ensures Discover(Props, "x.") == Fail(ConfigurationError)
  {
    forall k | k in Props
      ensures !Yields(Props, "x.", k)
    {
      NoKeyStartsWithX(k);
    }
    DiscoverFailsIffNoPair(Props, "x.");
  }
}
