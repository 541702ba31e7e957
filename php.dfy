/**
 * The handful of PHP built-ins the task's logic depends on, stated over
 * Dafny strings: `empty()` on a scalar setting, the `strpos`-based prefix
 * and substring tests, the character-wise string order, and `ksort` applied to
 * the key set of an associative array.
 */
module Php {

  datatype Option<T> = None | Some(value: T)

  /**
   * PHP `empty()` on a setting that is either unset (null) or a string.
   * null, "" and "0" are empty, every other string is not. An integer
   * setting is represented by its decimal text, so the integer 0 is "0".
   */
  predicate IsEmpty(v: Option<string>)
  {
    v == None || v.value == "" || v.value == "0"
  }

  /** `strpos($s, $p) === 0`: `p` occurs in `s` at offset 0. */
  predicate StartsWith(s: string, p: string)
  {
    |p| <= |s| && s[..|p|] == p
  }

  /** `strpos($s, $t) !== false`: `t` occurs somewhere in `s`. */
  predicate Contains(s: string, t: string)
    decreases |s|
  {
    StartsWith(s, t) || (s != [] && Contains(s[1..], t))
  }

  /** `s` ends with `t`, the `…host$` anchor of the port-key pattern. */
  predicate EndsWith(s: string, t: string)
  {
    |t| <= |s| && s[|s| - |t|..] == t
  }

  /**
   * The strict string order `ksort` sorts keys by: character-wise
   * comparison, a proper prefix sorting first.
   */
  predicate Below(a: string, b: string)
    decreases |a|
  {
    if a == [] then b != []
    else if b == [] then false
    else if a[0] == b[0] then Below(a[1..], b[1..])
    else a[0] < b[0]
  }

  lemma {:induction false} BelowIrreflexive(a: string)
    ensures !Below(a, a)
    decreases |a|
  {
    if a != [] {
      BelowIrreflexive(a[1..]);
    }
  }

  lemma {:induction false} BelowTransitive(a: string, b: string, c: string)
    requires Below(a, b) && Below(b, c)
    ensures Below(a, c)
    decreases |a|
  {
    if a != [] && b != [] && c != [] && a[0] == b[0] && b[0] == c[0] {
      BelowTransitive(a[1..], b[1..], c[1..]);
    }
  }

  lemma {:induction false} BelowTotal(a: string, b: string)
    ensures a == b || Below(a, b) || Below(b, a)
    decreases |a|
  {
    if a != [] && b != [] && a[0] == b[0] {
      BelowTotal(a[1..], b[1..]);
      if a[1..] == b[1..] {
        assert a == [a[0]] + a[1..] && b == [b[0]] + b[1..];
      }
    }
  }

  lemma BelowAsymmetric(a: string, b: string)
    requires Below(a, b)
    ensures !Below(b, a)
  {
    if Below(b, a) {
      BelowTransitive(a, b, a);
      BelowIrreflexive(a);
    }
  }

  /** Keys that share a prefix compare like their remainders. */
  lemma {:induction false} BelowCommonPrefix(p: string, a: string, b: string)
    ensures Below(p + a, p + b) == Below(a, b)
    decreases |p|
  {
    if p == [] {
      assert p + a == a && p + b == b;
    } else {
      assert (p + a)[0] == p[0] == (p + b)[0];
      assert (p + a)[1..] == p[1..] + a && (p + b)[1..] == p[1..] + b;
      BelowCommonPrefix(p[1..], a, b);
    }
  }

  /** An occurrence of `t` at offset `i` of `s` is found by the scan. */
  lemma {:induction false} ContainsAt(s: string, t: string, i: nat)
    requires i + |t| <= |s| && s[i..i + |t|] == t
    ensures Contains(s, t)
    decreases i
  {
    if i == 0 {
      assert s[..|t|] == t;
    } else {
      assert s[1..][i - 1..i - 1 + |t|] == s[i..i + |t|];
      ContainsAt(s[1..], t, i - 1);
    }
  }

  /** `t` occurs in `s` at offset `i`. */
  predicate OccursAt(s: string, t: string, i: nat)
  {
    i + |t| <= |s| && s[i..i + |t|] == t
  }

  /** The scan finds `t` in `s` exactly when `t` occurs at some offset of `s`. */
  lemma {:induction false} ContainsIff(s: string, t: string)
    ensures Contains(s, t) <==> exists i: nat :: OccursAt(s, t, i)
    decreases |s|
  {
    if exists i: nat :: OccursAt(s, t, i) {
      var i: nat :| OccursAt(s, t, i);
      ContainsAt(s, t, i);
    }
    if Contains(s, t) && !StartsWith(s, t) {
      ContainsIff(s[1..], t);
      var i: nat :| OccursAt(s[1..], t, i);
      assert s[i + 1..i + 1 + |t|] == s[1..][i..i + |t|];
      assert OccursAt(s, t, i + 1);
    }
    if StartsWith(s, t) {
      assert OccursAt(s, t, 0);
    }
  }

  /** Every character of a string that occurs in `s` occurs in `s`. */
  lemma {:induction false} ContainsOnlyChars(s: string, t: string)
    requires Contains(s, t)
    ensures forall c :: c in t ==> c in s
    decreases |s|
  {
    if StartsWith(s, t) {
      assert forall c :: c in t ==> c in s[..|t|];
    } else {
      ContainsOnlyChars(s[1..], t);
    }
  }

  /** Every key of `ks` sorts strictly before every later one. */
  predicate Ascending(ks: seq<string>)
  {
    forall i, j :: 0 <= i < j < |ks| ==> Below(ks[i], ks[j])
  }

  /** `m` is the least key of `s`. */
  predicate IsLeast(m: string, s: set<string>)
  {
    m in s && forall k :: k in s ==> k == m || Below(m, k)
  }

  lemma {:induction false} LeastExists(s: set<string>)
    requires s != {}
    ensures exists m :: IsLeast(m, s)
    decreases s
  {
    var x :| x in s;
    if s - {x} == {} {
      assert s == {x};
      assert IsLeast(x, s);
    } else {
      LeastExists(s - {x});
      var m :| IsLeast(m, s - {x});
      BelowTotal(x, m);
      if Below(x, m) {
        forall k | k in s
          ensures k == x || Below(x, k)
        {
          if k != x && k != m {
            BelowTransitive(x, m, k);
          }
        }
        assert IsLeast(x, s);
      } else {
        assert IsLeast(m, s);
      }
    }
  }

  lemma LeastUnique(m: string, n: string, s: set<string>)
    requires IsLeast(m, s) && IsLeast(n, s)
    ensures m == n
  {
    if m != n {
      BelowAsymmetric(m, n);
    }
  }

  /**
   * The keys of `s` in the order `ksort` leaves them: ascending, each key
   * exactly once.
   */
  ghost function SortedKeys(s: set<string>): (ks: seq<string>)
    ensures Ascending(ks)
    ensures forall k :: k in ks <==> k in s
    decreases s
  {
    if s == {} then []
    else
      LeastExists(s);
      var m :| IsLeast(m, s);
      var rest := SortedKeys(s - {m});
      assert forall k :: k in rest ==> Below(m, k);
      [m] + rest
  }

  /** The sorted keys of `s` begin with its least key. */
  lemma SortedKeysUnfold(s: set<string>, m: string)
    requires IsLeast(m, s)
    ensures SortedKeys(s) == [m] + SortedKeys(s - {m})
  {
    var m' :| IsLeast(m', s) && SortedKeys(s) == [m'] + SortedKeys(s - {m'});
    LeastUnique(m, m', s);
  }

  /** Strictly ascending sequences with the same keys are equal. */
  lemma {:induction false} AscendingUnique(a: seq<string>, b: seq<string>)
    requires Ascending(a) && Ascending(b)
    requires forall k :: k in a <==> k in b
    ensures a == b
    decreases |a|
  {
    if a != [] {
      assert a[0] in b;
    }
    if b != [] {
      assert b[0] in a;
    }
    if a != [] && b != [] {
      if a[0] != b[0] {
        assert b[0] in a && a[0] in b;
        assert Below(a[0], b[0]) by {
          var j :| 0 <= j < |a| && a[j] == b[0];
        }
        assert Below(b[0], a[0]) by {
          var j :| 0 <= j < |b| && b[j] == a[0];
        }
        BelowAsymmetric(a[0], b[0]);
      }
      forall k
        ensures k in a[1..] <==> k in b[1..]
      {
        if k in a[1..] {
          var j :| 1 <= j < |a| && a[j] == k;
          assert Below(a[0], k);
          if k == b[0] { BelowIrreflexive(k); }
          assert a[j] in a;
          var j' :| 0 <= j' < |b| && b[j'] == k;
          assert b[1..][j' - 1] == k;
        }
        if k in b[1..] {
          var j :| 1 <= j < |b| && b[j] == k;
          assert Below(b[0], k);
          if k == a[0] { BelowIrreflexive(k); }
          assert b[j] in b;
          var j' :| 0 <= j' < |a| && a[j'] == k;
          assert a[1..][j' - 1] == k;
        }
      }
      AscendingUnique(a[1..], b[1..]);
      assert a == [a[0]] + a[1..] && b == [b[0]] + b[1..];
    }
  }

  /** Finds the least key of a non-empty key set by a linear scan. */
  method Least(s: set<string>) returns (m: string)
    requires s != {}
    ensures IsLeast(m, s)
  {
    m :| m in s;
    var todo := s - {m};
    while todo != {}
      invariant todo <= s && m in s && m !in todo
      invariant forall k :: k in s && k !in todo ==> k == m || Below(m, k)
      decreases todo
    {
      var k :| k in todo;
      if Below(k, m) {
        forall j | j in s && j !in todo
          ensures j == k || Below(k, j)
        {
          if j != m {
            BelowTransitive(k, m, j);
          }
        }
        m := k;
      } else {
        BelowTotal(k, m);
      }
      todo := todo - {k};
    }
  }

  /** Placing the least remaining key keeps the placed keys followed by the sorted rest unchanged. */
  lemma KSortStep(ks: seq<string>, rest: set<string>, m: string)
    requires IsLeast(m, rest)
    ensures ks + SortedKeys(rest) == (ks + [m]) + SortedKeys(rest - {m})
  {
    SortedKeysUnfold(rest, m);
  }

  /**
   * `ksort`: the keys of an associative array, in ascending order, by
   * repeatedly taking the least key not yet placed.
   */
  method KSort(keys: set<string>) returns (ks: seq<string>)
    ensures Ascending(ks)
    ensures forall k :: k in ks <==> k in keys
    ensures ks == SortedKeys(keys)
  {
    ks := [];
    var rest := keys;
    assert ks + SortedKeys(rest) == SortedKeys(keys);
    while rest != {}
      invariant ks + SortedKeys(rest) == SortedKeys(keys)
      decreases rest
    {
      var m := Least(rest);
      KSortStep(ks, rest, m);
      ks := ks + [m];
      rest := rest - {m};
    }
    assert SortedKeys(rest) == [];
    assert ks == ks + SortedKeys(rest);
  }
}
