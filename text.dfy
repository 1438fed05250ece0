/**
 * Strings as the core uses them: the ordering of std::string keys in a
 * std::map (lexicographic, character by character, a proper prefix first),
 * the ascending key order in which such a map is iterated, and the decimal
 * formatting that fmt::format applies to an unsigned position.
 */
module Text {

  /** std::string operator< : lexicographic comparison. */
  predicate Less(a: string, b: string)
    decreases |a|
  {
    if |a| == 0 then |b| > 0
    else if |b| == 0 then false
    else if a[0] != b[0] then a[0] < b[0]
    else Less(a[1..], b[1..])
  }

  predicate LessOrEqual(a: string, b: string) {
    a == b || Less(a, b)
  }

  lemma {:induction false} LessIrreflexive(a: string)
    ensures !Less(a, a)
    decreases |a|
  {
    if |a| > 0 {
      LessIrreflexive(a[1..]);
    }
  }

  lemma {:induction false} LessAsymmetric(a: string, b: string)
    ensures Less(a, b) ==> !Less(b, a)
    decreases |a|
  {
    if |a| > 0 && |b| > 0 && a[0] == b[0] {
      LessAsymmetric(a[1..], b[1..]);
    }
  }

  lemma {:induction false} LessTrichotomous(a: string, b: string)
    ensures Less(a, b) || a == b || Less(b, a)
    decreases |a|
  {
    if |a| > 0 && |b| > 0 && a[0] == b[0] {
      LessTrichotomous(a[1..], b[1..]);
      if a[1..] == b[1..] {
        assert a == [a[0]] + a[1..] && b == [b[0]] + b[1..];
      }
    }
  }

  lemma {:induction false} LessTransitive(a: string, b: string, c: string)
    requires Less(a, b) && Less(b, c)
    ensures Less(a, c)
    decreases |a|
  {
    if |a| > 0 && a[0] == b[0] && b[0] == c[0] {
      LessTransitive(a[1..], b[1..], c[1..]);
    }
  }

  /** `m` is the first key of `keys` in std::map order. */
  predicate IsLeast(m: string, keys: set<string>) {
    m in keys && forall k :: k in keys ==> LessOrEqual(m, k)
  }

  /** Every finite non-empty set of keys has a first key. */
  lemma {:induction false} LeastExists(keys: set<string>)
    requires keys != {}
    ensures exists m :: IsLeast(m, keys)
    decreases |keys|
  {
    var k :| k in keys;
    if keys == {k} {
      assert IsLeast(k, keys);
    } else {
      var rest := keys - {k};
      LeastExists(rest);
      var m :| IsLeast(m, rest);
      LessTrichotomous(k, m);
      if Less(k, m) {
        forall x | x in keys
          ensures LessOrEqual(k, x)
        {
          if x != k {
            assert LessOrEqual(m, x);
            if m != x {
              LessTransitive(k, m, x);
            }
          }
        }
        assert IsLeast(k, keys);
      } else {
        assert IsLeast(m, keys);
      }
    }
  }

  /** The first key of a set is unique. */
  lemma LeastUnique(m1: string, m2: string, keys: set<string>)
    requires IsLeast(m1, keys) && IsLeast(m2, keys)
    ensures m1 == m2
  {
    LessAsymmetric(m1, m2);
  }

  /** Strictly ascending in std::string order (so also free of duplicates). */
  ghost predicate StrictlyAscending(s: seq<string>) {
    forall i, j :: 0 <= i < j < |s| ==> Less(s[i], s[j])
  }

  /** The keys of a std::map<std::string, _> in the order the map iterates them: least key first. */
  ghost function SortedKeys(keys: set<string>): (r: seq<string>)
    ensures |r| == |keys|
    decreases |keys|
  {
    if keys == {} then []
    else
      LeastExists(keys);
      var m :| IsLeast(m, keys);
      [m] + SortedKeys(keys - {m})
  }

  /** Iterating a map visits exactly its keys. */
  lemma {:induction false} SortedKeysMembers(keys: set<string>)
    ensures forall k :: k in SortedKeys(keys) <==> k in keys
    decreases |keys|
  {
    if keys != {} {
      LeastExists(keys);
      var m :| IsLeast(m, keys);
      SortedKeysFirst(m, keys);
      SortedKeysMembers(keys - {m});
    }
  }

  /** A map is iterated in strictly ascending key order. */
  lemma {:induction false} SortedKeysAscending(keys: set<string>)
    ensures StrictlyAscending(SortedKeys(keys))
    decreases |keys|
  {
    if keys != {} {
      LeastExists(keys);
      var m :| IsLeast(m, keys);
      SortedKeysFirst(m, keys);
      SortedKeysAscending(keys - {m});
      SortedKeysMembers(keys - {m});
      var r := SortedKeys(keys);
      forall i, j | 0 <= i < j < |r|
        ensures Less(r[i], r[j])
      {
        if i == 0 {
          assert r[j] in keys - {m};
        } else {
          assert r[i] == SortedKeys(keys - {m})[i - 1];
        }
      }
    }
  }

  /** Iterating a map starts at its first key and continues with the rest. */
  lemma SortedKeysFirst(m: string, keys: set<string>)
    requires IsLeast(m, keys)
    ensures SortedKeys(keys) == [m] + SortedKeys(keys - {m})
  {
    var m' :| IsLeast(m', keys) && SortedKeys(keys) == [m'] + SortedKeys(keys - {m'});
    LeastUnique(m, m', keys);
  }

  /**
   * One step of iterating a map: taking the least key not yet visited moves
   * it from the unvisited keys to the end of the visited ones.
   */
  lemma SortedKeysVisit(keys: set<string>, done: seq<string>, remaining: set<string>, m: string)
    requires SortedKeys(keys) == done + SortedKeys(remaining)
    requires IsLeast(m, remaining)
    ensures SortedKeys(keys) == (done + [m]) + SortedKeys(remaining - {m})
  {
    SortedKeysFirst(m, remaining);
  }

  /** One decimal digit. */
  function Digit(d: nat): (c: char)
    requires d < 10
    ensures '0' <= c <= '9' && c as int - '0' as int == d
  {
    ('0' as int + d) as char
  }

  /** The value of a run of decimal digits, most significant first. */
  function DecimalValue(s: string): nat
    requires forall i :: 0 <= i < |s| ==> '0' <= s[i] <= '9'
    decreases |s|
  {
    if s == [] then 0
    else DecimalValue(s[..|s| - 1]) * 10 + (s[|s| - 1] as int - '0' as int)
  }

  /** fmt::format("{}", n) for an unsigned n: its decimal digits, no sign, no leading zero. */
  function NatToString(n: nat): (r: string)
    ensures |r| > 0
    ensures forall i :: 0 <= i < |r| ==> '0' <= r[i] <= '9'
    ensures DecimalValue(r) == n
    ensures |r| > 1 ==> r[0] != '0'
    ensures n < 10 <==> |r| == 1
    decreases n
  {
    if n < 10 then [Digit(n)]
    else
      var r := NatToString(n / 10) + [Digit(n % 10)];
      assert r[..|r| - 1] == NatToString(n / 10);
      r
  }

  /** Distinct values format differently, so a locus string determines its position. */
  lemma NatToStringInjective(m: nat, n: nat)
    requires NatToString(m) == NatToString(n)
    ensures m == n
  {
  }
}
