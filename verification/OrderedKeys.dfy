/** The iteration order of std::map<std::string, ...>: ascending by key. */
module OrderedKeys {

  predicate Less(a: string, b: string) {
    b != "" && (a == "" || a[0] < b[0] || (a[0] == b[0] && Less(a[1..], b[1..])))
  }

  lemma {:induction false} LessTotal(a: string, b: string)
    ensures a == b || Less(a, b) || Less(b, a)
    ensures !(Less(a, b) && Less(b, a)) && !Less(a, a)
  {
    if a != "" {
      LessTotal(a[1..], a[1..]);
      if b != "" && a[0] == b[0] {
        LessTotal(a[1..], b[1..]);
        assert a == [a[0]] + a[1..] && b == [b[0]] + b[1..];
      }
    }
  }

  lemma {:induction false} LessTransitive(a: string, b: string, c: string)
    requires Less(a, b) && Less(b, c)
    ensures Less(a, c)
  {
    if a != "" && a[0] == b[0] && b[0] == c[0] {
      LessTransitive(a[1..], b[1..], c[1..]);
    }
  }

  predicate IsLeast(k: string, keys: set<string>) {
    k in keys && forall o | o in keys :: o == k || Less(k, o)
  }

  lemma {:induction false} LeastExists(keys: set<string>)
    requires keys != {}
    ensures exists k :: IsLeast(k, keys)
  {
    var k :| k in keys;
    if keys == {k} {
      assert IsLeast(k, keys);
    } else {
      assert keys - {k} != {};
      LeastExists(keys - {k});
      var m :| IsLeast(m, keys - {k});
      LessTotal(k, m);
      if Less(m, k) {
        assert IsLeast(m, keys);
      } else {
        forall o | o in keys ensures o == k || Less(k, o) {
          if o != k && o != m {
            LessTransitive(k, m, o);
          }
        }
        assert IsLeast(k, keys);
      }
    }
  }

  lemma LeastUnique(j: string, k: string, keys: set<string>)
    requires IsLeast(j, keys) && IsLeast(k, keys)
    ensures j == k
  {
    LessTotal(j, k);
  }

  /** The keys in the order in which the map is iterated. */
  ghost function Sorted(keys: set<string>): seq<string>
    decreases |keys|
  {
    if keys == {} then []
    else
      LeastExists(keys);
      var k :| IsLeast(k, keys);
      [k] + Sorted(keys - {k})
  }

  lemma SortedStep(keys: set<string>, k: string)
    requires IsLeast(k, keys)
    ensures Sorted(keys) == [k] + Sorted(keys - {k})
  {
    var j :| IsLeast(j, keys) && Sorted(keys) == [j] + Sorted(keys - {j});
    LeastUnique(j, k, keys);
  }

  lemma {:induction false} SortedCovers(keys: set<string>)
    ensures forall k :: k in Sorted(keys) <==> k in keys
    decreases |keys|
  {
    if keys != {} {
      LeastExists(keys);
      var k :| IsLeast(k, keys);
      SortedStep(keys, k);
      SortedCovers(keys - {k});
    }
  }

  ghost predicate Ascends(keys: seq<string>) {
    forall i, j | 0 <= i < j < |keys| :: Less(keys[i], keys[j])
  }

  /** The iteration visits every key once, in ascending order. */
  lemma {:induction false} SortedAscends(keys: set<string>)
    ensures |Sorted(keys)| == |keys| && Ascends(Sorted(keys))
    decreases |keys|
  {
    if keys != {} {
      LeastExists(keys);
      var k :| IsLeast(k, keys);
      SortedStep(keys, k);
      SortedAscends(keys - {k});
      SortedCovers(keys - {k});
      forall i, j | 0 <= i < j < |Sorted(keys)| ensures Less(Sorted(keys)[i], Sorted(keys)[j]) {
        assert Sorted(keys)[j] in Sorted(keys - {k});
      }
    }
  }

  /** No other sequence does. */
  lemma {:induction false} AscendingIsSorted(s: seq<string>, keys: set<string>)
    requires Ascends(s) && forall k :: k in s <==> k in keys
    ensures s == Sorted(keys)
    decreases |s|
  {
    if s == [] {
      assert keys == {};
    } else {
      var k := s[0];
      assert k in s;
      forall o | o in keys ensures o == k || Less(k, o) {
        assert o in s;
      }
      LessTotal(k, k);
      forall o ensures o in s[1..] <==> o in keys - {k} {
        assert o in s <==> o == k || o in s[1..];
      }
      SortedStep(keys, k);
      AscendingIsSorted(s[1..], keys - {k});
      assert s == [k] + s[1..];
    }
  }

  /** Character by character: the strings agree up to some place, where the first ends or has the
      smaller character. */
  lemma {:induction false} LessIff(a: string, b: string)
    ensures Less(a, b) <==>
            exists k :: 0 <= k <= |a| && k < |b| && a[..k] == b[..k] && (k == |a| || a[k] < b[k])
  {
    if b != "" && a != "" && a[0] == b[0] {
      LessIff(a[1..], b[1..]);
      if Less(a, b) {
        var k :| 0 <= k <= |a[1..]| && k < |b[1..]| && a[1..][..k] == b[1..][..k] && (k == |a[1..]| || a[1..][k] < b[1..][k]);
        assert a[..k + 1] == [a[0]] + a[1..][..k] && b[..k + 1] == [b[0]] + b[1..][..k];
      } else {
        forall k | 0 < k <= |a| && k < |b| && a[..k] == b[..k] ensures !(k == |a| || a[k] < b[k]) {
          assert a[1..][..k - 1] == a[..k][1..] && b[1..][..k - 1] == b[..k][1..];
        }
      }
    } else if b != "" && (a == "" || a[0] < b[0]) {
      assert a[..0] == b[..0];
    } else if b != "" {
      forall k | 0 < k <= |a| && k < |b| ensures a[..k] != b[..k] {
        assert a[..k][0] != b[..k][0];
      }
    }
  }
}
