/** Small definitions shared by every part of the model. */
module Common {

  type byte = x: int | 0 <= x < 256

  datatype Option<+T> = None | Some(value: T)

  /** The sum of a weight over a sequence. */
  ghost function SumBy<T>(s: seq<T>, weight: T -> nat): nat {
    if s == [] then 0 else weight(s[0]) + SumBy(s[1..], weight)
  }

  /** Replacing one element changes the sum by the difference of the two weights. */
  lemma {:induction false} SumByUpdate<T>(s: seq<T>, i: nat, x: T, weight: T -> nat)
    requires i < |s|
    ensures SumBy(s[i := x], weight) + weight(s[i]) == SumBy(s, weight) + weight(x)
  {
    if i == 0 {
      assert s[i := x][1..] == s[1..];
    } else {
      assert s[i := x][1..] == s[1..][i - 1 := x];
      SumByUpdate(s[1..], i - 1, x, weight);
    }
  }

  /** No element weighs more than the whole. */
  lemma {:induction false} SumByElement<T>(s: seq<T>, i: nat, weight: T -> nat)
    requires i < |s|
    ensures weight(s[i]) <= SumBy(s, weight)
  {
    if i > 0 {
      SumByElement(s[1..], i - 1, weight);
    }
  }

  /** A positive sum has a positive element. */
  lemma {:induction false} SumByWitness<T>(s: seq<T>, weight: T -> nat) returns (i: nat)
    requires SumBy(s, weight) > 0
    ensures i < |s| && weight(s[i]) > 0
  {
    if weight(s[0]) > 0 {
      i := 0;
    } else {
      var j := SumByWitness(s[1..], weight);
      i := j + 1;
    }
  }

  lemma ProductOrder(a: int, b: int, c: nat)
    ensures a <= b ==> a * c <= b * c
  {
  }

  /** The set of the naturals below n has n elements. */
  function Below(n: nat): (r: set<int>)
    ensures forall i :: i in r <==> 0 <= i < n
  {
    if n == 0 then {} else Below(n - 1) + {n - 1}
  }

  lemma {:induction false} BelowSize(n: nat)
    ensures |Below(n)| == n
  {
    if n > 0 {
      BelowSize(n - 1);
    }
  }

  lemma {:induction false} SubsetSize<T>(a: set<T>, b: set<T>)
    requires a <= b
    ensures |a| <= |b|
    ensures |a| == |b| ==> a == b
  {
    assert b == a + (b - a);
    assert |b| == |a| + |b - a|;
  }

  /** The pigeonhole step behind the server's count check: indices drawn from [0, n) that
      number n are all of [0, n). */
  lemma FullCount(indices: set<int>, n: nat)
    requires indices <= Below(n)
    ensures |indices| <= n
    ensures |indices| == n <==> indices == Below(n)
  {
    BelowSize(n);
    SubsetSize(indices, Below(n));
  }

  /** The sum of a weight over the entries of a map. */
  ghost function SumOver<K, V>(m: map<K, V>, weight: (K, V) -> int): int
    decreases |m|
  {
    if exists k :: k in m then
      var k :| k in m;
      weight(k, m[k]) + SumOver(m - {k}, weight)
    else 0
  }

  /** The sum does not depend on the order: any entry can be taken out first. */
  lemma {:induction false} SumOverTakesOut<K, V>(m: map<K, V>, weight: (K, V) -> int, k: K)
    requires k in m
    ensures SumOver(m, weight) == weight(k, m[k]) + SumOver(m - {k}, weight)
    decreases |m|
  {
    var g :| g in m && SumOver(m, weight) == weight(g, m[g]) + SumOver(m - {g}, weight);
    if k != g {
      SumOverTakesOut(m - {g}, weight, k);
      assert k in m - {g};
      assert m - {g} - {k} == m - {k} - {g};
      SumOverTakesOut(m - {k}, weight, g);
    }
  }

  lemma SumOverPutsIn<K, V>(m: map<K, V>, weight: (K, V) -> int, k: K, v: V)
    requires k !in m
    ensures SumOver(m[k := v], weight) == SumOver(m, weight) + weight(k, v)
  {
    SumOverTakesOut(m[k := v], weight, k);
    assert m[k := v] - {k} == m;
  }

  predicate IsMin(k: int, s: set<int>) {
    k in s && forall o | o in s :: k <= o
  }

  lemma SomeElement<T>(s: set<T>) returns (x: T)
    requires s != {}
    ensures x in s
  {
    x :| x in s;
  }

  lemma MinOfRest(s: set<int>, x: int, m: int)
    requires x in s && IsMin(m, s - {x})
    ensures IsMin(if x <= m then x else m, s)
  {
    forall o | o in s ensures (if x <= m then x else m) <= o {
      assert o == x || o in s - {x};
    }
  }

  lemma {:induction false} MinExists(s: set<int>)
    requires s != {}
    ensures exists k :: IsMin(k, s)
    decreases |s|
  {
    var x := SomeElement(s);
    if s == {x} {
      assert IsMin(x, s);
    } else {
      MinExists(s - {x});
      var m :| IsMin(m, s - {x});
      MinOfRest(s, x, m);
    }
  }

  /** The elements in ascending order. */
  ghost function InOrder(s: set<int>): seq<int>
    decreases |s|
  {
    if s == {} then []
    else
      MinExists(s);
      var k :| IsMin(k, s);
      [k] + InOrder(s - {k})
  }

  lemma {:induction false} InOrderAscends(s: set<int>)
    ensures |InOrder(s)| == |s| && forall i :: i in InOrder(s) <==> i in s
    ensures forall i, j | 0 <= i < j < |InOrder(s)| :: InOrder(s)[i] < InOrder(s)[j]
    decreases |s|
  {
    if s != {} {
      var k := InOrder(s)[0];
      assert InOrder(s) == [k] + InOrder(s - {k});
      InOrderAscends(s - {k});
      forall i, j | 0 <= i < j < |InOrder(s)| ensures InOrder(s)[i] < InOrder(s)[j] {
        assert InOrder(s)[j] in InOrder(s - {k});
      }
    }
  }

  /** new Set(list). */
  function AsSet(list: seq<int>): set<int> {
    set i | i in list
  }

  lemma InOrderIsSet(s: set<int>)
    ensures AsSet(InOrder(s)) == s
  {
    InOrderAscends(s);
  }
}
