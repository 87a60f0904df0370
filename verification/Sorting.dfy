/** Sorting the elements of a finite set. */
module Sorting {
  ghost predicate TotalOrder<T(!new)>(leq: (T, T) -> bool) {
    && (forall a, b :: leq(a, b) || leq(b, a))
    && (forall a, b :: leq(a, b) && leq(b, a) ==> a == b)
    && (forall a, b, c :: leq(a, b) && leq(b, c) ==> leq(a, c))
  }

  predicate IsLeast<T>(leq: (T, T) -> bool, s: set<T>, m: T) {
    m in s && forall k | k in s :: leq(m, k)
  }

  lemma {:induction false} HasLeast<T(!new)>(leq: (T, T) -> bool, s: set<T>)
    requires TotalOrder(leq) && s != {}
    ensures exists m :: IsLeast(leq, s, m)
  {
    var x :| x in s;
    if s - {x} == {} {
      assert s == {x} && IsLeast(leq, s, x);
    } else {
      HasLeast(leq, s - {x});
      var m :| IsLeast(leq, s - {x}, m);
      assert IsLeast(leq, s, if leq(x, m) then x else m);
    }
  }

  /** The elements of `s` in ascending order, each once. */
  function Sorted<T(!new)>(leq: (T, T) -> bool, s: set<T>): (r: seq<T>)
    requires TotalOrder(leq)
    ensures forall k :: k in r <==> k in s
    ensures |r| == |s|
    decreases |s|
  {
    if s == {} then []
    else
      HasLeast(leq, s);
      var m :| IsLeast(leq, s, m);
      var r := Sorted(leq, s - {m});
      assert forall k :: k in [m] + r <==> k == m || k in r;
      [m] + r
  }

  lemma {:induction false} SortedAscends<T(!new)>(leq: (T, T) -> bool, s: set<T>)
    requires TotalOrder(leq)
    ensures forall i, j | 0 <= i < j < |Sorted(leq, s)| ::
            leq(Sorted(leq, s)[i], Sorted(leq, s)[j]) && Sorted(leq, s)[i] != Sorted(leq, s)[j]
    decreases |s|
  {
    if s != {} {
      var r := Sorted(leq, s);
      var m := r[0];
      SortedAscends(leq, s - {m});
      assert r[1..] == Sorted(leq, s - {m});
      forall i, j | 0 <= i < j < |r| ensures leq(r[i], r[j]) && r[i] != r[j] {
        assert r[j] == r[1..][j - 1] && r[j] in Sorted(leq, s - {m});
        if i > 0 {
          assert r[i] == r[1..][i - 1];
        }
      }
    }
  }
}
