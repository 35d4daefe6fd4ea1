/** Sets and sequences: what several modules need of them. */
module Collections {
  lemma SubsetSize<T>(a: set<T>, b: set<T>)
    requires a <= b
    ensures |b - a| == |b| - |a| && |a| <= |b| && (|a| == |b| <==> a == b)
  {
    assert b == a + (b - a);
    assert a != b ==> b - a != {};
  }

  /** 0, 1, ... n - 1 */
  function Below(n: nat): (r: set<nat>)
    ensures |r| == n && forall p :: p in r <==> 0 <= p < n
  {
    if n == 0 then {} else Below(n - 1) + {n - 1}
  }

  predicate Between(a: int, i: int, b: int) { a <= i < b }

  /** a, a + 1, ... b - 1 */
  ghost function Range(a: nat, b: nat): set<nat> { set i | 0 <= i < b && Between(a, i, b) }

  lemma {:induction false} RangeSize(a: nat, n: nat)
    ensures |Range(a, a + n)| == n
  {
    if n > 0 {
      RangeSize(a, n - 1);
      assert Between(a, a + n - 1, a + n);
      assert Range(a, a + n) == Range(a, a + n - 1) + {a + n - 1};
    }
  }

  lemma Associative<T>(a: seq<T>, b: seq<T>, c: seq<T>)
    ensures a + b + c == a + (b + c)
    ensures [] + a == a && a + [] == a
  {
  }
}
