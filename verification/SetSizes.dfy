/** Sizes of finite sets. */
module SetSizes {

  lemma {:induction false} SubsetSize<T>(a: set<T>, b: set<T>)
    requires a <= b
    ensures |a| <= |b|
    decreases a
  {
    if x :| x in a {
      SubsetSize(a - {x}, b - {x});
    }
  }

  lemma UnionSize<T>(a: set<T>, b: set<T>)
    ensures |a + b| <= |a| + |b|
  {
    assert a + b == a + (b - a);
    assert |a + (b - a)| == |a| + |b - a|;
    SubsetSize(b - a, b);
  }

  /** A one-to-one map sends a set to one of the same size. */
  lemma {:induction false} ImageSize(f: map<nat, nat>, a: set<nat>, b: set<nat>)
    requires a <= f.Keys && (forall i, j :: i in a && j in a && f[i] == f[j] ==> i == j)
    requires forall y :: y in b <==> exists x :: x in a && f[x] == y
    ensures |a| == |b|
  {
    if a == {} {
      assert b == {};
    } else {
      var x :| x in a;
      ImageSize(f, a - {x}, b - {f[x]});
      assert f[x] in b;
    }
  }

  /** There always are `n` numbers that have not been used. */
  lemma {:induction false} FreshIds(used: set<nat>, n: nat) returns (ids: set<nat>)
    ensures |ids| == n && ids !! used
    decreases n
  {
    if n == 0 {
      ids := {};
    } else {
      ids := FreshIds(used, n - 1);
      var next := Above(used + ids);
      assert next !in used + ids;
      ids := ids + {next};
    }
  }

  lemma {:induction false} Above(used: set<nat>) returns (bound: nat)
    ensures forall i :: i in used ==> i < bound
    decreases used
  {
    if x :| x in used {
      var rest := Above(used - {x});
      bound := if rest > x then rest else x + 1;
      assert forall i :: i in used ==> i == x || i in used - {x};
    } else {
      bound := 0;
    }
  }
}
