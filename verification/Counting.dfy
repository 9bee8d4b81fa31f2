/** Sizes of finite sets. */
module Counting {
  function Upto(n: nat): set<nat> {
    if n == 0 then {} else Upto(n - 1) + {n - 1}
  }

  lemma {:induction false} UptoIs(n: nat)
    ensures |Upto(n)| == n
    ensures forall i: nat :: i in Upto(n) <==> i < n
  {
    if n > 0 {
      UptoIs(n - 1);
    }
  }

  /** Two sets matched one to one by m have the same size. */
  lemma {:induction false} SameSize(a: set<nat>, b: set<nat>, m: map<nat, nat>)
    requires forall x | x in a :: x in m && m[x] in b
    requires forall x, y | x in a && y in a && x != y :: m[x] != m[y]
    requires forall z | z in b :: exists x :: x in a && m[x] == z
    ensures |a| == |b|
    decreases a
  {
    if a == {} {
      assert b == {};
    } else {
      var x :| x in a;
      forall z | z in b - {m[x]} ensures exists y :: y in a - {x} && m[y] == z {
        var y :| y in a && m[y] == z;
        assert y in a - {x};
      }
      SameSize(a - {x}, b - {m[x]}, m);
    }
  }
}
