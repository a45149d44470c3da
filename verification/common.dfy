module Common {
  datatype Option<+T> = None | Some(value: T)

  ghost predicate IsLeast(m: nat, q: set<nat>) {
    m in q && forall x <- q :: m <= x
  }

  lemma LeastOfTwo(q: set<nat>, a: nat, m: nat)
    requires a in q && IsLeast(m, q - {a})
    ensures IsLeast(if a <= m then a else m, q)
  {
    forall x <- q ensures a <= x || m <= x { if x != a { assert x in q - {a}; } }
  }

  lemma {:induction false} LeastExists(q: set<nat>)
    requires q != {}
    ensures exists m :: IsLeast(m, q)
    decreases |q|
  {
    var a :| a in q;
    if q == {a} {
      assert IsLeast(a, q);
    } else {
      LeastExists(q - {a});
      var m :| IsLeast(m, q - {a});
      LeastOfTwo(q, a, m);
    }
  }

  ghost function Least(q: set<nat>): (m: nat)
    requires q != {}
    ensures IsLeast(m, q)
  {
    LeastExists(q);
    var m :| IsLeast(m, q);
    m
  }
}
