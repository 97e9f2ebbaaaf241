/** The least and greatest elements of finite sets of numbers. */
module Extremes {
  lemma MaxExists(s: set<nat>)
    requires s != {}
    ensures exists m :: m in s && forall x :: x in s ==> x <= m
  {
    var e :| e in s;
    if s != {e} {
      MaxExists(s - {e});
      var m :| m in s - {e} && forall x :: x in s - {e} ==> x <= m;
      var top := if m >= e then m else e;
      assert top in s && forall x :: x in s ==> x == e || x in s - {e};
      assert forall x :: x in s ==> x <= top;
    }
  }

  lemma MinExists(s: set<nat>)
    requires s != {}
    ensures exists m :: m in s && forall x :: x in s ==> m <= x
  {
    var m :| m in s;
    while exists x :: x in s && x < m
      invariant m in s
      decreases m
    {
      var x :| x in s && x < m;
      m := x;
    }
  }

  function MaxOf(s: set<nat>): (m: nat)
    requires s != {}
    ensures m in s && forall x :: x in s ==> x <= m
  {
    MaxExists(s);
    var m :| m in s && forall x :: x in s ==> x <= m;
    m
  }

  function MinOf(s: set<nat>): (m: nat)
    requires s != {}
    ensures m in s && forall x :: x in s ==> m <= x
  {
    MinExists(s);
    var m :| m in s && forall x :: x in s ==> m <= x;
    m
  }
}
