/** The least element of a finite set of natural numbers. */
module Naturals {

  lemma {:induction false} FindLeast(s: set<nat>) returns (m: nat)
    requires s != {}
    ensures m in s && forall n :: n in s ==> m <= n
    decreases |s|
  {
    var first :| first in s;
    var rest := s - {first};
    m := first;
    if rest != {} {
      var k := FindLeast(rest);
      m := if k < first then k else first;
    }
    forall n | n in s ensures m <= n {
      if n != first { assert n in rest; }
    }
  }

  function Least(s: set<nat>): (m: nat)
    requires s != {}
    ensures m in s && forall n :: n in s ==> m <= n
  {
    LeastExists(s);
    var m :| m in s && forall n :: n in s ==> m <= n;
    m
  }

  lemma LeastExists(s: set<nat>)
    requires s != {}
    ensures exists m :: m in s && forall n :: n in s ==> m <= n
  {
    var m := FindLeast(s);
  }
}
