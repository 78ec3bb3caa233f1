/** The smallest of a set of numbers, as ORDER BY over a key finds it. */
module Ordering {

  ghost predicate IsLeast(least: nat, members: set<nat>) {
    least in members && forall member :: member in members ==> least <= member
  }

  lemma {:induction false} LeastExists(members: set<nat>)
    requires members != {}
    ensures exists least :: IsLeast(least, members)
  {
    var member :| member in members;
    var rest := members - {member};
    assert forall other :: other in members ==> other == member || other in rest;
    if rest == {} {
      assert IsLeast(member, members);
    } else {
      LeastExists(rest);
      var least :| IsLeast(least, rest);
      assert IsLeast(if member < least then member else least, members);
    }
  }

  /** The smallest member of a non-empty set. */
  ghost function Least(members: set<nat>): (least: nat)
    requires members != {}
    ensures IsLeast(least, members)
  {
    LeastExists(members);
    var least :| IsLeast(least, members);
    least
  }

  /** There is always a number above those in use. */
  lemma {:induction false} NewNumber(used: set<nat>) returns (number: nat)
    ensures forall n :: n in used ==> n < number
  {
    if used == {} {
      number := 0;
    } else {
      var n :| n in used;
      var rest := NewNumber(used - {n});
      assert forall m :: m in used ==> m == n || m in used - {n};
      number := if rest <= n then n + 1 else rest;
    }
  }
}
