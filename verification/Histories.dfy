/** What stands at the end of a list of operations: what some operation set and none since cleared. */
module Histories {
  ghost predicate SetSince<Op>(ops: seq<Op>, i: nat, sets: Op -> bool, clears: Op -> bool) {
    && i < |ops| && sets(ops[i])
    && forall j :: i < j < |ops| ==> !clears(ops[j])
  }

  ghost predicate Stands<Op>(ops: seq<Op>, sets: Op -> bool, clears: Op -> bool) {
    exists i :: SetSince(ops, i, sets, clears)
  }

  lemma StandsMore<Op>(ops: seq<Op>, op: Op, sets: Op -> bool, clears: Op -> bool)
    ensures Stands(ops + [op], sets, clears) <==> sets(op) || (Stands(ops, sets, clears) && !clears(op))
  {
    var all := ops + [op];
    if sets(op) {
      assert SetSince(all, |ops|, sets, clears);
    } else if Stands(ops, sets, clears) && !clears(op) {
      var i :| SetSince(ops, i, sets, clears);
      assert SetSince(all, i, sets, clears);
    }
    if i: nat :| SetSince(all, i, sets, clears) {
      if i < |ops| {
        assert all[|ops|] == op;
        assert forall j :: i < j < |ops| ==> all[j] == ops[j];
        assert SetSince(ops, i, sets, clears);
      }
    }
  }

  /** What was cleared at some point and has not been set since does not stand. */
  lemma ClearedStays<Op>(ops: seq<Op>, at: nat, sets: Op -> bool, clears: Op -> bool)
    requires at < |ops| && clears(ops[at]) && !sets(ops[at])
    requires forall j :: at < j < |ops| ==> !sets(ops[j])
    ensures !Stands(ops, sets, clears)
  {}

  /** What did not stand at some point and has not been set since does not stand. */
  lemma UnsetStays<Op>(ops: seq<Op>, at: nat, sets: Op -> bool, clears: Op -> bool)
    requires at <= |ops| && !Stands(ops[..at], sets, clears)
    requires forall j :: at <= j < |ops| ==> !sets(ops[j])
    ensures !Stands(ops, sets, clears)
  {
    assert forall i: nat :: SetSince(ops, i, sets, clears) ==> SetSince(ops[..at], i, sets, clears);
  }
}
