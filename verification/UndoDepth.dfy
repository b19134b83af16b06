/** How far undo reaches (novadb/prompting.py): the last approvals, as many as the history holds; and undo and redo of a
    named record. */
module UndoDepth {
  import opened Tables
  import opened Undo

  // ---------------------------------------------------------------- by name

  /** An undo that names a record does what an undo would, where that would take just this record, and nothing otherwise. */
  lemma NamedUndo(tables: State, version: nat, limit: nat, actions: seq<Action>, id: nat)
    ensures var s := Run(Fresh(tables, version, limit), actions);
      var any := UndoLast(s, None);
      && (any.ok ==> Live(s, Kept(s) - 1))
      && UndoLast(s, Some(id)) == if any.ok && s.history[Kept(s) - 1].id == id then any else Outcome(s, false)
  {
    RunKeepsInv(Fresh(tables, version, limit), actions);
    hide Inv, Run;
    UndoTakes(Run(Fresh(tables, version, limit), actions));
    UndoIsExact(tables, version, limit, actions);
  }

  lemma NamedRedo(tables: State, version: nat, limit: nat, actions: seq<Action>, id: nat)
    ensures var s := Run(Fresh(tables, version, limit), actions);
      var any := RedoLast(s, None);
      && 0 <= Kept(s)
      && RedoLast(s, Some(id)) == if any.ok && s.history[Kept(s)].id == id then any else Outcome(s, false)
  {
    RunKeepsInv(Fresh(tables, version, limit), actions);
    var s := Run(Fresh(tables, version, limit), actions);
    hide Run;
    if s.redo != [] { RedoTakes(s); }
  }

  // ---------------------------------------------------------------- depth

  /** The records kept are in effect and lead, one by one, to the tables there are: number `n` of these. */
  ghost predicate Line(s: Service, all: seq<State>, n: nat) {
    && n < |all| && s.tables == all[n] && 0 <= Kept(s) <= n
    && forall i | 0 <= i < Kept(s) :: Live(s, i) && s.history[i].before == all[n - Kept(s) + i] && s.history[i].after == all[n - Kept(s) + i + 1]
  }

  lemma ApproveExtends(s: Service, all: seq<State>, after: State)
    requires Inv(s) && s.redo == [] && |all| > 0 && Line(s, all, |all| - 1)
    ensures var s' := Approve(s, after);
      s'.redo == [] && Line(s', all + [after], |all|) && |s'.history| == if |s.history| < s.limit then |s.history| + 1 else |s.history|
  {
    if s.limit > 0 {
      var shift := ApproveShape(s, after);
      var s', n := Approve(s, after), |all|;
      hide Approve, StampsOk, StatesOk, RedoOk;
      forall i | 0 <= i < Kept(s') ensures Live(s', i)
        ensures s'.history[i].before == (all + [after])[n - Kept(s') + i] && s'.history[i].after == (all + [after])[n - Kept(s') + i + 1]
      {
        if i < Kept(s') - 1 { assert Live(s, i + shift); }
      }
    }
  }

  /** The tables after each of the approvals. */
  function Results(actions: seq<Action>): (r: seq<State>)
    requires forall i | 0 <= i < |actions| :: actions[i].ApproveMutation?
    ensures |r| == |actions| && forall i | 0 <= i < |actions| :: r[i] == actions[i].after
  {
    seq(|actions|, i requires 0 <= i < |actions| => actions[i].after)
  }

  lemma {:induction false} ApprovalsLine(s: Service, all: seq<State>, actions: seq<Action>)
    requires forall i | 0 <= i < |actions| :: actions[i].ApproveMutation?
    requires Inv(s) && s.redo == [] && |all| > 0 && Line(s, all, |all| - 1)
    ensures var r, longer := Run(s, actions), all + Results(actions);
      && Inv(r) && Line(r, longer, |longer| - 1) && r.redo == []
      && |r.history| == if |s.history| + |actions| <= s.limit then |s.history| + |actions| else s.limit
    decreases |actions|
  {
    hide Approve, Line, StampsOk, StatesOk, RedoOk;
    if actions == [] {
      assert all + Results(actions) == all;
    } else {
      var after := actions[0].after;
      ApproveExtends(s, all, after);
      ApproveKeepsInv(s, after);
      ApproveLimit(s, after);
      ApprovalsLine(Approve(s, after), all + [after], actions[1..]);
      assert (all + [after]) + Results(actions[1..]) == all + Results(actions);
    }
  }

  lemma ApproveLimit(s: Service, after: State)
    ensures Approve(s, after).limit == s.limit
  {
  }

  lemma UndoSteps(s: Service, all: seq<State>, n: nat)
    requires Inv(s) && Line(s, all, n)
    ensures var r := UndoLast(s, None);
      && (r.ok <==> Kept(s) > 0)
      && (r.ok ==> n > 0 && Inv(r.service) && Line(r.service, all, n - 1) && Kept(r.service) == Kept(s) - 1)
  {
    hide Inv, UndoLast, Undone;
    UndoDecides(s);
    LineEnds(s, all, n);
    if UndoLast(s, None).ok {
      UndoShape(s, None);
      UndoKeepsInv(s, None);
      UndoneLine(s, UndoLast(s, None).service, all, n);
    }
  }

  lemma LineEnds(s: Service, all: seq<State>, n: nat)
    requires Line(s, all, n)
    ensures 0 <= Kept(s) <= n && (Live(s, Kept(s) - 1) <==> Kept(s) > 0)
  {
  }

  lemma UndoneLine(s: Service, s': Service, all: seq<State>, n: nat)
    requires Undone(s, s') && Line(s, all, n)
    ensures n > 0 && Line(s', all, n - 1) && Kept(s') == Kept(s) - 1
  {
    forall i | 0 <= i < Kept(s') ensures Live(s', i)
      ensures s'.history[i].before == all[n - 1 - Kept(s') + i] && s'.history[i].after == all[n - 1 - Kept(s') + i + 1]
    {
      assert Live(s, i);
    }
  }

  lemma LineStart(s: Service, all: seq<State>, n: nat)
    requires Line(s, all, n)
    ensures n < |all| && s.tables == all[n]
  {
  }

  lemma {:induction false} UndosReach(s: Service, all: seq<State>, n: nat, k: nat)
    requires Inv(s) && Line(s, all, n)
    ensures Kept(s) <= n < |all|
    ensures UndoTimes(s, k).ok <==> k <= Kept(s)
    ensures k <= Kept(s) ==> UndoTimes(s, k).service.tables == all[n - k]
    decreases k
  {
    hide Inv, UndoLast, Line;
    LineEnds(s, all, n);
    LineStart(s, all, n);
    if k > 0 {
      UndoSteps(s, all, n);
      if UndoLast(s, None).ok { UndosReach(UndoLast(s, None).service, all, n - 1, k - 1); }
    }
  }

  /** After any number of approvals, as many undos in a row go through as there were approvals, up to the limit of the
      history and no more; and they leave the tables that so many approvals fewer had left. */
  lemma UndoReachesBack(tables: State, version: nat, limit: nat, actions: seq<Action>, k: nat)
    requires forall i | 0 <= i < |actions| :: actions[i].ApproveMutation?
    ensures var s := Run(Fresh(tables, version, limit), actions);
      && (UndoTimes(s, k).ok <==> k <= |actions| && k <= limit)
      && (UndoTimes(s, k).ok ==> UndoTimes(s, k).service.tables == if k == |actions| then tables else actions[|actions| - k - 1].after)
  {
    var s0 := Fresh(tables, version, limit);
    FreshInv(tables, version, limit);
    assert Line(s0, [tables], 0) && s0.redo == [] && s0.history == [];
    hide Inv, Run, UndoTimes, Line, Fresh;
    ApprovalsLine(s0, [tables], actions);
    var longer := [tables] + Results(actions);
    UndosReach(Run(s0, actions), longer, |longer| - 1, k);
  }
}
