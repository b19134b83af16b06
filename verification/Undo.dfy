/** Approval, undo and redo (novadb/prompting.py): bounded histories of before and after snapshots, stamped
    with the versions at which they apply. */
module Undo {
  import opened Tables

  /** An executed mutation. `applied` is the version at which it may be undone, `undone` the one at which it
      may be redone; a record with an `undone` version is not in effect. */
  datatype Rec = Rec(id: nat, before: State, after: State, applied: nat, undone: Option<nat>)

  /** The engine's tables and version, the history, and the ids of the redo stack. */
  datatype Service = Service(tables: State, version: nat, history: seq<Rec>, redo: seq<nat>, limit: nat, nextId: nat)

  datatype Outcome = Outcome(service: Service, ok: bool)

  function Fresh(tables: State, version: nat, limit: nat): Service {
    Service(tables, version, [], [], limit, 0)
  }

  /** Appending to a bounded deque. */
  function Pushed<T>(items: seq<T>, item: T, limit: nat): seq<T> {
    if limit == 0 then [] else if |items| < limit then items + [item] else items[1..] + [item]
  }

  /** approve, of a mutation that leaves these tables. */
  function Approve(s: Service, after: State): Service {
    var v := s.version + 1;
    s.(tables := after, version := v, history := Pushed(s.history, Rec(s.nextId, s.tables, after, v, None), s.limit),
       redo := [], nextId := s.nextId + 1)
  }

  /** A commit that did not come through the service. */
  function Foreign(s: Service, after: State): Service {
    s.(tables := after, version := s.version + 1)
  }

  /** One past the last record in effect, or 0. */
  function LastLive(history: seq<Rec>): (i: nat)
    ensures i <= |history|
    ensures i > 0 ==> history[i - 1].undone.None?
    ensures forall j | i <= j < |history| :: history[j].undone.Some?
  {
    if history == [] then 0
    else if history[|history| - 1].undone.None? then |history|
    else LastLive(history[..|history| - 1])
  }

  /** The record at `i - 1` out of effect, its neighbour stamped. */
  function MarkedUndone(history: seq<Rec>, i: nat, v: nat): (h: seq<Rec>)
    requires 0 < i <= |history|
    ensures |h| == |history|
    ensures forall j | 0 <= j < |h| :: h[j] == history[j].(
      undone := if j == i - 1 then Some(v) else history[j].undone, applied := if j == i - 2 then v else history[j].applied)
  {
    var undone := history[i - 1 := history[i - 1].(undone := Some(v))];
    if i > 1 then undone[i - 2 := undone[i - 2].(applied := v)] else undone
  }

  /** The record at `i` in effect again, an undone neighbour stamped. */
  function MarkedRedone(history: seq<Rec>, i: nat, v: nat): (h: seq<Rec>)
    requires i < |history|
    ensures |h| == |history|
    ensures forall j | 0 <= j < |h| :: h[j] == history[j].(
      undone := if j == i then None else if j == i + 1 && history[j].undone.Some? then Some(v) else history[j].undone,
      applied := if j == i then v else history[j].applied)
  {
    var redone := history[i := history[i].(applied := v, undone := None)];
    if i + 1 < |redone| && redone[i + 1].undone.Some? then redone[i + 1 := redone[i + 1].(undone := Some(v))] else redone
  }

  /** undo: the last record in effect, if nothing was committed since its stamp; the record before it,
      whatever it is, is stamped with the new version. */
  function UndoLast(s: Service, wanted: Option<nat>): Outcome {
    var i := LastLive(s.history);
    if i == 0 then Outcome(s, false)
    else
      var r := s.history[i - 1];
      if (wanted.Some? && wanted.value != r.id) || s.version != r.applied then Outcome(s, false)
      else
        Outcome(s.(tables := r.before, version := s.version + 1, redo := Pushed(s.redo, r.id, s.limit),
                   history := MarkedUndone(s.history, i, s.version + 1)), true)
  }

  function IndexOf(history: seq<Rec>, id: nat): (i: nat)
    ensures i <= |history|
    ensures i < |history| ==> history[i].id == id
    ensures i == |history| ==> forall j | 0 <= j < |history| :: history[j].id != id
  {
    if history == [] || history[0].id == id then 0 else 1 + IndexOf(history[1..], id)
  }

  /** redo: the last record undone, if nothing was committed since; the record after it, if it is undone,
      is stamped with the new version. */
  function RedoLast(s: Service, wanted: Option<nat>): Outcome {
    if s.redo == [] then Outcome(s, false)
    else
      var id := s.redo[|s.redo| - 1];
      var i := IndexOf(s.history, id);
      if i == |s.history| || (wanted.Some? && wanted.value != id) then Outcome(s, false)
      else
        var r := s.history[i];
        if r.undone.None? || s.version != r.undone.value then Outcome(s, false)
        else
          Outcome(s.(tables := r.after, version := s.version + 1, redo := s.redo[..|s.redo| - 1],
                     history := MarkedRedone(s.history, i, s.version + 1)), true)
  }

  // ---------------------------------------------------------------- invariant

  /** How much of the history is not waiting on the redo stack. */
  function Kept(s: Service): int {
    |s.history| - |s.redo|
  }

  ghost predicate Live(s: Service, i: int)
  {
    0 <= i < |s.history| && s.history[i].undone.None?
  }

  ghost predicate IdsOk(s: Service) {
    && (forall i | 0 <= i < |s.history| :: s.history[i].id < s.nextId)
    && (forall i, j | 0 <= i < j < |s.history| :: s.history[i].id != s.history[j].id)
    && |s.history| <= s.limit
  }

  /** The redo stack is the end of the history, backwards. */
  ghost predicate RedoOk(s: Service) {
    && 0 <= Kept(s)
    && (forall j | 0 <= j < |s.redo| :: s.redo[j] == s.history[|s.history| - 1 - j].id)
    && (forall i | Kept(s) <= i < |s.history| :: s.history[i].undone.Some?)
    && (s.redo != [] ==> s.history[Kept(s)].undone == Some(s.version))
    && (s.redo == [] && s.history != [] ==> Live(s, |s.history| - 1))
  }

  /** Older records in effect carry older stamps; the newest carries the present version. */
  ghost predicate StampsOk(s: Service) {
    && (forall i | 0 <= i < |s.history| && Live(s, i) && i + 1 != Kept(s) :: s.history[i].applied < s.version)
    && (Live(s, Kept(s) - 1) ==> s.history[Kept(s) - 1].applied == s.version)
  }

  /** The tables are those between the records kept and those to redo; neighbouring records fit together. */
  ghost predicate StatesOk(s: Service) {
    && (s.redo != [] && 0 <= Kept(s) ==> s.history[Kept(s)].before == s.tables)
    && (Live(s, Kept(s) - 1) ==> s.history[Kept(s) - 1].after == s.tables)
    && (forall i | 0 <= i < |s.history| - 1 && (i >= Kept(s) || (Live(s, i) && Live(s, i + 1))) :: s.history[i].after == s.history[i + 1].before)
  }

  ghost predicate Inv(s: Service) {
    IdsOk(s) && RedoOk(s) && StampsOk(s) && StatesOk(s)
  }

  // ---------------------------------------------------------------- approvals

  /** The new record, after all old ones or all but the oldest. */
  ghost predicate Approved(s: Service, s': Service, after: State, shift: nat) {
    && s'.tables == after && s'.version == s.version + 1 && s'.redo == [] && s'.limit == s.limit && s'.nextId == s.nextId + 1
    && shift <= 1 && 1 <= |s'.history| == |s.history| + 1 - shift <= s.limit
    && (forall i | 0 <= i < |s'.history| - 1 :: s'.history[i] == s.history[i + shift])
    && s'.history[|s'.history| - 1] == Rec(s.nextId, s.tables, after, s'.version, None)
  }

  lemma ApproveShape(s: Service, after: State) returns (shift: nat)
    requires |s.history| <= s.limit && s.limit > 0
    ensures Approved(s, Approve(s, after), after, shift)
  {
    shift := if |s.history| < s.limit then 0 else 1;
  }

  lemma ApprovedIds(s: Service, s': Service, after: State, shift: nat)
    requires Approved(s, s', after, shift) && IdsOk(s)
    ensures IdsOk(s')
  {
  }

  lemma ApprovedStamps(s: Service, s': Service, after: State, shift: nat)
    requires Approved(s, s', after, shift) && StampsOk(s)
    ensures StampsOk(s')
  {
    forall i | 0 <= i < |s'.history| - 1 && Live(s', i) ensures s'.history[i].applied < s'.version {
      assert Live(s, i + shift);
    }
  }

  lemma ApprovedStates(s: Service, s': Service, after: State, shift: nat)
    requires Approved(s, s', after, shift) && StatesOk(s) && RedoOk(s)
    ensures StatesOk(s')
  {
    forall i | 0 <= i < |s'.history| - 1 && Live(s', i) && Live(s', i + 1) ensures s'.history[i].after == s'.history[i + 1].before {
      assert Live(s, i + shift);
      if i + 1 < |s'.history| - 1 {
        assert Live(s, i + 1 + shift);
      } else {
        assert i + shift == |s.history| - 1;
      }
    }
  }

  lemma ApproveKeepsInv(s: Service, after: State)
    requires Inv(s)
    ensures Inv(Approve(s, after))
  {
    if s.limit > 0 {
      var shift := ApproveShape(s, after);
      hide Approve, IdsOk, StampsOk, StatesOk;
      var s' := Approve(s, after);
      ApprovedIds(s, s', after, shift);
      ApprovedStamps(s, s', after, shift);
      ApprovedStates(s, s', after, shift);
    }
  }

  // ---------------------------------------------------------------- undos

  /** Where the record before the redo stack is in effect, it is the one an undo takes. */
  lemma UndoTakes(s: Service)
    requires Inv(s)
    ensures Live(s, Kept(s) - 1) ==> LastLive(s.history) == Kept(s)
    ensures !Live(s, Kept(s) - 1) ==> LastLive(s.history) == 0 || s.history[LastLive(s.history) - 1].applied < s.version
  {
    var i := LastLive(s.history);
    assert i > 0 ==> Live(s, i - 1);
  }

  /** The record before the redo stack is out of effect, and on the stack. */
  ghost predicate Undone(s: Service, s': Service) {
    var k := Kept(s);
    && Live(s, k - 1) && s'.tables == s.history[k - 1].before && s'.version == s.version + 1
    && s'.redo == s.redo + [s.history[k - 1].id] && s'.limit == s.limit && s'.nextId == s.nextId && |s'.history| == |s.history|
    && forall i | 0 <= i < |s.history| :: s'.history[i] == s.history[i].(
         undone := if i == k - 1 then Some(s'.version) else s.history[i].undone,
         applied := if i == k - 2 then s'.version else s.history[i].applied)
  }

  lemma UndoShape(s: Service, wanted: Option<nat>)
    requires Inv(s) && UndoLast(s, wanted).ok
    ensures Undone(s, UndoLast(s, wanted).service)
  {
    UndoTakes(s);
    assert |s.redo| < |s.history| <= s.limit;
  }

  lemma UndoneRedo(s: Service, s': Service)
    requires Undone(s, s') && RedoOk(s)
    ensures RedoOk(s')
  {
    var k, n := Kept(s), |s.history|;
    forall j | 0 <= j < |s'.redo| ensures s'.redo[j] == s'.history[n - 1 - j].id {
      assert j < |s.redo| ==> s.redo[j] == s.history[n - 1 - j].id;
    }
  }

  lemma UndoneStamps(s: Service, s': Service)
    requires Undone(s, s') && StampsOk(s)
    ensures StampsOk(s')
  {
    forall i | 0 <= i < |s'.history| && Live(s', i) ensures Live(s, i) {
    }
  }

  lemma UndoneStates(s: Service, s': Service)
    requires Undone(s, s') && StatesOk(s)
    ensures StatesOk(s')
  {
    var k := Kept(s);
    forall i | 0 <= i < |s'.history| && Live(s', i) ensures Live(s, i) && i != k - 1 {
    }
  }

  lemma UndoKeepsInv(s: Service, wanted: Option<nat>)
    requires Inv(s)
    ensures Inv(UndoLast(s, wanted).service)
  {
    if UndoLast(s, wanted).ok {
      UndoShape(s, wanted);
      hide UndoLast, RedoOk, StampsOk, StatesOk;
      var s' := UndoLast(s, wanted).service;
      UndoneRedo(s, s');
      UndoneStamps(s, s');
      UndoneStates(s, s');
    }
  }

  // ---------------------------------------------------------------- redos

  lemma {:induction false} IndexIs(history: seq<Rec>, k: nat)
    requires k < |history| && forall i, j | 0 <= i < j < |history| :: history[i].id != history[j].id
    ensures IndexOf(history, history[k].id) == k
  {
    if k > 0 { IndexIs(history[1..], k - 1); }
  }

  lemma RedoTakes(s: Service)
    requires IdsOk(s) && RedoOk(s) && s.redo != []
    ensures IndexOf(s.history, s.redo[|s.redo| - 1]) == Kept(s) < |s.history|
  {
    assert s.history[Kept(s)].id == s.redo[|s.redo| - 1];
    IndexIs(s.history, Kept(s));
  }

  /** The record on top of the redo stack is in effect again, and off the stack. */
  ghost predicate Redone(s: Service, s': Service) {
    var k := Kept(s);
    && 0 <= k < |s.history| && s'.tables == s.history[k].after && s'.version == s.version + 1
    && s.redo != [] && s'.redo == s.redo[..|s.redo| - 1] && s'.limit == s.limit && s'.nextId == s.nextId && |s'.history| == |s.history|
    && forall i | 0 <= i < |s.history| :: s'.history[i] == s.history[i].(
         undone := if i == k then None else if i == k + 1 then Some(s'.version) else s.history[i].undone,
         applied := if i == k then s'.version else s.history[i].applied)
  }

  lemma RedoShape(s: Service, wanted: Option<nat>)
    requires Inv(s) && RedoLast(s, wanted).ok
    ensures Redone(s, RedoLast(s, wanted).service)
  {
    RedoTakes(s);
  }

  lemma RedoneRedo(s: Service, s': Service)
    requires Redone(s, s') && RedoOk(s)
    ensures RedoOk(s')
  {
  }

  lemma RedoneStamps(s: Service, s': Service)
    requires Redone(s, s') && StampsOk(s) && RedoOk(s)
    ensures StampsOk(s')
  {
    forall i | 0 <= i < |s'.history| && Live(s', i) && i != Kept(s) ensures Live(s, i) {
    }
  }

  lemma RedoneStates(s: Service, s': Service)
    requires Redone(s, s') && StatesOk(s) && RedoOk(s)
    ensures StatesOk(s')
  {
    var k := Kept(s);
    forall i | 0 <= i < |s'.history| && Live(s', i) && i != k ensures Live(s, i) {
    }
    forall i | 0 <= i < |s'.history| - 1 && (i >= k + 1 || (Live(s', i) && Live(s', i + 1)))
      ensures s'.history[i].after == s'.history[i + 1].before
    {
      if i == k - 1 {
        assert Live(s, k - 1);
      }
    }
  }

  lemma RedoKeepsInv(s: Service, wanted: Option<nat>)
    requires Inv(s)
    ensures Inv(RedoLast(s, wanted).service)
  {
    if RedoLast(s, wanted).ok {
      RedoShape(s, wanted);
      hide RedoLast, RedoOk, StampsOk, StatesOk;
      var s' := RedoLast(s, wanted).service;
      RedoneRedo(s, s');
      RedoneStamps(s, s');
      RedoneStates(s, s');
    }
  }

  // ---------------------------------------------------------------- runs

  datatype Action = ApproveMutation(after: State) | UndoAny(wanted: Option<nat>) | RedoAny(wanted: Option<nat>)

  function Next(s: Service, action: Action): Service {
    match action
    case ApproveMutation(after) => Approve(s, after)
    case UndoAny(wanted) => UndoLast(s, wanted).service
    case RedoAny(wanted) => RedoLast(s, wanted).service
  }

  function Run(s: Service, actions: seq<Action>): Service
    decreases |actions|
  {
    if actions == [] then s else Run(Next(s, actions[0]), actions[1..])
  }

  lemma {:induction false} RunKeepsInv(s: Service, actions: seq<Action>)
    requires Inv(s)
    ensures Inv(Run(s, actions)) && Run(s, actions).limit == s.limit
    decreases |actions|
  {
    if actions != [] {
      match actions[0] {
        case ApproveMutation(after) => ApproveKeepsInv(s, after);
        case UndoAny(wanted) => UndoKeepsInv(s, wanted);
        case RedoAny(wanted) => RedoKeepsInv(s, wanted);
      }
      RunKeepsInv(Next(s, actions[0]), actions[1..]);
    }
  }

  // ---------------------------------------------------------------- main results

  /** In any run of approvals, undos and redos, an undo goes through exactly when the newest record not waiting
      to be redone is in effect; it then starts from the tables that mutation produced and leaves those it
      started from. Otherwise nothing changes. */
  lemma UndoIsExact(tables: State, version: nat, limit: nat, actions: seq<Action>)
    ensures var s := Run(Fresh(tables, version, limit), actions);
      var r := UndoLast(s, None);
      && (r.ok <==> Live(s, Kept(s) - 1))
      && (r.ok ==> s.tables == s.history[Kept(s) - 1].after && r.service.tables == s.history[Kept(s) - 1].before && r.service.version == s.version + 1)
      && (!r.ok ==> r.service == s)
  {
    RunKeepsInv(Fresh(tables, version, limit), actions);
    UndoTakes(Run(Fresh(tables, version, limit), actions));
  }

  /** A redo goes through whenever something is undone, and puts back what the undone mutation produced. */
  lemma RedoIsExact(tables: State, version: nat, limit: nat, actions: seq<Action>)
    ensures var s := Run(Fresh(tables, version, limit), actions);
      var r := RedoLast(s, None);
      && 0 <= Kept(s) && (r.ok <==> s.redo != [])
      && (r.ok ==> s.tables == s.history[Kept(s)].before && r.service.tables == s.history[Kept(s)].after && r.service.version == s.version + 1)
      && (!r.ok ==> r.service == s)
  {
    RunKeepsInv(Fresh(tables, version, limit), actions);
    var s := Run(Fresh(tables, version, limit), actions);
    if s.redo != [] { RedoTakes(s); }
  }

  function UndoTimes(s: Service, n: nat): Outcome
    decreases n
  {
    if n == 0 then Outcome(s, true)
    else
      var first := UndoLast(s, None);
      var rest := UndoTimes(first.service, n - 1);
      Outcome(rest.service, first.ok && rest.ok)
  }

  function RedoTimes(s: Service, n: nat): Outcome
    decreases n
  {
    if n == 0 then Outcome(s, true)
    else
      var before := RedoTimes(s, n - 1);
      var last := RedoLast(before.service, None);
      Outcome(last.service, before.ok && last.ok)
  }

  /** The same record but for its stamps. */
  ghost predicate SameRec(a: Rec, b: Rec) {
    a.id == b.id && a.before == b.before && a.after == b.after && a.undone.None? == b.undone.None?
  }

  /** The same records in effect and the same records to redo, whatever their stamps. */
  ghost predicate Alike(a: Service, b: Service) {
    && a.tables == b.tables && a.redo == b.redo && |a.history| == |b.history| && a.limit == b.limit
    && forall i | 0 <= i < |a.history| :: SameRec(a.history[i], b.history[i])
  }

  lemma RedoGoesThrough(t: Service)
    requires Inv(t) && t.redo != []
    ensures RedoLast(t, None).ok
  {
    RedoTakes(t);
  }

  lemma RedoUndoes(s: Service, t: Service)
    requires Inv(s) && UndoLast(s, None).ok && Inv(t) && Alike(UndoLast(s, None).service, t)
    ensures RedoLast(t, None).ok && Alike(s, RedoLast(t, None).service) && RedoLast(t, None).service.version == t.version + 1
  {
    UndoShape(s, None);
    var u := UndoLast(s, None).service;
    RedoGoesThrough(t);
    RedoShape(t, None);
    var t' := RedoLast(t, None).service;
    UndoneThenRedone(s, u, t, t');
  }

  lemma UndoneThenRedone(s: Service, u: Service, t: Service, t': Service)
    requires RedoOk(s) && StatesOk(s) && Undone(s, u) && Alike(u, t) && Redone(t, t')
    ensures Alike(s, t')
  {
    hide RedoOk, StatesOk;
    SameKept(s, u, t);
    KeptStates(s);
    assert t'.redo == s.redo;
    forall i | 0 <= i < |s.history| ensures SameRec(s.history[i], t'.history[i]) {
      assert SameRec(u.history[i], t.history[i]);
    }
    assert SameRec(u.history[Kept(t)], t.history[Kept(t)]);
  }

  lemma SameKept(s: Service, u: Service, t: Service)
    requires Undone(s, u) && Alike(u, t)
    ensures Kept(t) == Kept(s) - 1
  {
  }

  lemma KeptStates(s: Service)
    requires RedoOk(s) && StatesOk(s) && Live(s, Kept(s) - 1)
    ensures s.history[Kept(s) - 1].after == s.tables
    ensures forall i | Kept(s) <= i < |s.history| :: s.history[i].undone.Some?
  {
  }

  lemma UndoFirst(s: Service, n: nat)
    requires n > 0 && UndoTimes(s, n).ok
    ensures var u := UndoLast(s, None);
      u.ok && u.service.version == s.version + 1 && UndoTimes(u.service, n - 1).ok && UndoTimes(u.service, n - 1).service == UndoTimes(s, n).service
  {
  }

  /** One more redo, of what the first undo undid. */
  lemma OneMoreRedo(s: Service, t: Service, n: nat)
    requires n > 0 && Inv(s) && UndoLast(s, None).ok && RedoTimes(t, n - 1).ok
    requires Inv(RedoTimes(t, n - 1).service) && Alike(UndoLast(s, None).service, RedoTimes(t, n - 1).service)
    ensures var b, b' := RedoTimes(t, n - 1).service, RedoTimes(t, n).service;
      RedoTimes(t, n).ok && Inv(b') && Alike(s, b') && b'.version == b.version + 1
  {
    hide Inv, Alike, UndoLast, RedoLast;
    RedoUndoes(s, RedoTimes(t, n - 1).service);
    RedoKeepsInv(RedoTimes(t, n - 1).service, None);
  }

  lemma NoUndos(s: Service)
    ensures UndoTimes(s, 0).service == s && RedoTimes(s, 0) == Outcome(s, true) && Alike(s, s)
  {
    AlikeSelf(s);
  }

  lemma {:induction false} UndosThenRedos(s: Service, n: nat)
    requires Inv(s) && UndoTimes(s, n).ok
    ensures var t := RedoTimes(UndoTimes(s, n).service, n);
      t.ok && Inv(t.service) && Alike(s, t.service) && t.service.version == s.version + 2 * n
    decreases n
  {
    hide Inv, Alike, UndoLast, RedoTimes, UndoTimes;
    if n > 0 {
      var first := UndoLast(s, None).service;
      UndoFirst(s, n);
      UndoKeepsInv(s, None);
      UndosThenRedos(first, n - 1);
      OneMoreRedo(s, UndoTimes(s, n).service, n);
    } else {
      NoUndos(s);
    }
  }

  lemma AlikeSelf(s: Service)
    ensures Alike(s, s)
  {
  }

  /** However many undos went through, as many redos go through, and leave the same tables, the same records in
      effect and to redo, and a version higher by one for each. */
  lemma UndoRedoRoundTrip(tables: State, version: nat, limit: nat, actions: seq<Action>, n: nat)
    requires UndoTimes(Run(Fresh(tables, version, limit), actions), n).ok
    ensures var s := Run(Fresh(tables, version, limit), actions);
      var t := RedoTimes(UndoTimes(s, n).service, n);
      t.ok && t.service.tables == s.tables && Alike(s, t.service) && t.service.version == s.version + 2 * n
  {
    RunKeepsInv(Fresh(tables, version, limit), actions);
    UndosThenRedos(Run(Fresh(tables, version, limit), actions), n);
  }

  /** A new mutation after an undo ends the line: it can itself be undone, and then nothing before it can,
      whatever is still in effect. */
  lemma BranchEndsUndo(tables: State, version: nat, limit: nat, actions: seq<Action>, after: State)
    requires Run(Fresh(tables, version, limit), actions).redo != []
    ensures var s := Approve(Run(Fresh(tables, version, limit), actions), after);
      UndoLast(s, None).ok && !UndoLast(UndoLast(s, None).service, None).ok
  {
    var s0 := Run(Fresh(tables, version, limit), actions);
    RunKeepsInv(Fresh(tables, version, limit), actions);
    hide Inv, UndoLast, Undone;
    OverNewBranch(s0, after);
  }

  lemma OverNewBranch(s0: Service, after: State)
    requires Inv(s0) && s0.redo != []
    ensures var s := Approve(s0, after); UndoLast(s, None).ok && !UndoLast(UndoLast(s, None).service, None).ok
  {
    var s := Approve(s0, after);
    ApproveKeepsInv(s0, after);
    var shift := ApproveShape(s0, after);
    hide Approve, IdsOk, StampsOk, StatesOk;
    assert Live(s, Kept(s) - 1);
    UndoDecides(s);
    UndoShape(s, None);
    UndoKeepsInv(s, None);
    var t := UndoLast(s, None).service;
    OverBranch(s0, s, after, shift, t);
    UndoDecides(t);
  }

  lemma UndoDecides(s: Service)
    requires Inv(s)
    ensures UndoLast(s, None).ok <==> Live(s, Kept(s) - 1)
  {
    UndoTakes(s);
  }

  lemma OverBranch(s0: Service, s: Service, after: State, shift: nat, t: Service)
    requires RedoOk(s0) && s0.redo != [] && Approved(s0, s, after, shift) && Undone(s, t)
    ensures !Live(t, Kept(t) - 1)
  {
    var n := |s.history| - 1;
    assert n > 0 ==> s.history[n - 1] == s0.history[|s0.history| - 1];
  }

  /** A commit that does not come through the service, between two approvals: both undos still go through, because
      the first stamps its neighbour. The second starts from what the first mutation produced exactly when the
      foreign commit changed nothing; if it changed something, that is lost. */
  lemma ForeignCommitLostIff(tables: State, version: nat, limit: nat, actions: seq<Action>, foreign: State, after: State)
    requires limit >= 2
    requires var s := Run(Fresh(tables, version, limit), actions); s.redo == [] && s.history != []
    ensures var s := Run(Fresh(tables, version, limit), actions);
      var first := UndoLast(Approve(Foreign(s, foreign), after), None);
      var second := UndoLast(first.service, None);
      var a := s.history[|s.history| - 1];
      && first.ok && first.service.tables == foreign && second.ok && second.service.tables == a.before
      && (first.service.tables == a.after <==> foreign == s.tables)
  {
    hide Inv, UndoLast, Approve, Foreign;
    FreshInv(tables, version, limit);
    RunKeepsInv(Fresh(tables, version, limit), actions);
    hide Run;
    TwoUndos(Run(Fresh(tables, version, limit), actions), foreign, after);
  }

  lemma FreshInv(tables: State, version: nat, limit: nat)
    ensures Inv(Fresh(tables, version, limit)) && Fresh(tables, version, limit).limit == limit
  {
  }

  lemma TwoUndos(s: Service, foreign: State, after: State)
    requires Inv(s) && s.limit >= 2 && s.redo == [] && s.history != []
    ensures var first := UndoLast(Approve(Foreign(s, foreign), after), None);
      var second := UndoLast(first.service, None);
      var a := s.history[|s.history| - 1];
      first.ok && first.service.tables == foreign && second.ok && second.service.tables == a.before && a.after == s.tables
  {
    var b := Approve(Foreign(s, foreign), after);
    var n := |b.history| - 1;
    assert Live(s, Kept(s) - 1);
    assert n >= 1 && b.history[n - 1] == s.history[|s.history| - 1] && b.history[n] == Rec(s.nextId, foreign, after, b.version, None);
    UndoNewest(b);
    var t := UndoLast(b, None).service;
    SecondLive(t.history);
  }

  /** Undoing the newest record, just approved. */
  lemma UndoNewest(b: Service)
    requires |b.history| >= 2 && b.history[|b.history| - 1].undone.None? && b.history[|b.history| - 1].applied == b.version
    requires b.history[|b.history| - 2].undone.None?
    ensures var n := |b.history| - 1;
      var r := UndoLast(b, None);
      && r.ok && r.service.tables == b.history[n].before && r.service.version == b.version + 1 && |r.service.history| == n + 1
      && r.service.history[n].undone.Some? && r.service.history[n - 1] == b.history[n - 1].(applied := b.version + 1)
  {
    LastIsLive(b.history);
  }

  lemma SecondLive(history: seq<Rec>)
    requires |history| >= 2 && history[|history| - 1].undone.Some? && history[|history| - 2].undone.None?
    ensures LastLive(history) == |history| - 1
  {
    LastIsLive(history[..|history| - 1]);
  }

  lemma LastIsLive(history: seq<Rec>)
    requires history != [] && history[|history| - 1].undone.None?
    ensures LastLive(history) == |history|
  {
  }
}
