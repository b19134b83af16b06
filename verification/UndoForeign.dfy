/** Undo and redo when other callers commit to the same engine (novadb/prompting.py): over runs in which such
    commits may come anywhere, when an undo or a redo goes through, and from which tables. */
module UndoForeign {
  import opened Tables
  import opened Undo

  /** A call of the service, or a commit that does not come through it. */
  datatype Event = Call(action: Action) | Elsewhere(after: State)

  /** What last moved the engine. */
  datatype Cause = Nothing | Approval | Undoing | Redoing | Outside

  /** The service, what last moved its engine, and the mutations approved right after a commit made elsewhere. */
  datatype Watched = Watched(service: Service, cause: Cause, strange: set<nat>)

  function CauseOf(action: Action): Cause {
    match action
    case ApproveMutation(_) => Approval
    case UndoAny(_) => Undoing
    case RedoAny(_) => Redoing
  }

  function Observe(w: Watched, event: Event): Watched {
    match event
    case Elsewhere(after) => Watched(Foreign(w.service, after), Outside, w.strange)
    case Call(action) =>
      var s := Next(w.service, action);
      Watched(s, if s.version == w.service.version then w.cause else CauseOf(action),
              if action.ApproveMutation? && w.cause.Outside? then w.strange + {w.service.nextId} else w.strange)
  }

  function ObserveAll(w: Watched, events: seq<Event>): Watched
    decreases |events|
  {
    if events == [] then w else ObserveAll(Observe(w, events[0]), events[1..])
  }

  function Unwatched(tables: State, version: nat, limit: nat): Watched {
    Watched(Fresh(tables, version, limit), Nothing, {})
  }

  // ---------------------------------------------------------------- invariant

  /** The redo stack is the end of the history, backwards; its top may be redone unless the engine moved outside. */
  ghost predicate StackOk(s: Service, outside: bool) {
    && 0 <= Kept(s)
    && (forall j | 0 <= j < |s.redo| :: s.redo[j] == s.history[|s.history| - 1 - j].id)
    && (forall i | Kept(s) <= i < |s.history| :: s.history[i].undone.Some?)
    && (s.redo != [] ==> var v := s.history[Kept(s)].undone.value; v <= s.version && (v == s.version <==> !outside))
    && (s.redo == [] && s.history != [] ==> Live(s, |s.history| - 1))
  }

  ghost predicate StampedOk(s: Service, outside: bool) {
    && (forall i | 0 <= i < |s.history| && Live(s, i) && i + 1 != Kept(s) :: s.history[i].applied < s.version)
    && (Live(s, Kept(s) - 1) ==> var v := s.history[Kept(s) - 1].applied; v <= s.version && (v == s.version <==> !outside))
  }

  /** The tables are those that the last call left. */
  ghost predicate CauseOk(s: Service, cause: Cause) {
    match cause
    case Nothing => s.history == []
    case Approval => s.redo == [] && (s.history != [] ==> s.tables == s.history[|s.history| - 1].after)
    case Undoing => s.redo != [] && 0 <= Kept(s) && s.tables == s.history[Kept(s)].before
    case Redoing => Live(s, Kept(s) - 1) && s.tables == s.history[Kept(s) - 1].after
    case Outside => true
  }

  /** Neighbours in effect, neighbours waiting to be redone, and the two on either side of the line between. */
  ghost predicate Adjacent(s: Service, i: int) {
    0 <= i < |s.history| - 1 && (i >= Kept(s) || (Live(s, i) && (i + 1 == Kept(s) || Live(s, i + 1))))
  }

  /** They fit together unless the second was approved right after a commit made elsewhere. */
  ghost predicate ChainOk(s: Service, strange: set<nat>) {
    && (forall i | Adjacent(s, i) && s.history[i + 1].id !in strange :: s.history[i].after == s.history[i + 1].before)
    && forall id | id in strange :: id < s.nextId
  }

  ghost predicate WatchedOk(w: Watched) {
    && IdsOk(w.service) && StackOk(w.service, w.cause.Outside?) && StampedOk(w.service, w.cause.Outside?)
    && CauseOk(w.service, w.cause) && ChainOk(w.service, w.strange)
  }

  // ---------------------------------------------------------------- commits made elsewhere

  lemma ForeignKeepsOk(w: Watched, after: State)
    requires WatchedOk(w)
    ensures WatchedOk(Observe(w, Elsewhere(after)))
  {
    var s, s' := w.service, Foreign(w.service, after);
    assert Kept(s') == Kept(s) && forall i :: Live(s', i) <==> Live(s, i);
    ForeignKeepsChain(s, after, w.strange);
    hide ChainOk;
  }

  lemma ForeignKeepsChain(s: Service, after: State, strange: set<nat>)
    requires ChainOk(s, strange)
    ensures ChainOk(Foreign(s, after), strange)
  {
    forall i ensures Adjacent(Foreign(s, after), i) <==> Adjacent(s, i) {
      assert Live(Foreign(s, after), i) <==> Live(s, i);
      assert Live(Foreign(s, after), i + 1) <==> Live(s, i + 1);
    }
  }

  // ---------------------------------------------------------------- approvals

  lemma NothingHeld(w: Watched, after: State)
    requires WatchedOk(w) && w.service.limit == 0
    ensures WatchedOk(Observe(w, Call(ApproveMutation(after))))
  {
  }

  lemma ApprovedStamped(s: Service, s': Service, after: State, shift: nat, outside: bool)
    requires Approved(s, s', after, shift) && StampedOk(s, outside)
    ensures StampedOk(s', false)
  {
    forall i | 0 <= i < |s'.history| - 1 && Live(s', i) ensures s'.history[i].applied < s'.version {
      assert Live(s, i + shift);
    }
  }

  lemma ApprovedChain(w: Watched, s': Service, after: State, shift: nat)
    requires WatchedOk(w) && Approved(w.service, s', after, shift)
    ensures ChainOk(s', if w.cause.Outside? then w.strange + {w.service.nextId} else w.strange)
  {
    hide StampedOk, IdsOk;
    var s := w.service;
    var strange := if w.cause.Outside? then w.strange + {s.nextId} else w.strange;
    forall i | Adjacent(s', i) && s'.history[i + 1].id !in strange ensures s'.history[i].after == s'.history[i + 1].before {
      assert Live(s', i) && Live(s, i + shift);
      if i + 1 < |s'.history| - 1 {
        assert Live(s, i + 1 + shift) && Adjacent(s, i + shift);
      } else {
        assert i + shift == |s.history| - 1;
        assert s.redo == [];
      }
    }
  }

  lemma ApproveKeepsOk(w: Watched, after: State)
    requires WatchedOk(w)
    ensures WatchedOk(Observe(w, Call(ApproveMutation(after))))
  {
    var s := w.service;
    if s.limit == 0 {
      NothingHeld(w, after);
    } else {
      var shift := ApproveShape(s, after);
      hide Approve, IdsOk, StampedOk, ChainOk;
      var s' := Approve(s, after);
      ApprovedIds(s, s', after, shift);
      ApprovedStamped(s, s', after, shift, w.cause.Outside?);
      ApprovedChain(w, s', after, shift);
    }
  }

  // ---------------------------------------------------------------- undos

  /** An undo takes the record before the redo stack, if that is in effect and the engine did not move outside. */
  lemma UndoDecidesIff(w: Watched)
    requires WatchedOk(w)
    ensures UndoLast(w.service, None).ok <==> Live(w.service, Kept(w.service) - 1) && !w.cause.Outside?
    ensures UndoLast(w.service, None).ok ==> LastLive(w.service.history) == Kept(w.service)
  {
    hide IdsOk, ChainOk, CauseOk;
    var i := LastLive(w.service.history);
    assert i > 0 ==> Live(w.service, i - 1);
  }

  lemma WantedUndo(s: Service, wanted: Option<nat>)
    ensures UndoLast(s, wanted).ok ==> UndoLast(s, None) == UndoLast(s, wanted)
    ensures !UndoLast(s, wanted).ok ==> UndoLast(s, wanted).service == s
  {
  }

  lemma UndoneShape(w: Watched)
    requires WatchedOk(w) && UndoLast(w.service, None).ok
    ensures Undone(w.service, UndoLast(w.service, None).service)
  {
    UndoDecidesIff(w);
    hide ChainOk, StampedOk, CauseOk;
    assert |w.service.redo| < |w.service.history| <= w.service.limit;
  }

  lemma UndoneStack(s: Service, s': Service)
    requires Undone(s, s') && StackOk(s, false)
    ensures StackOk(s', false)
  {
    var k, n := Kept(s), |s.history|;
    forall j | 0 <= j < |s'.redo| ensures s'.redo[j] == s'.history[n - 1 - j].id {
      assert j < |s.redo| ==> s.redo[j] == s.history[n - 1 - j].id;
    }
  }

  lemma UndoneStamped(s: Service, s': Service)
    requires Undone(s, s') && StampedOk(s, false)
    ensures StampedOk(s', false)
  {
    forall i | 0 <= i < |s'.history| && Live(s', i) ensures Live(s, i) {
    }
  }

  lemma UndoneChain(s: Service, s': Service, strange: set<nat>)
    requires Undone(s, s') && ChainOk(s, strange)
    ensures ChainOk(s', strange)
  {
    forall i | Adjacent(s', i) ensures Adjacent(s, i) {
      assert Live(s', i) ==> Live(s, i);
      assert Live(s', i + 1) ==> Live(s, i + 1);
    }
  }

  lemma UndoKeepsOk(w: Watched, wanted: Option<nat>)
    requires WatchedOk(w)
    ensures WatchedOk(Observe(w, Call(UndoAny(wanted))))
  {
    WantedUndo(w.service, wanted);
    if UndoLast(w.service, wanted).ok {
      UndoDecidesIff(w);
      UndoneShape(w);
      hide UndoLast, StackOk, StampedOk, ChainOk;
      var s' := UndoLast(w.service, None).service;
      UndoneStack(w.service, s');
      UndoneStamped(w.service, s');
      UndoneChain(w.service, s', w.strange);
    }
  }

  // ---------------------------------------------------------------- redos

  lemma RedoDecidesIff(w: Watched)
    requires WatchedOk(w)
    ensures RedoLast(w.service, None).ok <==> w.service.redo != [] && !w.cause.Outside?
    ensures RedoLast(w.service, None).ok ==> Redone(w.service, RedoLast(w.service, None).service)
  {
    hide ChainOk, StampedOk, CauseOk;
    var s := w.service;
    if s.redo != [] {
      assert s.history[Kept(s)].id == s.redo[|s.redo| - 1];
      IndexIs(s.history, Kept(s));
    }
  }

  lemma WantedRedo(s: Service, wanted: Option<nat>)
    ensures RedoLast(s, wanted).ok ==> RedoLast(s, None) == RedoLast(s, wanted)
    ensures !RedoLast(s, wanted).ok ==> RedoLast(s, wanted).service == s
  {
  }

  lemma RedoneIds(s: Service, s': Service)
    requires Redone(s, s') && IdsOk(s)
    ensures IdsOk(s')
  {
  }

  lemma RedoneStack(s: Service, s': Service)
    requires Redone(s, s') && StackOk(s, false)
    ensures StackOk(s', false)
  {
  }

  lemma RedoneStamped(s: Service, s': Service)
    requires Redone(s, s') && StampedOk(s, false) && StackOk(s, false)
    ensures StampedOk(s', false)
  {
    forall i | 0 <= i < |s'.history| && Live(s', i) && i != Kept(s) ensures Live(s, i) {
    }
  }

  lemma RedoneChain(s: Service, s': Service, strange: set<nat>)
    requires Redone(s, s') && ChainOk(s, strange) && StackOk(s, false)
    ensures ChainOk(s', strange)
  {
    forall i | Adjacent(s', i) ensures Adjacent(s, i) {
      assert Live(s', i) && i != Kept(s) ==> Live(s, i);
      assert Live(s', i + 1) && i + 1 != Kept(s) ==> Live(s, i + 1);
    }
  }

  lemma RedoKeepsOk(w: Watched, wanted: Option<nat>)
    requires WatchedOk(w)
    ensures WatchedOk(Observe(w, Call(RedoAny(wanted))))
  {
    WantedRedo(w.service, wanted);
    if RedoLast(w.service, wanted).ok {
      RedoDecidesIff(w);
      hide RedoLast, StackOk, StampedOk, ChainOk;
      RedoneIds(w.service, RedoLast(w.service, None).service);
      hide IdsOk;
      var s' := RedoLast(w.service, None).service;
      RedoneStack(w.service, s');
      RedoneStamped(w.service, s');
      RedoneChain(w.service, s', w.strange);
    }
  }

  // ---------------------------------------------------------------- runs

  lemma {:induction false} RunKeepsOk(w: Watched, events: seq<Event>)
    requires WatchedOk(w)
    ensures WatchedOk(ObserveAll(w, events))
    decreases |events|
  {
    hide WatchedOk, Observe;
    if events != [] {
      match events[0] {
        case Elsewhere(after) => ForeignKeepsOk(w, after);
        case Call(ApproveMutation(after)) => ApproveKeepsOk(w, after);
        case Call(UndoAny(wanted)) => UndoKeepsOk(w, wanted);
        case Call(RedoAny(wanted)) => RedoKeepsOk(w, wanted);
      }
      RunKeepsOk(Observe(w, events[0]), events[1..]);
    }
  }

  lemma UnwatchedOk(tables: State, version: nat, limit: nat)
    ensures WatchedOk(Unwatched(tables, version, limit))
  {
  }

  // ---------------------------------------------------------------- main results

  /** Over any run: an undo goes through exactly when the newest record not waiting to be redone is in effect and
      the engine last moved through the service. It then leaves what that mutation started from. It starts from
      what that mutation produced unless the call before it was an undo of a mutation that had started from
      something else, which it can have done only if it was approved right after a commit made elsewhere. */
  lemma UndoLosesIff(tables: State, version: nat, limit: nat, events: seq<Event>)
    ensures var w := ObserveAll(Unwatched(tables, version, limit), events);
      var s, r, k := w.service, UndoLast(w.service, None), Kept(w.service);
      && (r.ok <==> Live(s, k - 1) && !w.cause.Outside?)
      && (!r.ok ==> r.service == s)
      && (r.ok ==>
            && r.service.tables == s.history[k - 1].before
            && (w.cause.Undoing? ==> k < |s.history|)
            && (s.tables == s.history[k - 1].after <==> (w.cause.Undoing? ==> s.history[k].before == s.history[k - 1].after))
            && (s.tables != s.history[k - 1].after ==> s.history[k].id in w.strange))
  {
    UnwatchedOk(tables, version, limit);
    RunKeepsOk(Unwatched(tables, version, limit), events);
    hide Unwatched, ObserveAll;
    var w := ObserveAll(Unwatched(tables, version, limit), events);
    UndoDecidesIff(w);
    WantedUndo(w.service, None);
    var s, k := w.service, Kept(w.service);
    if UndoLast(s, None).ok && s.redo != [] {
      assert Adjacent(s, k - 1);
    }
  }

  /** Likewise a redo: it starts from what its mutation started from unless the call before it was a redo of the
      mutation before it, which had produced something else. */
  lemma RedoLosesIff(tables: State, version: nat, limit: nat, events: seq<Event>)
    ensures var w := ObserveAll(Unwatched(tables, version, limit), events);
      var s, r, k := w.service, RedoLast(w.service, None), Kept(w.service);
      && (r.ok <==> s.redo != [] && !w.cause.Outside?)
      && (!r.ok ==> r.service == s)
      && (r.ok ==>
            && 0 <= k < |s.history| && r.service.tables == s.history[k].after
            && (w.cause.Redoing? ==> k > 0)
            && (s.tables == s.history[k].before <==> (w.cause.Redoing? ==> s.history[k - 1].after == s.history[k].before))
            && (s.tables != s.history[k].before ==> s.history[k].id in w.strange))
  {
    UnwatchedOk(tables, version, limit);
    RunKeepsOk(Unwatched(tables, version, limit), events);
    hide Unwatched, ObserveAll;
    var w := ObserveAll(Unwatched(tables, version, limit), events);
    RedoDecidesIff(w);
    WantedRedo(w.service, None);
    var s, k := w.service, Kept(w.service);
    if RedoLast(s, None).ok && w.cause.Redoing? {
      assert Adjacent(s, k - 1);
    }
  }

  /** After an undo that lost a commit made elsewhere, a redo brings the first mutation back and not that commit; the
      next undo starts from what that mutation produced, although the record after it started from something else. */
  lemma RedoneThenUndone(a: State, b: State, c: State, d: State)
    requires b != c
    ensures var events := [Call(ApproveMutation(b)), Elsewhere(c), Call(ApproveMutation(d)), Call(UndoAny(None)), Call(UndoAny(None)), Call(RedoAny(None))];
      var s := ObserveAll(Unwatched(a, 0, 2), events).service;
      && s.redo != [] && UndoLast(s, None).ok && |s.history| == 2
      && s.tables == b == s.history[0].after && s.history[1].before == c
  {
    var undo, redo := Call(UndoAny(None)), Call(RedoAny(None));
    Unrolled(Unwatched(a, 0, 2), [Call(ApproveMutation(b)), Elsewhere(c), Call(ApproveMutation(d)), undo, undo, redo]);
    FirstThree(a, b, c, d);
    NextThree(a, b, c, d);
    hide ObserveAll, UndoLast, RedoLast, Approve, Foreign, Unwatched;
    ObservedThree(Unwatched(a, 0, 2), b, c, d);
    ObservedCalls(Observe(Observe(Observe(Unwatched(a, 0, 2), Call(ApproveMutation(b))), Elsewhere(c)), Call(ApproveMutation(d))));
    hide Observe;
    assert Unwatched(a, 0, 2).service == Fresh(a, 0, 2) by { UnwatchedService(a, 0, 2); }
  }

  lemma UnwatchedService(tables: State, version: nat, limit: nat)
    ensures Unwatched(tables, version, limit).service == Fresh(tables, version, limit)
  {
  }

  lemma ObservedThree(w: Watched, b: State, c: State, d: State)
    ensures Observe(Observe(Observe(w, Call(ApproveMutation(b))), Elsewhere(c)), Call(ApproveMutation(d))).service
      == Approve(Foreign(Approve(w.service, b), c), d)
  {
    hide Approve, Foreign;
  }

  lemma ObservedCalls(w: Watched)
    ensures var undo, redo := Call(UndoAny(None)), Call(RedoAny(None));
      Observe(Observe(Observe(w, undo), undo), redo).service
      == RedoLast(UndoLast(UndoLast(w.service, None).service, None).service, None).service
  {
    hide UndoLast, RedoLast;
  }

  lemma FirstThree(a: State, b: State, c: State, d: State)
    ensures Approve(Foreign(Approve(Fresh(a, 0, 2), b), c), d) == Service(d, 3, [Rec(0, a, b, 1, None), Rec(1, c, d, 3, None)], [], 2, 2)
  {
  }

  lemma NextThree(a: State, b: State, c: State, d: State)
    ensures var s3 := Service(d, 3, [Rec(0, a, b, 1, None), Rec(1, c, d, 3, None)], [], 2, 2);
      var s6 := RedoLast(UndoLast(UndoLast(s3, None).service, None).service, None).service;
      s6 == Service(b, 6, [Rec(0, a, b, 6, None), Rec(1, c, d, 3, Some(6))], [1], 2, 2) && UndoLast(s6, None).ok
  {
    var s3 := Service(d, 3, [Rec(0, a, b, 1, None), Rec(1, c, d, 3, None)], [], 2, 2);
    var h4 := [Rec(0, a, b, 4, None), Rec(1, c, d, 3, Some(4))];
    var h5 := [Rec(0, a, b, 4, Some(5)), Rec(1, c, d, 3, Some(4))];
    var h6 := [Rec(0, a, b, 6, None), Rec(1, c, d, 3, Some(6))];
    assert UndoLast(s3, None).service == Service(c, 4, h4, [1], 2, 2);
    LastLivePair(h4);
    assert UndoLast(Service(c, 4, h4, [1], 2, 2), None).service == Service(a, 5, h5, [1, 0], 2, 2);
    assert IndexOf(h5, 0) == 0;
    assert RedoLast(Service(a, 5, h5, [1, 0], 2, 2), None).service == Service(b, 6, h6, [1], 2, 2);
    LastLivePair(h6);
  }

  lemma Unrolled(w: Watched, events: seq<Event>)
    requires |events| == 6
    ensures ObserveAll(w, events)
      == Observe(Observe(Observe(Observe(Observe(Observe(w, events[0]), events[1]), events[2]), events[3]), events[4]), events[5])
  {
    hide Observe;
    UnrolledTwice(w, events);
    var w2 := Observe(Observe(w, events[0]), events[1]);
    UnrolledTwice(w2, events[2..]);
    UnrolledTwice(Observe(Observe(w2, events[2]), events[3]), events[4..]);
    assert events[2..][2..] == events[4..] && events[4..][2..] == [];
  }

  lemma UnrolledTwice(w: Watched, events: seq<Event>)
    requires |events| >= 2
    ensures ObserveAll(w, events) == ObserveAll(Observe(Observe(w, events[0]), events[1]), events[2..])
  {
    hide Observe;
    assert events[1..][1..] == events[2..];
  }

  lemma LastLivePair(history: seq<Rec>)
    requires |history| == 2 && history[0].undone.None? && history[1].undone.Some?
    ensures LastLive(history) == 1
  {
  }
}
