/** The prompt service of novadb/prompting.py: record objects shared by the history and the redo stack, and the
    engine they restore. */
module UndoMachine {
  import opened Tables
  import Transactions
  import Recovery
  import opened EngineMachine
  import opened Undo

  class ExecutionRecord {
    const id: nat
    const before: State
    const after: State
    var applied: nat
    var undone: Option<nat>

    function Model(): Rec
      reads this
    {
      Rec(id, before, after, applied, undone)
    }

    constructor (id: nat, before: State, after: State, applied: nat)
      ensures Model() == Rec(id, before, after, applied, None)
    {
      this.id, this.before, this.after, this.applied, undone := id, before, after, applied, None;
    }
  }

  class PromptService {
    const engine: Database
    const limit: nat
    var history: seq<ExecutionRecord>
    var redo: seq<ExecutionRecord>
    var nextId: nat

    ghost function Records(): (r: seq<Rec>)
      reads this, history
      ensures |r| == |history| && forall i | 0 <= i < |history| :: r[i] == history[i].Model()
    {
      seq(|history|, i requires 0 <= i < |history| reads this, history => history[i].Model())
    }

    ghost function RedoIds(): (r: seq<nat>)
      reads this
      ensures |r| == |redo| && forall i | 0 <= i < |redo| :: r[i] == redo[i].id
    {
      seq(|redo|, i requires 0 <= i < |redo| reads this => redo[i].id)
    }

    ghost function Model(): Service
      reads this, history, engine
    {
      Service(engine.tables, engine.version, Records(), RedoIds(), limit, nextId)
    }

    /** Ids tell the records apart, and everything on the redo stack is in the history. */
    ghost predicate Valid()
      reads this, history
    {
      && (forall i, j | 0 <= i < j < |history| :: history[i].id != history[j].id)
      && (forall i | 0 <= i < |history| :: history[i].id < nextId)
      && (forall record | record in redo :: record in history)
    }

    constructor (engine: Database, limit: nat)
      ensures Valid() && this.engine == engine && Model() == Fresh(engine.tables, engine.version, limit)
    {
      this.engine, this.limit := engine, limit;
      history, redo, nextId := [], [], 0;
    }

    /** The commit in approve, and the record it leaves. */
    method CommitApproved(tx: Transaction, fits: bool) returns (verdict: Verdict)
      requires Valid()
      modifies this, engine, tx`closed
      ensures Valid()
      ensures verdict == Committed ==> Model() == Approve(old(Model()), Transactions.View(tx.tables, tx.own))
      ensures verdict != Committed ==> Model() == old(Model())
    {
      hide Approve, Pushed;
      var before := engine.tables;
      verdict := CommitOnly(tx, fits);
      if verdict == Committed {
        RecordApproval(before, engine.tables, engine.version);
      } else {
        assert Records() == old(Records());
      }
    }

    method CommitOnly(tx: Transaction, fits: bool) returns (verdict: Verdict)
      modifies engine, tx`closed
      ensures if verdict == Committed
              then engine.tables == Transactions.View(tx.tables, tx.own) && engine.version == old(engine.version) + 1
              else engine.tables == old(engine.tables) && engine.version == old(engine.version)
    {
      ghost var was := engine.Model();
      verdict := engine.CommitTransaction(tx, fits);
      assert engine.Model().tables == engine.tables && engine.Model().version == engine.version;
    }

    /** The new record goes on the history; nothing is left to redo. */
    method RecordApproval(before: State, after: State, version: nat)
      requires Valid() && engine.tables == after && engine.version == version > 0
      modifies this
      ensures Valid()
      ensures Model() == Approve(old(Model()).(tables := before, version := version - 1), after)
    {
      ghost var s := Model();
      var record := new ExecutionRecord(nextId, before, after, version);
      history := Pushed(history, record, limit);
      redo := [];
      nextId := nextId + 1;
      assert Records() == Pushed(s.history, record.Model(), limit);
      hide Records, RedoIds, Pushed;
      assert RedoIds() == [];
    }

    method RestoreOnly(snapshot: State, expected: nat) returns (ok: bool)
      modifies engine
      ensures ok <==> old(engine.version) == expected
      ensures if ok then engine.tables == snapshot && engine.version == old(engine.version) + 1
              else engine.tables == old(engine.tables) && engine.version == old(engine.version)
    {
      ok := engine.RestoreState(snapshot, Some(expected));
      assert engine.Model().tables == engine.tables && engine.Model().version == engine.version;
    }

    /** The last record in effect, from the end; its place in the history, or none. */
    method FindLive() returns (place: nat)
      ensures place == LastLive(Records())
    {
      place := |history|;
      ghost var records := Records();
      assert records[..place] == records;
      while place > 0 && history[place - 1].undone.Some?
        invariant place <= |history| && LastLive(records) == LastLive(records[..place]) && records == Records()
      {
        assert records[..place][..place - 1] == records[..place - 1];
        place := place - 1;
      }
    }

    ghost function Chosen(records: seq<Rec>, wanted: Option<nat>): nat {
      var i := LastLive(records);
      if i > 0 && (wanted.None? || wanted.value == records[i - 1].id) then i else 0
    }

    /** The record to undo, if it is the one asked for. */
    method Candidate(wanted: Option<nat>) returns (place: nat)
      ensures place == Chosen(Model().history, wanted) <= |history|
    {
      place := FindLive();
      if place > 0 && wanted.Some? && wanted.value != history[place - 1].id {
        place := 0;
      }
    }

    method UndoApproved(wanted: Option<nat>) returns (ok: bool)
      requires Valid()
      modifies this, history, engine
      ensures Valid()
      ensures ok == UndoLast(old(Model()), wanted).ok && Model() == UndoLast(old(Model()), wanted).service
    {
      hide MarkedUndone, Pushed, Model, UndoLast, Chosen;
      UndoDecided(Model(), wanted);
      var place := Candidate(wanted);
      if place == 0 {
        return false;
      }
      ok := UndoAt(place);
    }

    method UndoAt(place: nat) returns (ok: bool)
      requires Valid() && 0 < place <= |history|
      modifies this`redo, history, engine
      ensures Valid() && |old(Model()).history| == |history|
      ensures var s := old(Model());
        var r := s.history[place - 1];
        && (ok <==> s.version == r.applied)
        && Model() == if !ok then s
             else Service(r.before, s.version + 1, MarkedUndone(s.history, place, s.version + 1), Pushed(s.redo, r.id, s.limit), s.limit, s.nextId)
    {
      hide MarkedUndone, Pushed, Records, RedoIds;
      var record := history[place - 1];
      assert Records()[place - 1] == record.Model();
      ok := RestoreOnly(record.before, record.applied);
      if ok {
        MarkUndone(place, engine.version);
      }
    }

    lemma UndoDecided(s: Service, wanted: Option<nat>)
      ensures var place := Chosen(s.history, wanted);
        UndoLast(s, wanted) == if place == 0 || s.version != s.history[place - 1].applied then Outcome(s, false)
          else
            var r := s.history[place - 1];
            Outcome(Service(r.before, s.version + 1, MarkedUndone(s.history, place, s.version + 1), Pushed(s.redo, r.id, s.limit), s.limit, s.nextId), true)
    {
    }

    /** The records' part of an undo. */
    method MarkUndone(place: nat, version: nat)
      requires Valid() && 0 < place <= |history|
      modifies this`redo, history
      ensures Valid() && history == old(history)
      ensures RedoIds() == Pushed(old(RedoIds()), history[place - 1].id, limit)
      ensures Records() == MarkedUndone(old(Records()), place, version)
    {
      hide MarkedUndone, Pushed, RedoIds;
      var record := history[place - 1];
      record.undone := Some(version);
      if place > 1 {
        history[place - 2].applied := version;
      }
      assert Records() == MarkedUndone(old(Records()), place, version);
      PushRedo(record);
    }

    method PushRedo(record: ExecutionRecord)
      requires Valid() && record in history
      modifies this`redo
      ensures Valid() && RedoIds() == Pushed(old(RedoIds()), record.id, limit)
    {
      redo := Pushed(redo, record, limit);
    }

    method RedoApproved(wanted: Option<nat>) returns (ok: bool)
      requires Valid()
      modifies this, history, engine
      ensures Valid()
      ensures ok == RedoLast(old(Model()), wanted).ok && Model() == RedoLast(old(Model()), wanted).service
    {
      hide MarkedRedone, Model, RedoLast, IndexOf;
      RedoDecided(Model(), wanted);
      RedoStack();
      if redo == [] {
        return false;
      }
      var record := redo[|redo| - 1];
      assert record in redo;
      if wanted.Some? && wanted.value != record.id {
        return false;
      }
      var place := Place(record);
      ok := RedoAt(place);
    }

    lemma RedoStack()
      ensures |Model().redo| == |redo| && |Model().history| == |history|
      ensures redo != [] ==> Model().redo[|redo| - 1] == redo[|redo| - 1].id
    {
    }

    lemma RedoDecided(s: Service, wanted: Option<nat>)
      ensures RedoLast(s, wanted) ==
        if s.redo == [] || (wanted.Some? && wanted.value != s.redo[|s.redo| - 1]) then Outcome(s, false)
        else
          var i := IndexOf(s.history, s.redo[|s.redo| - 1]);
          if i == |s.history| || s.history[i].undone != Some(s.version) then Outcome(s, false)
          else Outcome(Service(s.history[i].after, s.version + 1, MarkedRedone(s.history, i, s.version + 1), s.redo[..|s.redo| - 1],
                               s.limit, s.nextId), true)
    {
    }

    method RedoAt(place: nat) returns (ok: bool)
      requires Valid() && place < |history| && redo != []
      modifies this`redo, history, engine
      ensures Valid() && |old(Model()).history| == |history|
      ensures var s := old(Model());
        var r := s.history[place];
        && (ok <==> r.undone == Some(s.version))
        && Model() == if !ok then s
             else Service(r.after, s.version + 1, MarkedRedone(s.history, place, s.version + 1), s.redo[..|s.redo| - 1], s.limit, s.nextId)
    {
      hide MarkedRedone, Records, RedoIds;
      var record := history[place];
      assert Records()[place] == record.Model();
      if record.undone.None? {
        return false;
      }
      ok := RestoreOnly(record.after, record.undone.value);
      if ok {
        MarkRedone(place, engine.version);
      }
    }

    /** The records' part of a redo. */
    method MarkRedone(place: nat, version: nat)
      requires Valid() && place < |history| && redo != []
      modifies this`redo, history
      ensures Valid() && history == old(history) && RedoIds() == old(RedoIds())[..|old(redo)| - 1]
      ensures Records() == MarkedRedone(old(Records()), place, version)
    {
      hide MarkedRedone;
      var record := history[place];
      record.applied := version;
      record.undone := None;
      redo := redo[..|redo| - 1];
      if place + 1 < |history| && history[place + 1].undone.Some? {
        history[place + 1].undone := Some(version);
      }
    }

    /** list.index of a record that is there. */
    method Place(record: ExecutionRecord) returns (place: nat)
      requires Valid() && record in history
      ensures place < |history| && history[place] == record && place == IndexOf(Model().history, record.id)
    {
      place := 0;
      while history[place] != record
        invariant place < |history| && forall i | 0 <= i < place :: history[i] != record
        decreases |history| - place
      {
        place := place + 1;
      }
      IndexIs(Records(), place);
    }
  }
}
