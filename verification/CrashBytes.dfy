/** The engine over its page file, byte by byte: runs of commits, bulk inserts, checkpoints, compactions and
    restores in which a crash may cut a page write anywhere (novadb/engine.py, novadb/page_store.py). */
module CrashBytes {
  import opened Bytes
  import T = Tables
  import P = PageStore
  import opened Recovery

  /** The page file's layout, and the JSON text of a log record. */
  datatype Format = Format(config: P.Config, encode: Record -> Bytes, decode: Bytes -> T.Option<Record>)

  /** An engine and the bytes of its page file. */
  datatype Site = Site(engine: Engine, file: Bytes)

  ghost predicate FormatOk(f: Format) {
    P.ConfigOk(f.config)
  }

  /** The texts of these records parse back. */
  ghost predicate Reads(f: Format, log: seq<Record>) {
    forall i | 0 <= i < |log| :: f.decode(f.encode(log[i])) == T.Some(log[i])
  }

  function Texts(f: Format, log: seq<Record>): (r: seq<Bytes>)
    ensures |r| == |log| && forall i | 0 <= i < |log| :: r[i] == f.encode(log[i])
  {
    seq(|log|, i requires 0 <= i < |log| => f.encode(log[i]))
  }

  function Decoded(f: Format, texts: seq<Bytes>): T.Option<seq<Record>> {
    if texts == [] then T.Some([])
    else if f.decode(texts[0]).None? || Decoded(f, texts[1..]).None? then T.None
    else T.Some([f.decode(texts[0]).value] + Decoded(f, texts[1..]).value)
  }

  /** Opening a directory: a torn tail is cut off the page file, its records are read back and replayed on the
      state image. */
  function OpenBytes(f: Format, image: T.Option<Image>, file: Bytes): T.Option<Site>
    requires f.config.pageSize > P.HeaderSize
  {
    var kept := P.Opened(f.config, file, true);
    if kept.Err? then T.None
    else
      var texts := P.ScanFrom(f.config, kept.value, 0);
      if texts.Err? || Decoded(f, texts.value).None? then T.None
      else
        var e := Reopen(Disk(image, Decoded(f, texts.value).value));
        if e.None? then T.None else T.Some(Site(e.value, kept.value))
  }

  // ---------------------------------------------------------------- what a call writes

  /** The log record a call appends, if it appends one. */
  function Appends(e: Engine, action: Action): T.Option<Record> {
    match action
    case Commit(t, fits) =>
      if Commits(e, t, fits) && e.sessions[t].tx.ops != [] then T.Some(Record(e.version + 1, SessionLog(e.sessions[t]))) else T.None
    case BulkInsert(table, rows, fits) =>
      if BulkInserts(e, table, rows, fits) then T.Some(Record(e.version + 1, [T.InsertMany(table, rows.value)])) else T.None
    case _ => T.None
  }

  ghost predicate Fits(f: Format, record: Record) {
    P.Fits(f.config, [f.encode(record)])
  }

  /** The calls say of themselves what the page size says: whether their record fits a page. */
  ghost predicate FlagOk(f: Format, e: Engine, action: Action) {
    match action
    case Commit(t, fits) => Open(e, t) ==> fits == Fits(f, Record(e.version + 1, SessionLog(e.sessions[t])))
    case BulkInsert(table, rows, fits) => rows.Some? ==> fits == Fits(f, Record(e.version + 1, [T.InsertMany(table, rows.value)]))
    case Compact(fits) => fits == P.Fits(f.config, Texts(f, Compacted(e)))
    case _ => true
  }

  /** The page file when the call has returned. */
  ghost function FileAfter(f: Format, s: Site, action: Action): Bytes
    requires FormatOk(f)
  {
    var record := Appends(s.engine, action);
    var written :=
      if record.Some? then P.Append(f.config, s.file, [f.encode(record.value)])
      else if action == Compact(true) then P.Append(f.config, [], Texts(f, Compacted(s.engine)))
      else Ok(s.file);
    if written.Ok? then written.value else s.file
  }

  /** The call may be made: its record, if any, fits or is refused, and parses back. */
  ghost predicate MayCall(f: Format, e: Engine, action: Action) {
    && Careful(e, action) && FlagOk(f, e, action)
    && (Appends(e, action).Some? ==> Reads(f, [Appends(e, action).value]))
    && (action.Compact? ==> Reads(f, Compacted(e)))
  }

  /** The page file that a crash leaves: at the first durable stage, any number of the bytes being appended; a
      compaction's file replaces the old one at the last. */
  ghost function Left(f: Format, s: Site, action: Action, at: nat, cut: nat): Bytes
    requires FormatOk(f) && CutOk(f, s, action, at, cut)
  {
    var after := FileAfter(f, s, action);
    if Appends(s.engine, action).Some? then (if at == 0 then after[..|s.file| + cut] else after)
    else if action.Compact? && at == 2 then after
    else s.file
  }

  ghost predicate CutOk(f: Format, s: Site, action: Action, at: nat, cut: nat)
    requires FormatOk(f)
  {
    at < |Trail(s.engine, action)| && (Appends(s.engine, action).Some? ==> |s.file| + cut <= |FileAfter(f, s, action)|)
  }

  // ---------------------------------------------------------------- runs

  /** A call that ends, or a crash that cuts it at a durable stage and a byte, and the reopening after it. */
  datatype ByteStep = Finished(action: Action) | Cut(action: Action, at: nat, cut: nat)

  ghost predicate MayStep(f: Format, s: Site, step: ByteStep)
    requires FormatOk(f)
  {
    MayCall(f, s.engine, step.action) && (step.Cut? ==> CutOk(f, s, step.action, step.at, step.cut))
  }

  /** What a crash leaves to open. */
  ghost function Reopened(f: Format, s: Site, action: Action, at: nat, cut: nat): T.Option<Site>
    requires FormatOk(f) && CutOk(f, s, action, at, cut)
  {
    OpenBytes(f, Trail(s.engine, action)[at].image, Left(f, s, action, at, cut))
  }

  ghost function ByteAfter(f: Format, s: Site, step: ByteStep): Site
    requires FormatOk(f) && MayStep(f, s, step)
  {
    match step
    case Finished(action) => Site(Next(s.engine, action), FileAfter(f, s, action))
    case Cut(action, at, cut) =>
      var r := Reopened(f, s, action, at, cut);
      if r.Some? then r.value else s
  }

  ghost predicate ByteRuns(f: Format, s: Site, steps: seq<ByteStep>)
    requires FormatOk(f)
    decreases |steps|
  {
    steps == [] || (MayStep(f, s, steps[0]) && ByteRuns(f, ByteAfter(f, s, steps[0]), steps[1..]))
  }

  ghost function ByteRun(f: Format, s: Site, steps: seq<ByteStep>): Site
    requires FormatOk(f) && ByteRuns(f, s, steps)
    decreases |steps|
  {
    if steps == [] then s else ByteRun(f, ByteAfter(f, s, steps[0]), steps[1..])
  }

  function Empty(): Site {
    Site(Fresh(), [])
  }

  // ---------------------------------------------------------------- the file holds the log

  ghost predicate HoldsLog(f: Format, file: Bytes, pages: seq<seq<Bytes>>, log: seq<Record>)
    requires FormatOk(f)
  {
    P.Stores(f.config, file, pages) && P.Flatten(pages) == Texts(f, log) && Reads(f, log)
  }

  ghost predicate SiteOk(f: Format, s: Site)
    requires FormatOk(f)
  {
    Inv(s.engine) && exists pages :: HoldsLog(f, s.file, pages, s.engine.disk.log)
  }

  lemma {:induction false} TextsDecode(f: Format, log: seq<Record>)
    requires Reads(f, log)
    ensures Decoded(f, Texts(f, log)) == T.Some(log)
  {
    if log != [] {
      assert Texts(f, log)[1..] == Texts(f, log[1..]);
      assert Reads(f, log[1..]) by {
        forall i | 0 <= i < |log| - 1 ensures log[1..][i] == log[i + 1] {}
      }
      TextsDecode(f, log[1..]);
      assert log == [log[0]] + log[1..];
    }
  }

  /** A file that holds a log opens to it, and stays as it is. */
  lemma HeldLogOpens(f: Format, image: T.Option<Image>, file: Bytes, pages: seq<seq<Bytes>>, log: seq<Record>)
    requires FormatOk(f) && HoldsLog(f, file, pages, log) && |log| < Limit(8)
    ensures OpenBytes(f, image, file)
      == if Reopen(Disk(image, log)).None? then T.None else T.Some(Site(Reopen(Disk(image, log)).value, file))
  {
    hide Reopen, P.Stores, P.Flatten, P.ScanFrom, Limit, Decoded;
    P.PagesBelowRecords(f.config, pages) by { StoresOk(f, file, pages); }
    P.StoresFacts(f.config, file, pages);
    TextsDecode(f, log);
  }

  lemma StoresOk(f: Format, file: Bytes, pages: seq<seq<Bytes>>)
    requires FormatOk(f) && P.Stores(f.config, file, pages)
    ensures P.PagesOk(f.config, pages)
  {
  }

  lemma ReadsMore(f: Format, log: seq<Record>, record: Record)
    requires Reads(f, log) && Reads(f, [record])
    ensures Reads(f, log + [record])
  {
    assert [record][0] == record;
  }

  /** An appended record is the log's next. */
  lemma AppendHoldsLog(f: Format, file: Bytes, pages: seq<seq<Bytes>>, log: seq<Record>, record: Record)
    requires FormatOk(f) && HoldsLog(f, file, pages, log) && Reads(f, [record]) && Fits(f, record)
    ensures P.Append(f.config, file, [f.encode(record)]).Ok?
    ensures HoldsLog(f, P.Append(f.config, file, [f.encode(record)]).value,
                     pages + P.Paginate([], [f.encode(record)], P.Capacity(f.config)), log + [record])
  {
    hide P.Stores, P.Flatten, P.Paginate;
    P.AppendStores(f.config, file, pages, [f.encode(record)]);
    ReadsMore(f, log, record);
    assert Texts(f, log + [record]) == Texts(f, log) + [f.encode(record)];
  }

  /** A compaction's file holds the compacted log. */
  lemma ReplaceHoldsLog(f: Format, log: seq<Record>)
    requires FormatOk(f) && Reads(f, log) && P.Fits(f.config, Texts(f, log))
    ensures P.Append(f.config, [], Texts(f, log)).Ok?
    ensures HoldsLog(f, P.Append(f.config, [], Texts(f, log)).value, P.Paginate([], Texts(f, log), P.Capacity(f.config)), log)
  {
    hide P.Paginate;
    P.EmptyStores(f.config);
    P.AppendStores(f.config, [], [], Texts(f, log));
    var pages := P.Paginate([], Texts(f, log), P.Capacity(f.config));
    assert [] + pages == pages && P.Flatten([]) + Texts(f, log) == Texts(f, log);
  }

  lemma CommitWrites(e: Engine, t: nat, fits: bool)
    requires Commits(e, t, fits)
    ensures e.sessions[t].tx.ops == [] <==> SessionLog(e.sessions[t]) == []
  {
  }

  /** A call's record is the log's next; only a compaction changes the log otherwise. */
  lemma LogAfter(e: Engine, action: Action)
    ensures Appends(e, action).Some? ==> Next(e, action).disk.log == e.disk.log + [Appends(e, action).value]
    ensures Appends(e, action).None? && action != Compact(true) ==> Next(e, action).disk.log == e.disk.log
    ensures action == Compact(true) ==> Next(e, action).disk.log == Compacted(e)
  {
    hide Compacted;
    if action.Commit? && Commits(e, action.t, action.fits) { CommitWrites(e, action.t, action.fits); }
  }

  /** What a call does to the log, it does to the file. */
  lemma FileFollowsLog(f: Format, s: Site, action: Action)
    requires FormatOk(f) && SiteOk(f, s) && MayCall(f, s.engine, action)
    ensures exists pages :: HoldsLog(f, FileAfter(f, s, action), pages, Next(s.engine, action).disk.log)
    ensures Appends(s.engine, action).Some? ==>
      && Fits(f, Appends(s.engine, action).value)
      && P.Append(f.config, s.file, [f.encode(Appends(s.engine, action).value)]) == Ok(FileAfter(f, s, action))
  {
    hide HoldsLog, Inv, Compacted, P.Append, P.Paginate, P.Fits, Next;
    var e := s.engine;
    var pages :| HoldsLog(f, s.file, pages, e.disk.log);
    LogAfter(e, action);
    var record := Appends(e, action);
    if record.Some? {
      AppendHoldsLog(f, s.file, pages, e.disk.log, record.value);
      assert FileAfter(f, s, action) == P.Append(f.config, s.file, [f.encode(record.value)]).value;
    } else if action == Compact(true) {
      ReplaceHoldsLog(f, Compacted(e));
      assert FileAfter(f, s, action) == P.Append(f.config, [], Texts(f, Compacted(e))).value;
    } else {
      assert FileAfter(f, s, action) == s.file;
      assert HoldsLog(f, FileAfter(f, s, action), pages, Next(e, action).disk.log);
    }
  }

  // ---------------------------------------------------------------- a crash at any byte

  /** A file that holds a log opens, with any state image that it loads with, to an engine on that disk. */
  lemma HeldDiskOpens(f: Format, disk: Disk, file: Bytes, version: nat, tables: T.State)
    requires FormatOk(f) && (exists pages :: HoldsLog(f, file, pages, disk.log)) && |disk.log| < Limit(8)
    requires Holds(disk, version, tables)
    ensures var r := OpenBytes(f, disk.image, file);
      r.Some? && r.value.file == file && r.value.engine.disk == disk && SiteOk(f, r.value) && T.Same(r.value.engine.tables, tables)
  {
    hide HoldsLog, OpenBytes, Limit, Inv, Holds, Load, T.Same;
    var pages :| HoldsLog(f, file, pages, disk.log);
    HeldLogOpens(f, disk.image, file, pages, disk.log);
    ReopenKeepsInv(disk, version, tables);
    assert Disk(disk.image, disk.log) == disk;
  }

  /** A torn append opens as the old file or as the new one. */
  lemma TornOpens(f: Format, image: T.Option<Image>, file: Bytes, pages: seq<seq<Bytes>>, log: seq<Record>, record: Record, cut: nat)
    requires FormatOk(f) && HoldsLog(f, file, pages, log) && Reads(f, [record]) && Fits(f, record)
    requires P.Append(f.config, file, [f.encode(record)]).Ok?
    requires |file| + cut <= |P.Append(f.config, file, [f.encode(record)]).value|
    ensures var full := P.Append(f.config, file, [f.encode(record)]).value;
      OpenBytes(f, image, full[..|file| + cut]) == OpenBytes(f, image, if cut < f.config.pageSize then file else full)
  {
    hide P.Stores, P.Opened, P.Append, P.Flatten, P.Paginate, P.ScanFrom, Decoded, Reopen;
    P.OneRecordOpens(f.config, file, pages, f.encode(record), cut);
    AppendHoldsLog(f, file, pages, log, record);
    var full := P.Append(f.config, file, [f.encode(record)]).value;
    WholeOpens(f.config, file, pages);
    WholeOpens(f.config, full, pages + P.Paginate([], [f.encode(record)], P.Capacity(f.config)));
  }

  lemma WholeOpens(c: P.Config, file: Bytes, pages: seq<seq<Bytes>>)
    requires P.ConfigOk(c) && P.Stores(c, file, pages)
    ensures P.Opened(c, file, true) == Ok(file)
  {
    hide P.Stores, Rest;
    P.StoresFacts(c, file, pages);
  }

  /** Whatever a crash leaves opens as one of the call's durable states with its log whole in the page file. */
  lemma CutIsDurable(f: Format, s: Site, action: Action, at: nat, cut: nat) returns (k: nat, file: Bytes)
    requires FormatOk(f) && SiteOk(f, s) && MayCall(f, s.engine, action) && CutOk(f, s, action, at, cut)
    ensures k < |Trail(s.engine, action)|
    ensures var disk := Trail(s.engine, action)[k];
      && Reopened(f, s, action, at, cut) == OpenBytes(f, disk.image, file)
      && (exists pages :: HoldsLog(f, file, pages, disk.log))
      && |disk.log| <= |s.engine.disk.log| + 1
  {
    hide HoldsLog, Inv, OpenBytes, P.Append, P.Fits, P.Paginate, Compacted, Reads;
    var e := s.engine;
    FileFollowsLog(f, s, action);
    LogAfter(e, action);
    CompactedOne(e);
    k, file := at, Left(f, s, action, at, cut);
    var record := Appends(e, action);
    if record.Some? && at == 0 {
      var pages :| HoldsLog(f, s.file, pages, e.disk.log);
      TornOpens(f, e.disk.image, s.file, pages, e.disk.log, record.value, cut);
      k, file := if cut < f.config.pageSize then 0 else 1, if cut < f.config.pageSize then s.file else FileAfter(f, s, action);
    }
    TrailLogs(f, s, action);
  }

  lemma CompactedOne(e: Engine)
    ensures |Compacted(e)| <= 1
  {
  }

  /** At each durable stage of a call, the log on the disk is the old one or the one it ends with. */
  lemma TrailLogs(f: Format, s: Site, action: Action)
    ensures var e, trail := s.engine, Trail(s.engine, action);
      && trail[0] == e.disk
      && (Appends(e, action).Some? ==> |trail| == 3 && trail[1].image == e.disk.image)
      && (forall k | 0 < k < |trail| && Appends(e, action).Some? :: trail[k].log == Next(e, action).disk.log)
      && (forall k | 0 <= k < |trail| && Appends(e, action).None? && !(action.Compact? && k == 2) :: trail[k].log == e.disk.log)
      && (action.Compact? ==> |trail| == 3 && trail[2] == Next(e, action).disk)
  {
    hide Compacted;
    if action.Commit? && Commits(s.engine, action.t, action.fits) { CommitWrites(s.engine, action.t, action.fits); }
  }

  /** What a crash leaves opens to an engine on a page file that holds its log, with the tables from before the
      call or after it. */
  lemma CutHolds(f: Format, s: Site, action: Action, at: nat, cut: nat)
    requires FormatOk(f) && SiteOk(f, s) && MayCall(f, s.engine, action) && CutOk(f, s, action, at, cut)
    requires |s.engine.disk.log| + 1 < Limit(8)
    ensures var e, r := s.engine, Reopened(f, s, action, at, cut);
      && r.Some? && SiteOk(f, r.value) && |r.value.engine.disk.log| <= |e.disk.log| + 1
      && (T.Same(r.value.engine.tables, e.tables) || T.Same(r.value.engine.tables, Next(e, action).tables))
  {
    hide HoldsLog, Holds, Limit, OpenBytes, Next, Trail, Reopened, T.Same, Appends, CutOk, Careful;
    var e := s.engine;
    var k, file := CutIsDurable(f, s, action, at, cut);
    TrailHolds(e, action, k);
    var disk := Trail(e, action)[k];
    if Holds(disk, e.version, e.tables) {
      HeldDiskOpens(f, disk, file, e.version, e.tables);
    } else {
      HeldDiskOpens(f, disk, file, Next(e, action).version, Next(e, action).tables);
    }
  }

  lemma StepKeepsSiteOk(f: Format, s: Site, step: ByteStep)
    requires FormatOk(f) && SiteOk(f, s) && MayStep(f, s, step) && |s.engine.disk.log| + 1 < Limit(8)
    ensures SiteOk(f, ByteAfter(f, s, step)) && |ByteAfter(f, s, step).engine.disk.log| <= |s.engine.disk.log| + 1
  {
    hide Inv, HoldsLog, Limit, OpenBytes, Next, Trail, Reopened, FileAfter, T.Same, CutOk, Careful, FlagOk, Compacted;
    if step.Finished? {
      FileFollowsLog(f, s, step.action);
      NextKeepsInv(s.engine, step.action);
      LogAfter(s.engine, step.action);
      CompactedOne(s.engine);
    } else {
      CutHolds(f, s, step.action, step.at, step.cut);
    }
  }

  lemma {:induction false} RunKeepsSiteOk(f: Format, s: Site, steps: seq<ByteStep>)
    requires FormatOk(f) && SiteOk(f, s) && ByteRuns(f, s, steps) && |s.engine.disk.log| + |steps| < Limit(8)
    ensures SiteOk(f, ByteRun(f, s, steps)) && |ByteRun(f, s, steps).engine.disk.log| <= |s.engine.disk.log| + |steps|
    decreases |steps|
  {
    hide SiteOk, Limit, MayStep, ByteAfter;
    if steps != [] {
      StepKeepsSiteOk(f, s, steps[0]);
      RunKeepsSiteOk(f, ByteAfter(f, s, steps[0]), steps[1..]);
    }
  }

  lemma EmptyOk(f: Format)
    requires FormatOk(f)
    ensures SiteOk(f, Empty())
  {
    P.EmptyStores(f.config);
    assert HoldsLog(f, [], [], []);
  }

  // ---------------------------------------------------------------- main results

  /** However the run went, crashes at any byte included, the page file holds the engine's log, record for
      record, and a restart finds the tables of every call that returned. */
  lemma FileHoldsLog(f: Format, steps: seq<ByteStep>)
    requires FormatOk(f) && ByteRuns(f, Empty(), steps) && |steps| < Limit(8)
    ensures var s := ByteRun(f, Empty(), steps);
      && P.Opened(f.config, s.file, false) == Ok(s.file)
      && P.ScanFrom(f.config, s.file, 0) == Ok(Texts(f, s.engine.disk.log))
      && var r := OpenBytes(f, s.engine.disk.image, s.file);
         r.Some? && r.value.file == s.file && T.Same(r.value.engine.tables, s.engine.tables)
  {
    hide HoldsLog, Limit, OpenBytes, Inv, Holds, P.ScanFrom, P.Opened;
    EmptyOk(f);
    RunKeepsSiteOk(f, Empty(), steps);
    var s := ByteRun(f, Empty(), steps);
    var pages :| HoldsLog(f, s.file, pages, s.engine.disk.log);
    HeldScans(f, s.file, pages, s.engine.disk.log);
    InvHolds(s.engine);
    HeldDiskOpens(f, s.engine.disk, s.file, s.engine.version, s.engine.tables);
  }

  lemma InvHolds(e: Engine)
    requires Inv(e)
    ensures Holds(e.disk, e.version, e.tables)
  {
  }

  lemma HeldScans(f: Format, file: Bytes, pages: seq<seq<Bytes>>, log: seq<Record>)
    requires FormatOk(f) && HoldsLog(f, file, pages, log) && |log| < Limit(8)
    ensures P.Opened(f.config, file, false) == Ok(file) && P.ScanFrom(f.config, file, 0) == Ok(Texts(f, log))
  {
    hide P.Stores, P.Flatten, P.ScanFrom, Rest, Limit;
    P.PagesBelowRecords(f.config, pages) by { StoresOk(f, file, pages); }
    P.StoresFacts(f.config, file, pages);
  }

  /** However the run went, a crash at any durable stage and any byte of the next call, whichever it is, leaves
      a directory that opens, to the tables before the call or after it. */
  lemma CutAnywhereIsAtomic(f: Format, steps: seq<ByteStep>, action: Action, at: nat, cut: nat)
    requires FormatOk(f) && ByteRuns(f, Empty(), steps) && |steps| + 1 < Limit(8)
    requires MayCall(f, ByteRun(f, Empty(), steps).engine, action) && CutOk(f, ByteRun(f, Empty(), steps), action, at, cut)
    ensures var s := ByteRun(f, Empty(), steps);
      var r := Reopened(f, s, action, at, cut);
      && r.Some?
      && (T.Same(r.value.engine.tables, s.engine.tables) || T.Same(r.value.engine.tables, Next(s.engine, action).tables))
  {
    hide Limit, SiteOk, Reopened, CutOk, MayCall, T.Same;
    EmptyOk(f);
    RunKeepsSiteOk(f, Empty(), steps);
    CutHolds(f, ByteRun(f, Empty(), steps), action, at, cut);
  }
}
