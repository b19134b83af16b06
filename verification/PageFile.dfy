/** The PageStore object of novadb/page_store.py: the file, read and written page by page. */
module PageFile {
  import opened Bytes
  import opened PageStore

  lemma FrameNotEmpty(record: Record)
    ensures |Frame(record)| >= 4
  {
  }

  lemma PaginateNext(current: seq<Record>, records: seq<Record>, i: nat, capacity: int)
    requires i < |records|
    ensures Paginate(current, records[i..], capacity)
      == if current != [] && |Frames(current)| + |Frame(records[i])| > capacity
         then [current] + Paginate([records[i]], records[i + 1..], capacity)
         else Paginate(current + [records[i]], records[i + 1..], capacity)
    ensures Frames(current + [records[i]]) == Frames(current) + Frame(records[i]) != []
    ensures Frames([records[i]]) == Frame(records[i]) != []
  {
    assert records[i..][0] == records[i] && records[i..][1..] == records[i + 1..];
    FramesOne(records[i]);
    FrameNotEmpty(records[i]);
    FramesSplit(current, [records[i]]);
  }

  lemma Regroup(groups: seq<seq<Record>>, current: seq<Record>, rest: seq<seq<Record>>)
    ensures groups + ([current] + rest) == (groups + [current]) + rest
  {
  }

  lemma ScanOneMore(c: Config, rest: Bytes, id: nat)
    requires HeaderSize < c.pageSize <= |rest|
    ensures ScanFrom(c, rest, id)
      == if ReadBlock(c, id, rest[..c.pageSize]).Err? then Err
         else Joined(ReadBlock(c, id, rest[..c.pageSize]).value, ScanFrom(c, rest[c.pageSize..], id + 1))
  {
  }

  /** Records already read, then those still to come. */
  function Joined(read: seq<Record>, rest: Result<seq<Record>>): Result<seq<Record>> {
    match rest
    case Err => Err
    case Ok(more) => Ok(read + more)
  }

  lemma JoinedFirst(rest: Result<seq<Record>>)
    ensures Joined([], rest) == rest
  {
    if rest.Ok? {
      assert [] + rest.value == rest.value;
    }
  }

  lemma JoinedTwice(a: seq<Record>, b: seq<Record>, rest: Result<seq<Record>>)
    ensures Joined(a, Joined(b, rest)) == Joined(a + b, rest)
  {
    if rest.Ok? {
      assert a + (b + rest.value) == (a + b) + rest.value;
    }
  }

  /** One frame of a payload. */
  lemma UnframeOnce(payload: Bytes, offset: nat)
    requires offset < |payload|
    ensures Unframe(payload[offset..]) ==
      if offset + 4 > |payload| || offset + 4 + Unpack(payload[offset..offset + 4]) > |payload| then Err
      else
        var next := offset + 4 + Unpack(payload[offset..offset + 4]);
        Joined([payload[offset + 4..next]], Unframe(payload[next..]))
  {
    var rest := payload[offset..];
    if offset + 4 <= |payload| {
      assert rest[..4] == payload[offset..offset + 4];
      var length := Unpack(rest[..4]);
      if offset + 4 + length <= |payload| {
        assert rest[4..4 + length] == payload[offset + 4..offset + 4 + length] && rest[4 + length..] == payload[offset + 4 + length..];
      }
    }
  }

  lemma UnframeNothing()
    ensures Unframe([]) == Ok([])
  {
  }

  /** What an append to a file of whole pages comes to. */
  lemma AppendIs(c: Config, file: Bytes, pages: nat, records: seq<Record>)
    requires ConfigOk(c) && |file| == Times(pages, c.pageSize)
    ensures records == [] ==> Append(c, file, records) == Ok(file)
    ensures records != [] && !Fits(c, records) ==> Append(c, file, records) == Err
    ensures var groups := Paginate([], records, Capacity(c));
      records != [] && Fits(c, records) ==>
        (forall page | page in groups :: |Frames(page)| <= Capacity(c)) && Append(c, file, records) == Ok(file + Blocks(c, pages, groups))
  {
    hide Paginate, Times, Whole, Rest;
    WholePages(pages, 0, c.pageSize);
    BelowOnePage(0, c.pageSize);
    if Fits(c, records) {
      PaginateOk(c, [], records);
      PagesRoom(c, Paginate([], records, Capacity(c)));
    }
  }

  /** The scan from one page on. */
  lemma ScanPage(c: Config, file: Bytes, id: nat)
    requires HeaderSize < c.pageSize && Times(id + 1, c.pageSize) <= |file|
    ensures Times(id, c.pageSize) <= Times(id + 1, c.pageSize)
    ensures var page := ReadBlock(c, id, file[Times(id, c.pageSize)..Times(id + 1, c.pageSize)]);
      ScanFrom(c, file[Times(id, c.pageSize)..], id)
      == if page.Err? then Err else Joined(page.value, ScanFrom(c, file[Times(id + 1, c.pageSize)..], id + 1))
  {
    hide ReadBlock, ScanFrom;
    var at := Times(id, c.pageSize);
    assert Times(id + 1, c.pageSize) == at + c.pageSize;
    ScanOneMore(c, file[at..], id);
    assert file[at..][..c.pageSize] == file[at..at + c.pageSize] && file[at..][c.pageSize..] == file[at + c.pageSize..];
  }

  lemma ScanAround(c: Config, file: Bytes)
    requires c.pageSize > HeaderSize
    ensures Times(0, c.pageSize) == 0 && file[0..] == file && forall id :: ScanFrom(c, [], id) == Ok([])
  {
  }

  /** Without its torn tail, a file is whole pages. */
  lemma WholeTail(length: nat, size: nat)
    requires size > 0
    ensures Rest(length, size) <= length && Rest(length - Rest(length, size), size) == 0
  {
    hide Times, Whole, Rest;
    DivMod(length, size);
    BelowOnePage(0, size);
    WholePages(Whole(length, size), 0, size);
  }

  class PageFile {
    const config: Config
    var file: Bytes
    var nextPageId: nat

    ghost predicate Valid()
      reads this
    {
      ConfigOk(config) && |file| == Times(nextPageId, config.pageSize)
    }

    /** On a file of whole pages: the next page id comes from its length. */
    constructor (config: Config, file: Bytes)
      requires ConfigOk(config) && Rest(|file|, config.pageSize) == 0
      ensures Valid() && this.config == config && this.file == file
    {
      DivMod(|file|, config.pageSize);
      this.config, this.file := config, file;
      nextPageId := Whole(|file|, config.pageSize);
    }

    /** Opening: refused for pages too small and, unless a torn tail may be cut off, for a partial last page. */
    static method Open(config: Config, file: Bytes, recover: bool) returns (r: Result<PageFile>)
      requires config.pageSize < Limit(4) && forall b :: config.crc(b) < Limit(4)
      ensures r.Ok? <==> ConfigOk(config) && Opened(config, file, recover).Ok?
      ensures r.Ok? ==> fresh(r.value) && r.value.Valid() && r.value.config == config && Opened(config, file, recover) == Ok(r.value.file)
    {
      if config.pageSize <= HeaderSize + 16 {
        return Err;
      }
      var torn := Rest(|file|, config.pageSize);
      if torn != 0 && !recover {
        return Err;
      }
      WholeTail(|file|, config.pageSize);
      var whole := new PageFile(config, if torn == 0 then file else file[..|file| - torn]);
      r := Ok(whole);
    }

    method AppendRecords(records: seq<Record>) returns (r: Result<seq<nat>>)
      requires Valid()
      modifies this
      ensures Valid() && (r.Ok? <==> Append(config, old(file), records).Ok?)
      ensures if r.Ok? then Append(config, old(file), records) == Ok(file) else file == old(file)
      ensures r.Ok? ==> nextPageId == old(nextPageId) + |r.value| && forall i | 0 <= i < |r.value| :: r.value[i] == old(nextPageId) + i
    {
      hide Append, Fits, Blocks, Paginate, Payloads, Times, Whole;
      AppendIs(config, file, nextPageId, records);
      if records == [] {
        return Ok([]);
      }
      var paginated := PaginateRecords(records);
      if paginated.Err? {
        return Err;
      }
      r := WritePages(paginated.value, Paginate([], records, Capacity(config)));
    }

    /** The payloads of the pages the records go on; Err if one exceeds a page. */
    method PaginateRecords(records: seq<Record>) returns (r: Result<seq<Bytes>>)
      requires ConfigOk(config)
      ensures r.Ok? <==> Fits(config, records)
      ensures r.Ok? ==> Payloads(r.value, Paginate([], records, Capacity(config)))
    {
      hide Frames, Frame, Paginate;
      var payload: Bytes := [];
      var pages: seq<Bytes> := [];
      ghost var current: seq<Record> := [];
      ghost var groups: seq<seq<Record>> := [];
      NothingFramed(Capacity(config), records);
      for i := 0 to |records|
        invariant forall record | record in records[..i] :: |Frame(record)| <= Capacity(config)
        invariant payload == Frames(current) && (payload == [] <==> current == [])
        invariant Payloads(pages, groups)
        invariant Paginate([], records, Capacity(config)) == groups + Paginate(current, records[i..], Capacity(config))
      {
        var framed := Frame(records[i]);
        assert records[i] in records;
        if |framed| > config.pageSize - HeaderSize {
          return Err;
        }
        assert records[..i + 1] == records[..i] + [records[i]];
        PaginateNext(current, records, i, Capacity(config));
        if payload != [] && |payload| + |framed| > config.pageSize - HeaderSize {
          Regroup(groups, current, Paginate([records[i]], records[i + 1..], Capacity(config)));
          pages, groups := pages + [payload], groups + [current];
          payload, current := framed, [records[i]];
        } else {
          payload, current := payload + framed, current + [records[i]];
        }
      }
      assert records[..|records|] == records && records[|records|..] == [];
      LastPage(current, Capacity(config));
      if payload != [] {
        pages, groups := pages + [payload], groups + [current];
      }
      r := Ok(pages);
    }

    lemma NothingFramed(capacity: int, records: seq<Record>)
      ensures Frames([]) == [] && records[0..] == records
      ensures Paginate([], records, capacity) == [] + Paginate([], records[0..], capacity)
    {
    }

    lemma LastPage(current: seq<Record>, capacity: int)
      ensures Paginate(current, [], capacity) == if current == [] then [] else [current]
    {
    }

    ghost predicate Payloads(payloads: seq<Bytes>, groups: seq<seq<Record>>) {
      |payloads| == |groups| && forall i | 0 <= i < |groups| :: payloads[i] == Frames(groups[i])
    }

    method WritePages(payloads: seq<Bytes>, ghost groups: seq<seq<Record>>) returns (r: Result<seq<nat>>)
      requires Valid() && Payloads(payloads, groups)
      requires forall page | page in groups :: |Frames(page)| <= Capacity(config)
      modifies this
      ensures Valid() && file == old(file) + Blocks(config, old(nextPageId), groups) && nextPageId == old(nextPageId) + |groups|
      ensures r.Ok? && |r.value| == |groups| && forall i | 0 <= i < |r.value| :: r.value[i] == old(nextPageId) + i
    {
      hide Block, Frames;
      var ids: seq<nat> := [];
      ghost var first := nextPageId;
      assert groups[..0] == [] && file + [] == file;
      for i := 0 to |payloads|
        invariant nextPageId == first + i && |ids| == i && forall j | 0 <= j < i :: ids[j] == first + j
        invariant forall page | page in groups[..i] :: |Frames(page)| <= Capacity(config)
        invariant file == old(file) + Blocks(config, first, groups[..i])
        invariant Valid()
      {
        assert groups[i] in groups;
        assert groups[..i + 1] == groups[..i] + [groups[i]];
        BlocksSplit(config, first, groups[..i], [groups[i]]);
        OneBlock(first + i, groups[i]);
        ids := ids + [nextPageId];
        WritePage(payloads[i], groups[i]);
      }
      assert groups[..|payloads|] == groups;
      r := Ok(ids);
    }

    lemma OneBlock(id: nat, page: seq<Record>)
      requires |Frames(page)| <= Capacity(config)
      ensures Blocks(config, id, [page]) == Block(config, id, page)
    {
      assert Blocks(config, id + 1, [page][1..]) == [];
    }

    method WritePage(payload: Bytes, ghost page: seq<Record>)
      requires Valid() && payload == Frames(page) && |payload| <= Capacity(config)
      modifies this
      ensures Valid() && nextPageId == old(nextPageId) + 1 && file == old(file) + Block(config, old(nextPageId), page)
    {
      file := file + (Header(config, nextPageId, payload) + (payload + Zeros(config.pageSize - HeaderSize - |payload|)));
      nextPageId := nextPageId + 1;
    }

    /** read_page. */
    method ReadPage(id: nat) returns (r: Result<seq<Record>>)
      requires Valid()
      ensures id >= nextPageId ==> r == Err
      ensures id < nextPageId ==>
        (Times(id + 1, config.pageSize) <= |file|
         && r == ReadBlock(config, id, file[Times(id, config.pageSize)..Times(id + 1, config.pageSize)]))
    {
      if id >= nextPageId {
        return Err;
      }
      TimesAdd(id + 1, nextPageId - id - 1, config.pageSize);
      TimesIsProduct(id, config.pageSize);
      var start := id * config.pageSize;
      var block := file[start..start + config.pageSize];
      var length := Unpack(block[16..20]);
      if block[..4] != Magic || block[4] != 1 || Unpack(block[8..16]) != id || length > config.pageSize - HeaderSize {
        return Err;
      }
      var payload := block[HeaderSize..HeaderSize + length];
      if config.crc(payload) != Unpack(block[20..24]) {
        return Err;
      }
      r := DecodePayload(payload);
    }

    method DecodePayload(payload: Bytes) returns (r: Result<seq<Record>>)
      ensures r == Unframe(payload)
    {
      hide Unframe, Unpack;
      var records: seq<Record> := [];
      var offset := 0;
      assert payload[0..] == payload;
      JoinedFirst(Unframe(payload));
      while offset < |payload|
        invariant offset <= |payload|
        invariant Unframe(payload) == Joined(records, Unframe(payload[offset..]))
      {
        UnframeOnce(payload, offset);
        if offset + 4 > |payload| {
          return Err;
        }
        var length := Unpack(payload[offset..offset + 4]);
        offset := offset + 4;
        if offset + length > |payload| {
          return Err;
        }
        JoinedTwice(records, [payload[offset..offset + length]], Unframe(payload[offset + length..]));
        records := records + [payload[offset..offset + length]];
        offset := offset + length;
      }
      UnframeNothing();
      assert payload[offset..] == [] && records + [] == records;
      r := Ok(records);
    }

    /** iter_records, consumed to its end. */
    method IterRecords() returns (r: Result<seq<Record>>)
      requires Valid()
      ensures r == ScanFrom(config, file, 0)
    {
      hide ReadBlock, ScanFrom, Times;
      var records: seq<Record> := [];
      ScanAround(config, file);
      JoinedFirst(ScanFrom(config, file, 0));
      for id := 0 to nextPageId
        invariant Times(id, config.pageSize) <= |file|
        invariant ScanFrom(config, file, 0) == Joined(records, ScanFrom(config, file[Times(id, config.pageSize)..], id))
      {
        var page := ReadPage(id);
        ScanPage(config, file, id);
        if page.Err? {
          return Err;
        }
        JoinedTwice(records, page.value, ScanFrom(config, file[Times(id + 1, config.pageSize)..], id + 1));
        records := records + page.value;
      }
      assert file[Times(nextPageId, config.pageSize)..] == [] && records + [] == records;
      r := Ok(records);
    }

    /** checkpoint: a new file with these records replaces the old one. */
    method Checkpoint(records: seq<Record>) returns (ok: bool)
      requires Valid()
      modifies this
      ensures Valid() && (ok <==> Append(config, [], records).Ok?)
      ensures if ok then Append(config, [], records) == Ok(file) else file == old(file)
    {
      BelowOnePage(0, config.pageSize);
      var replacement := new PageFile(config, []);
      var r := replacement.AppendRecords(records);
      ok := r.Ok?;
      if ok {
        file, nextPageId := replacement.file, replacement.nextPageId;
      }
    }
  }
}
