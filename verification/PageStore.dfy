/** The append-only page file of novadb/page_store.py: framed records packed into checksummed pages. */
module PageStore {
  import opened Bytes

  /** A record as its encoded text. */
  type Record = Bytes

  /** The page size and the checksum, of which nothing is assumed but that it fits its field. */
  datatype Config = Config(pageSize: nat, crc: Bytes -> nat)

  const HeaderSize: nat := 24

  const Magic: Bytes := [0x4E, 0x56, 0x50, 0x31]

  ghost predicate ConfigOk(c: Config) {
    HeaderSize + 16 < c.pageSize < Limit(4) && forall b :: c.crc(b) < Limit(4)
  }

  function Capacity(c: Config): int {
    c.pageSize - HeaderSize
  }

  // ---------------------------------------------------------------- frames

  function Frame(record: Record): Bytes {
    Pack(|record|, 4) + record
  }

  function Frames(records: seq<Record>): Bytes {
    if records == [] then [] else Frame(records[0]) + Frames(records[1..])
  }

  /** The loop of read_page over a payload; Err is a truncated frame or record. */
  function Unframe(payload: Bytes): Result<seq<Record>>
    decreases |payload|
  {
    if payload == [] then Ok([])
    else if |payload| < 4 then Err
    else
      var length := Unpack(payload[..4]);
      if 4 + length > |payload| then Err
      else
        match Unframe(payload[4 + length..])
        case Err => Err
        case Ok(rest) => Ok([payload[4..4 + length]] + rest)
  }

  lemma {:induction false} UnframeFrames(records: seq<Record>)
    requires forall record | record in records :: |record| < Limit(4)
    ensures Unframe(Frames(records)) == Ok(records)
  {
    if records != [] {
      var first, rest := records[0], Frames(records[1..]);
      var payload := Frames(records);
      assert payload == Pack(|first|, 4) + (first + rest);
      SliceLeft(Pack(|first|, 4), first + rest, 0, 4);
      assert payload[..4] == Pack(|first|, 4);
      UnpackPack(|first|, 4);
      assert payload[4..4 + |first|] == first;
      assert payload[4 + |first|..] == rest;
      UnframeFrames(records[1..]);
      assert records == [first] + records[1..];
    }
  }

  lemma {:induction false} FramesSplit(a: seq<Record>, b: seq<Record>)
    ensures Frames(a + b) == Frames(a) + Frames(b)
  {
    if a == [] {
      assert a + b == b;
    } else {
      assert (a + b)[1..] == a[1..] + b;
      FramesSplit(a[1..], b);
    }
  }

  // ---------------------------------------------------------------- pages

  /** The loop of append_records: a record goes on the current page unless it would overflow it. */
  function Paginate(current: seq<Record>, records: seq<Record>, capacity: int): seq<seq<Record>>
    decreases |records|
  {
    if records == [] then (if current == [] then [] else [current])
    else if current != [] && |Frames(current)| + |Frame(records[0])| > capacity
    then [current] + Paginate([records[0]], records[1..], capacity)
    else Paginate(current + [records[0]], records[1..], capacity)
  }

  function Flatten(pages: seq<seq<Record>>): seq<Record> {
    if pages == [] then [] else pages[0] + Flatten(pages[1..])
  }

  ghost predicate PageOk(c: Config, page: seq<Record>) {
    page != [] && |Frames(page)| <= Capacity(c) && forall record | record in page :: |record| < Limit(4)
  }

  ghost predicate PagesOk(c: Config, pages: seq<seq<Record>>) {
    forall page | page in pages :: PageOk(c, page)
  }

  predicate Fits(c: Config, records: seq<Record>) {
    forall record | record in records :: |Frame(record)| <= Capacity(c)
  }

  lemma FramesOne(record: Record)
    ensures Frames([record]) == Frame(record)
  {
    assert Frames([record][1..]) == [];
  }

  lemma PageOneMore(c: Config, current: seq<Record>, record: Record)
    requires ConfigOk(c) && |Frame(record)| <= Capacity(c) && (current != [] ==> PageOk(c, current))
    ensures |Frames(current + [record])| == |Frames(current)| + |Frame(record)|
    ensures |Frames(current)| + |Frame(record)| <= Capacity(c) ==> PageOk(c, current + [record])
    ensures PageOk(c, [record])
  {
    FramesOne(record);
    FramesSplit(current, [record]);
  }

  /** Pages hold the records in order, none over its capacity, none empty. */
  lemma {:induction false} PaginateOk(c: Config, current: seq<Record>, records: seq<Record>)
    requires ConfigOk(c) && Fits(c, records) && (current != [] ==> PageOk(c, current))
    ensures PagesOk(c, Paginate(current, records, Capacity(c)))
    ensures Flatten(Paginate(current, records, Capacity(c))) == current + records
    decreases |records|
  {
    hide PageOk, ConfigOk, Frame;
    if records == [] {
      assert Flatten([current][1..]) == [];
    } else {
      var first, rest := records[0], records[1..];
      PageOneMore(c, current, first);
      assert current + records == (current + [first]) + rest;
      if current != [] && |Frames(current)| + |Frame(first)| > Capacity(c) {
        PaginateOk(c, [first], rest);
        var more := Paginate([first], rest, Capacity(c));
        assert ([current] + more)[1..] == more;
        assert current + ([first] + rest) == current + records;
      } else {
        assert current == [] ==> Frames(current) == [];
        PaginateOk(c, current + [first], rest);
      }
    }
  }

  /** No page is started while the next record still fits the last one. */
  lemma {:induction false} PaginateIsGreedy(current: seq<Record>, records: seq<Record>, capacity: int)
    ensures var pages := Paginate(current, records, capacity);
      && (current != [] ==> pages != [] && current <= pages[0])
      && (forall i | 0 <= i < |pages| :: pages[i] != [])
      && (forall i, j | 0 <= i && j == i + 1 < |pages| :: pages[j] != [] && |Frames(pages[i])| + |Frame(pages[j][0])| > capacity)
    decreases |records|
  {
    hide Frames, Frame;
    if records != [] {
      var first, rest := records[0], records[1..];
      if current != [] && |Frames(current)| + |Frame(first)| > capacity {
        PaginateIsGreedy([first], rest, capacity);
        var more := Paginate([first], rest, capacity);
        assert [first] <= more[0] && more[0][0] == first;
      } else {
        PaginateIsGreedy(current + [first], rest, capacity);
      }
    }
  }

  /** A single record always goes on a single page. */
  lemma OneRecordOnePage(c: Config, record: Record)
    ensures Paginate([], [record], Capacity(c)) == [[record]]
  {
    assert [] + [record] == [record];
    assert Paginate([record], [record][1..], Capacity(c)) == [[record]];
  }

  function Header(c: Config, id: nat, payload: Bytes): (r: Bytes)
    ensures |r| == HeaderSize
  {
    Magic + ([1, 0, 0, 0] + (Pack(id, 8) + (Pack(|payload|, 4) + Pack(c.crc(payload), 4))))
  }

  function Block(c: Config, id: nat, page: seq<Record>): (r: Bytes)
    requires |Frames(page)| <= Capacity(c)
    ensures |r| == c.pageSize
  {
    Header(c, id, Frames(page)) + (Frames(page) + Zeros(c.pageSize - HeaderSize - |Frames(page)|))
  }

  /** read_page, on the page's bytes: Err is any PageCorruptionError. */
  function ReadBlock(c: Config, id: nat, block: Bytes): Result<seq<Record>>
    requires |block| == c.pageSize >= HeaderSize
  {
    var length := Unpack(block[16..20]);
    if block[..4] != Magic || block[4] != 1 || Unpack(block[8..16]) != id then Err
    else if length > c.pageSize - HeaderSize then Err
    else
      var payload := block[HeaderSize..HeaderSize + length];
      if c.crc(payload) != Unpack(block[20..24]) then Err else Unframe(payload)
  }

  lemma HeaderFields(c: Config, id: nat, payload: Bytes, tail: Bytes)
    requires id < Limit(8) && |payload| < Limit(4) && c.crc(payload) < Limit(4)
    ensures var block := Header(c, id, payload) + tail;
      && block[..4] == Magic && block[4] == 1 && Unpack(block[8..16]) == id
      && Unpack(block[16..20]) == |payload| && Unpack(block[20..24]) == c.crc(payload)
  {
    var block := Header(c, id, payload) + tail;
    assert block[8..16] == Pack(id, 8) && block[16..20] == Pack(|payload|, 4) && block[20..24] == Pack(c.crc(payload), 4);
    UnpackPack(id, 8);
    UnpackPack(|payload|, 4);
    UnpackPack(c.crc(payload), 4);
  }

  /** A written page reads back as its records. */
  lemma ReadWritten(c: Config, id: nat, page: seq<Record>)
    requires ConfigOk(c) && PageOk(c, page) && id < Limit(8)
    ensures ReadBlock(c, id, Block(c, id, page)) == Ok(page)
  {
    hide Header, Unframe, Unpack, Frames;
    var payload := Frames(page);
    var tail := payload + Zeros(c.pageSize - HeaderSize - |payload|);
    HeaderFields(c, id, payload, tail);
    SliceRight(Header(c, id, payload), tail, HeaderSize, HeaderSize + |payload|);
    SliceLeft(payload, Zeros(c.pageSize - HeaderSize - |payload|), 0, |payload|);
    UnframeFrames(page);
  }

  // ---------------------------------------------------------------- files

  function Blocks(c: Config, first: nat, pages: seq<seq<Record>>): Bytes
    requires forall page | page in pages :: |Frames(page)| <= Capacity(c)
    decreases |pages|
  {
    if pages == [] then [] else Block(c, first, pages[0]) + Blocks(c, first + 1, pages[1..])
  }

  lemma {:induction false} BlocksLength(c: Config, first: nat, pages: seq<seq<Record>>)
    requires forall page | page in pages :: |Frames(page)| <= Capacity(c)
    ensures |Blocks(c, first, pages)| == Times(|pages|, c.pageSize)
    decreases |pages|
  {
    hide Block, Frames;
    if pages != [] {
      BlocksLength(c, first + 1, pages[1..]);
    }
  }

  lemma {:induction false} BlocksSplit(c: Config, first: nat, a: seq<seq<Record>>, b: seq<seq<Record>>)
    requires forall page | page in a + b :: |Frames(page)| <= Capacity(c)
    ensures (forall page | page in a :: |Frames(page)| <= Capacity(c)) && (forall page | page in b :: |Frames(page)| <= Capacity(c))
    ensures Blocks(c, first, a + b) == Blocks(c, first, a) + Blocks(c, first + |a|, b)
    decreases |a|
  {
    hide Block, Frames;
    assert forall page | page in a :: page in a + b;
    assert forall page | page in b :: page in a + b;
    if a == [] {
      assert a + b == b;
    } else {
      assert (a + b)[1..] == a[1..] + b;
      BlocksSplit(c, first + 1, a[1..], b);
    }
  }

  lemma {:induction false} FlattenSplit(a: seq<seq<Record>>, b: seq<seq<Record>>)
    ensures Flatten(a + b) == Flatten(a) + Flatten(b)
  {
    if a == [] {
      assert a + b == b;
    } else {
      assert (a + b)[1..] == a[1..] + b;
      FlattenSplit(a[1..], b);
    }
  }

  /** iter_records from page `id` on, over the rest of the file; a partial last page is not reached. */
  function ScanFrom(c: Config, rest: Bytes, id: nat): Result<seq<Record>>
    requires c.pageSize > HeaderSize
    decreases |rest|
  {
    if |rest| < c.pageSize then Ok([])
    else if ReadBlock(c, id, rest[..c.pageSize]).Err? then Err
    else
      match ScanFrom(c, rest[c.pageSize..], id + 1)
      case Err => Err
      case Ok(more) => Ok(ReadBlock(c, id, rest[..c.pageSize]).value + more)
  }

  lemma {:induction false} ScanBlocks(c: Config, first: nat, pages: seq<seq<Record>>)
    requires ConfigOk(c) && PagesOk(c, pages) && first + |pages| < Limit(8)
    ensures ScanFrom(c, Blocks(c, first, pages), first) == Ok(Flatten(pages))
    decreases |pages|
  {
    hide ReadBlock, Block;
    if pages != [] {
      assert pages[0] in pages && PagesOk(c, pages[1..]);
      var block, rest := Block(c, first, pages[0]), Blocks(c, first + 1, pages[1..]);
      assert (block + rest)[..c.pageSize] == block && (block + rest)[c.pageSize..] == rest;
      ReadWritten(c, first, pages[0]);
      ScanBlocks(c, first + 1, pages[1..]);
    }
  }

  /** append_records on the whole file; Err is the refusal of an oversized record, before any write. */
  function Append(c: Config, file: Bytes, records: seq<Record>): Result<Bytes>
    requires ConfigOk(c)
  {
    if records == [] then Ok(file)
    else if !Fits(c, records) then Err
    else
      PaginateOk(c, [], records);
      Ok(file + Blocks(c, Whole(|file|, c.pageSize), Paginate([], records, Capacity(c))))
  }

  /** _discover_next_page_id: what opening makes of a file, cutting a torn tail off only if asked to. */
  function Opened(c: Config, file: Bytes, recover: bool): Result<Bytes>
    requires c.pageSize > 0
  {
    var torn := Rest(|file|, c.pageSize);
    if torn == 0 then Ok(file) else if recover then Ok(file[..|file| - torn]) else Err
  }

  /** The file that holds these pages. */
  ghost predicate Stores(c: Config, file: Bytes, pages: seq<seq<Record>>)
    requires ConfigOk(c)
  {
    PagesOk(c, pages) && file == Blocks(c, 0, pages)
  }

  lemma StoresFacts(c: Config, file: Bytes, pages: seq<seq<Record>>)
    requires ConfigOk(c) && Stores(c, file, pages)
    ensures |file| == Times(|pages|, c.pageSize) && Whole(|file|, c.pageSize) == |pages| && Rest(|file|, c.pageSize) == 0
    ensures |pages| < Limit(8) ==> ScanFrom(c, file, 0) == Ok(Flatten(pages))
  {
    hide Blocks, Limit, ScanFrom, Flatten, Times, Whole, Rest;
    BelowOnePage(0, c.pageSize);
    BlocksLength(c, 0, pages);
    WholePages(|pages|, 0, c.pageSize);
    if |pages| < Limit(8) {
      ScanBlocks(c, 0, pages);
    }
  }

  lemma EmptyStores(c: Config)
    requires ConfigOk(c)
    ensures Stores(c, [], [])
  {
  }

  lemma AppendStores(c: Config, file: Bytes, pages: seq<seq<Record>>, records: seq<Record>)
    requires ConfigOk(c) && Stores(c, file, pages) && Append(c, file, records).Ok?
    ensures Stores(c, Append(c, file, records).value, pages + Paginate([], records, Capacity(c)))
    ensures Flatten(pages + Paginate([], records, Capacity(c))) == Flatten(pages) + records
  {
    hide Paginate, Blocks, Block, Frames, ScanFrom, PageOk, Whole, Rest, Times;
    var more := Paginate([], records, Capacity(c));
    if records == [] { NothingPaginated(Capacity(c)); }
    AppendFits(c, file, records);
    PaginateOk(c, [], records);
    StoresFacts(c, file, pages);
    PagesRoom(c, pages + more);
    BlocksSplit(c, 0, pages, more);
    FlattenSplit(pages, more);
    assert [] + records == records;
    if records == [] {
      assert pages + more == pages && file + [] == file;
    }
  }

  lemma NothingPaginated(capacity: int)
    ensures Paginate([], [], capacity) == []
  {
  }

  lemma AppendFits(c: Config, file: Bytes, records: seq<Record>)
    requires ConfigOk(c) && Append(c, file, records).Ok?
    ensures Fits(c, records)
  {
  }

  lemma PagesRoom(c: Config, pages: seq<seq<Record>>)
    requires PagesOk(c, pages)
    ensures forall page | page in pages :: |Frames(page)| <= Capacity(c)
  {
  }

  // ---------------------------------------------------------------- main results

  /** Any number of appends; a refused one leaves the file alone. */
  function AppendAll(c: Config, file: Bytes, batches: seq<seq<Record>>): Bytes
    requires ConfigOk(c)
    decreases |batches|
  {
    if batches == [] then file
    else
      var r := Append(c, file, batches[0]);
      AppendAll(c, if r.Ok? then r.value else file, batches[1..])
  }

  function Accepted(c: Config, batches: seq<seq<Record>>): seq<Record> {
    if batches == [] then [] else (if Fits(c, batches[0]) then batches[0] else []) + Accepted(c, batches[1..])
  }

  lemma {:induction false} AppendAllStores(c: Config, file: Bytes, pages: seq<seq<Record>>, batches: seq<seq<Record>>)
      returns (pages': seq<seq<Record>>)
    requires ConfigOk(c) && Stores(c, file, pages)
    ensures Stores(c, AppendAll(c, file, batches), pages') && Flatten(pages') == Flatten(pages) + Accepted(c, batches)
    decreases |batches|
  {
    hide Stores, Paginate;
    pages' := pages;
    assert Flatten(pages) + [] == Flatten(pages);
    if batches != [] {
      assert batches[0] == [] ==> Fits(c, batches[0]);
      var r := Append(c, file, batches[0]);
      if r.Ok? {
        AppendStores(c, file, pages, batches[0]);
        pages' := AppendAllStores(c, r.value, pages + Paginate([], batches[0], Capacity(c)), batches[1..]);
      } else {
        pages' := AppendAllStores(c, file, pages, batches[1..]);
      }
    }
  }

  lemma {:induction false} PagesBelowRecords(c: Config, pages: seq<seq<Record>>)
    requires PagesOk(c, pages)
    ensures |pages| <= |Flatten(pages)|
  {
    if pages != [] {
      assert PageOk(c, pages[0]);
      PagesBelowRecords(c, pages[1..]);
    }
  }

  /** After any appends, the scan returns the accepted records, all of them, in order; no record is refused
      but one that no page could hold. */
  lemma ScanReturnsAppends(c: Config, batches: seq<seq<Record>>)
    requires ConfigOk(c) && |Accepted(c, batches)| < Limit(8)
    ensures ScanFrom(c, AppendAll(c, [], batches), 0) == Ok(Accepted(c, batches))
  {
    hide Limit, ScanFrom, Blocks;
    assert Stores(c, [], []) by { EmptyStores(c); }
    var pages := AppendAllStores(c, [], [], batches);
    assert Flatten([]) + Accepted(c, batches) == Accepted(c, batches);
    PagesBelowRecords(c, pages);
    StoresFacts(c, AppendAll(c, [], batches), pages);
  }

  /** The file after a cut anywhere in the last append, opened with tail recovery: the old records,
      and those of the new pages that were written whole. */
  lemma TornAppend(c: Config, file: Bytes, pages: seq<seq<Record>>, records: seq<Record>, cut: nat)
    requires ConfigOk(c) && Stores(c, file, pages) && Append(c, file, records).Ok?
    requires |file| + cut <= |Append(c, file, records).value|
    requires |Flatten(pages)| + |records| < Limit(8)
    ensures var torn := Append(c, file, records).value[..|file| + cut];
      var whole := Whole(cut, c.pageSize);
      var more := Paginate([], records, Capacity(c));
      && whole <= |more|
      && Opened(c, torn, true).Ok?
      && ScanFrom(c, Opened(c, torn, true).value, 0) == Ok(Flatten(pages) + Flatten(more[..whole]))
      && (Opened(c, torn, false).Ok? <==> Rest(cut, c.pageSize) == 0)
  {
    hide Paginate, Limit, ScanFrom, Flatten, Times, Stores, Append, Opened, Whole, Rest;
    AppendLonger(c, file, records);
    var more := Paginate([], records, Capacity(c));
    var whole, size := Whole(cut, c.pageSize), c.pageSize;
    var full := Append(c, file, records).value;
    AppendStores(c, file, pages, records);
    StoresFacts(c, file, pages);
    StoresFacts(c, full, pages + more);
    TimesAdd(|pages|, |more|, size);
    CutFits(|more|, cut, size);
    TornFile(c, full, |pages|, cut);
    KeptScan(c, full, pages, more, whole);
  }

  lemma TornFile(c: Config, full: Bytes, n: nat, cut: nat)
    requires c.pageSize > 0 && Times(n, c.pageSize) + cut <= |full|
    ensures Times(n + Whole(cut, c.pageSize), c.pageSize) <= |full|
    ensures Opened(c, full[..Times(n, c.pageSize) + cut], true) == Ok(full[..Times(n + Whole(cut, c.pageSize), c.pageSize)])
    ensures Opened(c, full[..Times(n, c.pageSize) + cut], false).Ok? <==> Rest(cut, c.pageSize) == 0
  {
    hide Times, Whole, Rest;
    WholePages(n, cut, c.pageSize);
    var length, keep := Times(n, c.pageSize) + cut, Times(n + Whole(cut, c.pageSize), c.pageSize);
    assert full[..length][..keep] == full[..keep];
  }

  lemma KeptScan(c: Config, full: Bytes, pages: seq<seq<Record>>, more: seq<seq<Record>>, whole: nat)
    requires ConfigOk(c) && Stores(c, full, pages + more) && whole <= |more| && |Flatten(pages + more)| < Limit(8)
    ensures Times(|pages| + whole, c.pageSize) <= |full|
    ensures ScanFrom(c, full[..Times(|pages| + whole, c.pageSize)], 0) == Ok(Flatten(pages) + Flatten(more[..whole]))
  {
    hide Limit, ScanFrom, Flatten, Times, Blocks;
    var kept := pages + more[..whole];
    KeptPages(c, full, pages + more, |kept|);
    assert (pages + more)[..|kept|] == kept;
    PagesBelowRecords(c, pages + more);
    StoresFacts(c, full[..Times(|kept|, c.pageSize)], kept);
    FlattenSplit(pages, more[..whole]);
  }

  lemma AppendLonger(c: Config, file: Bytes, records: seq<Record>)
    requires ConfigOk(c) && Append(c, file, records).Ok?
    ensures |file| <= |Append(c, file, records).value|
  {
  }

  /** The first pages of a file are a file. */
  lemma KeptPages(c: Config, file: Bytes, pages: seq<seq<Record>>, n: nat)
    requires ConfigOk(c) && Stores(c, file, pages) && n <= |pages|
    ensures Times(n, c.pageSize) <= |file| && Stores(c, file[..Times(n, c.pageSize)], pages[..n])
  {
    hide Block;
    assert pages == pages[..n] + pages[n..];
    BlocksSplit(c, 0, pages[..n], pages[n..]);
    BlocksLength(c, 0, pages[..n]);
  }

  /** A record of its own, as the engine writes each commit, is there whole or not at all. */
  lemma OneRecordAppendIsAtomic(c: Config, file: Bytes, pages: seq<seq<Record>>, record: Record, cut: nat)
    requires ConfigOk(c) && Stores(c, file, pages) && Append(c, file, [record]).Ok?
    requires |file| + cut <= |Append(c, file, [record]).value| && |Flatten(pages)| + 1 < Limit(8)
    ensures var torn := Append(c, file, [record]).value[..|file| + cut];
      && Opened(c, torn, true).Ok?
      && ScanFrom(c, Opened(c, torn, true).value, 0)
         == Ok(if cut < c.pageSize then Flatten(pages) else Flatten(pages) + [record])
  {
    hide Append, ScanFrom, Opened, Stores, Paginate, Limit, Whole, Rest;
    TornAppend(c, file, pages, [record], cut);
    OneRecordOnePage(c, record);
    var whole := Whole(cut, c.pageSize);
    if cut < c.pageSize {
      BelowOnePage(cut, c.pageSize);
      assert [[record]][..0] == [] && Flatten(pages) + Flatten([]) == Flatten(pages);
    } else {
      WholePages(1, cut - c.pageSize, c.pageSize);
      assert Times(1, c.pageSize) == Times(0, c.pageSize) + c.pageSize;
      assert [[record]][..whole] == [[record]] && Flatten([[record]][1..]) == [];
      assert [record] + [] == [record];
    }
  }

  /** Opening it with tail recovery gives back the old file or the new one, byte for byte. */
  lemma OneRecordOpens(c: Config, file: Bytes, pages: seq<seq<Record>>, record: Record, cut: nat)
    requires ConfigOk(c) && Stores(c, file, pages) && Append(c, file, [record]).Ok?
    requires |file| + cut <= |Append(c, file, [record]).value|
    ensures var full := Append(c, file, [record]).value;
      Opened(c, full[..|file| + cut], true) == Ok(if cut < c.pageSize then file else full)
  {
    hide ScanFrom, Paginate, Limit, Whole, Rest, Times, Stores, Opened, Append;
    var full, size := Append(c, file, [record]).value, c.pageSize;
    AppendStores(c, file, pages, [record]);
    OneRecordOnePage(c, record);
    StoresFacts(c, file, pages);
    StoresFacts(c, full, pages + [[record]]);
    TimesAdd(|pages|, 1, size);
    TornFile(c, full, |pages|, cut);
    AppendExtends(c, file, [record]);
    OnePage(size);
    if cut < size {
      BelowOnePage(cut, size);
      assert full[..|file|] == file;
    } else {
      BelowOnePage(0, size);
      WholePages(1, 0, size);
      assert cut == size && full[..|full|] == full;
    }
  }

  lemma OnePage(size: nat)
    ensures Times(1, size) == size
  {
    assert Times(0, size) == 0;
  }

  lemma AppendExtends(c: Config, file: Bytes, records: seq<Record>)
    requires ConfigOk(c) && Append(c, file, records).Ok?
    ensures file <= Append(c, file, records).value
  {
  }

  /** checkpoint: the replacement file holds just the given records; until it replaces the old file,
      nothing has changed. */
  lemma CheckpointHolds(c: Config, records: seq<Record>)
    requires ConfigOk(c) && |records| < Limit(8)
    ensures Append(c, [], records).Ok? <==> Fits(c, records)
    ensures Append(c, [], records).Ok? ==> ScanFrom(c, Append(c, [], records).value, 0) == Ok(records)
  {
    if Append(c, [], records).Ok? {
      var pages := Paginate([], records, Capacity(c));
      AppendStores(c, [], [], records);
      assert [] + pages == pages && Flatten([]) + records == records;
      PagesBelowRecords(c, pages);
      StoresFacts(c, Append(c, [], records).value, pages);
    }
  }
}
