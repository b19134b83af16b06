/** Durable index images (novadb/durable_index.py): a B+ tree's entries on as many slotted pages as they
    need, and the tree loaded back from them. */
module DurableIndex {
  import opened Bytes
  import opened BTree
  import opened SlottedPage

  datatype Option<T> = None | Some(value: T)

  /** The JSON text of an index entry, and its parse; the page size and checksum of the file. */
  datatype Format = Format(encode: Entry -> Bytes, decode: Bytes -> Option<Entry>, pageSize: nat, crc: Bytes -> nat)

  ghost predicate FormatOk(f: Format) {
    f.pageSize > HeaderSize + SlotSize && forall b :: f.crc(b) < Limit(4)
  }

  /** The texts of these entries parse back. */
  ghost predicate Reads(f: Format, entries: seq<Entry>) {
    forall e | e in entries :: f.decode(f.encode(e)) == Some(e)
  }

  // ---------------------------------------------------------------- saving

  function NewPage(f: Format, id: nat): Page {
    Page(id, f.pageSize, [])
  }

  /** The loop of save: `page` is being filled, `done` are the full ones. Err if an entry fits no page. */
  function Fill(f: Format, done: seq<Page>, page: Page, entries: seq<Entry>): Result<seq<Page>>
    decreases |entries|
  {
    if entries == [] then Ok(if page.records != [] || done == [] then done + [page] else done)
    else
      var record := f.encode(entries[0]);
      if Insert(page, record).Ok? then Fill(f, done, Insert(page, record).value, entries[1..])
      else if page.records == [] then Err
      else
        var next := Insert(NewPage(f, |done| + 1), record);
        if next.Err? then Err else Fill(f, done + [page], next.value, entries[1..])
  }

  /** The second page's first record would not have gone on the first. */
  predicate Overflows(page: Page, next: Page) {
    next.records != [] && FreeSpace(page) < Length(next.records[0]) + SlotSize
  }

  /** From page `from` on: numbered by their places, and none started while the next entry still fit the one before. */
  predicate Tight(pages: seq<Page>, from: nat) {
    forall i | from < i < |pages| :: pages[i].id == i && Overflows(pages[i - 1], pages[i])
  }

  lemma TightFrom(pages: seq<Page>, from: nat)
    requires Tight(pages, from + 1)
    requires from + 1 < |pages| && pages[from + 1].id == from + 1 && Overflows(pages[from], pages[from + 1])
    ensures Tight(pages, from)
  {
  }

  /** No page is started while the next entry still fits the last one. */
  lemma {:induction false} FillIsGreedy(f: Format, done: seq<Page>, page: Page, entries: seq<Entry>)
    requires Fill(f, done, page, entries).Ok? && (page.records != [] || done == [])
    ensures var pages := Fill(f, done, page, entries).value;
      && |pages| > |done| && pages[..|done|] == done && pages[|done|].id == page.id && page.records <= pages[|done|].records
      && Tight(pages, |done|)
    decreases |entries|
  {
    hide Tight, Overflows, FreeSpace;
    if entries == [] {
      NothingAfter(done + [page], |done|);
    } else {
      var record := f.encode(entries[0]);
      if Insert(page, record).Ok? {
        FillIsGreedy(f, done, Insert(page, record).value, entries[1..]);
      } else {
        var next := Insert(NewPage(f, |done| + 1), record).value;
        FillIsGreedy(f, done + [page], next, entries[1..]);
        StartedNext(f, done, page, record, next, Fill(f, done + [page], next, entries[1..]).value);
      }
    }
  }

  lemma NothingAfter(pages: seq<Page>, from: nat)
    requires |pages| <= from + 1
    ensures Tight(pages, from)
  {
  }

  lemma StartedNext(f: Format, done: seq<Page>, page: Page, record: Bytes, next: Page, pages: seq<Page>)
    requires Insert(page, record).Err? && Insert(NewPage(f, |done| + 1), record) == Ok(next)
    requires |pages| > |done| + 1 && pages[..|done| + 1] == done + [page] && pages[|done| + 1].id == next.id
    requires next.records <= pages[|done| + 1].records && Tight(pages, |done| + 1)
    ensures pages[..|done|] == done && pages[|done|] == page && Tight(pages, |done|)
  {
    hide Tight, Overflows, FreeSpace;
    var first := pages[..|done| + 1];
    assert first[|done|] == page && first[..|done|] == done;
    StartedFor(page, record, pages[|done| + 1]);
    TightFrom(pages, |done|);
  }

  lemma StartedFor(page: Page, record: Bytes, next: Page)
    requires record != [] && Insert(page, record).Err? && [Full(record)] <= next.records
    ensures Overflows(page, next)
  {
    assert next.records[0] == Full(record);
  }

  function Image(f: Format, pages: seq<Page>): Result<Bytes>
    requires forall page | page in pages :: PageOk(page)
  {
    if pages == [] then Ok([])
    else if ToBytes(pages[0], f.crc).Err? then Err
    else
      match Image(f, pages[1..])
      case Err => Err
      case Ok(rest) => Ok(ToBytes(pages[0], f.crc).value + rest)
  }

  /** Every page is sound, numbered by its place, and holds only non-empty records. */
  ghost predicate PagesOk(f: Format, pages: seq<Page>, first: nat) {
    forall i | 0 <= i < |pages| ::
      && PageOk(pages[i]) && pages[i].size == f.pageSize && pages[i].id == first + i
      && Empty !in pages[i].records && Full([]) !in pages[i].records
  }

  function Stored(pages: seq<Page>): seq<Slot> {
    if pages == [] then [] else pages[0].records + Stored(pages[1..])
  }

  function Encoded(f: Format, entries: seq<Entry>): seq<Slot> {
    seq(|entries|, i requires 0 <= i < |entries| => Full(f.encode(entries[i])))
  }

  lemma {:induction false} StoredSplit(a: seq<Page>, b: seq<Page>)
    ensures Stored(a + b) == Stored(a) + Stored(b)
  {
    if a == [] {
      assert a + b == b;
    } else {
      assert (a + b)[1..] == a[1..] + b;
      StoredSplit(a[1..], b);
    }
  }

  lemma StoredOne(page: Page)
    ensures Stored([page]) == page.records
  {
    assert Stored([page][1..]) == [];
  }

  lemma EncodedFirst(f: Format, entries: seq<Entry>)
    requires entries != []
    ensures Encoded(f, entries) == [Full(f.encode(entries[0]))] + Encoded(f, entries[1..])
  {
  }

  lemma NothingEncoded(f: Format)
    ensures Encoded(f, []) == []
  {
  }

  lemma InsertOk(page: Page, record: Bytes)
    requires PageOk(page) && Insert(page, record).Ok?
    requires Empty !in page.records && Full([]) !in page.records
    ensures var p := Insert(page, record).value;
      && PageOk(p) && p.size == page.size && p.id == page.id && p.records == page.records + [Full(record)]
      && Empty !in p.records && Full([]) !in p.records
  {
    assert (page.records + [Full(record)])[..|page.records|] == page.records;
  }

  lemma LastPage(f: Format, done: seq<Page>, page: Page)
    requires PagesOk(f, done + [page], 0)
    ensures PageOk(page) && page.size == f.pageSize && page.id == |done| && Empty !in page.records && Full([]) !in page.records
    ensures PagesOk(f, done, 0)
  {
    assert (done + [page])[|done|] == page;
    assert forall i | 0 <= i < |done| :: done[i] == (done + [page])[i];
  }

  /** A fresh page takes the record that did not fit the last one. */
  lemma FreshPage(f: Format, id: nat, record: Bytes)
    requires FormatOk(f) && Insert(NewPage(f, id), record).Ok?
    ensures var p := Insert(NewPage(f, id), record).value;
      PageOk(p) && p.size == f.pageSize && p.id == id && p.records == [Full(record)] && Empty !in p.records && Full([]) !in p.records
  {
    InsertOk(NewPage(f, id), record);
  }

  lemma {:induction false} FillOk(f: Format, done: seq<Page>, page: Page, entries: seq<Entry>)
    requires FormatOk(f) && PagesOk(f, done + [page], 0) && Fill(f, done, page, entries).Ok?
    ensures var pages := Fill(f, done, page, entries).value;
      pages != [] && PagesOk(f, pages, 0) && Stored(pages) == Stored(done + [page]) + Encoded(f, entries)
    decreases |entries|
  {
    hide PagesOk, Insert, Stored, Encoded, PageOk;
    StoredSplit(done, [page]);
    StoredOne(page);
    LastPage(f, done, page);
    if entries == [] {
      NothingEncoded(f);
      assert Stored(done + [page]) + [] == Stored(done + [page]) && Stored(done) + [] == Stored(done);
    } else {
      var record, rest := f.encode(entries[0]), entries[1..];
      EncodedFirst(f, entries);
      if Insert(page, record).Ok? {
        var p := Insert(page, record).value;
        InsertOk(page, record);
        NextFill(f, done, page, p);
        FillOk(f, done, p, rest);
        Regrouped(Stored(done), page.records, Full(record), Encoded(f, rest));
        StoredSplit(done, [p]);
        StoredOne(p);
      } else {
        var p := Insert(NewPage(f, |done| + 1), record).value;
        FreshPage(f, |done| + 1, record);
        NextPage(f, done, page, p);
        FillOk(f, done + [page], p, rest);
        StoredSplit(done + [page], [p]);
        StoredOne(p);
        Regrouped(Stored(done + [page]), [], Full(record), Encoded(f, rest));
        assert [] + [Full(record)] == [Full(record)] && Stored(done + [page]) + [] == Stored(done + [page]);
      }
    }
  }

  lemma Regrouped(a: seq<Slot>, b: seq<Slot>, x: Slot, c: seq<Slot>)
    ensures (a + (b + [x])) + c == (a + b) + ([x] + c)
  {
  }

  lemma NextFill(f: Format, done: seq<Page>, page: Page, p: Page)
    requires PagesOk(f, done + [page], 0)
    requires PageOk(p) && p.size == page.size && p.id == page.id && Empty !in p.records && Full([]) !in p.records
    ensures PagesOk(f, done + [p], 0)
  {
    assert (done + [page])[|done|] == page;
    forall i | 0 <= i < |done| + 1 ensures i < |done| ==> (done + [p])[i] == (done + [page])[i] {
    }
  }

  lemma NextPage(f: Format, done: seq<Page>, page: Page, p: Page)
    requires PagesOk(f, done + [page], 0)
    requires PageOk(p) && p.size == f.pageSize && p.id == |done| + 1 && Empty !in p.records && Full([]) !in p.records
    ensures PagesOk(f, done + [page] + [p], 0)
  {
    forall i | 0 <= i < |done| + 2 ensures i < |done| + 1 ==> (done + [page] + [p])[i] == (done + [page])[i] {
    }
  }

  /** save, up to the file's bytes. */
  function Save(f: Format, entries: seq<Entry>): Result<Bytes>
    requires FormatOk(f)
  {
    var pages := Fill(f, [], NewPage(f, 0), entries);
    if pages.Err? then Err
    else
      FirstPage(f);
      FillOk(f, [], NewPage(f, 0), entries);
      Image(f, pages.value)
  }

  lemma FirstPage(f: Format)
    requires FormatOk(f)
    ensures PagesOk(f, [] + [NewPage(f, 0)], 0) && Stored([] + [NewPage(f, 0)]) == []
  {
    StoredOne(NewPage(f, 0));
    assert [] + [NewPage(f, 0)] == [NewPage(f, 0)];
  }

  // ---------------------------------------------------------------- loading

  /** The pages of the file from page `id` on; Err for a partial, unreadable or misplaced page. */
  function LoadSlots(f: Format, rest: Bytes, id: nat): Result<seq<Slot>>
    requires f.pageSize > 0
    decreases |rest|
  {
    if rest == [] then Ok([])
    else if |rest| < f.pageSize then Err
    else
      var page := FromBytes(rest[..f.pageSize], f.pageSize, f.crc);
      if page.Err? || page.value.id != id then Err
      else
        match LoadSlots(f, rest[f.pageSize..], id + 1)
        case Err => Err
        case Ok(more) => Ok(page.value.records + more)
  }

  /** A page at another place than its own is refused. */
  lemma MisplacedIsRefused(f: Format, page: Page, rest: Bytes, id: nat)
    requires FormatOk(f) && PageOk(page) && page.size == f.pageSize && ToBytes(page, f.crc).Ok? && page.id != id
    ensures LoadSlots(f, ToBytes(page, f.crc).value + rest, id).Err?
  {
    hide Body, Layout;
    var data := ToBytes(page, f.crc).value;
    HeaderFields(page, f.crc(Body(page)), Body(page));
    assert (data + rest)[..f.pageSize] == data;
    assert FromBytes(data, f.pageSize, f.crc).Ok? ==> FromBytes(data, f.pageSize, f.crc).value.id == page.id by {
      hide SlotsOk, Decoded, Unpack, PageOk, Encodes;
    }
  }

  function DecodeSlots(f: Format, slots: seq<Slot>): Result<seq<Entry>>
    decreases |slots|
  {
    if slots == [] then Ok([])
    else if slots[0].Empty? then DecodeSlots(f, slots[1..])
    else if f.decode(slots[0].record).None? then Err
    else
      match DecodeSlots(f, slots[1..])
      case Err => Err
      case Ok(more) => Ok([f.decode(slots[0].record).value] + more)
  }

  /** The entries of an existing file. */
  function LoadEntries(f: Format, file: Bytes): Result<seq<Entry>>
    requires f.pageSize > 0
  {
    if file == [] || LoadSlots(f, file, 0).Err? then Err else DecodeSlots(f, LoadSlots(f, file, 0).value)
  }

  lemma {:induction false} ImageLoads(f: Format, pages: seq<Page>, first: nat)
    requires FormatOk(f) && PagesOk(f, pages, first)
    requires (forall page | page in pages :: PageOk(page)) && Image(f, pages).Ok?
    ensures |Image(f, pages).value| >= |pages| && LoadSlots(f, Image(f, pages).value, first) == Ok(Stored(pages))
    decreases |pages|
  {
    hide FromBytes, ToBytes;
    if pages != [] {
      var page := pages[0];
      assert page in pages && pages[0].id == first + 0;
      PageReads(f, page);
      var bytes, rest := ToBytes(page, f.crc).value, Image(f, pages[1..]).value;
      assert (bytes + rest)[..f.pageSize] == bytes && (bytes + rest)[f.pageSize..] == rest;
      forall i | 0 <= i < |pages| - 1 ensures pages[1..][i] == pages[i + 1] {
      }
      ImageLoads(f, pages[1..], first + 1);
    }
  }

  lemma PageReads(f: Format, page: Page)
    requires FormatOk(f) && PageOk(page) && page.size == f.pageSize && Full([]) !in page.records && ToBytes(page, f.crc).Ok?
    ensures |ToBytes(page, f.crc).value| == f.pageSize && FromBytes(ToBytes(page, f.crc).value, f.pageSize, f.crc) == Ok(page)
  {
    RoundTrip(page, f.crc);
  }

  lemma {:induction false} EncodedDecodes(f: Format, entries: seq<Entry>)
    requires Reads(f, entries)
    ensures DecodeSlots(f, Encoded(f, entries)) == Ok(entries)
  {
    if entries != [] {
      assert entries[0] in entries && Reads(f, entries[1..]);
      EncodedFirst(f, entries);
      EncodedDecodes(f, entries[1..]);
      assert Encoded(f, entries)[1..] == Encoded(f, entries[1..]);
      assert entries == [entries[0]] + entries[1..];
    }
  }

  /** Whatever the entries and however many pages they take, what was saved loads back as it was. */
  lemma SavedLoads(f: Format, entries: seq<Entry>)
    requires FormatOk(f) && Reads(f, entries) && Save(f, entries).Ok?
    ensures LoadEntries(f, Save(f, entries).value) == Ok(entries)
  {
    var pages := Fill(f, [], NewPage(f, 0), entries).value;
    FirstPage(f);
    FillOk(f, [], NewPage(f, 0), entries);
    ImageLoads(f, pages, 0);
    assert [] + Encoded(f, entries) == Encoded(f, entries);
    EncodedDecodes(f, entries);
  }

  /** An entry whose text is not empty and fits an empty page. */
  predicate EntryFits(f: Format, e: Entry) {
    0 < |f.encode(e)| && |f.encode(e)| + SlotSize <= f.pageSize - HeaderSize
  }

  lemma {:induction false} FillSucceeds(f: Format, done: seq<Page>, page: Page, entries: seq<Entry>)
    requires FormatOk(f) && page.size == f.pageSize && (page.records == [] ==> page == NewPage(f, page.id))
    ensures (forall e | e in entries :: EntryFits(f, e)) ==>
      (Fill(f, done, page, entries).Ok? && |Fill(f, done, page, entries).value| <= |done| + 1 + |entries|)
    decreases |entries|
  {
    if entries != [] && forall e | e in entries :: EntryFits(f, e) {
      assert EntryFits(f, entries[0]);
      var record := f.encode(entries[0]);
      assert forall e | e in entries[1..] :: e in entries;
      if Insert(page, record).Ok? {
        FillSucceeds(f, done, Insert(page, record).value, entries[1..]);
      } else {
        FillSucceeds(f, done + [page], Insert(NewPage(f, |done| + 1), record).value, entries[1..]);
      }
    }
  }

  lemma {:induction false} ImageSucceeds(f: Format, pages: seq<Page>, first: nat)
    requires FormatOk(f) && f.pageSize < Limit(2) && PagesOk(f, pages, first) && first + |pages| < Limit(8)
    requires forall page | page in pages :: PageOk(page)
    ensures Image(f, pages).Ok?
    decreases |pages|
  {
    if pages != [] {
      assert pages[0].id == first + 0;
      SmallPagesEncode(pages[0]);
      forall i | 0 <= i < |pages| - 1 ensures pages[1..][i] == pages[i + 1] {
      }
      ImageSucceeds(f, pages[1..], first + 1);
    }
  }

  /** Saving only fails where an entry fits no page, given pages that 16-bit offsets can address. */
  lemma SaveSucceeds(f: Format, entries: seq<Entry>)
    requires FormatOk(f) && f.pageSize < Limit(2) && |entries| + 1 < Limit(8)
    requires forall e | e in entries :: EntryFits(f, e)
    ensures Save(f, entries).Ok?
  {
    FillSucceeds(f, [], NewPage(f, 0), entries);
    FirstPage(f);
    FillOk(f, [], NewPage(f, 0), entries);
    ImageSucceeds(f, Fill(f, [], NewPage(f, 0), entries).value, 0);
  }

  // ---------------------------------------------------------------- trees

  /** The pairs of a listing's entries. */
  ghost function PairsOf(entries: seq<Entry>): set<Pair> {
    if entries == [] then {}
    else
      var last := entries[|entries| - 1];
      PairsOf(entries[..|entries| - 1]) + PairsOfEntry(last.0, last.1)
  }

  ghost function PairsOfEntry(key: Key, positions: seq<int>): set<Pair> {
    set p | p in positions :: (key, p)
  }

  lemma {:induction false} PairsOfMember(entries: seq<Entry>, k: Key, p: int)
    ensures (k, p) in PairsOf(entries) <==> exists i :: 0 <= i < |entries| && entries[i].0 == k && p in entries[i].1
  {
    if entries != [] {
      var last := |entries| - 1;
      var fewer := entries[..last];
      PairsOfMember(fewer, k, p);
      assert (k, p) in PairsOfEntry(entries[last].0, entries[last].1) <==> entries[last].0 == k && p in entries[last].1;
      if i :| 0 <= i < |fewer| && fewer[i].0 == k && p in fewer[i].1 {
        assert entries[i].0 == k && p in entries[i].1;
      }
      if i :| 0 <= i < |entries| && entries[i].0 == k && p in entries[i].1 {
        assert i < last ==> fewer[i].0 == k && p in fewer[i].1;
      }
    }
  }

  /** The pairs of a relation's listing are the relation. */
  lemma ListingPairs(entries: seq<Entry>, s: set<Pair>)
    requires Lists(entries, s)
    ensures PairsOf(entries) == s
  {
    forall k, p ensures (k, p) in PairsOf(entries) <==> (k, p) in s {
      PairsOfMember(entries, k, p);
      if (k, p) in s {
        assert HasKey(entries, k);
        var i :| 0 <= i < |entries| && entries[i].0 == k;
        assert p in entries[i].1 <==> (entries[i].0, p) in s;
      }
    }
    forall pair ensures pair in PairsOf(entries) <==> pair in s {
      var (k, p) := pair;
      assert (k, p) in PairsOf(entries) <==> (k, p) in s;
    }
  }

  /** Bytes already written, then those still to come. */
  function Written(bytes: Bytes, rest: Result<Bytes>): Result<Bytes> {
    match rest
    case Err => Err
    case Ok(more) => Ok(bytes + more)
  }

  lemma WrittenTwice(a: Bytes, b: Bytes, rest: Result<Bytes>)
    ensures Written(a, Written(b, rest)) == Written(a + b, rest) && Written([], rest) == rest
  {
    if rest.Ok? {
      assert a + (b + rest.value) == (a + b) + rest.value && [] + rest.value == rest.value;
    }
  }

  /** The index file and its saving, loading and checking. */
  class DurableBPlusTree {
    const format: Format
    const maxKeys: nat
    var file: Option<Bytes>

    constructor (format: Format, maxKeys: nat)
      ensures this.format == format && this.maxKeys == maxKeys && file == None
    {
      this.format, this.maxKeys, file := format, maxKeys, None;
    }

    /** save: the file is replaced at the very end, so a refusal leaves it as it was. */
    method SaveTree(tree: BPlusTree) returns (ok: bool, ghost listing: seq<Entry>)
      requires FormatOk(format) && tree.Valid()
      modifies this
      ensures Lists(listing, tree.pairs) && (ok <==> Save(format, listing).Ok?)
      ensures file == if ok then Some(Save(format, listing).value) else old(file)
    {
      var entries := tree.Items();
      listing := entries;
      var pages := FillPages(entries);
      ok := pages.Ok?;
      if ok {
        FirstPage(format);
        FillOk(format, [], NewPage(format, 0), entries);
        var image := WritePages(pages.value);
        ok := image.Ok?;
        if ok {
          file := Some(image.value);
        }
      }
    }

    method FillPages(entries: seq<Entry>) returns (r: Result<seq<Page>>)
      requires FormatOk(format)
      ensures r == Fill(format, [], NewPage(format, 0), entries)
    {
      var pages: seq<Page> := [];
      var page := NewPage(format, 0);
      assert entries[0..] == entries;
      for i := 0 to |entries|
        invariant Fill(format, [], NewPage(format, 0), entries) == Fill(format, pages, page, entries[i..])
      {
        var record := format.encode(entries[i]);
        assert entries[i..][0] == entries[i] && entries[i..][1..] == entries[i + 1..];
        var inserted := Insert(page, record);
        if inserted.Ok? {
          page := inserted.value;
        } else if page.records == [] {
          return Err;
        } else {
          pages := pages + [page];
          inserted := Insert(NewPage(format, |pages|), record);
          if inserted.Err? {
            return Err;
          }
          page := inserted.value;
        }
      }
      if page.records != [] || pages == [] {
        pages := pages + [page];
      }
      r := Ok(pages);
    }

    method WritePages(pages: seq<Page>) returns (r: Result<Bytes>)
      requires forall page | page in pages :: PageOk(page)
      ensures r == Image(format, pages)
    {
      hide ToBytes;
      var bytes: Bytes := [];
      assert pages[0..] == pages;
      WrittenTwice([], [], Image(format, pages));
      for i := 0 to |pages|
        invariant forall page | page in pages[i..] :: PageOk(page)
        invariant Image(format, pages) == Written(bytes, Image(format, pages[i..]))
      {
        assert pages[i..][0] == pages[i] && pages[i..][1..] == pages[i + 1..] && pages[i] in pages;
        var encoded := ToBytes(pages[i], format.crc);
        if encoded.Err? {
          return Err;
        }
        WrittenTwice(bytes, encoded.value, Image(format, pages[i + 1..]));
        bytes := bytes + encoded.value;
      }
      assert bytes + [] == bytes;
      r := Ok(bytes);
    }

    /** load: a missing file is an empty tree, an unreadable one an error. */
    method LoadTree() returns (r: Result<BPlusTree>)
      requires FormatOk(format) && maxKeys >= 3
      ensures r.Ok? <==> file.None? || LoadEntries(format, file.value).Ok?
      ensures r.Ok? ==> fresh(r.value) && fresh(r.value.Repr) && r.value.Valid()
      ensures r.Ok? ==> r.value.pairs == if file.None? then {} else PairsOf(LoadEntries(format, file.value).value)
    {
      hide BPlusTree.Valid;
      var tree := new BPlusTree(maxKeys);
      if file.None? {
        return Ok(tree);
      }
      var entries := LoadEntries(format, file.value);
      if entries.Err? {
        return Err;
      }
      for i := 0 to |entries.value|
        invariant fresh(tree) && fresh(tree.Repr) && tree.Valid() && tree.pairs == PairsOf(entries.value[..i])
      {
        var (key, positions) := entries.value[i];
        InsertAll(tree, key, positions);
        assert entries.value[..i + 1][..i] == entries.value[..i];
      }
      assert entries.value[..|entries.value|] == entries.value;
      r := Ok(tree);
    }

    method InsertAll(tree: BPlusTree, key: Key, positions: seq<int>)
      requires tree.Valid()
      modifies tree, tree.Repr
      ensures tree.Valid() && fresh(tree.Repr - old(tree.Repr)) && tree.pairs == old(tree.pairs) + PairsOfEntry(key, positions)
    {
      hide BPlusTree.Valid;
      for j := 0 to |positions|
        invariant tree.Valid() && fresh(tree.Repr - old(tree.Repr))
        invariant tree.pairs == old(tree.pairs) + PairsOfEntry(key, positions[..j])
      {
        tree.Insert(key, positions[j]);
        assert positions[..j + 1] == positions[..j] + [positions[j]];
        assert PairsOfEntry(key, positions[..j + 1]) == PairsOfEntry(key, positions[..j]) + {(key, positions[j])};
      }
      assert positions[..|positions|] == positions;
    }

    /** verify: whether the file loads to just what the tree holds. */
    method Verify(tree: BPlusTree) returns (same: bool)
      requires FormatOk(format) && maxKeys >= 3 && tree.Valid()
      ensures same <==>
        (if file.None? then tree.pairs == {} else LoadEntries(format, file.value).Ok? && PairsOf(LoadEntries(format, file.value).value) == tree.pairs)
    {
      var loaded := LoadTree();
      if loaded.Err? {
        return false;
      }
      var x := loaded.value.Items();
      var y := tree.Items();
      ListingPairs(x, loaded.value.pairs);
      ListingPairs(y, tree.pairs);
      if loaded.value.pairs == tree.pairs {
        ListingUnique(x, y, tree.pairs);
      }
      same := x == y;
    }

    /** Saved and loaded, a tree holds what it held; what Verify asks of the file then holds of it. */
    method SaveThenLoad(tree: BPlusTree) returns (ok: bool, loaded: Result<BPlusTree>)
      requires FormatOk(format) && maxKeys >= 3 && tree.Valid()
      requires forall listing | Lists(listing, tree.pairs) :: Reads(format, listing)
      modifies this
      ensures ok ==> loaded.Ok? && loaded.value.Valid() && loaded.value.pairs == tree.pairs
      ensures ok ==> file.Some? && LoadEntries(format, file.value).Ok? && PairsOf(LoadEntries(format, file.value).value) == tree.pairs
      ensures !ok ==> file == old(file)
    {
      ghost var listing;
      ok, listing := SaveTree(tree);
      if ok {
        SavedLoads(format, listing);
        ListingPairs(listing, tree.pairs);
      }
      loaded := LoadTree();
    }
  }
}
