/** The SlottedPage object of novadb/slotted_page.py: its record list, and its byte buffer filled in place. */
module SlottedPageMachine {
  import opened Bytes
  import opened SlottedPage

  class SlottedPageObject {
    const id: nat
    const size: nat
    var records: seq<Slot>

    function Model(): Page
      reads this
    {
      Page(id, size, records)
    }

    constructor (id: nat, size: nat, records: seq<Slot>)
      requires Make(id, size, records).Ok?
      ensures PageOk(Model()) && Make(id, size, records) == Ok(Model())
    {
      this.id, this.size, this.records := id, size, records;
    }

    /** free_space: one pass over the records. */
    method Space() returns (space: int)
      ensures space == FreeSpace(Model())
    {
      var used := 0;
      for i := 0 to |records|
        invariant used == Used(records[..i])
      {
        assert records[..i + 1][..i] == records[..i];
        used := used + Length(records[i]);
      }
      assert records[..|records|] == records;
      space := size - HeaderSize - |records| * 4 - used;
    }

    method InsertRecord(record: Bytes) returns (r: Result<nat>)
      requires PageOk(Model())
      modifies this
      ensures PageOk(Model()) && (r.Ok? <==> Insert(old(Model()), record).Ok?)
      ensures if r.Ok? then Insert(old(Model()), record) == Ok(Model()) && r.value == |old(records)| else records == old(records)
    {
      if record == [] {
        return Err;
      }
      var space := Space();
      if space < |record| + SlotSize {
        return Err;
      }
      assert (records + [Full(record)])[..|records|] == records;
      records := records + [Full(record)];
      r := Ok(|records| - 1);
    }

    method DeleteSlot(slot: nat) returns (ok: bool)
      requires PageOk(Model())
      modifies this
      ensures PageOk(Model()) && (ok <==> Delete(old(Model()), slot).Ok?)
      ensures if ok then Delete(old(Model()), slot) == Ok(Model()) else records == old(records)
    {
      if slot >= |records| || records[slot].Empty? {
        return false;
      }
      UsedWithout(records, slot);
      records := records[slot := Empty];
      ok := true;
    }

    /** compact: tombstones go, and with them the old slot numbers. */
    method CompactSlots() returns (removed: nat)
      requires PageOk(Model())
      modifies this
      ensures PageOk(Model()) && Model() == Compact(old(Model())) && removed == |old(records)| - |records|
    {
      var live: seq<Slot> := [];
      removed := 0;
      for i := 0 to |records|
        invariant live == Live(records[..i]) && removed == i - |live| && records == old(records)
      {
        assert records[..i + 1][..i] == records[..i];
        if records[i].Full? {
          live := live + [records[i]];
        } else {
          removed := removed + 1;
        }
      }
      assert records[..|records|] == records;
      LiveUsed(records);
      records := live;
    }

    /** to_bytes: the buffer is filled from both ends. */
    method Encode(crc: Bytes -> nat) returns (r: Result<Bytes>)
      requires PageOk(Model())
      ensures r == ToBytes(Model(), crc)
    {
      var body := new Byte[size - HeaderSize](i => 0);
      assert body[..] == Zeros(size - HeaderSize);
      FillHeap(Model(), body);
      if !Encodes(Model()) {
        return Err;
      }
      FillTable(Model(), body);
      r := Ok(Layout(Model(), crc(body[..]), body[..]));
    }
  }

  /** The records go in from the end of the buffer. */
  method FillHeap(page: Page, body: array<Byte>)
    requires PageOk(page) && body.Length == page.size - HeaderSize && body[..] == Zeros(page.size - HeaderSize)
    modifies body
    ensures body[..] == Zeros(page.size - HeaderSize - Used(page.records)) + Heap(page.records)
  {
    hide Zeros, Heap, Used, Limit, PageOk;
    var records, freeEnd := page.records, page.size;
    NothingUsed(page);
    Room(page);
    for i := 0 to |records|
      invariant freeEnd == page.size - Used(records[..i]) >= HeaderSize
      invariant body[..] == Zeros(freeEnd - HeaderSize) + Heap(records[..i])
    {
      UsedPrefix(records, i + 1);
      HeapSplit(records[..i + 1]);
      assert records[..i + 1][..i] == records[..i];
      if records[i].Full? {
        freeEnd := freeEnd - |records[i].record|;
        PutRecord(body, freeEnd - HeaderSize, records[i].record, Heap(records[..i]));
      } else {
        assert [] + Heap(records[..i]) == Heap(records[..i]);
      }
    }
    assert records[..|records|] == records;
  }

  lemma NothingUsed(page: Page)
    requires PageOk(page)
    ensures page.size >= HeaderSize && Used(page.records[..0]) == 0
    ensures Zeros(page.size - HeaderSize) + Heap(page.records[..0]) == Zeros(page.size - HeaderSize)
  {
  }

  lemma Room(page: Page)
    requires PageOk(page)
    ensures Used(page.records) + |page.records| * 4 <= page.size - HeaderSize
  {
  }

  method PutRecord(body: array<Byte>, at: nat, record: Bytes, ghost heap: Bytes)
    requires body[..] == Zeros(at + |record|) + heap
    modifies body
    ensures body[..] == Zeros(at) + (record + heap)
  {
    ghost var before := body[..];
    assert |body[..]| == body.Length;
    CopyInto(body, at, record);
    Overlaid(before, at, record, heap);
  }

  lemma Overlaid(before: Bytes, at: nat, record: Bytes, heap: Bytes)
    requires before == Zeros(at + |record|) + heap
    ensures before[..at] + record + before[at + |record|..] == Zeros(at) + (record + heap)
  {
  }

  method CopyInto(body: array<Byte>, at: nat, bytes: Bytes)
    requires at + |bytes| <= body.Length
    modifies body
    ensures body[..] == old(body[..at]) + bytes + old(body[at + |bytes|..])
  {
    for k := 0 to |bytes|
      invariant forall j | 0 <= j < body.Length :: body[j] == if at <= j < at + k then bytes[j - at] else old(body[j])
    {
      body[at + k] := bytes[k];
    }
  }

  /** The buffer with `i` slots in place and `gap` bytes still between slots and records. */
  ghost function Laid(page: Page, i: nat, gap: nat): Bytes
    requires PageOk(page) && i <= |page.records|
  {
    Table(page, i) + (Zeros(gap) + Heap(page.records))
  }

  /** The slot table goes in from the front. */
  method FillTable(page: Page, body: array<Byte>)
    requires PageOk(page) && body.Length == page.size - HeaderSize
    requires body[..] == Zeros(page.size - HeaderSize - Used(page.records)) + Heap(page.records)
    modifies body
    ensures body[..] == Body(page)
  {
    hide Laid, PageOk, Body;
    LaidEnds(page);
    ghost var gap: nat := page.size - HeaderSize - Used(page.records);
    for i := 0 to |page.records|
      invariant gap + 4 * i == page.size - HeaderSize - Used(page.records)
      invariant body[..] == Laid(page, i, gap)
    {
      PutEntry(page, body, i, gap);
      gap := gap - 4;
    }
  }

  lemma LaidEnds(page: Page)
    requires PageOk(page)
    ensures Used(page.records) + |page.records| * 4 <= page.size - HeaderSize
    ensures var gap := page.size - HeaderSize - Used(page.records);
      && Laid(page, 0, gap) == Zeros(gap) + Heap(page.records)
      && Laid(page, |page.records|, gap - 4 * |page.records|) == Body(page)
  {
  }

  method PutEntry(page: Page, body: array<Byte>, i: nat, ghost gap: nat)
    requires PageOk(page) && i < |page.records| && 4 <= gap && body[..] == Laid(page, i, gap)
    modifies body
    ensures body[..] == Laid(page, i + 1, gap - 4)
  {
    hide Zeros, Heap, Entry, Table, PageOk;
    TableOneMore(page, i);
    ghost var before := body[..];
    assert |body[..]| == body.Length;
    var entry := Entry(page, i);
    CopyInto(body, i * 4, entry);
    Tabled(before, Table(page, i), entry, gap, Heap(page.records));
  }

  lemma Tabled(before: Bytes, table: Bytes, entry: Bytes, gap: nat, heap: Bytes)
    requires |entry| <= gap && before == table + (Zeros(gap) + heap)
    ensures before[..|table|] + entry + before[|table| + |entry|..] == (table + entry) + (Zeros(gap - |entry|) + heap)
  {
  }

  /** from_bytes: the loop over the slots, with the set of places already taken. */
  method Decode(data: Bytes, size: nat, crc: Bytes -> nat) returns (r: Result<SlottedPageObject>)
    ensures r.Ok? <==> FromBytes(data, size, crc).Ok?
    ensures r.Ok? ==> fresh(r.value) && FromBytes(data, size, crc) == Ok(r.value.Model())
  {
    if |data| != size || size < HeaderSize {
      return Err;
    }
    var body := data[HeaderSize..];
    var count, freeStart, freeEnd := Unpack(data[16..18]), Unpack(data[18..20]), Unpack(data[20..22]);
    if data[..4] != Magic || data[4] != 1 || crc(body) != Unpack(data[22..26]) {
      return Err;
    }
    if freeStart != HeaderSize + count * 4 || freeEnd < freeStart || freeEnd > size {
      return Err;
    }
    var slots := DecodeSlots(body, size, freeStart, count);
    if slots.Err? {
      return Err;
    }
    assert slots.value == seq(count, i requires 0 <= i < count => Decoded(body, i));
    if Make(Unpack(data[8..16]), size, slots.value).Err? {
      return Err;
    }
    var page := new SlottedPageObject(Unpack(data[8..16]), size, slots.value);
    r := Ok(page);
  }

  /** One of the first `n` slots names the place. */
  ghost predicate Taken(body: Bytes, n: nat, place: (nat, nat))
    requires n * 4 <= |body|
  {
    exists j :: 0 <= j < n && SlotLength(body, j) != 0 && place == (SlotOffset(body, j), SlotLength(body, j))
  }

  lemma TakenOneMore(body: Bytes, n: nat, place: (nat, nat))
    requires (n + 1) * 4 <= |body|
    ensures Taken(body, n + 1, place)
      <==> (Taken(body, n, place) || (SlotLength(body, n) != 0 && place == (SlotOffset(body, n), SlotLength(body, n))))
  {
    hide Unpack;
  }

  lemma SlotsOneMore(body: Bytes, size: nat, freeStart: nat, n: nat)
    requires (n + 1) * 4 <= |body|
    ensures var offset, length := SlotOffset(body, n), SlotLength(body, n);
      SlotsOk(body, size, freeStart, n + 1) <==>
        (SlotsOk(body, size, freeStart, n)
         && (length == 0 || (freeStart <= offset && offset + length <= size && !Taken(body, n, (offset, length)))))
  {
    hide SlotOffset, SlotLength;
  }

  lemma {:induction false} SlotsFewer(body: Bytes, size: nat, freeStart: nat, n: nat, count: nat)
    requires n <= count && count * 4 <= |body| && SlotsOk(body, size, freeStart, count)
    ensures SlotsOk(body, size, freeStart, n)
  {
    hide SlotOffset, SlotLength;
  }

  method DecodeSlots(body: Bytes, size: nat, freeStart: nat, count: nat) returns (r: Result<seq<Slot>>)
    requires count * 4 <= |body| == size - HeaderSize && freeStart >= HeaderSize
    ensures r.Ok? <==> SlotsOk(body, size, freeStart, count)
    ensures r.Ok? ==> |r.value| == count && forall i | 0 <= i < count :: r.value[i] == Decoded(body, i)
  {
    hide SlotOffset, SlotLength, Taken;
    var records: seq<Slot> := [];
    var occupied: set<(nat, nat)> := {};
    NoSlots(body, size, freeStart);
    for i := 0 to count
      invariant |records| == i && SlotsOk(body, size, freeStart, i)
      invariant forall j | 0 <= j < i :: records[j] == Decoded(body, j)
      invariant forall place :: place in occupied <==> Taken(body, i, place)
    {
      var offset, length := SlotOffset(body, i), SlotLength(body, i);
      SlotsOneMore(body, size, freeStart, i);
      forall place ensures Taken(body, i + 1, place) <==> (Taken(body, i, place) || (length != 0 && place == (offset, length))) {
        TakenOneMore(body, i, place);
      }
      if length == 0 {
        records := records + [Empty];
      } else {
        if offset < freeStart || offset + length > size || (offset, length) in occupied {
          if SlotsOk(body, size, freeStart, count) { SlotsFewer(body, size, freeStart, i + 1, count); }
          return Err;
        }
        occupied := occupied + {(offset, length)};
        records := records + [Full(body[offset - HeaderSize..offset - HeaderSize + length])];
      }
    }
    r := Ok(records);
  }

  lemma NoSlots(body: Bytes, size: nat, freeStart: nat)
    ensures SlotsOk(body, size, freeStart, 0) && forall place :: !Taken(body, 0, place)
  {
  }
}
