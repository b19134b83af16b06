/** Slotted pages (novadb/slotted_page.py): a table of slots growing up, records growing down, tombstones kept. */
module SlottedPage {
  import opened Bytes

  /** A slot's record, or the tombstone a delete leaves. */
  datatype Slot = Empty | Full(record: Bytes)

  const HeaderSize: nat := 26
  /** A slot: a 16-bit offset and a 16-bit length. */
  const SlotSize: nat := 4
  const Magic: Bytes := [0x4E, 0x53, 0x50, 0x31]

  datatype Page = Page(id: nat, size: nat, records: seq<Slot>)

  function Length(slot: Slot): nat {
    if slot.Full? then |slot.record| else 0
  }

  function Used(records: seq<Slot>): nat {
    if records == [] then 0 else Used(records[..|records| - 1]) + Length(records[|records| - 1])
  }

  function FreeSpace(page: Page): int {
    page.size - HeaderSize - |page.records| * 4 - Used(page.records)
  }

  /** The constructor's check; None is a refusal. */
  function Make(id: nat, size: nat, records: seq<Slot>): Result<Page> {
    var page := Page(id, size, records);
    if size <= HeaderSize + SlotSize || FreeSpace(page) < 0 then Err else Ok(page)
  }

  predicate PageOk(page: Page) {
    page.size > HeaderSize + SlotSize && FreeSpace(page) >= 0
  }

  function Insert(page: Page, record: Bytes): Result<Page> {
    if record == [] || FreeSpace(page) < |record| + SlotSize then Err
    else Ok(page.(records := page.records + [Full(record)]))
  }

  function Delete(page: Page, slot: nat): Result<Page> {
    if slot >= |page.records| || page.records[slot].Empty? then Err
    else Ok(page.(records := page.records[slot := Empty]))
  }

  function Live(records: seq<Slot>): seq<Slot> {
    if records == [] then []
    else
      var last := |records| - 1;
      Live(records[..last]) + (if records[last].Full? then [records[last]] else [])
  }

  function Compact(page: Page): Page {
    page.(records := Live(page.records))
  }

  // ---------------------------------------------------------------- layout

  /** The records as they lie at the end of the page: the first one last. */
  function Heap(records: seq<Slot>): (r: Bytes)
    ensures |r| == Used(records)
  {
    if records == [] then []
    else
      var last := |records| - 1;
      (if records[last].Full? then records[last].record else []) + Heap(records[..last])
  }

  /** Where slot `i` points, and how long its record is. */
  function OffsetOf(page: Page, i: nat): int
    requires i < |page.records|
  {
    if page.records[i].Empty? then 0 else page.size - Used(page.records[..i + 1])
  }

  function FreeStart(page: Page): nat {
    HeaderSize + |page.records| * 4
  }

  function FreeEnd(page: Page): int {
    page.size - Used(page.records)
  }

  /** struct packs every field: offsets, lengths and bounds in 16 bits, the page id in 64. */
  predicate Encodes(page: Page) {
    && page.id < Limit(8) && FreeEnd(page) < Limit(2) && FreeStart(page) < Limit(2)
    && forall i | 0 <= i < |page.records| :: OffsetOf(page, i) < Limit(2) && Length(page.records[i]) < Limit(2)
  }

  function Entry(page: Page, i: nat): (r: Bytes)
    requires i < |page.records| && OffsetOf(page, i) >= 0
    ensures |r| == SlotSize
  {
    Pack(OffsetOf(page, i), 2) + Pack(Length(page.records[i]), 2)
  }

  lemma {:induction false} UsedPrefix(records: seq<Slot>, i: nat)
    requires i <= |records|
    ensures Used(records[..i]) <= Used(records)
  {
    if i == |records| {
      assert records[..i] == records;
    } else {
      UsedPrefix(records[..|records| - 1], i);
      assert records[..|records| - 1][..i] == records[..i];
    }
  }

  lemma {:induction false} UsedWithout(records: seq<Slot>, slot: nat)
    requires slot < |records|
    ensures Used(records[slot := Empty]) == Used(records) - Length(records[slot])
  {
    var last := |records| - 1;
    if slot < last {
      UsedWithout(records[..last], slot);
      assert records[slot := Empty][..last] == records[..last][slot := Empty];
    } else {
      assert records[slot := Empty][..last] == records[..last];
    }
  }

  lemma {:induction false} LiveUsed(records: seq<Slot>)
    ensures Used(Live(records)) == Used(records) && |Live(records)| <= |records|
    ensures Empty !in Live(records)
  {
    if records != [] {
      var last := |records| - 1;
      LiveUsed(records[..last]);
      var live := Live(records[..last]);
      assert (live + [records[last]])[..|live|] == live && live + [] == live;
    }
  }

  lemma OffsetsInside(page: Page, i: nat)
    requires PageOk(page) && i < |page.records|
    ensures OffsetOf(page, i) >= 0
    ensures page.records[i].Full? ==> FreeStart(page) <= FreeEnd(page) <= OffsetOf(page, i) && OffsetOf(page, i) + Length(page.records[i]) <= page.size
  {
    UsedPrefix(page.records, i + 1);
    assert page.records[..i + 1][..i] == page.records[..i];
  }

  /** The slot table, up to slot `n`. */
  function Table(page: Page, n: nat): (r: Bytes)
    requires PageOk(page) && n <= |page.records|
    ensures |r| == n * 4
  {
    if n == 0 then []
    else
      OffsetsInside(page, n - 1);
      Table(page, n - 1) + Entry(page, n - 1)
  }

  function Body(page: Page): (r: Bytes)
    requires PageOk(page)
    ensures |r| == page.size - HeaderSize
  {
    Table(page, |page.records|) + (Zeros(FreeSpace(page)) + Heap(page.records))
  }

  /** The header fields, then the body. */
  function Layout(page: Page, checksum: nat, body: Bytes): (r: Bytes)
    requires PageOk(page)
    ensures |r| == HeaderSize + |body|
  {
    Magic + ([1, 0, 0, 0] + (Pack(page.id, 8) + (Pack(|page.records|, 2) + (Pack(FreeStart(page), 2)
    + (Pack(FreeEnd(page), 2) + (Pack(checksum, 4) + body))))))
  }

  /** to_bytes; Err where a field does not fit its struct format. */
  function ToBytes(page: Page, crc: Bytes -> nat): Result<Bytes>
    requires PageOk(page)
  {
    if Encodes(page) then Ok(Layout(page, crc(Body(page)), Body(page))) else Err
  }

  // ---------------------------------------------------------------- decoding

  function SlotOffset(body: Bytes, i: nat): nat
    requires (i + 1) * 4 <= |body|
  {
    Unpack(body[i * 4..i * 4 + 2])
  }

  function SlotLength(body: Bytes, i: nat): nat
    requires (i + 1) * 4 <= |body|
  {
    Unpack(body[i * 4 + 2..(i + 1) * 4])
  }

  /** The loop over the slots accepts: each record lies between the slot table and the end, and no two
      slots name the same place. */
  predicate SlotsOk(body: Bytes, size: nat, freeStart: nat, count: nat)
    requires count * 4 <= |body|
  {
    && (forall i | 0 <= i < count :: SlotLength(body, i) == 0
          || (freeStart <= SlotOffset(body, i) && SlotOffset(body, i) + SlotLength(body, i) <= size))
    && (forall i, j | 0 <= i < j < count :: SlotLength(body, i) == 0 || SlotLength(body, j) == 0
          || SlotOffset(body, i) != SlotOffset(body, j) || SlotLength(body, i) != SlotLength(body, j))
  }

  function Decoded(body: Bytes, i: nat): Slot
    requires (i + 1) * 4 <= |body|
    requires SlotLength(body, i) == 0 || (HeaderSize <= SlotOffset(body, i) && SlotOffset(body, i) + SlotLength(body, i) <= |body| + HeaderSize)
  {
    var offset, length := SlotOffset(body, i), SlotLength(body, i);
    if length == 0 then Empty else Full(body[offset - HeaderSize..offset - HeaderSize + length])
  }

  /** from_bytes; Err is any refusal. */
  function FromBytes(data: Bytes, size: nat, crc: Bytes -> nat): Result<Page>
  {
    if |data| != size || size < HeaderSize then Err
    else
      var body := data[HeaderSize..];
      var count, freeStart, freeEnd := Unpack(data[16..18]), Unpack(data[18..20]), Unpack(data[20..22]);
      if data[..4] != Magic || data[4] != 1 || crc(body) != Unpack(data[22..26]) then Err
      else if freeStart != HeaderSize + count * 4 || freeEnd < freeStart || freeEnd > size then Err
      else if !SlotsOk(body, size, freeStart, count) then Err
      else Make(Unpack(data[8..16]), size, seq(count, i requires 0 <= i < count => Decoded(body, i)))
  }

  // ---------------------------------------------------------------- round trip

  lemma TableOneMore(page: Page, n: nat)
    requires PageOk(page) && n < |page.records|
    ensures OffsetOf(page, n) >= 0 && Table(page, n + 1) == Table(page, n) + Entry(page, n)
  {
    OffsetsInside(page, n);
  }

  lemma {:induction false} TableAt(page: Page, n: nat, i: nat)
    requires PageOk(page) && i < n <= |page.records|
    ensures OffsetOf(page, i) >= 0
    ensures Table(page, n)[i * 4..(i + 1) * 4] == Entry(page, i)
  {
    hide Table, Entry, OffsetOf;
    TableOneMore(page, n - 1);
    if i < n - 1 {
      TableAt(page, n - 1, i);
      SliceLeft(Table(page, n - 1), Entry(page, n - 1), i * 4, (i + 1) * 4);
    } else {
      SliceRight(Table(page, n - 1), Entry(page, n - 1), i * 4, (i + 1) * 4);
    }
  }

  lemma EntryFields(page: Page, i: nat)
    requires PageOk(page) && Encodes(page) && i < |page.records|
    ensures (i + 1) * 4 <= |Body(page)|
    ensures SlotOffset(Body(page), i) == OffsetOf(page, i) && SlotLength(Body(page), i) == Length(page.records[i])
  {
    var n := |page.records|;
    var table, rest := Table(page, n), Zeros(FreeSpace(page)) + Heap(page.records);
    TableAt(page, n, i);
    SliceLeft(table, rest, i * 4, i * 4 + 2);
    SliceLeft(table, rest, i * 4 + 2, (i + 1) * 4);
    var entry := Entry(page, i);
    assert table[i * 4..i * 4 + 2] == entry[..2] == Pack(OffsetOf(page, i), 2);
    assert table[i * 4 + 2..(i + 1) * 4] == entry[2..] == Pack(Length(page.records[i]), 2);
    UnpackPack(OffsetOf(page, i), 2);
    UnpackPack(Length(page.records[i]), 2);
  }

  lemma HeapSplit(records: seq<Slot>)
    requires records != []
    ensures var last := |records| - 1;
      var top := if records[last].Full? then records[last].record else [];
      Heap(records) == top + Heap(records[..last]) && Used(records) == |top| + Used(records[..last]) && |Heap(records)| == Used(records)
  {
  }

  /** A record lies in the heap where the records before it begin. */
  lemma {:induction false} HeapAt(records: seq<Slot>, i: nat)
    requires i < |records| && records[i].Full?
    ensures Used(records[..i + 1]) <= Used(records)
    ensures var from := Used(records) - Used(records[..i + 1]);
      from + |records[i].record| <= Used(records) && Heap(records)[from..from + |records[i].record|] == records[i].record
  {
    var last := |records| - 1;
    var fewer := records[..last];
    var top := if records[last].Full? then records[last].record else [];
    HeapSplit(records);
    hide Heap, Used;
    if i == last {
      assert records[..i + 1] == records;
      SliceLeft(top, Heap(fewer), 0, |top|);
    } else {
      assert fewer[..i + 1] == records[..i + 1];
      HeapAt(fewer, i);
      var from := Used(fewer) - Used(records[..i + 1]);
      SliceRight(top, Heap(fewer), |top| + from, |top| + from + |records[i].record|);
    }
  }

  /** A piece of the heap, where the body holds it. */
  lemma HeapInBody(table: Bytes, zeros: Bytes, heap: Bytes, from: nat, length: nat)
    requires from + length <= |heap|
    ensures var at := |table| + |zeros| + from;
      at + length <= |table + (zeros + heap)| && (table + (zeros + heap))[at..at + length] == heap[from..from + length]
  {
    SliceRight(table, zeros + heap, |table| + |zeros| + from, |table| + |zeros| + from + length);
    SliceRight(zeros, heap, |zeros| + from, |zeros| + from + length);
  }

  lemma RecordAt(page: Page, i: nat)
    requires PageOk(page) && i < |page.records| && page.records[i].Full?
    ensures var offset, record := OffsetOf(page, i), page.records[i].record;
      HeaderSize <= offset && offset - HeaderSize + |record| <= |Body(page)|
      && Body(page)[offset - HeaderSize..offset - HeaderSize + |record|] == record
  {
    OffsetsInside(page, i);
    HeapAt(page.records, i);
    var table, zeros, heap := Table(page, |page.records|), Zeros(FreeSpace(page)), Heap(page.records);
    var from := Used(page.records) - Used(page.records[..i + 1]);
    hide Used, Heap, Zeros, Table;
    HeapInBody(table, zeros, heap, from, |page.records[i].record|);
  }

  /** Records do not overlap: a later record ends where, or before, an earlier one begins. */
  lemma RecordsApart(page: Page, i: nat, j: nat)
    requires PageOk(page) && i < j < |page.records| && page.records[i].Full? && page.records[j].Full?
    ensures OffsetOf(page, j) + Length(page.records[j]) <= OffsetOf(page, i)
  {
    UsedPrefix(page.records[..j], i + 1);
    assert page.records[..j][..i + 1] == page.records[..i + 1];
    assert page.records[..j + 1][..j] == page.records[..j];
  }

  /** The slot as it reads back: an empty record is taken for a tombstone. */
  function ReadBack(slot: Slot): Slot {
    if Length(slot) == 0 then Empty else slot
  }

  /** The field after `front` in a layout. */
  lemma FieldAfter(front: Bytes, field: Bytes, rest: Bytes, data: Bytes, at: nat)
    requires at + |front| + |field| <= |data| && data[at..] == front + (field + rest)
    ensures data[at + |front|..at + |front| + |field|] == field && data[at + |front|..] == field + rest
  {
    var tail := data[at..];
    assert tail[|front|..|front| + |field|] == field && tail[|front|..] == field + rest;
    assert data[at + |front|..at + |front| + |field|] == tail[|front|..|front| + |field|];
    assert data[at + |front|..] == tail[|front|..];
  }

  lemma HeaderFields(page: Page, checksum: nat, body: Bytes)
    requires PageOk(page) && Encodes(page) && checksum < Limit(4)
    ensures var data := Layout(page, checksum, body);
      && data[..4] == Magic && data[4] == 1 && Unpack(data[8..16]) == page.id && Unpack(data[16..18]) == |page.records|
      && Unpack(data[18..20]) == FreeStart(page) && Unpack(data[20..22]) == FreeEnd(page) && Unpack(data[22..26]) == checksum
      && data[HeaderSize..] == body
  {
    hide Pack, Unpack, Limit;
    var data := Layout(page, checksum, body);
    var f1, f2, f3, f4, f5, f6 := [1, 0, 0, 0], Pack(page.id, 8), Pack(|page.records|, 2), Pack(FreeStart(page), 2), Pack(FreeEnd(page), 2), Pack(checksum, 4);
    var r5 := f6 + body;
    var r4 := f5 + r5;
    var r3 := f4 + r4;
    var r2 := f3 + r3;
    var r1 := f2 + r2;
    assert data[0..] == data;
    FieldAfter(Magic, f1, r1, data, 0);
    FieldAfter(f1, f2, r2, data, 4);
    FieldAfter(f2, f3, r3, data, 8);
    FieldAfter(f3, f4, r4, data, 16);
    FieldAfter(f4, f5, r5, data, 18);
    FieldAfter(f5, f6, body, data, 20);
    assert data[26..] == data[22..][4..] == body;
    assert data[4] == data[4..8][0] && data[..4] == Magic;
    SmallCount(page);
    UnpackPack(page.id, 8);
    UnpackPack(|page.records|, 2);
    UnpackPack(FreeStart(page), 2);
    UnpackPack(FreeEnd(page), 2);
    UnpackPack(checksum, 4);
  }

  lemma SmallCount(page: Page)
    requires PageOk(page) && Encodes(page)
    ensures |page.records| < Limit(2)
  {
  }

  lemma SlotReadsBack(page: Page, i: nat)
    requires PageOk(page) && Encodes(page) && i < |page.records|
    ensures (i + 1) * 4 <= |Body(page)|
    ensures var offset, length := SlotOffset(Body(page), i), SlotLength(Body(page), i);
      length == 0 || (HeaderSize <= FreeStart(page) <= offset && offset + length <= page.size)
    ensures Decoded(Body(page), i) == ReadBack(page.records[i])
  {
    hide SlotOffset, SlotLength, Body, Limit;
    EntryFields(page, i);
    OffsetsInside(page, i);
    if page.records[i].Full? { RecordAt(page, i); }
  }

  lemma SlotsDiffer(page: Page, i: nat, j: nat)
    requires PageOk(page) && Encodes(page) && i < j < |page.records|
    ensures (j + 1) * 4 <= |Body(page)|
    ensures SlotLength(Body(page), i) == 0 || SlotLength(Body(page), j) == 0 || SlotOffset(Body(page), i) != SlotOffset(Body(page), j)
  {
    hide SlotOffset, SlotLength, Body, Limit;
    EntryFields(page, i);
    EntryFields(page, j);
    if page.records[i].Full? && page.records[j].Full? { RecordsApart(page, i, j); }
  }

  lemma SlotsReadBack(page: Page)
    requires PageOk(page) && Encodes(page)
    ensures |page.records| * 4 <= |Body(page)| && SlotsOk(Body(page), page.size, FreeStart(page), |page.records|)
    ensures forall i | 0 <= i < |page.records| :: Decoded(Body(page), i) == ReadBack(page.records[i])
  {
    hide SlotOffset, SlotLength, Body, Limit, Decoded, PageOk, Encodes;
    BodyHoldsSlots(page);
    forall i | 0 <= i < |page.records|
      ensures SlotLength(Body(page), i) == 0
        || (FreeStart(page) <= SlotOffset(Body(page), i) && SlotOffset(Body(page), i) + SlotLength(Body(page), i) <= page.size)
      ensures Decoded(Body(page), i) == ReadBack(page.records[i])
    {
      SlotReadsBack(page, i);
    }
    forall i, j | 0 <= i < j < |page.records|
      ensures SlotLength(Body(page), i) == 0 || SlotLength(Body(page), j) == 0 || SlotOffset(Body(page), i) != SlotOffset(Body(page), j)
    {
      SlotsDiffer(page, i, j);
    }
  }

  lemma BodyHoldsSlots(page: Page)
    requires PageOk(page)
    ensures |page.records| * 4 <= |Body(page)|
  {
  }

  lemma {:induction false} ReadBackUsed(a: seq<Slot>, b: seq<Slot>)
    requires |a| == |b| && forall i | 0 <= i < |a| :: b[i] == ReadBack(a[i])
    ensures Used(a) == Used(b)
  {
    if a != [] { ReadBackUsed(a[..|a| - 1], b[..|b| - 1]); }
  }

  /** Decoding an encoded page gives the same slots in the same places, tombstones included,
      exactly when no slot holds the empty record. */
  lemma RoundTrip(page: Page, crc: Bytes -> nat)
    requires PageOk(page) && ToBytes(page, crc).Ok? && forall b :: crc(b) < Limit(4)
    ensures FromBytes(ToBytes(page, crc).value, page.size, crc).Ok?
    ensures FromBytes(ToBytes(page, crc).value, page.size, crc) == Ok(page) <==> Full([]) !in page.records
  {
    var body := Body(page);
    var data := ToBytes(page, crc).value;
    HeaderFields(page, crc(body), body);
    SlotsReadBack(page);
    var n := |page.records|;
    var back := seq(n, i requires 0 <= i < n => Decoded(body, i));
    ReadBackUsed(page.records, back);
    assert FromBytes(data, page.size, crc) == Make(page.id, page.size, back);
    if Full([]) in page.records {
      var i :| 0 <= i < n && page.records[i] == Full([]);
      assert back[i] == Empty;
    } else {
      assert back == page.records;
    }
  }

  /** Pages up to 65535 bytes always encode. */
  lemma SmallPagesEncode(page: Page)
    requires PageOk(page) && page.size < Limit(2) && page.id < Limit(8)
    ensures Encodes(page)
  {
    forall i | 0 <= i < |page.records| ensures OffsetOf(page, i) < Limit(2) && Length(page.records[i]) < Limit(2) {
      OffsetsInside(page, i);
    }
  }
}
