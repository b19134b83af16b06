/** What is on the pages of novadb/page_store.py and novadb/slotted_page.py, byte by byte, and what reading makes of a
    page with a changed byte or at the wrong place. */
module PageDamage {
  import opened Bytes
  import P = PageStore
  import S = SlottedPage

  // ---------------------------------------------------------------- integers

  /** Integers are big-endian: the first byte counts most, */
  lemma {:induction false} FirstByteCountsMost(x: Byte, rest: Bytes)
    ensures Unpack([x] + rest) == x * Limit(|rest|) + Unpack(rest)
  {
    var all := [x] + rest;
    if rest != [] {
      var last := |rest| - 1;
      assert all[..|all| - 1] == [x] + rest[..last];
      FirstByteCountsMost(x, rest[..last]);
      Distributed(x, Limit(last), Unpack(rest[..last]), rest[last]);
    } else {
      assert all[..0] == [];
    }
  }

  lemma Distributed(x: nat, limit: nat, n: nat, b: nat)
    ensures (x * limit + n) * 256 + b == x * (256 * limit) + (n * 256 + b)
  {
  }

  /** and every byte string is the integer it reads as. */
  lemma {:induction false} PackUnpack(b: Bytes)
    ensures Unpack(b) < Limit(|b|) && Pack(Unpack(b), |b|) == b
  {
    if b != [] {
      var last := |b| - 1;
      PackUnpack(b[..last]);
      assert Unpack(b) / 256 == Unpack(b[..last]) && Unpack(b) % 256 == b[last];
      assert b == b[..last] + [b[last]];
    }
  }

  lemma UnpackDiffers(a: Bytes, b: Bytes)
    requires |a| == |b| && a != b
    ensures Unpack(a) != Unpack(b)
  {
    PackUnpack(a);
    PackUnpack(b);
  }

  /** A changed byte changes the slices it is in and no others. */
  lemma ByteChanged(data: Bytes, at: nat, b: Byte, lo: nat, hi: nat)
    requires at < |data| && data[at] != b && lo <= hi <= |data|
    ensures lo <= at < hi ==> data[at := b][lo..hi] != data[lo..hi]
    ensures !(lo <= at < hi) ==> data[at := b][lo..hi] == data[lo..hi]
  {
    if lo <= at < hi {
      assert data[at := b][lo..hi][at - lo] == b && data[lo..hi][at - lo] == data[at];
    }
  }

  // ---------------------------------------------------------------- pages of the log

  /** The bytes of a written page. */
  lemma PageBytes(c: P.Config, id: nat, page: seq<P.Record>)
    requires P.ConfigOk(c) && P.PageOk(c, page) && id < Limit(8)
    ensures var block, n := P.Block(c, id, page), |P.Frames(page)|;
      && block[..4] == [0x4E, 0x56, 0x50, 0x31] && block[4] == 1 && block[5..8] == [0, 0, 0]
      && Unpack(block[8..16]) == id && Unpack(block[16..20]) == n && Unpack(block[20..24]) == c.crc(P.Frames(page))
      && block[24..24 + n] == P.Frames(page) && block[24 + n..] == Zeros(c.pageSize - 24 - n)
  {
    hide P.Frames, P.Header, Unpack, Zeros;
    var payload := P.Frames(page);
    var tail := payload + Zeros(c.pageSize - P.HeaderSize - |payload|);
    P.HeaderFields(c, id, payload, tail);
    HeaderGap(c, id, payload, tail);
    Thirds(P.Header(c, id, payload), payload, Zeros(c.pageSize - P.HeaderSize - |payload|));
  }

  lemma Thirds(a: Bytes, b: Bytes, c: Bytes)
    ensures (a + (b + c))[|a|..|a| + |b|] == b && (a + (b + c))[|a| + |b|..] == c
  {
    assert a + (b + c) == (a + b) + c;
  }

  lemma HeaderGap(c: P.Config, id: nat, payload: Bytes, tail: Bytes)
    ensures (P.Header(c, id, payload) + tail)[5..8] == [0, 0, 0]
  {
    hide Pack;
  }

  /** A page that was written for one place is refused at every other. */
  lemma MisplacedIsRefused(c: P.Config, id: nat, page: seq<P.Record>, other: nat)
    requires P.ConfigOk(c) && P.PageOk(c, page) && id < Limit(8)
    ensures P.ReadBlock(c, other, P.Block(c, id, page)).Ok? <==> other == id
  {
    PageBytes(c, id, page);
    P.ReadWritten(c, id, page);
  }

  /** One changed byte of a written page: in the three bytes that pad the version and after the payload it does no harm;
      anywhere else the page is refused, as long as the checksum tells the payload it then reads from the one written. */
  lemma ChangedByteIsRefused(c: P.Config, id: nat, page: seq<P.Record>, at: nat, b: Byte)
    requires P.ConfigOk(c) && P.PageOk(c, page) && id < Limit(8)
    requires at < c.pageSize && P.Block(c, id, page)[at] != b
    requires var damaged := P.Block(c, id, page)[at := b];
      var n := Unpack(damaged[16..20]);
      24 + n <= c.pageSize && damaged[24..24 + n] != P.Frames(page) ==> c.crc(damaged[24..24 + n]) != c.crc(P.Frames(page))
    ensures var r := P.ReadBlock(c, id, P.Block(c, id, page)[at := b]);
      if 5 <= at < 8 || 24 + |P.Frames(page)| <= at then r == Ok(page) else r.Err?
  {
    hide P.Frames, P.Block, P.Unframe, Unpack, P.ReadBlock;
    var block, payload := P.Block(c, id, page), P.Frames(page);
    var damaged := block[at := b];
    PageBytes(c, id, page);
    P.ReadWritten(c, id, page);
    if 16 <= at < 20 {
      ByteChanged(block, at, b, 16, 20);
      UnpackDiffers(damaged[16..20], block[16..20]);
      ByteChanged(block, at, b, 20, 24);
      LengthDamaged(c, id, damaged, payload);
    } else {
      ByteChanged(block, at, b, 16, 20);
      FieldDamaged(c, id, block, payload, at, b);
    }
  }

  lemma LengthDamaged(c: P.Config, id: nat, damaged: Bytes, payload: Bytes)
    requires P.ConfigOk(c) && |damaged| == c.pageSize
    requires Unpack(damaged[20..24]) == c.crc(payload)
    requires var n := Unpack(damaged[16..20]);
      n != |payload| && (24 + n <= c.pageSize && damaged[24..24 + n] != payload ==> c.crc(damaged[24..24 + n]) != c.crc(payload))
    ensures P.ReadBlock(c, id, damaged).Err?
  {
    hide Unpack, P.Unframe;
    var n := Unpack(damaged[16..20]);
    if 24 + n <= c.pageSize {
      assert |damaged[24..24 + n]| == n;
    }
  }

  lemma FieldDamaged(c: P.Config, id: nat, block: Bytes, payload: Bytes, at: nat, b: Byte)
    requires P.ConfigOk(c) && |block| == c.pageSize && at < c.pageSize && block[at] != b && !(16 <= at < 20)
    requires Unpack(block[8..16]) == id && block[..4] == P.Magic && block[4] == 1
    requires Unpack(block[16..20]) == |payload| && 24 + |payload| <= c.pageSize && block[24..24 + |payload|] == payload
    requires Unpack(block[20..24]) == c.crc(payload)
    requires var other := block[at := b][24..24 + |payload|]; other != payload ==> c.crc(other) != c.crc(payload)
    ensures var r := P.ReadBlock(c, id, block[at := b]);
      if 5 <= at < 8 || 24 + |payload| <= at then r == P.ReadBlock(c, id, block) else r.Err?
  {
    hide Unpack, P.Unframe;
    var damaged, n := block[at := b], |payload|;
    ByteChanged(block, at, b, 0, 4);
    ByteChanged(block, at, b, 8, 16);
    ByteChanged(block, at, b, 16, 20);
    ByteChanged(block, at, b, 20, 24);
    ByteChanged(block, at, b, 24, 24 + n);
    assert block[..4] == block[0..4] && damaged[..4] == damaged[0..4];
    if 8 <= at < 16 { UnpackDiffers(damaged[8..16], block[8..16]); }
    if 20 <= at < 24 { UnpackDiffers(damaged[20..24], block[20..24]); }
  }

  /** An append is refused exactly when some record alone, with its length before it, does not fit a page. */
  lemma AppendRefusedIff(c: P.Config, file: Bytes, records: seq<P.Record>)
    requires P.ConfigOk(c)
    ensures P.Append(c, file, records).Err? <==> exists record :: record in records && 4 + |record| > c.pageSize - 24
  {
    if P.Append(c, file, records).Err? {
      var record :| record in records && |P.Frame(record)| > P.Capacity(c);
      assert 4 + |record| > c.pageSize - 24;
    }
  }

  /** Opening without recovery accepts whole pages only, and never changes the file. */
  lemma OpenedIff(c: P.Config, file: Bytes)
    requires c.pageSize > 0
    ensures P.Opened(c, file, false) == if exists n: nat :: |file| == Times(n, c.pageSize) then Ok(file) else Err
  {
    hide Rest, Whole;
    DivMod(|file|, c.pageSize);
    if n: nat :| |file| == Times(n, c.pageSize) {
      SameQuotient(n, Whole(|file|, c.pageSize), 0, Rest(|file|, c.pageSize), c.pageSize);
    }
  }

  // ---------------------------------------------------------------- slotted pages

  /** How far from the end of the page the record of slot `i` begins: the records up to it, back to back. */
  function FromEnd(records: seq<S.Slot>, i: nat): nat
    requires i < |records|
  {
    (if records[i].Full? then |records[i].record| else 0) + if i == 0 then 0 else FromEnd(records, i - 1)
  }

  lemma {:induction false} FromEndIsUsed(records: seq<S.Slot>, i: nat)
    requires i < |records|
    ensures FromEnd(records, i) == S.Used(records[..i + 1])
  {
    assert records[..i + 1][..i] == records[..i];
    if i > 0 { FromEndIsUsed(records, i - 1); }
  }

  lemma BodyShift(data: Bytes, lo: nat, hi: nat)
    requires 26 <= lo <= hi <= |data|
    ensures data[26..][lo - 26..hi - 26] == data[lo..hi]
  {
  }

  function OffsetField(slot: S.Slot, from: nat): nat {
    if slot.Full? then from else 0
  }

  function LengthField(slot: S.Slot): nat {
    if slot.Full? then |slot.record| else 0
  }

  /** The header of an encoded slotted page. */
  lemma SlottedHeader(page: S.Page, checksum: nat)
    requires S.PageOk(page) && S.Encodes(page) && checksum < Limit(4)
    ensures var data := S.Layout(page, checksum, S.Body(page));
      && |data| == page.size && data[26..] == S.Body(page)
      && data[..4] == [0x4E, 0x53, 0x50, 0x31] && data[4] == 1
      && Unpack(data[8..16]) == page.id && Unpack(data[16..18]) == |page.records| && Unpack(data[18..20]) == 26 + |page.records| * 4
      && Unpack(data[20..22]) == page.size - (if page.records == [] then 0 else FromEnd(page.records, |page.records| - 1))
      && Unpack(data[22..26]) == checksum
  {
    hide Unpack, S.Body, S.Layout, S.Encodes, S.Used, FromEnd;
    S.HeaderFields(page, checksum, S.Body(page));
    NothingUsed();
    if page.records != [] {
      FromEndIsUsed(page.records, |page.records| - 1);
      assert page.records[..|page.records|] == page.records;
    }
  }

  lemma NothingUsed()
    ensures S.Used([]) == 0
  {
  }

  /** A slot of it, four bytes each from byte 26 on, */
  lemma SlottedEntry(page: S.Page, checksum: nat, i: nat, at: nat)
    requires S.PageOk(page) && S.Encodes(page) && checksum < Limit(4) && i < |page.records| && at == 26 + i * 4
    ensures var data, slot := S.Layout(page, checksum, S.Body(page)), page.records[i];
      && at + 4 <= |data| && FromEnd(page.records, i) <= page.size
      && Unpack(data[at..at + 2]) == OffsetField(slot, page.size - FromEnd(page.records, i))
      && Unpack(data[at + 2..at + 4]) == LengthField(slot)
  {
    hide Unpack, S.Body, S.Layout, S.Encodes, S.Used, FromEnd;
    var data := S.Layout(page, checksum, S.Body(page));
    SlottedHeader(page, checksum);
    S.EntryFields(page, i);
    S.OffsetsInside(page, i);
    FromEndInside(page, i);
    assert (i + 1) * 4 == i * 4 + 4;
    BodyShift(data, at, at + 2);
    BodyShift(data, at + 2, at + 4);
  }

  lemma FromEndInside(page: S.Page, i: nat)
    requires S.PageOk(page) && i < |page.records|
    ensures FromEnd(page.records, i) <= page.size && S.Used(page.records[..i + 1]) == FromEnd(page.records, i)
  {
    FromEndIsUsed(page.records, i);
    S.UsedPrefix(page.records, i + 1);
  }

  /** and its record. */
  lemma SlottedRecord(page: S.Page, checksum: nat, i: nat)
    requires S.PageOk(page) && S.Encodes(page) && checksum < Limit(4) && i < |page.records| && page.records[i].Full?
    ensures var data, record := S.Layout(page, checksum, S.Body(page)), page.records[i].record;
      var from := page.size - FromEnd(page.records, i);
      26 <= from && from + |record| <= |data| == page.size && data[from..from + |record|] == record
  {
    hide Unpack, S.Body, S.Layout, S.Encodes, S.Used, FromEnd;
    SlottedHeader(page, checksum);
    FromEndInside(page, i);
    S.OffsetsInside(page, i);
    S.RecordAt(page, i);
    var from := page.size - FromEnd(page.records, i);
    BodyShift(S.Layout(page, checksum, S.Body(page)), from, from + |page.records[i].record|);
  }

  /** A delete turns the slot into a tombstone, if it has a record, and gives its bytes back; no other slot moves. */
  lemma DeleteLeaves(page: S.Page, slot: nat)
    ensures var r := S.Delete(page, slot);
      && (r.Ok? <==> slot < |page.records| && page.records[slot].Full?)
      && (r.Ok? ==>
            && r.value.id == page.id && r.value.size == page.size && |r.value.records| == |page.records| && r.value.records[slot] == S.Empty
            && (forall i | 0 <= i < |page.records| && i != slot :: r.value.records[i] == page.records[i])
            && S.FreeSpace(r.value) == S.FreeSpace(page) + |page.records[slot].record|)
  {
    if slot < |page.records| && page.records[slot].Full? { S.UsedWithout(page.records, slot); }
  }

  /** The places of the slots with a record, in order. */
  ghost predicate Places(records: seq<S.Slot>, kept: seq<nat>) {
    && (forall i, j | 0 <= i < j < |kept| :: kept[i] < kept[j])
    && (forall i | 0 <= i < |kept| :: kept[i] < |records| && records[kept[i]].Full?)
    && forall p | 0 <= p < |records| && records[p].Full? :: p in kept
  }

  /** These slots are those at the places. */
  ghost predicate TakenFrom(records: seq<S.Slot>, kept: seq<nat>, slots: seq<S.Slot>) {
    |slots| == |kept| && forall i | 0 <= i < |kept| :: kept[i] < |records| && slots[i] == records[kept[i]]
  }

  /** Compacting leaves, in order, the slots at exactly the places that have a record, and four bytes more for each
      tombstone. */
  lemma CompactLeaves(page: S.Page) returns (kept: seq<nat>)
    ensures var r := S.Compact(page);
      && Places(page.records, kept) && TakenFrom(page.records, kept, r.records)
      && r.id == page.id && r.size == page.size && S.FreeSpace(r) == S.FreeSpace(page) + 4 * (|page.records| - |kept|)
  {
    kept := LiveAt(page.records);
    S.LiveUsed(page.records);
  }

  lemma {:induction false} LiveAt(records: seq<S.Slot>) returns (kept: seq<nat>)
    ensures Places(records, kept) && TakenFrom(records, kept, S.Live(records))
  {
    if records == [] {
      kept := [];
    } else {
      hide Places, TakenFrom, S.Live;
      var last := |records| - 1;
      var fewer := LiveAt(records[..last]);
      LiveOneMore(records);
      assert records == records[..last] + [records[last]];
      if records[last].Full? {
        kept := fewer + [last];
        OnePlaceMore(records[..last], fewer, S.Live(records[..last]), records[last]);
      } else {
        kept := fewer;
        NoPlaceMore(records[..last], fewer, S.Live(records[..last]), records[last]);
      }
    }
  }

  lemma OnePlaceMore(records: seq<S.Slot>, kept: seq<nat>, slots: seq<S.Slot>, slot: S.Slot)
    requires Places(records, kept) && TakenFrom(records, kept, slots) && slot.Full?
    ensures Places(records + [slot], kept + [|records|]) && TakenFrom(records + [slot], kept + [|records|], slots + [slot])
  {
  }

  lemma NoPlaceMore(records: seq<S.Slot>, kept: seq<nat>, slots: seq<S.Slot>, slot: S.Slot)
    requires Places(records, kept) && TakenFrom(records, kept, slots) && slot.Empty?
    ensures Places(records + [slot], kept) && TakenFrom(records + [slot], kept, slots + [])
  {
    assert slots + [] == slots;
  }

  lemma LiveOneMore(records: seq<S.Slot>)
    requires records != []
    ensures var last := |records| - 1;
      S.Live(records) == S.Live(records[..last]) + (if records[last].Full? then [records[last]] else [])
  {
  }

  /** A record goes on a slotted page exactly when it is not empty and the page with it is still sound. */
  lemma InsertIff(page: S.Page, record: Bytes)
    requires S.PageOk(page)
    ensures var longer := page.(records := page.records + [S.Full(record)]);
      if record != [] && S.PageOk(longer) then S.Insert(page, record) == Ok(longer) else S.Insert(page, record).Err?
  {
    var longer := page.records + [S.Full(record)];
    assert longer[..|longer| - 1] == page.records;
  }

  /** The fields that reading checks. */
  lemma FieldsChanged(data: Bytes, at: nat, b: Byte)
    requires |data| >= 26 && at < |data| && data[at] != b
    ensures var damaged := data[at := b];
      && (damaged[..4] == data[..4] <==> at >= 4)
      && (Unpack(damaged[8..16]) == Unpack(data[8..16]) <==> !(8 <= at < 16))
      && (Unpack(damaged[16..18]) == Unpack(data[16..18]) <==> !(16 <= at < 18))
      && (Unpack(damaged[18..20]) == Unpack(data[18..20]) <==> !(18 <= at < 20))
      && (!(20 <= at < 22) ==> Unpack(damaged[20..22]) == Unpack(data[20..22]))
      && (Unpack(damaged[22..26]) == Unpack(data[22..26]) <==> !(22 <= at < 26))
      && (at < 26 ==> damaged[26..] == data[26..])
  {
    hide Unpack;
    var damaged := data[at := b];
    assert data[..4] == data[0..4] && damaged[..4] == damaged[0..4];
    ByteChanged(data, at, b, 0, 4);
    FieldChanged(data, at, b, 8, 16);
    FieldChanged(data, at, b, 16, 18);
    FieldChanged(data, at, b, 18, 20);
    FieldChanged(data, at, b, 20, 22);
    FieldChanged(data, at, b, 22, 26);
  }

  lemma FieldChanged(data: Bytes, at: nat, b: Byte, lo: nat, hi: nat)
    requires at < |data| && data[at] != b && lo <= hi <= |data|
    ensures Unpack(data[at := b][lo..hi]) == Unpack(data[lo..hi]) <==> !(lo <= at < hi)
  {
    ByteChanged(data, at, b, lo, hi);
    if lo <= at < hi { UnpackDiffers(data[at := b][lo..hi], data[lo..hi]); }
  }

  lemma SlotsDamaged(data: Bytes, damaged: Bytes, size: nat, crc: Bytes -> nat, at: nat, b: Byte)
    requires |data| == size >= 26 && at < size && data[at] != b && damaged == data[at := b]
    requires S.FromBytes(data, size, crc).Ok?
    requires at >= 26 ==> crc(damaged[26..]) != crc(data[26..])
    ensures var was, r := S.FromBytes(data, size, crc), S.FromBytes(damaged, size, crc);
      && (5 <= at < 8 ==> r == was)
      && (8 <= at < 16 ==> r == Ok(was.value.(id := Unpack(damaged[8..16]))))
      && (at < 5 || 16 <= at < 20 || 22 <= at ==> r.Err?)
  {
    hide S.SlotsOk, S.Decoded, Unpack;
    FieldsChanged(data, at, b);
    assert at != 4 ==> damaged[4] == data[4];
    if 8 <= at < 16 { SameSlots(data, damaged, size, crc); }
  }

  lemma SameSlots(data: Bytes, damaged: Bytes, size: nat, crc: Bytes -> nat)
    requires |data| == |damaged| == size >= 26 && S.FromBytes(data, size, crc).Ok?
    requires damaged[..4] == data[..4] && damaged[4] == data[4] && damaged[16..18] == data[16..18] && damaged[18..20] == data[18..20]
    requires damaged[20..22] == data[20..22] && damaged[22..26] == data[22..26] && damaged[26..] == data[26..]
    ensures S.FromBytes(damaged, size, crc) == Ok(S.FromBytes(data, size, crc).value.(id := Unpack(damaged[8..16])))
  {
    hide S.SlotsOk, S.Decoded, Unpack;
  }

  /** One changed byte of an encoded slotted page. The magic, the version, the slot count, the start of the free space,
      the checksum, and everything after them where the checksum tells: refused. The padding: no harm. The page id is
      under no checksum and reads back changed. */
  lemma ChangedByteOfSlots(page: S.Page, crc: Bytes -> nat, at: nat, b: Byte)
    requires S.PageOk(page) && S.Encodes(page) && forall body :: crc(body) < Limit(4)
    requires var data := S.Layout(page, crc(S.Body(page)), S.Body(page));
      && at < |data| && data[at] != b
      && (at >= 26 ==> crc(data[at := b][26..]) != crc(S.Body(page)))
    ensures var data := S.Layout(page, crc(S.Body(page)), S.Body(page));
      var damaged := data[at := b];
      var was, r := S.FromBytes(data, page.size, crc), S.FromBytes(damaged, page.size, crc);
      && was.Ok? && was.value.id == page.id
      && (5 <= at < 8 ==> r == was)
      && (8 <= at < 16 ==> r == Ok(was.value.(id := Unpack(damaged[8..16]))) && Unpack(damaged[8..16]) != page.id)
      && (at < 5 || 16 <= at < 20 || 22 <= at ==> r.Err?)
  {
    var body := S.Body(page);
    var data := S.Layout(page, crc(body), body);
    var damaged := data[at := b];
    IdReadBack(page, crc);
    hide S.Body, S.Layout, S.FromBytes, Unpack, S.Encodes;
    SlotsDamaged(data, damaged, page.size, crc, at, b);
    if 8 <= at < 16 { FieldChanged(data, at, b, 8, 16); }
  }

  lemma IdReadBack(page: S.Page, crc: Bytes -> nat)
    requires S.PageOk(page) && S.Encodes(page) && forall body :: crc(body) < Limit(4)
    ensures var body := S.Body(page);
      var data := S.Layout(page, crc(body), body);
      var r := S.FromBytes(data, page.size, crc);
      && |data| == page.size >= 26 && data[26..] == body && Unpack(data[8..16]) == page.id
      && r.Ok? && r.value.id == page.id
  {
    S.HeaderFields(page, crc(S.Body(page)), S.Body(page));
    S.RoundTrip(page, crc);
  }
}
