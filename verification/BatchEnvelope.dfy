/** Encoding of log records and of uplink batches, on top of the CBOR writer. */
module BatchEnvelope {
  import opened Wrappers
  import opened LogRecords
  import opened Cbor

  /** What a reader finds for a record: its five fields in their places, the level by its number. */
  predicate IsRecord(item: Item, r: LogRecord) {
    && item.Array? && |item.items| == 5
    && item.items[0] == Uint(r.seqNo) && item.items[1] == Uint(r.uptimeMs)
    && item.items[2]
       == Uint(match r.level case Error => 0 case Warn => 1 case Info => 2 case Debug => 3 case Trace => 4)
    && item.items[3] == Text(r.tag) && item.items[4] == Text(r.message)
  }

  /** The bytes hold exactly this record. */
  predicate ReadsAs(b: bytes, r: LogRecord) {
    var read := Decode(b);
    read.Some? && read.value.rest == [] && IsRecord(read.value.item, r)
  }

  lemma RecordReadsBack(r: LogRecord)
    requires FieldsFit(r)
    ensures ReadsAs(RecordBytes(r), r)
  {
    RecordEncodable(r);
    DecodeEncode(RecordItem(r), []);
    NoneAround(RecordBytes(r));
  }

  method EncodeLogRecord(r: LogRecord) returns (b: bytes)
    requires FieldsFit(r)
    ensures b == RecordBytes(r)
  {
    var writer := new CborWriter();
    writer.WriteArrayHeader(5);
    writer.WriteUnsigned(r.seqNo);
    writer.WriteUnsigned(r.uptimeMs);
    writer.WriteUnsigned(LevelNumber(r.level));
    writer.WriteString(r.tag);
    writer.WriteString(r.message);
    ghost var items := RecordItem(r).items;
    RecordEncodable(r);
    FiveItems(items);
    return writer.buf;
  }

  lemma FiveItems(items: seq<Item>)
    requires |items| == 5 && AllEncodable(items)
    ensures EncodeAll(items)
         == Encode(items[0]) + Encode(items[1]) + Encode(items[2]) + Encode(items[3]) + Encode(items[4])
  {
    var t1, t2, t3, t4 := items[1..], items[2..], items[3..], items[4..];
    assert t1[1..] == t2 && t2[1..] == t3 && t3[1..] == t4 && t4[1..] == [];
    FirstItem(items);
    FirstItem(t1);
    FirstItem(t2);
    FirstItem(t3);
    FirstItem(t4);
    Reassociate(Encode(items[0]), Encode(items[1]), Encode(items[2]), Encode(items[3]), Encode(items[4]));
  }

  lemma FirstItem(items: seq<Item>)
    requires |items| > 0 && AllEncodable(items)
    ensures EncodeAll(items) == Encode(items[0]) + EncodeAll(items[1..])
  {
  }

  lemma Reassociate(a: bytes, b: bytes, c: bytes, d: bytes, e: bytes)
    ensures a + (b + (c + (d + (e + [])))) == a + b + c + d + e
  {
  }

  lemma HeadSize(major: nat, length: nat)
    requires major < 8 && length <= MAX_U64
    ensures |Head(major, length)| <= 9
    ensures length <= 0xFFFF_FFFF ==> |Head(major, length)| <= 5
    ensures length <= 0xFF ==> |Head(major, length)| <= 2
    ensures length < 24 ==> |Head(major, length)| == 1
  {
    Powers();
    if 24 <= length <= 0xFF {
      BigEndianValue(length, 1);
    } else if 0xFF < length <= 0xFFFF {
      BigEndianValue(length, 2);
    } else if 0xFFFF < length <= 0xFFFF_FFFF {
      BigEndianValue(length, 4);
    } else if length > 0xFFFF_FFFF {
      BigEndianValue(length, 8);
    }
  }

  /** A record always fits the 16-bit frame length, with a lot to spare. */
  lemma RecordFitsAFrame(r: LogRecord)
    requires FieldsFit(r)
    ensures |RecordBytes(r)| <= 234
  {
    RecordEncodable(r);
    FiveItems(RecordItem(r).items);
    HeadSize(4, 5);
    HeadSize(0, r.seqNo);
    HeadSize(0, r.uptimeMs);
    HeadSize(0, LevelNumber(r.level));
    HeadSize(3, |r.tag|);
    HeadSize(3, |r.message|);
  }

  /** No record's bytes are a prefix of another's; only the repeat count is not on the wire. */
  lemma RecordsArePrefixFree(r: LogRecord, q: LogRecord)
    requires FieldsFit(r) && FieldsFit(q)
    requires RecordBytes(r) <= RecordBytes(q)
    ensures r.(repeatCount := 0) == q.(repeatCount := 0)
  {
    RecordEncodable(r);
    RecordEncodable(q);
    PrefixFree(RecordItem(r), RecordItem(q));
    var ri, qi := RecordItem(r).items, RecordItem(q).items;
    assert ri[0] == qi[0] && ri[1] == qi[1] && ri[2] == qi[2] && ri[3] == qi[3] && ri[4] == qi[4];
  }

  /** Five small heads, then the records verbatim. */
  method EncodeBatchEnvelope(bootId: nat, stream: nat, firstSeq: nat, count: nat, rawRecords: bytes) returns (b: bytes)
    requires bootId <= MAX_U64 && stream <= MAX_U64 && firstSeq <= MAX_U64 && count <= MAX_U64
    ensures b == EnvelopeBytes(bootId, stream, firstSeq, count, rawRecords)
  {
    var writer := new CborWriter();
    writer.WriteArrayHeader(5);
    writer.WriteUnsigned(bootId);
    writer.WriteUnsigned(stream);
    writer.WriteUnsigned(firstSeq);
    writer.WriteUnsigned(count);
    writer.WriteArrayHeader(count);
    b := writer.buf;
    b := b + rawRecords;
  }

  ghost function EnvelopeBytes(bootId: nat, stream: nat, firstSeq: nat, count: nat, rawRecords: bytes): bytes
    requires bootId <= MAX_U64 && stream <= MAX_U64 && firstSeq <= MAX_U64 && count <= MAX_U64
  {
    Head(4, 5) + Encode(Uint(bootId)) + Encode(Uint(stream)) + Encode(Uint(firstSeq)) + Encode(Uint(count))
    + Head(4, count) + rawRecords
  }

  /** A payload that is the wire form of a record carrying the sequence number `s`. */
  ghost predicate Stamped(payload: bytes, s: nat) {
    exists r: LogRecord :: FieldsFit(r) && r.seqNo == s && payload == RecordBytes(r)
  }

  ghost predicate AllStamped(payloads: seq<bytes>, first: nat) {
    forall i :: 0 <= i < |payloads| ==> Stamped(payloads[i], first + i)
  }

  lemma StampedApart(payloads: seq<bytes>, first: nat)
    requires |payloads| > 0 && AllStamped(payloads, first)
    ensures Stamped(payloads[0], first) && AllStamped(payloads[1..], first + 1)
  {
    assert Stamped(payloads[0], first + 0);
    forall i | 0 <= i < |payloads[1..]| ensures Stamped(payloads[1..][i], first + 1 + i) {
      assert Stamped(payloads[i + 1], first + (i + 1));
    }
  }

  /** The records behind a run of stamped payloads. */
  ghost function RecordsOf(payloads: seq<bytes>, first: nat): (rs: seq<LogRecord>)
    requires AllStamped(payloads, first)
    ensures |rs| == |payloads|
    ensures forall i :: 0 <= i < |rs| ==>
              FieldsFit(rs[i]) && rs[i].seqNo == first + i && payloads[i] == RecordBytes(rs[i])
  {
    if |payloads| == 0 then []
    else
      StampedApart(payloads, first);
      var r: LogRecord :| FieldsFit(r) && r.seqNo == first && payloads[0] == RecordBytes(r);
      [r] + RecordsOf(payloads[1..], first + 1)
  }

  ghost function Items(rs: seq<LogRecord>): seq<Item> { seq(|rs|, i requires 0 <= i < |rs| => RecordItem(rs[i])) }

  lemma {:induction false} RecordItemsEncode(payloads: seq<bytes>, rs: seq<LogRecord>)
    requires |rs| == |payloads|
    requires forall i :: 0 <= i < |rs| ==> FieldsFit(rs[i]) && payloads[i] == RecordBytes(rs[i])
    ensures AllEncodable(Items(rs)) && EncodeAll(Items(rs)) == Flatten(payloads)
  {
    if |rs| == 0 {
    } else {
      RecordItemsEncode(payloads[1..], rs[1..]);
      assert Items(rs)[1..] == Items(rs[1..]);
      RecordEncodable(rs[0]);
    }
  }

  function EnvelopeItem(bootId: nat, stream: nat, first: nat, records: seq<Item>): Item {
    Array([Uint(bootId), Uint(stream), Uint(first), Uint(|records|), Array(records)])
  }

  /** The bytes put together by hand are the encoding of the five-element array. */
  lemma EnvelopeIsItem(bootId: nat, stream: nat, first: nat, records: seq<Item>, raw: bytes)
    requires bootId <= MAX_U64 && stream <= MAX_U64 && first <= MAX_U64 && |records| <= MAX_U64
    requires AllEncodable(records) && raw == EncodeAll(records)
    ensures Encodable(EnvelopeItem(bootId, stream, first, records))
    ensures EnvelopeBytes(bootId, stream, first, |records|, raw) == Encode(EnvelopeItem(bootId, stream, first, records))
  {
    var items := [Uint(bootId), Uint(stream), Uint(first), Uint(|records|), Array(records)];
    ArrayOfRecords(records);
    EnvelopeEncodes(items);
    Regroup(Head(4, 5), Encode(Uint(bootId)), Encode(Uint(stream)), Encode(Uint(first)),
      Encode(Uint(|records|)), Head(4, |records|), raw);
  }

  lemma EnvelopeEncodes(items: seq<Item>)
    requires |items| == 5 && Encodable(items[0]) && Encodable(items[1]) && Encodable(items[2])
             && Encodable(items[3]) && Encodable(items[4])
    ensures Encodable(Array(items))
    ensures Encode(Array(items))
      == Head(4, 5) + (Encode(items[0]) + Encode(items[1]) + Encode(items[2]) + Encode(items[3]) + Encode(items[4]))
  {
    AllOfFive(items);
    FiveItems(items);
    ArrayIs(items);
  }

  lemma ArrayOfRecords(records: seq<Item>)
    requires |records| <= MAX_U64 && AllEncodable(records)
    ensures Encodable(Array(records)) && Encode(Array(records)) == Head(4, |records|) + EncodeAll(records)
  {
  }

  lemma AllOfFive(items: seq<Item>)
    requires |items| == 5 && Encodable(items[0]) && Encodable(items[1]) && Encodable(items[2])
             && Encodable(items[3]) && Encodable(items[4])
    ensures AllEncodable(items)
  {
    forall k | 0 <= k < |items|
      ensures Encodable(items[k])
    {
      assert k == 0 || k == 1 || k == 2 || k == 3 || k == 4;
    }
  }

  lemma ArrayIs(items: seq<Item>)
    requires |items| == 5 && AllEncodable(items)
    ensures Encodable(Array(items)) && Encode(Array(items)) == Head(4, 5) + EncodeAll(items)
  {
  }

  lemma Regroup(h: bytes, a: bytes, b: bytes, c: bytes, d: bytes, e: bytes, raw: bytes)
    ensures h + a + b + c + d + e + raw == h + (a + b + c + d + (e + raw))
  {
  }

  ghost predicate CarriesSeq(item: Item, s: nat) { exists r: LogRecord :: IsRecord(item, r) && r.seqNo == s }

  /** One record per payload: the i-th carries the seq first + i and is whatever record the payload holds. */
  ghost predicate AreRecords(items: seq<Item>, first: nat, payloads: seq<bytes>) {
    && |items| == |payloads|
    && (forall i :: 0 <= i < |items| ==> CarriesSeq(items[i], first + i))
    && (forall i, r: LogRecord :: 0 <= i < |items| && FieldsFit(r) && payloads[i] == RecordBytes(r) ==>
          IsRecord(items[i], r))
  }

  /** What a reader finds for a batch: boot, stream, first seq, count, and that many records. */
  ghost predicate IsBatch(item: Item, bootId: nat, stream: nat, first: nat, payloads: seq<bytes>) {
    && item.Array? && |item.items| == 5
    && item.items[0] == Uint(bootId) && item.items[1] == Uint(stream) && item.items[2] == Uint(first)
    && item.items[3] == Uint(|payloads|) && item.items[4].Array?
    && AreRecords(item.items[4].items, first, payloads)
  }

  lemma RecordItemIs(r: LogRecord, q: LogRecord)
    requires FieldsFit(r) && FieldsFit(q) && RecordBytes(r) == RecordBytes(q)
    ensures IsRecord(RecordItem(r), q)
  {
    RecordReadsBack(r);
    RecordReadsBack(q);
    RecordEncodable(r);
    DecodeEncode(RecordItem(r), []);
    NoneAround(RecordBytes(r));
  }

  lemma ItemsAreRecords(payloads: seq<bytes>, first: nat, rs: seq<LogRecord>)
    requires |rs| == |payloads|
    requires forall i :: 0 <= i < |rs| ==>
               FieldsFit(rs[i]) && rs[i].seqNo == first + i && payloads[i] == RecordBytes(rs[i])
    ensures AreRecords(Items(rs), first, payloads)
  {
    var items := Items(rs);
    forall i | 0 <= i < |items|
      ensures CarriesSeq(items[i], first + i)
    {
      RecordItemIs(rs[i], rs[i]);
    }
    forall i, r: LogRecord | 0 <= i < |items| && FieldsFit(r) && payloads[i] == RecordBytes(r)
      ensures IsRecord(items[i], r)
    {
      RecordItemIs(rs[i], r);
    }
  }

  lemma EnvelopeReads(bootId: nat, stream: nat, first: nat, records: seq<Item>, payloads: seq<bytes>)
    requires bootId <= MAX_U64 && stream <= MAX_U64 && first <= MAX_U64 && |records| <= MAX_U64
    requires |records| == |payloads| && AllEncodable(records) && Flatten(payloads) == EncodeAll(records)
    ensures Decode(EnvelopeBytes(bootId, stream, first, |payloads|, Flatten(payloads)))
         == Some(Read(EnvelopeItem(bootId, stream, first, records), []))
  {
    EnvelopeIsItem(bootId, stream, first, records, Flatten(payloads));
    var whole := EnvelopeItem(bootId, stream, first, records);
    NoneAround(Encode(whole));
    DecodeEncode(whole, []);
  }

  /**
   * A batch is one CBOR item: decoding the envelope built from the stored bytes
   * of records first..first+count-1, none of which is ever re-encoded, gives
   * [boot, stream, first, count, records] with nothing left over; the i-th record
   * carries the seq first + i and gives back whatever record the i-th payload holds.
   */
  lemma EnvelopeDecodes(bootId: nat, stream: nat, first: nat, payloads: seq<bytes>)
    requires bootId <= MAX_U64 && stream <= MAX_U64 && first <= MAX_U64 && |payloads| <= MAX_U64
    requires AllStamped(payloads, first)
    ensures var read := Decode(EnvelopeBytes(bootId, stream, first, |payloads|, Flatten(payloads)));
            read.Some? && read.value.rest == [] && IsBatch(read.value.item, bootId, stream, first, payloads)
  {
    var rs := RecordsOf(payloads, first);
    RecordItemsEncode(payloads, rs);
    EnvelopeReads(bootId, stream, first, Items(rs), payloads);
    ItemsAreRecords(payloads, first, rs);
  }
}
