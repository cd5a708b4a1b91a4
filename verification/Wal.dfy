// The metadata log on disk: framed records, replayed up to the first one that is cut off
// or does not check out.

module Wal {
  import opened Core
  import opened Metadata
  import opened Stamp
  import Compaction

  // The checksum of a payload, and the keyed tag when the log is authenticated.
  datatype Framing = Framing(crc: seq<byte> -> seq<byte>, tag: Option<seq<byte> -> seq<byte>>)

  ghost predicate ProperFraming(f: Framing) {
    (forall b :: |f.crc(b)| == 4) && (f.tag.Some? ==> forall b :: |f.tag.value(b)| == SEAL)
  }

  function Extra(f: Framing): nat {
    if f.tag.Some? then SEAL else 0
  }

  function TagOf(f: Framing, payload: seq<byte>): seq<byte> {
    if f.tag.Some? then f.tag.value(payload) else []
  }

  function Frame(f: Framing, payload: seq<byte>): seq<byte> {
    ToLe32(|payload|) + f.crc(payload) + payload + TagOf(f, payload)
  }

  function Encode(f: Framing, payloads: seq<seq<byte>>): seq<byte> {
    if payloads == [] then [] else Frame(f, payloads[0]) + Encode(f, payloads[1..])
  }

  // The record at the front, if it is whole and checks out.
  function Front(f: Framing, bytes: seq<byte>): Option<seq<byte>> {
    if |bytes| < 8 then None
    else
      var n := FromLe32(bytes[..4]);
      if 8 + n + Extra(f) > |bytes| then None
      else
        var payload := bytes[8..8 + n];
        if f.crc(payload) != bytes[4..8] || TagOf(f, payload) != bytes[8 + n..8 + n + Extra(f)] then None
        else Some(payload)
  }

  function Records(f: Framing, bytes: seq<byte>): seq<seq<byte>>
    decreases |bytes|
  {
    var front := Front(f, bytes);
    if front.None? then [] else [front.value] + Records(f, bytes[8 + |front.value| + Extra(f)..])
  }

  predicate Short(payloads: seq<seq<byte>>) {
    forall i | 0 <= i < |payloads| :: |payloads[i]| < U32
  }

  lemma FrameLength(f: Framing, payload: seq<byte>)
    requires ProperFraming(f)
    ensures |Frame(f, payload)| == 8 + |payload| + Extra(f)
    ensures |ToLe32(|payload|)| == 4 && |f.crc(payload)| == 4 && |TagOf(f, payload)| == Extra(f)
  {
    LeLength(|payload|);
  }

  lemma FrontOfFrame(f: Framing, payload: seq<byte>, rest: seq<byte>)
    requires ProperFraming(f) && |payload| < U32
    ensures Front(f, Frame(f, payload) + rest) == Some(payload)
    ensures (Frame(f, payload) + rest)[8 + |payload| + Extra(f)..] == rest
  {
    hide ToLe32, FromLe32, TagOf, Extra, ProperFraming;
    FrameLength(f, payload);
    LengthRoundTrip(|payload|);
    var n, all := |payload|, Frame(f, payload) + rest;
    assert all[..4] == ToLe32(n);
    assert all[4..8] == f.crc(payload);
    assert all[8..8 + n] == payload;
    assert all[8 + n..8 + n + Extra(f)] == TagOf(f, payload);
  }

  // A frame that is cut off anywhere is no record.
  lemma NoFront(f: Framing, payload: seq<byte>, n: nat)
    requires ProperFraming(f) && |payload| < U32 && n < |Frame(f, payload)|
    ensures Front(f, Frame(f, payload)[..n]) == None
  {
    hide ToLe32, FromLe32, TagOf, Extra, ProperFraming;
    FrameLength(f, payload);
    LengthRoundTrip(|payload|);
    if n >= 8 { assert Frame(f, payload)[..n][..4] == ToLe32(|payload|); }
  }

  lemma NothingRead(f: Framing, bytes: seq<byte>)
    requires Front(f, bytes) == None
    ensures Records(f, bytes) == []
  {
    hide Front;
  }

  /** The bytes of a record: the length of its payload, least significant byte first, the
      checksum, the payload, and the tag of a keyed log. */
  lemma FrameLayout(f: Framing, payload: seq<byte>)
    requires ProperFraming(f) && |payload| < U32
    ensures var b, n := Frame(f, payload), |payload|;
            && |b| == 8 + n + (if f.tag.Some? then 32 else 0)
            && n == b[0] as nat + 0x100 * b[1] as nat + 0x1_0000 * b[2] as nat + 0x100_0000 * b[3] as nat
            && b[4..8] == f.crc(payload) && b[8..8 + n] == payload
            && (f.tag.Some? ==> b[8 + n..] == f.tag.value(payload))
  {
    hide ToLe32, FromLe32;
    var b, n := Frame(f, payload), |payload|;
    FrameLength(f, payload);
    assert b[..4] == ToLe32(n) && b[4..8] == f.crc(payload);
    assert b[8..8 + n] == payload && b[8 + n..] == TagOf(f, payload);
    LengthRoundTrip(n);
    BytesValue(b[..4]);
  }

  // How many records lie completely within the first `n` bytes.
  function Complete(f: Framing, payloads: seq<seq<byte>>, n: nat): (k: nat)
    ensures k <= |payloads|
  {
    if payloads == [] || n < |Frame(f, payloads[0])| then 0
    else 1 + Complete(f, payloads[1..], n - |Frame(f, payloads[0])|)
  }

  /** A log cut off at any byte, as a crash may leave it, reads back as exactly the
      records that were completely written: a prefix, with nothing partial. */
  lemma {:induction false} TornLogIsPrefix(f: Framing, payloads: seq<seq<byte>>, n: nat)
    requires ProperFraming(f) && Short(payloads) && n <= |Encode(f, payloads)|
    ensures Records(f, Encode(f, payloads)[..n]) == payloads[..Complete(f, payloads, n)]
  {
    hide Frame, Records, ProperFraming;
    if payloads == [] {
      NoRecords(f);
      assert Encode(f, payloads)[..n] == [];
    } else {
      var first, rest := Frame(f, payloads[0]), Encode(f, payloads[1..]);
      if n < |first| {
        assert Encode(f, payloads)[..n] == first[..n];
        NoFront(f, payloads[0], n);
        NothingRead(f, first[..n]);
      } else {
        var m := n - |first|;
        assert Encode(f, payloads)[..n] == first + rest[..m];
        RecordsOfFrame(f, payloads[0], rest[..m]);
        TornLogIsPrefix(f, payloads[1..], m);
        assert payloads[..1 + Complete(f, payloads[1..], m)] ==
               [payloads[0]] + payloads[1..][..Complete(f, payloads[1..], m)];
      }
    }
  }

  lemma RecordsOfFrame(f: Framing, payload: seq<byte>, rest: seq<byte>)
    requires ProperFraming(f) && |payload| < U32
    ensures Records(f, Frame(f, payload) + rest) == [payload] + Records(f, rest)
  {
    hide Frame, Front, ProperFraming;
    FrontOfFrame(f, payload, rest);
  }

  /** Whatever follows them, intact records are read back. */
  lemma {:induction false} IntactRecordsRead(f: Framing, payloads: seq<seq<byte>>, junk: seq<byte>)
    requires ProperFraming(f) && Short(payloads)
    ensures Records(f, Encode(f, payloads) + junk) == payloads + Records(f, junk)
  {
    hide Frame, Records, ProperFraming;
    if payloads == [] {
      assert Encode(f, payloads) + junk == junk;
    } else {
      var rest := Encode(f, payloads[1..]) + junk;
      assert Encode(f, payloads) + junk == Frame(f, payloads[0]) + rest;
      RecordsOfFrame(f, payloads[0], rest);
      IntactRecordsRead(f, payloads[1..], junk);
      assert payloads + Records(f, junk) == [payloads[0]] + (payloads[1..] + Records(f, junk));
    }
  }

  // What was written before byte `n` was reached survives a cut at `n`.
  lemma {:induction false} SyncedSurvive(f: Framing, payloads: seq<seq<byte>>, j: nat, n: nat)
    requires j <= |payloads| && |Encode(f, payloads[..j])| <= n
    ensures Complete(f, payloads, n) >= j
  {
    hide Frame;
    if j > 0 {
      assert payloads[..j][1..] == payloads[1..][..j - 1];
      SyncedSurvive(f, payloads[1..], j - 1, n - |Frame(f, payloads[0])|);
    }
  }

  // ---- what the records say ----

  // `Header` is a header for the framing in use, `OtherHeader` one for the other.
  datatype Record = Header | OtherHeader | Generation(generation: nat) | Op(op: MetaOp) | Unreadable

  datatype Codec = Codec(encode: Record -> seq<byte>, decode: seq<byte> -> Record)

  // Serialization is faithful on these records, and below 4 GiB for each.
  ghost predicate FaithfulOn(c: Codec, rs: seq<Record>) {
    forall r | r in rs :: c.decode(c.encode(r)) == r && |c.encode(r)| < U32
  }

  function IndexOf(rs: seq<Record>, r: Record): (i: nat)
    ensures i <= |rs| && (r in rs ==> i < |rs| && rs[i] == r)
  {
    if rs == [] || rs[0] == r then 0 else 1 + IndexOf(rs[1..], r)
  }

  // Every log of fewer than 4 G records has a faithful serialization.
  lemma SomeCodec(rs: seq<Record>) returns (c: Codec)
    requires |rs| < U32
    ensures FaithfulOn(c, rs)
  {
    hide ToLe32, FromLe32, IndexOf;
    c := Codec(r => ToLe32(IndexOf(rs, r)),
               b => if |b| == 4 && FromLe32(b) < |rs| then rs[FromLe32(b)] else Unreadable);
    forall r | r in rs ensures c.decode(c.encode(r)) == r && |c.encode(r)| < U32 {
      LengthRoundTrip(IndexOf(rs, r));
      LeLength(IndexOf(rs, r));
    }
  }

  datatype Store = Store(meta: Meta, generation: nat)

  // Record number `index`, counting from one: a header only counts in front, a
  // generation only among the first two.
  function Note(s: Store, r: Record, index: nat): Store {
    if index == 1 && (r.Header? || r.OtherHeader?) then s
    else if index <= 2 && r.Generation? then s.(generation := r.generation)
    else if r.Op? then s.(meta := Apply(s.meta, r.op))
    else s
  }

  function Notes(s: Store, rs: seq<Record>): Store {
    if rs == [] then s else Note(Notes(s, rs[..|rs| - 1]), rs[|rs| - 1], |rs|)
  }

  /** Only the first two records can set the generation, the second over the first. */
  lemma {:induction false} GenerationInFront(s: Store, rs: seq<Record>)
    ensures Notes(s, rs).generation == if |rs| >= 2 && rs[1].Generation? then rs[1].generation
                                       else if |rs| >= 1 && rs[0].Generation? then rs[0].generation
                                       else s.generation
  {
    hide Apply;
    if rs != [] { GenerationInFront(s, rs[..|rs| - 1]); }
  }

  function Decoded(c: Codec, payloads: seq<seq<byte>>): seq<Record> {
    seq(|payloads|, i requires 0 <= i < |payloads| => c.decode(payloads[i]))
  }

  function Encoded(c: Codec, rs: seq<Record>): seq<seq<byte>> {
    seq(|rs|, i requires 0 <= i < |rs| => c.encode(rs[i]))
  }

  // The record at `pos`, if it is whole and checks out.
  method ReadRecord(f: Framing, bytes: seq<byte>, pos: nat) returns (r: Option<seq<byte>>)
    requires pos + 8 <= |bytes|
    ensures r == Front(f, bytes[pos..])
    ensures r.Some? ==> pos + 8 + |r.value| + Extra(f) <= |bytes|
  {
    hide ToLe32, FromLe32;
    var len := FromLe32(bytes[pos..pos + 4]);
    var payloadEnd := pos + 8 + len;
    var recordEnd := payloadEnd + Extra(f);
    ghost var rest := bytes[pos..];
    assert rest[..4] == bytes[pos..pos + 4];
    if recordEnd > |bytes| { return None; }
    var payload := bytes[pos + 8..payloadEnd];
    assert rest[4..8] == bytes[pos + 4..pos + 8] && rest[8..8 + len] == payload;
    assert rest[8 + len..8 + len + Extra(f)] == bytes[payloadEnd..recordEnd];
    if f.crc(payload) != bytes[pos + 4..pos + 8] { return None; }
    if f.tag.Some? && f.tag.value(payload) != bytes[payloadEnd..recordEnd] { return None; }
    r := Some(payload);
  }

  method ReplayLog(f: Framing, c: Codec, bytes: seq<byte>) returns (s: Store)
    ensures s == Notes(Store(map[], 0), Decoded(c, Records(f, bytes)))
  {
    hide Front, Note, Notes, Decoded;
    s := Store(map[], 0);
    var pos, index := 0, 0;
    ghost var done: seq<seq<byte>> := [];
    assert bytes[0..] == bytes;
    assert s == Notes(Store(map[], 0), Decoded(c, done)) by { NothingYet(c); }
    while pos + 8 <= |bytes|
      invariant pos <= |bytes| && index == |done|
      invariant Records(f, bytes) == done + Records(f, bytes[pos..])
      invariant s == Notes(Store(map[], 0), Decoded(c, done))
      decreases |bytes| - pos
    {
      var read := ReadRecord(f, bytes, pos);
      if read.None? { break; }
      var payload := read.value;
      var recordEnd := pos + 8 + |payload| + Extra(f);
      assert bytes[pos..][8 + |payload| + Extra(f)..] == bytes[recordEnd..];
      Snoc(c, done, payload);
      pos, index := recordEnd, index + 1;
      done := done + [payload];
      s := Note(s, c.decode(payload), index);
    }
    TooShort(f, bytes[pos..]);
    assert done + [] == done;
  }

  lemma NothingYet(c: Codec)
    ensures Notes(Store(map[], 0), Decoded(c, [])) == Store(map[], 0)
  {
  }

  lemma TooShort(f: Framing, bytes: seq<byte>)
    ensures |bytes| < 8 ==> Front(f, bytes) == None
  {
  }

  lemma Snoc(c: Codec, payloads: seq<seq<byte>>, payload: seq<byte>)
    ensures Notes(Store(map[], 0), Decoded(c, payloads + [payload])) ==
            Note(Notes(Store(map[], 0), Decoded(c, payloads)), c.decode(payload), |payloads| + 1)
  {
    hide Note;
    assert Decoded(c, payloads + [payload])[..|payloads|] == Decoded(c, payloads);
  }

  lemma DecodeEncoded(c: Codec, rs: seq<Record>, k: nat)
    requires FaithfulOn(c, rs) && k <= |rs|
    ensures Decoded(c, Encoded(c, rs)[..k]) == rs[..k] && Short(Encoded(c, rs))
  {
  }

  function OpRecords(ops: seq<MetaOp>): seq<Record> {
    seq(|ops|, i requires 0 <= i < |ops| => Op(ops[i]))
  }

  // A log as it is laid out: header, the generation marker if the log was compacted, and
  // the operations.
  function Lead(marker: Option<nat>): (rs: seq<Record>)
    ensures 1 <= |rs| <= 2
  {
    [Header] + if marker.Some? then [Generation(marker.value)] else []
  }

  function LogRecords(marker: Option<nat>, ops: seq<MetaOp>): seq<Record> {
    Lead(marker) + OpRecords(ops)
  }

  function GenerationOf(marker: Option<nat>): nat {
    if marker.Some? then marker.value else 0
  }

  lemma NotesOfLead(marker: Option<nat>, k: nat)
    requires k <= |Lead(marker)|
    ensures Notes(Store(map[], 0), Lead(marker)[..k]).meta == map[]
    ensures Notes(Store(map[], 0), Lead(marker)) == Store(map[], GenerationOf(marker))
  {
    var lead := Lead(marker);
    assert lead[..0] == [] && lead[..1] == [Header] && [Header][..0] == [];
    assert lead[..|lead|] == lead;
    if marker.Some? { assert lead[..|lead| - 1] == [Header]; }
  }

  lemma {:induction false} NotesOfLog(marker: Option<nat>, ops: seq<MetaOp>)
    ensures Notes(Store(map[], 0), LogRecords(marker, ops)) ==
            Store(Compaction.Replay(map[], ops), GenerationOf(marker))
  {
    hide Apply, Lead;
    var rs := LogRecords(marker, ops);
    if ops == [] {
      NotesOfLead(marker, 0);
      assert rs == Lead(marker);
    } else {
      assert rs[..|rs| - 1] == LogRecords(marker, ops[..|ops| - 1]);
      NotesOfLog(marker, ops[..|ops| - 1]);
    }
  }

  function LogBytes(f: Framing, c: Codec, marker: Option<nat>, ops: seq<MetaOp>): seq<byte> {
    Encode(f, Encoded(c, LogRecords(marker, ops)))
  }

  // The operations whose records lie completely within the first `n` bytes.
  function OpsWithin(f: Framing, c: Codec, marker: Option<nat>, ops: seq<MetaOp>, n: nat): (k: nat)
    ensures k <= |ops|
  {
    var k := Complete(f, Encoded(c, LogRecords(marker, ops)), n);
    if k < |Lead(marker)| then 0 else k - |Lead(marker)|
  }

  /** Crash recovery: wherever a log was cut off, begun fresh or compacted before, replay
      gives the state after some prefix of the operations, namely those whose records are
      complete. */
  lemma CrashRecovery(f: Framing, c: Codec, marker: Option<nat>, ops: seq<MetaOp>, n: nat)
    requires ProperFraming(f) && FaithfulOn(c, LogRecords(marker, ops)) && n <= |LogBytes(f, c, marker, ops)|
    ensures Notes(Store(map[], 0), Decoded(c, Records(f, LogBytes(f, c, marker, ops)[..n]))).meta
            == Compaction.Replay(map[], ops[..OpsWithin(f, c, marker, ops, n)])
  {
    hide Complete, Records, Encode, Notes, Lead;
    var rs, lead := LogRecords(marker, ops), Lead(marker);
    var k := Complete(f, Encoded(c, rs), n);
    DecodeEncoded(c, rs, k);
    TornLogIsPrefix(f, Encoded(c, rs), n);
    if k >= |lead| {
      assert rs[..k] == LogRecords(marker, ops[..k - |lead|]);
      NotesOfLog(marker, ops[..k - |lead|]);
    } else {
      assert rs[..k] == lead[..k];
      NotesOfLead(marker, k);
      assert ops[..0] == [];
    }
  }

  /** What compaction writes and a restart reads: the same store, up to media types, and
      exactly the same if and only if tagged manifests agree with their last tags. */
  lemma CompactedLogReadsBack(f: Framing, c: Codec, generation: nat, m: Meta, p: Compaction.Pass)
    requires ProperFraming(f) && Compaction.Whole(m, p)
    requires FaithfulOn(c, LogRecords(Some(generation), Compaction.Image(m, p)))
    ensures var log := LogBytes(f, c, Some(generation), Compaction.Image(m, p));
            var s := Notes(Store(map[], 0), Decoded(c, Records(f, log)));
            && s.generation == generation
            && (forall r :: RepoOf(s.meta, r) == RepoOf(m, r).(mediaTypes := RepoOf(s.meta, r).mediaTypes))
            && ((forall r :: RepoOf(s.meta, r) == RepoOf(m, r)) <==> Compaction.AllTyped(m, p))
  {
    hide Records, Encode, Notes, Compaction.Whole, Compaction.AllTyped, Compaction.Image, LogRecords;
    var ops := Compaction.Image(m, p);
    var rs := LogRecords(Some(generation), ops);
    DecodeEncoded(c, rs, |rs|);
    assert rs[..|rs|] == rs && Encoded(c, rs)[..|rs|] == Encoded(c, rs);
    IntactRecordsRead(f, Encoded(c, rs), []);
    assert LogBytes(f, c, Some(generation), ops) + [] == LogBytes(f, c, Some(generation), ops);
    assert Records(f, []) == [] by { NoRecords(f); }
    assert Encoded(c, rs) + [] == Encoded(c, rs);
    NotesOfLog(Some(generation), ops);
    Compaction.CompactionRestores(m, p);
  }

  lemma NoRecords(f: Framing)
    ensures Records(f, []) == []
  {
  }

  // ---- the next session appends where the file ends ----

  // What a cut log holds after its complete records: a piece of the record that was cut.
  function Torn(f: Framing, payloads: seq<seq<byte>>, n: nat): seq<byte>
    requires n <= |Encode(f, payloads)|
  {
    if payloads == [] then []
    else if n < |Frame(f, payloads[0])| then Frame(f, payloads[0])[..n]
    else Torn(f, payloads[1..], n - |Frame(f, payloads[0])|)
  }

  lemma {:induction false} CutIntoParts(f: Framing, payloads: seq<seq<byte>>, n: nat)
    requires n <= |Encode(f, payloads)|
    ensures Encode(f, payloads)[..n] == Encode(f, payloads[..Complete(f, payloads, n)]) + Torn(f, payloads, n)
  {
    hide Frame;
    if payloads == [] {
    } else {
      var first, rest := Frame(f, payloads[0]), Encode(f, payloads[1..]);
      if n < |first| {
        assert Encode(f, payloads)[..n] == first[..n];
      } else {
        var m := n - |first|;
        CutIntoParts(f, payloads[1..], m);
        var k := Complete(f, payloads[1..], m);
        assert payloads[..1 + k] == [payloads[0]] + payloads[1..][..k];
        assert payloads[..1 + k][1..] == payloads[1..][..k];
        assert Encode(f, payloads)[..n] == first + rest[..m];
      }
    }
  }

  // The torn piece begins the record that was cut, and is shorter than it.
  lemma {:induction false} TornIsPiece(f: Framing, payloads: seq<seq<byte>>, n: nat)
    requires n <= |Encode(f, payloads)| && Torn(f, payloads, n) != []
    ensures var k, m := Complete(f, payloads, n), |Torn(f, payloads, n)|;
            k < |payloads| && m < |Frame(f, payloads[k])| && Torn(f, payloads, n) == Frame(f, payloads[k])[..m]
  {
    hide Frame;
    if n >= |Frame(f, payloads[0])| { TornIsPiece(f, payloads[1..], n - |Frame(f, payloads[0])|); }
  }

  // The bytes behind the readable records.
  function Unread(f: Framing, bytes: seq<byte>): seq<byte>
    decreases |bytes|
  {
    var front := Front(f, bytes);
    if front.None? then bytes else Unread(f, bytes[8 + |front.value| + Extra(f)..])
  }

  lemma FrontIsFrame(f: Framing, bytes: seq<byte>)
    requires ProperFraming(f) && Front(f, bytes).Some?
    ensures var payload := Front(f, bytes).value;
            && |payload| < U32 && 8 + |payload| + Extra(f) <= |bytes|
            && bytes == Frame(f, payload) + bytes[8 + |payload| + Extra(f)..]
  {
    hide ToLe32, FromLe32, TagOf, Extra;
    var payload := Front(f, bytes).value;
    var n, e := |payload|, Extra(f);
    BytesRoundTrip(bytes[..4]);
    assert bytes[..4] == ToLe32(n);
    assert bytes == bytes[..4] + bytes[4..8] + bytes[8..8 + n] + bytes[8 + n..8 + n + e] + bytes[8 + n + e..];
  }

  // Any bytes at all are the records read from them, framed, and something unreadable.
  lemma {:induction false} RecordsBegin(f: Framing, bytes: seq<byte>)
    requires ProperFraming(f)
    ensures bytes == Encode(f, Records(f, bytes)) + Unread(f, bytes)
    ensures Front(f, Unread(f, bytes)) == None
    decreases |bytes|
  {
    hide Frame, Front, ProperFraming;
    var front := Front(f, bytes);
    if front.Some? {
      FrontIsFrame(f, bytes);
      var rest := bytes[8 + |front.value| + Extra(f)..];
      RecordsBegin(f, rest);
      assert Records(f, bytes)[1..] == Records(f, rest);
      assert bytes == Frame(f, front.value) + (Encode(f, Records(f, rest)) + Unread(f, rest));
    } else {
      assert Encode(f, []) + bytes == bytes;
    }
  }

  // Exactly which bytes read as `records`.
  lemma ReadAsIff(f: Framing, bytes: seq<byte>, records: seq<seq<byte>>)
    requires ProperFraming(f) && Short(records)
    ensures var e := Encode(f, records);
            Records(f, bytes) == records <==> e <= bytes && Front(f, bytes[|e|..]) == None
  {
    hide Frame, Front, ProperFraming, Records, Encode, Unread;
    var e := Encode(f, records);
    if Records(f, bytes) == records {
      RecordsBegin(f, bytes);
      assert bytes[|e|..] == Unread(f, bytes);
    }
    if e <= bytes && Front(f, bytes[|e|..]) == None {
      assert bytes == e + bytes[|e|..];
      IntactRecordsRead(f, records, bytes[|e|..]);
      NothingRead(f, bytes[|e|..]);
      assert records + [] == records;
    }
  }

  /** A log that a crash cut off is not truncated when it is opened again: what the next
      session appends follows the torn piece. The appended records are all read back if and
      only if the bytes behind the complete ones, torn piece first, begin with the appended
      ones all the same and nothing readable is left; after a clean cut they do. All of
      them are lost if and only if the torn record, completed by what follows, is rejected. */
  lemma AppendedSurviveIff(f: Framing, payloads: seq<seq<byte>>, n: nat, more: seq<seq<byte>>)
    requires ProperFraming(f) && Short(payloads) && Short(more) && more != [] && n <= |Encode(f, payloads)|
    ensures var k, torn, e := Complete(f, payloads, n), Torn(f, payloads, n), Encode(f, more);
            var read := Records(f, Encode(f, payloads)[..n] + e);
            && (read == payloads[..k] + more <==> e <= torn + e && Front(f, (torn + e)[|e|..]) == None)
            && (torn == [] ==> read == payloads[..k] + more)
            && (read == payloads[..k] <==> torn != [] && Front(f, torn + e) == None)
  {
    hide Frame, Front, ProperFraming, Encode, Complete;
    var k, torn, e := Complete(f, payloads, n), Torn(f, payloads, n), Encode(f, more);
    CutIntoParts(f, payloads, n);
    assert Encode(f, payloads)[..n] + e == Encode(f, payloads[..k]) + (torn + e);
    IntactRecordsRead(f, payloads[..k], torn + e);
    var read, back := Records(f, Encode(f, payloads)[..n] + e), Records(f, torn + e);
    SamePrefix(payloads[..k], back, more);
    SamePrefix(payloads[..k], back, []);
    assert payloads[..k] + [] == payloads[..k];
    ReadAsIff(f, torn + e, more);
    if torn == [] {
      assert torn + e == e && e[|e|..] == [];
      TooShort(f, []);
    }
  }

  lemma SamePrefix<T>(a: seq<T>, b: seq<T>, c: seq<T>)
    ensures a + b == a + c <==> b == c
  {
    assert (a + b)[|a|..] == b && (a + c)[|a|..] == c;
  }

  /** When a torn record is rejected, in its own terms. `m` bytes of it were written, its
      length among them. What follows is taken for the rest of it, and it is rejected if
      and only if there is too little of that, or the checksum or the tag disagree with the
      spliced payload. The checksum is the record's own once eight bytes were written. */
  lemma TornRejectedIff(f: Framing, payload: seq<byte>, m: nat, e: seq<byte>)
    requires ProperFraming(f) && |payload| < U32 && 4 <= m < |Frame(f, payload)|
    ensures var n, all := |payload|, Frame(f, payload)[..m] + e;
            && (Front(f, all) == None <==>
                 || m + |e| < |Frame(f, payload)|
                 || f.crc(all[8..8 + n]) != all[4..8]
                 || TagOf(f, all[8..8 + n]) != all[8 + n..8 + n + Extra(f)])
            && (m >= 8 ==> all[4..8] == f.crc(payload))
            && (8 + n <= m ==> all[8..8 + n] == payload)
  {
    hide ToLe32, FromLe32, TagOf, Extra, ProperFraming;
    FrameLength(f, payload);
    LengthRoundTrip(|payload|);
    var n, all := |payload|, Frame(f, payload)[..m] + e;
    assert all[..4] == ToLe32(n);
    if m >= 8 { assert all[4..8] == f.crc(payload); }
    if m >= 8 + n { assert all[8..8 + n] == payload; }
  }

  // Whatever the checksum, a torn record longer than all that follows swallows it.
  lemma LongTornRecordSwallows(f: Framing, payload: seq<byte>, m: nat, more: seq<seq<byte>>)
    requires ProperFraming(f) && |payload| < U32 && 4 <= m && m + |Encode(f, more)| < |Frame(f, payload)|
    ensures Records(f, Frame(f, payload)[..m] + Encode(f, more)) == []
  {
    hide Frame, Front, ProperFraming, Encode;
    TornRejectedIff(f, payload, m, Encode(f, more));
    NothingRead(f, Frame(f, payload)[..m] + Encode(f, more));
  }
}
