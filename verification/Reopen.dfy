// Opening the metadata log, continuing it and opening it again: what a session wrote after
// the log had been cut off by a crash.

module Reopen {
  import opened Core
  import opened Metadata
  import opened Stamp
  import opened Wal
  import Compaction

  const EMPTY := Store(map[], 0)

  // What the first record says about the log.
  datatype Check = Compatible | Incompatible | NoHeader

  // The payload is judged before the tag, so a header with a bad tag is incompatible and a
  // bad record is no header.
  function CheckFraming(f: Framing, c: Codec, bytes: seq<byte>): Check {
    var first := Front(f.(tag := None), bytes);
    if first.None? then NoHeader
    else
      match c.decode(first.value)
      case Header => if Front(f, bytes).Some? then Compatible else Incompatible
      case OtherHeader => Incompatible
      case _ => NoHeader
  }

  // Opening moves a log aside when it cannot be trusted.
  predicate Discards(f: Framing, c: Codec, bytes: seq<byte>) {
    var check := CheckFraming(f, c, bytes);
    bytes != [] && (check.Incompatible? || (check.NoHeader? && f.tag.Some?))
  }

  function Kept(f: Framing, c: Codec, bytes: seq<byte>): seq<byte> {
    if Discards(f, c, bytes) then [] else bytes
  }

  // A log without a header is replayed as operations only.
  function Legacy(m: Meta, rs: seq<Record>): Meta {
    if rs == [] then m
    else
      var before := Legacy(m, rs[..|rs| - 1]);
      if rs[|rs| - 1].Op? then Apply(before, rs[|rs| - 1].op) else before
  }

  function Opened(f: Framing, c: Codec, bytes: seq<byte>): Store {
    var rs := Decoded(c, Records(f, Kept(f, c, bytes)));
    if Kept(f, c, bytes) == [] then EMPTY
    else if CheckFraming(f, c, bytes).Compatible? then Notes(EMPTY, rs)
    else Store(Legacy(map[], rs), 0)
  }

  // Operations appended to what opening kept; an empty file gets a header first.
  function Continued(f: Framing, c: Codec, kept: seq<byte>, ops: seq<MetaOp>): seq<byte> {
    if ops == [] then kept
    else if kept == [] then LogBytes(f, c, None, ops)
    else kept + Encode(f, Encoded(c, OpRecords(ops)))
  }

  method ReplayLegacy(f: Framing, c: Codec, bytes: seq<byte>) returns (m: Meta)
    ensures m == Legacy(map[], Decoded(c, Records(f, bytes)))
  {
    hide Front, Apply, Legacy, Decoded;
    m := map[];
    var pos := 0;
    ghost var done: seq<seq<byte>> := [];
    assert bytes[0..] == bytes;
    assert m == Legacy(map[], Decoded(c, done)) by { LegacyNothing(c); }
    while pos + 8 <= |bytes|
      invariant pos <= |bytes|
      invariant Records(f, bytes) == done + Records(f, bytes[pos..])
      invariant m == Legacy(map[], Decoded(c, done))
      decreases |bytes| - pos
    {
      var read := ReadRecord(f, bytes, pos);
      if read.None? { break; }
      var payload := read.value;
      var end := pos + 8 + |payload| + Extra(f);
      assert bytes[pos..][8 + |payload| + Extra(f)..] == bytes[end..];
      LegacySnoc(c, done, payload);
      pos, done := end, done + [payload];
      var r := c.decode(payload);
      if r.Op? { m := Apply(m, r.op); }
    }
    TooShort(f, bytes[pos..]);
    assert done + [] == done;
  }

  lemma LegacyNothing(c: Codec)
    ensures Legacy(map[], Decoded(c, [])) == map[]
  {
  }

  lemma LegacySnoc(c: Codec, payloads: seq<seq<byte>>, payload: seq<byte>)
    ensures var before, r := Legacy(map[], Decoded(c, payloads)), c.decode(payload);
            Legacy(map[], Decoded(c, payloads + [payload])) == if r.Op? then Apply(before, r.op) else before
  {
    hide Apply;
    assert Decoded(c, payloads + [payload])[..|payloads|] == Decoded(c, payloads);
  }

  /** With a header or without, replay applies every operation in the log, in order, and
      nothing else. */
  lemma {:induction false} ReplayAppliesOps(s: Store, rs: seq<Record>)
    ensures Notes(s, rs).meta == Legacy(s.meta, rs)
    ensures forall ops | rs == OpRecords(ops) :: Legacy(s.meta, rs) == Compaction.Replay(s.meta, ops)
  {
    hide Apply;
    if rs != [] {
      var n := |rs| - 1;
      ReplayAppliesOps(s, rs[..n]);
      forall ops | rs == OpRecords(ops) ensures Legacy(s.meta, rs) == Compaction.Replay(s.meta, ops) {
        assert rs[..n] == OpRecords(ops[..n]) && rs[n] == Op(ops[n]);
      }
    }
  }

  // Opening the log: what is left in the file, and what was read from it.
  method OpenLog(f: Framing, c: Codec, bytes: seq<byte>) returns (kept: seq<byte>, s: Store)
    ensures kept == Kept(f, c, bytes) && s == Opened(f, c, bytes)
  {
    hide CheckFraming, Notes, Legacy, Records;
    if bytes == [] { return [], EMPTY; }
    match CheckFraming(f, c, bytes) {
      case Compatible =>
        kept := bytes;
        s := ReplayLog(f, c, bytes);
      case Incompatible => return [], EMPTY;
      case NoHeader =>
        if f.tag.Some? { return [], EMPTY; }
        var m := ReplayLegacy(f, c, bytes);
        kept, s := bytes, Store(m, 0);
    }
  }

  /** A log begun under the other framing, keyed when this one is not or the other way round,
      is moved aside whatever follows its header. */
  lemma OtherFramingIsMovedAside(f: Framing, other: Framing, c: Codec, payload: seq<byte>, rest: seq<byte>)
    requires ProperFraming(f) && ProperFraming(other) && other.crc == f.crc && |payload| < U32
    requires c.decode(payload) == OtherHeader
    ensures Kept(f, c, Frame(other, payload) + rest) == [] && Opened(f, c, Frame(other, payload) + rest) == EMPTY
  {
    hide Front, ToLe32, Records;
    var plain, bytes := f.(tag := None), Frame(other, payload) + rest;
    assert bytes == Frame(plain, payload) + (TagOf(other, payload) + rest);
    FrontOfFrame(plain, payload, TagOf(other, payload) + rest);
    FrameLength(other, payload);
  }

  // ---- what opening keeps of a cut log ----

  lemma FrontWithoutTag(f: Framing, bytes: seq<byte>)
    ensures Front(f, bytes).Some? ==> Front(f.(tag := None), bytes) == Front(f, bytes)
    ensures f.tag.None? ==> f.(tag := None) == f
  {
    hide FromLe32;
  }

  // A log that begins with its own header is compatible, whatever follows.
  lemma HeadedIsCompatible(f: Framing, c: Codec, bytes: seq<byte>)
    requires ProperFraming(f) && FaithfulOn(c, [Header]) && Frame(f, c.encode(Header)) <= bytes
    ensures CheckFraming(f, c, bytes) == Compatible && Kept(f, c, bytes) == bytes
  {
    hide Front, Frame, ProperFraming;
    assert Header in [Header];
    var head := Frame(f, c.encode(Header));
    assert bytes == head + bytes[|head|..];
    FrontOfFrame(f, c.encode(Header), bytes[|head|..]);
    FrontWithoutTag(f, bytes);
  }

  // A log cut inside its header: kept without a key, moved aside with one.
  lemma CutHeader(f: Framing, c: Codec, n: nat)
    requires ProperFraming(f) && FaithfulOn(c, [Header]) && n < |Frame(f, c.encode(Header))|
    ensures var cut := Frame(f, c.encode(Header))[..n];
            Kept(f, c, cut) == (if f.tag.Some? then [] else cut) && !CheckFraming(f, c, cut).Compatible?
  {
    hide Frame, Front, ProperFraming;
    assert Header in [Header];
    var cut := Frame(f, c.encode(Header))[..n];
    NoFront(f, c.encode(Header), n);
    FrontWithoutTag(f, cut);
  }

  lemma LogBegins(f: Framing, c: Codec, marker: Option<nat>, ops: seq<MetaOp>)
    ensures Frame(f, c.encode(Header)) <= LogBytes(f, c, marker, ops)
    ensures Encoded(c, LogRecords(marker, ops))[0] == c.encode(Header)
  {
    hide Frame;
    assert LogRecords(marker, ops)[0] == Header;
  }

  predicate CutInHeader(f: Framing, c: Codec, n: nat) {
    n < |Frame(f, c.encode(Header))|
  }

  /** Opening a cut log keeps all of it, unless the log is keyed and the cut fell into its
      header: then it is moved aside. */
  lemma KeptOfCut(f: Framing, c: Codec, marker: Option<nat>, ops: seq<MetaOp>, n: nat)
    requires ProperFraming(f) && FaithfulOn(c, LogRecords(marker, ops)) && n <= |LogBytes(f, c, marker, ops)|
    ensures var cut := LogBytes(f, c, marker, ops)[..n];
            Kept(f, c, cut) == if f.tag.Some? && CutInHeader(f, c, n) then [] else cut
  {
    hide Kept, LogBytes, Frame, ProperFraming, CheckFraming;
    FaithfulHeader(c, marker, ops);
    LogBegins(f, c, marker, ops);
    var head, cut := Frame(f, c.encode(Header)), LogBytes(f, c, marker, ops)[..n];
    if n < |head| {
      assert cut == head[..n];
      CutHeader(f, c, n);
    } else {
      assert head <= cut;
      HeadedIsCompatible(f, c, cut);
    }
  }

  lemma FaithfulHeader(c: Codec, marker: Option<nat>, ops: seq<MetaOp>)
    requires FaithfulOn(c, LogRecords(marker, ops))
    ensures FaithfulOn(c, [Header])
  {
    assert LogRecords(marker, ops)[0] == Header;
  }

  // ---- appending to it, and opening it again ----

  // The bytes behind the complete records begin with the appended ones all the same.
  predicate SpliceReads(f: Framing, torn: seq<byte>, e: seq<byte>) {
    e <= torn + e && Front(f, (torn + e)[|e|..]) == None
  }

  function Added(c: Codec, more: seq<MetaOp>): seq<seq<byte>> {
    Encoded(c, OpRecords(more))
  }

  lemma Faithful(c: Codec, marker: Option<nat>, ops: seq<MetaOp>, more: seq<MetaOp>)
    requires FaithfulOn(c, LogRecords(marker, ops + more))
    ensures FaithfulOn(c, LogRecords(marker, ops)) && FaithfulOn(c, LogRecords(None, more)) &&
            FaithfulOn(c, OpRecords(more))
  {
    var all := LogRecords(marker, ops + more);
    forall i | 0 <= i < |LogRecords(marker, ops)| ensures LogRecords(marker, ops)[i] in all {
      assert LogRecords(marker, ops)[i] == all[i];
    }
    forall i | 0 <= i < |more| ensures OpRecords(more)[i] in all {
      assert OpRecords(more)[i] == all[|Lead(marker)| + |ops| + i];
    }
    assert all[0] == Header;
    assert Lead(None) == [Header];
  }

  lemma {:induction false} LegacyOfOps(ops: seq<MetaOp>)
    ensures Legacy(map[], OpRecords(ops)) == Compaction.Replay(map[], ops)
  {
    hide Apply;
    if ops != [] {
      assert OpRecords(ops)[..|ops| - 1] == OpRecords(ops[..|ops| - 1]);
      LegacyOfOps(ops[..|ops| - 1]);
    }
  }

  // A log that was begun anew reads back whole.
  lemma FreshLogOpens(f: Framing, c: Codec, ops: seq<MetaOp>)
    requires ProperFraming(f) && FaithfulOn(c, LogRecords(None, ops))
    ensures Opened(f, c, LogBytes(f, c, None, ops)) == Store(Compaction.Replay(map[], ops), 0)
  {
    hide ProperFraming, Notes, CheckFraming, Frame, Records, Kept;
    var log, rs := LogBytes(f, c, None, ops), LogRecords(None, ops);
    FaithfulHeader(c, None, ops);
    LogBegins(f, c, None, ops);
    HeadedIsCompatible(f, c, log);
    FrameLength(f, c.encode(Header));
    DecodeEncoded(c, rs, |rs|);
    assert rs[..|rs|] == rs && Encoded(c, rs)[..|rs|] == Encoded(c, rs);
    IntactRecordsRead(f, Encoded(c, rs), []);
    assert log + [] == log && Encoded(c, rs) + [] == Encoded(c, rs);
    NoRecords(f);
    NotesOfLog(None, ops);
  }

  lemma DecodedCut(c: Codec, rs: seq<Record>, k: nat, more: seq<MetaOp>)
    requires FaithfulOn(c, rs) && FaithfulOn(c, OpRecords(more)) && k <= |rs|
    ensures Decoded(c, Encoded(c, rs)[..k] + Added(c, more)) == rs[..k] + OpRecords(more)
  {
    hide FaithfulOn;
    DecodeEncoded(c, rs, k);
    DecodeEncoded(c, OpRecords(more), |more|);
    assert Added(c, more)[..|more|] == Added(c, more) && OpRecords(more)[..|more|] == OpRecords(more);
    var a, b := Encoded(c, rs)[..k], Added(c, more);
    assert Decoded(c, a + b) == Decoded(c, a) + Decoded(c, b);
  }

  lemma NotesOfCut(marker: Option<nat>, ops: seq<MetaOp>, k: nat, more: seq<MetaOp>)
    requires 1 <= k <= |LogRecords(marker, ops)|
    ensures var lead := |Lead(marker)|;
            Notes(EMPTY, LogRecords(marker, ops)[..k] + OpRecords(more)).meta ==
            Compaction.Replay(map[], ops[..if k < lead then 0 else k - lead] + more)
  {
    hide Notes, Compaction.Replay;
    var rs, lead := LogRecords(marker, ops), |Lead(marker)|;
    if k >= lead {
      assert rs[..k] + OpRecords(more) == LogRecords(marker, ops[..k - lead] + more);
      NotesOfLog(marker, ops[..k - lead] + more);
    } else {
      assert rs[..k] == [Header] && Lead(None) == [Header];
      assert rs[..k] + OpRecords(more) == LogRecords(None, more);
      NotesOfLog(None, more);
      assert ops[..0] + more == more;
    }
  }

  // What a log that reads as `k` of its old records and then operations amounts to.
  lemma HeadedLogOpens(f: Framing, c: Codec, marker: Option<nat>, ops: seq<MetaOp>, k: nat, more: seq<MetaOp>,
                       bytes: seq<byte>)
    requires ProperFraming(f) && FaithfulOn(c, LogRecords(marker, ops + more)) && 1 <= k <= |LogRecords(marker, ops)|
    requires Frame(f, c.encode(Header)) <= bytes
    requires Records(f, bytes) == Encoded(c, LogRecords(marker, ops))[..k] + Added(c, more)
    ensures var lead := |Lead(marker)|;
            Opened(f, c, bytes).meta == Compaction.Replay(map[], ops[..if k < lead then 0 else k - lead] + more)
  {
    hide ProperFraming, Notes, CheckFraming, Frame, Records, Kept, Decoded, Encoded, LogRecords, OpRecords,
         Compaction.Replay, FaithfulOn, Added;
    Faithful(c, marker, ops, more);
    FaithfulHeader(c, marker, ops);
    HeadedIsCompatible(f, c, bytes);
    FrameLength(f, c.encode(Header));
    DecodedCut(c, LogRecords(marker, ops), k, more);
    NotesOfCut(marker, ops, k, more);
  }

  lemma HeadlessCheck(f: Framing, c: Codec, more: seq<MetaOp>, bytes: seq<byte>)
    requires f.tag.None? && FaithfulOn(c, OpRecords(more)) && Records(f, bytes) == Added(c, more)
    ensures CheckFraming(f, c, bytes) == NoHeader
  {
    hide Front;
    FrontWithoutTag(f, bytes);
    if more != [] {
      assert Front(f, bytes).value == Records(f, bytes)[0] == c.encode(OpRecords(more)[0]);
      assert OpRecords(more)[0] in OpRecords(more);
    }
  }

  // Without a key and without a header.
  lemma HeadlessLogOpens(f: Framing, c: Codec, more: seq<MetaOp>, bytes: seq<byte>)
    requires f.tag.None? && FaithfulOn(c, OpRecords(more)) && bytes != [] && Records(f, bytes) == Added(c, more)
    ensures Opened(f, c, bytes).meta == Compaction.Replay(map[], more)
  {
    hide Records, Legacy, Notes, CheckFraming, Encoded, Decoded, OpRecords, Compaction.Replay, FaithfulOn;
    HeadlessCheck(f, c, more, bytes);
    DecodeEncoded(c, OpRecords(more), |OpRecords(more)|);
    assert Added(c, more)[..|OpRecords(more)|] == Added(c, more) by { SameLength(c, OpRecords(more)); }
    assert OpRecords(more)[..|OpRecords(more)|] == OpRecords(more);
    LegacyOfOps(more);
  }

  lemma SameLength(c: Codec, rs: seq<Record>)
    ensures |Encoded(c, rs)| == |rs|
  {
  }

  // The log after a cut at `n`: its complete records, then `read` of what was appended.
  lemma CutLogOpens(f: Framing, c: Codec, marker: Option<nat>, ops: seq<MetaOp>, n: nat, read: seq<MetaOp>,
                    bytes: seq<byte>)
    requires ProperFraming(f) && FaithfulOn(c, LogRecords(marker, ops + read)) && n <= |LogBytes(f, c, marker, ops)|
    requires bytes != [] && LogBytes(f, c, marker, ops)[..n] <= bytes && (f.tag.Some? ==> !CutInHeader(f, c, n))
    requires var log := Encoded(c, LogRecords(marker, ops));
             Records(f, bytes) == log[..Complete(f, log, n)] + Added(c, read)
    ensures Opened(f, c, bytes).meta == Compaction.Replay(map[], ops[..OpsWithin(f, c, marker, ops, n)] + read)
  {
    hide ProperFraming, Opened, Frame, Records, Added, Lead;
    var log, cut := Encoded(c, LogRecords(marker, ops)), LogBytes(f, c, marker, ops)[..n];
    Faithful(c, marker, ops, read);
    LogBegins(f, c, marker, ops);
    if CutInHeader(f, c, n) {
      assert log[..0] + Added(c, read) == Added(c, read);
      HeadlessLogOpens(f, c, read, bytes);
      assert ops[..0] + read == read;
    } else {
      var head := Frame(f, c.encode(Header));
      assert head <= cut <= bytes;
      HeadedLogOpens(f, c, marker, ops, Complete(f, log, n), read, bytes);
    }
  }

  lemma NothingToRead(f: Framing, c: Codec, marker: Option<nat>, ops: seq<MetaOp>, n: nat)
    requires ProperFraming(f) && (n == 0 || CutInHeader(f, c, n))
    ensures OpsWithin(f, c, marker, ops, n) == 0
  {
    hide Frame;
    FrameLength(f, c.encode(Header));
    LogBegins(f, c, marker, ops);
  }

  /** A log cut off anywhere, opened, appended to and opened again. It is begun anew exactly
      when nothing was left of it or the cut fell into the header of a keyed log, and then
      everything appended is there. Otherwise what was appended is read back behind the
      complete records if and only if the bytes after those begin with it all the same; the
      state is then that after the complete operations and the appended ones. It is that
      after the complete ones alone when the torn record is rejected. */
  lemma ReopenedSurviveIff(f: Framing, c: Codec, marker: Option<nat>, ops: seq<MetaOp>, n: nat, more: seq<MetaOp>)
    requires ProperFraming(f) && FaithfulOn(c, LogRecords(marker, ops + more))
    requires more != [] && n <= |LogBytes(f, c, marker, ops)|
    ensures var log, whole := Encoded(c, LogRecords(marker, ops)), OpsWithin(f, c, marker, ops, n);
            var torn, e := Torn(f, log, n), Encode(f, Added(c, more));
            var kept := Kept(f, c, LogBytes(f, c, marker, ops)[..n]);
            var next := Continued(f, c, kept, more);
            && (kept == [] <==> n == 0 || (f.tag.Some? && CutInHeader(f, c, n)))
            && (kept != [] ==>
                 (Records(f, next) == log[..Complete(f, log, n)] + Added(c, more) <==> SpliceReads(f, torn, e)))
            && (kept == [] || SpliceReads(f, torn, e) ==>
                 Opened(f, c, next).meta == Compaction.Replay(map[], ops[..whole] + more))
            && (kept != [] && torn != [] && Front(f, torn + e) == None ==>
                 Opened(f, c, next).meta == Compaction.Replay(map[], ops[..whole]))
  {
    hide ProperFraming, Opened, Frame, Front, Records, Encode, Lead, Kept, Torn, Complete, OpsWithin;
    var log, whole := Encoded(c, LogRecords(marker, ops)), OpsWithin(f, c, marker, ops, n);
    var torn, e := Torn(f, log, n), Encode(f, Added(c, more));
    var cut := LogBytes(f, c, marker, ops)[..n];
    Faithful(c, marker, ops, more);
    KeptOfCut(f, c, marker, ops, n);
    var kept := Kept(f, c, cut);
    var next := Continued(f, c, kept, more);
    if kept == [] {
      NothingToRead(f, c, marker, ops, n);
      FreshLogOpens(f, c, more);
      assert ops[..0] + more == more;
    } else {
      DecodeEncoded(c, LogRecords(marker, ops), 0);
      DecodeEncoded(c, OpRecords(more), 0);
      AppendedSurviveIff(f, log, n, Added(c, more));
      if SpliceReads(f, torn, e) { CutLogOpens(f, c, marker, ops, n, more, next); }
      if torn != [] && Front(f, torn + e) == None { RejectedLogOpens(f, c, marker, ops, n, next); }
    }
  }

  lemma RejectedLogOpens(f: Framing, c: Codec, marker: Option<nat>, ops: seq<MetaOp>, n: nat, bytes: seq<byte>)
    requires ProperFraming(f) && FaithfulOn(c, LogRecords(marker, ops)) && n <= |LogBytes(f, c, marker, ops)|
    requires bytes != [] && LogBytes(f, c, marker, ops)[..n] <= bytes && (f.tag.Some? ==> !CutInHeader(f, c, n))
    requires var log := Encoded(c, LogRecords(marker, ops)); Records(f, bytes) == log[..Complete(f, log, n)]
    ensures Opened(f, c, bytes).meta == Compaction.Replay(map[], ops[..OpsWithin(f, c, marker, ops, n)])
  {
    hide ProperFraming, Opened, Records, Complete, OpsWithin;
    var log, whole := Encoded(c, LogRecords(marker, ops)), OpsWithin(f, c, marker, ops, n);
    assert ops + [] == ops && ops[..whole] + [] == ops[..whole];
    assert Added(c, []) == [] && log[..Complete(f, log, n)] + [] == log[..Complete(f, log, n)];
    CutLogOpens(f, c, marker, ops, n, [], bytes);
  }

  /** Recovery as opening does it: wherever the log was cut, and whether it was kept, moved
      aside or read without a header, the state is that after the complete operations. */
  lemma CutLogRecovers(f: Framing, c: Codec, marker: Option<nat>, ops: seq<MetaOp>, n: nat)
    requires ProperFraming(f) && FaithfulOn(c, LogRecords(marker, ops)) && n <= |LogBytes(f, c, marker, ops)|
    ensures Opened(f, c, LogBytes(f, c, marker, ops)[..n]).meta ==
            Compaction.Replay(map[], ops[..OpsWithin(f, c, marker, ops, n)])
  {
    hide ProperFraming, Frame, Records, Encode, Complete, OpsWithin, CheckFraming, Encoded, LogRecords;
    var log, cut := Encoded(c, LogRecords(marker, ops)), LogBytes(f, c, marker, ops)[..n];
    KeptOfCut(f, c, marker, ops, n);
    if Kept(f, c, cut) == [] {
      NothingToRead(f, c, marker, ops, n);
    } else {
      DecodeEncoded(c, LogRecords(marker, ops), 0);
      TornLogIsPrefix(f, log, n);
      RejectedLogOpens(f, c, marker, ops, n, cut);
    }
  }
}
