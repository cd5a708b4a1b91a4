// Metadata operations are appended under one lock and synced under another, many at a
// time: whoever finds its record not yet covered syncs for everyone who appended before.

module GroupCommit {
  import opened Core
  import opened Metadata
  import opened Stamp
  import opened Wal
  import opened Reopen
  import Compaction

  // The log as this process opened it: `before` are its operations, and a `blank` one is
  // still an empty file.
  datatype Env = Env(f: Framing, c: Codec, marker: Option<nat>, before: seq<MetaOp>, blank: bool)

  ghost predicate ProperEnv(env: Env) {
    ProperFraming(env.f) && (env.blank ==> env.marker == None && env.before == [])
  }

  function Start(env: Env): seq<byte> {
    if env.blank then [] else LogBytes(env.f, env.c, env.marker, env.before)
  }

  // The file once `ops` were appended completely.
  function Whole(env: Env, ops: seq<MetaOp>): seq<byte> {
    Continued(env.f, env.c, Start(env), ops)
  }

  // A call is acknowledged with its number once that number is synced; a relaxed one
  // returns without waiting.
  datatype Pc =
    | Begin
    | Written(number: nat)
    | Loaded(number: nat, covered: nat)
    | Flushed(number: nat, covered: nat)
    | Acknowledged(number: nat)
    | Returned
    | Failed

  datatype Caller = Caller(op: MetaOp, relaxed: bool, pc: Pc)

  // `ops` were appended completely, in this order. `half` says how many of them when an
  // append first stopped half way; `durable` bytes of the file are certainly on disk;
  // `holder` has the sync lock.
  datatype State = State(
    file: seq<byte>,
    ops: seq<MetaOp>,
    half: Option<nat>,
    durable: nat,
    synced: nat,
    holder: Option<nat>,
    callers: seq<Caller>)

  datatype Action =
    | Spawn(op: MetaOp, relaxed: bool)
    | Run(t: nat, ok: bool, written: nat)
    | WriteBack(upTo: nat)

  // What appending `op` writes: an empty file gets the header in the same write.
  function Piece(env: Env, file: seq<byte>, op: MetaOp): seq<byte> {
    if file == [] then LogBytes(env.f, env.c, None, [op]) else Encode(env.f, Added(env.c, [op]))
  }

  function Goto(s: State, t: nat, pc: Pc): State
    requires t < |s.callers|
  {
    s.(callers := s.callers[t := s.callers[t].(pc := pc)])
  }

  // The operations that no half-written record precedes.
  function Intact(s: State): nat {
    if s.half.Some? then s.half.value else |s.ops|
  }

  function Append(env: Env, s: State, t: nat, ok: bool, written: nat): State
    requires t < |s.callers|
  {
    var op := s.callers[t].op;
    var piece := Piece(env, s.file, op);
    if ok then Goto(s.(file := s.file + piece, ops := s.ops + [op]), t, Written(|s.ops| + 1))
    else if written < |piece|
    then Goto(s.(file := s.file + piece[..written], half := if written > 0 then Some(Intact(s)) else s.half), t, Failed)
    else s
  }

  function RunCaller(env: Env, s: State, t: nat, ok: bool, written: nat): State
    requires t < |s.callers|
  {
    match s.callers[t].pc
    case Begin => Append(env, s, t, ok, written)
    case Written(n) =>
      if s.callers[t].relaxed then Goto(s, t, Returned)
      else if s.holder.Some? then s
      else if s.synced >= n then Goto(s, t, Acknowledged(n))
      else Goto(s.(holder := Some(t)), t, Loaded(n, |s.ops|))
    case Loaded(n, covered) =>
      if ok then Goto(s.(durable := |s.file|), t, Flushed(n, covered)) else Goto(s.(holder := None), t, Failed)
    case Flushed(n, covered) =>
      Goto(s.(synced := if covered > s.synced then covered else s.synced, holder := None), t, Acknowledged(n))
    case _ => s
  }

  function Step(env: Env, s: State, a: Action): State {
    match a
    case Spawn(op, relaxed) => s.(callers := s.callers + [Caller(op, relaxed, Begin)])
    case Run(t, ok, written) => if t < |s.callers| then RunCaller(env, s, t, ok, written) else s
    case WriteBack(n) => if s.durable < n <= |s.file| then s.(durable := n) else s
  }

  function Exec(env: Env, s: State, acts: seq<Action>): State {
    if acts == [] then s else Step(env, Exec(env, s, acts[..|acts| - 1]), acts[|acts| - 1])
  }

  predicate Initial(env: Env, s: State) {
    s == State(Start(env), [], None, |Start(env)|, 0, None, [])
  }

  // ---- what every step keeps ----

  function Least(a: nat, b: nat): nat {
    if a < b then a else b
  }

  // The records of the first `n` operations are on disk, as far as they are intact.
  predicate OnDisk(env: Env, s: State, n: nat) {
    n <= |s.ops| && Intact(s) <= |s.ops| && |Whole(env, s.ops[..Least(n, Intact(s))])| <= s.durable
  }

  predicate Numbered(s: State, caller: Caller, n: nat) {
    1 <= n <= |s.ops| && s.ops[n - 1] == caller.op
  }

  predicate CallerInv(env: Env, s: State, t: nat)
    requires t < |s.callers|
  {
    var caller := s.callers[t];
    match caller.pc
    case Written(n) => Numbered(s, caller, n)
    case Loaded(n, covered) => Numbered(s, caller, n) && n <= covered <= |s.ops|
    case Flushed(n, covered) => Numbered(s, caller, n) && n <= covered && OnDisk(env, s, covered)
    case Acknowledged(n) => Numbered(s, caller, n) && n <= s.synced
    case _ => true
  }

  predicate FileInv(env: Env, s: State) {
    && s.durable <= |s.file| && Intact(s) <= |s.ops|
    && Whole(env, s.ops[..Intact(s)]) <= s.file && (s.half.None? ==> s.file == Whole(env, s.ops))
    && OnDisk(env, s, s.synced)
  }

  predicate Inv(env: Env, s: State) {
    FileInv(env, s) && forall t | 0 <= t < |s.callers| :: CallerInv(env, s, t)
  }

  lemma {:induction false} EncodeAppend(f: Framing, a: seq<seq<byte>>, b: seq<seq<byte>>)
    ensures Encode(f, a + b) == Encode(f, a) + Encode(f, b)
  {
    hide Frame;
    if a == [] {
      assert a + b == b;
    } else {
      assert (a + b)[1..] == a[1..] + b;
      EncodeAppend(f, a[1..], b);
    }
  }

  lemma LogAppend(f: Framing, c: Codec, marker: Option<nat>, ops: seq<MetaOp>, more: seq<MetaOp>)
    ensures LogBytes(f, c, marker, ops + more) == LogBytes(f, c, marker, ops) + Encode(f, Added(c, more))
  {
    hide Encode;
    assert Encoded(c, LogRecords(marker, ops + more)) == Encoded(c, LogRecords(marker, ops)) + Added(c, more);
    EncodeAppend(f, Encoded(c, LogRecords(marker, ops)), Added(c, more));
  }

  lemma LogIsNotEmpty(f: Framing, c: Codec, marker: Option<nat>, ops: seq<MetaOp>)
    requires ProperFraming(f)
    ensures LogBytes(f, c, marker, ops) != []
  {
    hide Frame, LogBytes;
    LogBegins(f, c, marker, ops);
    FrameLength(f, c.encode(Header));
  }

  lemma LogIsEncoded(f: Framing, c: Codec, marker: Option<nat>, ops: seq<MetaOp>)
    ensures LogBytes(f, c, marker, ops) == Encode(f, Encoded(c, LogRecords(marker, ops)))
  {
  }

  lemma WholeIsLog(env: Env, ops: seq<MetaOp>)
    requires ProperEnv(env) && (!env.blank || ops != [])
    ensures Whole(env, ops) == LogBytes(env.f, env.c, env.marker, env.before + ops) && Whole(env, ops) != []
  {
    hide LogBytes, Encode, ProperFraming;
    LogIsNotEmpty(env.f, env.c, env.marker, env.before);
    LogIsNotEmpty(env.f, env.c, env.marker, env.before + ops);
    LogAppend(env.f, env.c, env.marker, env.before, ops);
    assert env.blank ==> env.before + ops == ops;
    assert ops == [] ==> env.before + ops == env.before;
  }

  lemma WholeSnoc(env: Env, ops: seq<MetaOp>, op: MetaOp)
    requires ProperEnv(env)
    ensures Whole(env, ops + [op]) == Whole(env, ops) + Piece(env, Whole(env, ops), op)
  {
    hide LogBytes, Encode, Added, ProperFraming;
    WholeIsLog(env, ops + [op]);
    if env.blank && ops == [] {
      assert ops + [op] == [op] && env.before + [op] == [op];
    } else {
      WholeIsLog(env, ops);
      assert env.before + (ops + [op]) == env.before + ops + [op];
      LogAppend(env.f, env.c, env.marker, env.before + ops, [op]);
    }
  }

  lemma {:induction false} WholeGrows(env: Env, ops: seq<MetaOp>, n: nat)
    requires ProperEnv(env) && n <= |ops|
    ensures Whole(env, ops[..n]) <= Whole(env, ops)
    decreases |ops|
  {
    hide Whole, Piece, ProperEnv;
    if n == |ops| {
      assert ops[..n] == ops;
    } else {
      var most := ops[..|ops| - 1];
      assert most[..n] == ops[..n] && most + [ops[|ops| - 1]] == ops;
      WholeGrows(env, most, n);
      WholeSnoc(env, most, ops[|ops| - 1]);
    }
  }

  // What stays true of a caller while others append and sync.
  predicate Later(s: State, s': State) {
    && s.ops <= s'.ops && s.durable <= s'.durable && s.synced <= s'.synced
    && (s'.half == s.half || (s.half.None? && s'.half == Some(|s.ops|)))
  }

  lemma OnDiskStays(env: Env, s: State, s': State, n: nat)
    requires OnDisk(env, s, n) && Later(s, s')
    ensures OnDisk(env, s', n)
  {
    hide Whole;
    var m := Least(n, Intact(s));
    assert m == Least(n, Intact(s')) && s'.ops[..m] == s.ops[..m];
  }

  lemma CallerStays(env: Env, s: State, s': State, t: nat)
    requires t < |s.callers| && t < |s'.callers| && s'.callers[t] == s.callers[t] && Later(s, s') &&
             CallerInv(env, s, t)
    ensures CallerInv(env, s', t)
  {
    hide OnDisk;
    var pc := s.callers[t].pc;
    if pc.Flushed? { OnDiskStays(env, s, s', pc.covered); }
  }

  lemma OthersStay(env: Env, s: State, s': State, t: nat)
    requires Inv(env, s) && t < |s.callers| && Later(s, s') && FileInv(env, s') && |s'.callers| == |s.callers|
    requires forall u | 0 <= u < |s.callers| && u != t :: s'.callers[u] == s.callers[u]
    requires CallerInv(env, s', t)
    ensures Inv(env, s')
  {
    hide CallerInv, FileInv, Later;
    forall u | 0 <= u < |s'.callers| ensures CallerInv(env, s', u) {
      if u != t { CallerStays(env, s, s', u); }
    }
  }

  lemma AppendKeepsInv(env: Env, s: State, t: nat, ok: bool, written: nat)
    requires ProperEnv(env) && Inv(env, s) && t < |s.callers| && s.callers[t].pc.Begin?
    ensures Inv(env, Append(env, s, t, ok, written))
  {
    hide Whole, Piece, ProperEnv, CallerInv, OnDisk;
    var s' := Append(env, s, t, ok, written);
    if s' != s {
      OnDiskStays(env, s, s', s.synced);
      AppendedFile(env, s, t, ok, written);
      AppendedCaller(env, s, t, ok, written);
      OthersStay(env, s, s', t);
    }
  }

  lemma AppendedFile(env: Env, s: State, t: nat, ok: bool, written: nat)
    requires ProperEnv(env) && FileInv(env, s) && t < |s.callers|
    ensures var s' := Append(env, s, t, ok, written);
            && |s.file| <= |s'.file| && Intact(s') <= |s'.ops| && Whole(env, s'.ops[..Intact(s')]) <= s'.file
            && (s'.half.None? ==> s'.file == Whole(env, s'.ops))
  {
    hide Whole, Piece, ProperEnv, OnDisk;
    var s', op := Append(env, s, t, ok, written), s.callers[t].op;
    WholeSnoc(env, s.ops, op);
    assert s.ops[..|s.ops|] == s.ops && s'.ops[..|s'.ops|] == s'.ops;
    if ok {
      if s.half.Some? { assert s'.ops[..s.half.value] == s.ops[..s.half.value]; }
    } else if s' != s {
      assert written == 0 ==> Piece(env, s.file, op)[..written] == [];
    }
  }

  // Once the file is synced, so is every number that was given out.
  lemma SyncedFile(env: Env, s: State, n: nat)
    requires ProperEnv(env) && FileInv(env, s) && n <= |s.ops| && s.durable == |s.file|
    ensures OnDisk(env, s, n)
  {
    hide Whole, ProperEnv;
    var m := Least(n, Intact(s));
    assert s.ops[..Intact(s)][..m] == s.ops[..m];
    WholeGrows(env, s.ops[..Intact(s)], m);
  }

  lemma SyncKeepsFile(env: Env, s: State)
    requires ProperEnv(env) && FileInv(env, s)
    ensures FileInv(env, s.(durable := |s.file|))
  {
    hide Whole, ProperEnv;
  }

  lemma AppendedCaller(env: Env, s: State, t: nat, ok: bool, written: nat)
    requires t < |s.callers| && s.callers[t].pc.Begin?
    ensures CallerInv(env, Append(env, s, t, ok, written), t)
  {
    hide Piece;
  }

  lemma SyncKeepsInv(env: Env, s: State, t: nat, ok: bool)
    requires ProperEnv(env) && Inv(env, s) && t < |s.callers| && s.callers[t].pc.Loaded?
    ensures Inv(env, RunCaller(env, s, t, ok, 0))
  {
    hide Whole, ProperEnv, OnDisk, Append;
    var s' := RunCaller(env, s, t, ok, 0);
    assert CallerInv(env, s, t);
    if ok {
      var flushed := s.(durable := |s.file|);
      SyncKeepsFile(env, s);
      SyncedFile(env, flushed, s.callers[t].pc.covered);
      OnDiskStays(env, flushed, s', s.callers[t].pc.covered);
      OnDiskStays(env, flushed, s', s.synced);
    } else {
      OnDiskStays(env, s, s', s.synced);
    }
    OthersStay(env, s, s', t);
  }

  lemma WaitKeepsInv(env: Env, s: State, t: nat)
    requires Inv(env, s) && t < |s.callers| && (s.callers[t].pc.Written? || s.callers[t].pc.Flushed?)
    ensures Inv(env, RunCaller(env, s, t, true, 0))
  {
    hide Whole, OnDisk, Append;
    var s' := RunCaller(env, s, t, true, 0);
    assert CallerInv(env, s, t);
    OnDiskStays(env, s, s', s.synced);
    if s.callers[t].pc.Flushed? { OnDiskStays(env, s, s', s.callers[t].pc.covered); }
    OthersStay(env, s, s', t);
  }

  lemma RunKeepsInv(env: Env, s: State, t: nat, ok: bool, written: nat)
    requires ProperEnv(env) && Inv(env, s) && t < |s.callers|
    ensures Inv(env, RunCaller(env, s, t, ok, written))
  {
    hide Append, Inv, ProperEnv;
    match s.callers[t].pc {
      case Begin => AppendKeepsInv(env, s, t, ok, written);
      case Loaded(_, _) => SyncKeepsInv(env, s, t, ok);
      case Written(_) => WaitKeepsInv(env, s, t);
      case Flushed(_, _) => WaitKeepsInv(env, s, t);
      case _ =>
    }
  }

  /** Every step of every caller keeps: the file begins with the operations appended before
      the first half-written record, and as many of those as count as synced are on disk. */
  lemma StepKeepsInv(env: Env, s: State, a: Action)
    requires ProperEnv(env) && Inv(env, s)
    ensures Inv(env, Step(env, s, a))
  {
    hide RunCaller, Whole, ProperEnv;
    var s' := Step(env, s, a);
    if a.Run? && a.t < |s.callers| {
      RunKeepsInv(env, s, a.t, a.ok, a.written);
    } else {
      forall t | 0 <= t < |s'.callers| ensures CallerInv(env, s', t) {
        if t < |s.callers| { CallerStays(env, s, s', t); }
      }
    }
  }

  lemma {:induction false} ExecKeepsInv(env: Env, s: State, acts: seq<Action>)
    requires ProperEnv(env) && Initial(env, s)
    ensures Inv(env, Exec(env, s, acts))
  {
    hide Step, ProperEnv;
    if acts == [] {
      InitialInv(env, s);
    } else {
      ExecKeepsInv(env, s, acts[..|acts| - 1]);
      StepKeepsInv(env, Exec(env, s, acts[..|acts| - 1]), acts[|acts| - 1]);
    }
  }

  lemma InitialInv(env: Env, s: State)
    requires Initial(env, s)
    ensures Inv(env, s)
  {
    hide Start;
    assert s.ops[..0] == [];
  }

  // ---- acknowledged operations ----

  lemma CutKeeps(f: Framing, c: Codec, marker: Option<nat>, ops: seq<MetaOp>, n: nat, cut: nat)
    requires n <= |ops| && |LogBytes(f, c, marker, ops[..n])| <= cut
    ensures OpsWithin(f, c, marker, ops, cut) >= n
  {
    hide Complete, Encode;
    var log := Encoded(c, LogRecords(marker, ops));
    var j := |Lead(marker)| + n;
    assert log[..j] == Encoded(c, LogRecords(marker, ops[..n]));
    SyncedSurvive(f, log, j, cut);
  }

  /** In every interleaving of appends and group commits: an operation that was acknowledged
      and has no half-written record before it is read back, with everything before it,
      whatever a power failure leaves of the unsynced part of the file. */
  lemma AcknowledgedReadBack(env: Env, s0: State, acts: seq<Action>, t: nat, cut: nat)
    requires ProperEnv(env) && Initial(env, s0)
    requires var s := Exec(env, s0, acts);
             && t < |s.callers| && s.callers[t].pc.Acknowledged? && s.callers[t].pc.number <= Intact(s)
             && s.durable <= cut <= |s.file| && FaithfulOn(env.c, LogRecords(env.marker, env.before + s.ops))
    ensures var s := Exec(env, s0, acts);
            var n := s.callers[t].pc.number;
            && Numbered(s, s.callers[t], n)
            && Encoded(env.c, LogRecords(env.marker, env.before + s.ops[..n])) <= Records(env.f, s.file[..cut])
  {
    hide Exec, Initial, Whole, LogBytes, Encode, FaithfulOn, LogRecords, Records, Encoded, ProperFraming;
    ExecKeepsInv(env, s0, acts);
    var s := Exec(env, s0, acts);
    assert CallerInv(env, s, t);
    var n, m := s.callers[t].pc.number, Intact(s);
    assert s.ops[..m][..n] == s.ops[..n] && s.ops[..Least(s.synced, m)][..n] == s.ops[..n];
    WholeGrows(env, s.ops[..m], n);
    WholeGrows(env, s.ops[..Least(s.synced, m)], n);
    WholeIsLog(env, s.ops[..n]);
    var whole, rs := Whole(env, s.ops[..n]), LogRecords(env.marker, env.before + s.ops[..n]);
    assert s.file[..cut] == whole + s.file[..cut][|whole|..];
    assert env.before + s.ops == env.before + s.ops[..n] + s.ops[n..];
    Faithful(env.c, env.marker, env.before + s.ops[..n], s.ops[n..]);
    DecodeEncoded(env.c, rs, 0);
    LogIsEncoded(env.f, env.c, env.marker, env.before + s.ops[..n]);
    IntactRecordsRead(env.f, Encoded(env.c, rs), s.file[..cut][|whole|..]);
  }

  /** While no append has stopped half way, opening what a power failure leaves gives the
      state after the operations in the order they were applied, up to some point behind
      every acknowledged one. */
  lemma AcknowledgedSurvive(env: Env, s0: State, acts: seq<Action>, t: nat, cut: nat) returns (k: nat)
    requires ProperEnv(env) && Initial(env, s0)
    requires var s := Exec(env, s0, acts);
             && t < |s.callers| && s.callers[t].pc.Acknowledged? && s.half.None? && s.durable <= cut <= |s.file|
             && FaithfulOn(env.c, LogRecords(env.marker, env.before + s.ops))
    ensures var s := Exec(env, s0, acts);
            && Numbered(s, s.callers[t], s.callers[t].pc.number) && s.callers[t].pc.number <= k <= |s.ops|
            && Opened(env.f, env.c, s.file[..cut]).meta == Compaction.Replay(map[], env.before + s.ops[..k])
  {
    hide Exec, Initial, Whole, LogBytes, Opened, OpsWithin, Compaction.Replay, FaithfulOn, LogRecords;
    ExecKeepsInv(env, s0, acts);
    var s := Exec(env, s0, acts);
    assert CallerInv(env, s, t);
    var all := env.before + s.ops;
    assert s.ops != [];
    WholeIsLog(env, s.ops);
    WholeIsLog(env, s.ops[..s.synced]);
    assert env.before + s.ops[..s.synced] == all[..|env.before| + s.synced];
    CutKeeps(env.f, env.c, env.marker, all, |env.before| + s.synced, cut);
    CutLogRecovers(env.f, env.c, env.marker, all, cut);
    k := OpsWithin(env.f, env.c, env.marker, all, cut) - |env.before|;
    assert all[..|env.before| + k] == env.before + s.ops[..k];
  }

  // ---- an append that stopped half way ----

  // Two callers: the first one's append stops after `written` bytes, and the second one is
  // then appended, synced and acknowledged.
  function AfterHalf(env: Env, s: State, a: MetaOp, b: MetaOp, written: nat): State {
    var t := |s.callers|;
    var s1 := Step(env, Step(env, s, Spawn(a, false)), Run(t, false, written));
    var s2 := Step(env, Step(env, s1, Spawn(b, false)), Run(t + 1, true, 0));
    Step(env, Step(env, Step(env, s2, Run(t + 1, true, 0)), Run(t + 1, true, 0)), Run(t + 1, true, 0))
  }

  lemma HalfIsAcknowledged(env: Env, s: State, a: MetaOp, b: MetaOp, written: nat)
    requires Inv(env, s) && s.holder == None && s.file != [] && written < |Piece(env, s.file, a)|
    ensures var s' := AfterHalf(env, s, a, b, written);
            && s'.callers[|s.callers| + 1] == Caller(b, false, Acknowledged(|s.ops| + 1))
            && s'.file == s.file + Piece(env, s.file, a)[..written] + Piece(env, s.file, b)
            && s'.durable == |s'.file|
  {
    hide Piece, CallerInv, Whole;
    var half := s.file + Piece(env, s.file, a)[..written];
    assert Piece(env, half, b) == Piece(env, s.file, b) by { SamePiece(env, half, s.file, b); }
  }

  lemma SamePiece(env: Env, file: seq<byte>, file': seq<byte>, op: MetaOp)
    requires file != [] && file' != []
    ensures Piece(env, file, op) == Piece(env, file', op) == Encode(env.f, Added(env.c, [op]))
  {
  }

  /** Why the condition is needed. After any run without a half-written record, with the
      sync lock free and the log begun: one append stops half way, and the next operation is
      appended, synced and acknowledged. Even without a crash the next start reads it back
      if and only if the torn record and it read as it alone, and whenever the torn record
      is rejected, an acknowledged operation is lost. */
  lemma HalfAppendLosesNext(env: Env, s0: State, acts: seq<Action>, a: MetaOp, b: MetaOp, written: nat)
    requires ProperEnv(env) && Initial(env, s0)
    requires var s := Exec(env, s0, acts);
             && s.half.None? && s.holder == None && s.file != [] && 0 < written < |Piece(env, s.file, a)|
             && FaithfulOn(env.c, LogRecords(env.marker, env.before + s.ops + [a] + [b]))
    ensures var s := Exec(env, s0, acts);
            var s' := AfterHalf(env, s, a, b, written);
            var torn, e := Piece(env, s.file, a)[..written], Encode(env.f, Added(env.c, [b]));
            var ops, meta := env.before + s.ops, Opened(env.f, env.c, s'.file).meta;
            && s'.callers[|s.callers| + 1] == Caller(b, false, Acknowledged(|s.ops| + 1)) && s'.durable == |s'.file|
            && (SpliceReads(env.f, torn, e) <==>
                Records(env.f, s'.file) == Encoded(env.c, LogRecords(env.marker, ops)) + Added(env.c, [b]))
            && (SpliceReads(env.f, torn, e) ==> meta == Compaction.Replay(map[], ops + [b]))
            && (Front(env.f, torn + e) == None ==> meta == Compaction.Replay(map[], ops))
  {
    hide Exec, Initial, Whole, AfterHalf, Opened, Records, Front, Encode, SpliceReads, Compaction.Replay, FaithfulOn,
         LogRecords, Inv, Piece, LogBytes, Encoded, Added;
    ExecKeepsInv(env, s0, acts);
    var s := Exec(env, s0, acts);
    HalfIsAcknowledged(env, s, a, b, written);
    CleanFile(env, s);
    SamePiece(env, s.file, s.file, a);
    SamePiece(env, s.file, s.file, b);
    HalfReopened(env.f, env.c, env.marker, env.before + s.ops, a, b, written);
  }

  // A log, a piece of one more record, and a whole one behind it.
  lemma HalfReopened(f: Framing, c: Codec, marker: Option<nat>, ops: seq<MetaOp>, a: MetaOp, b: MetaOp, written: nat)
    requires ProperFraming(f) && 0 < written < |Encode(f, Added(c, [a]))|
    requires FaithfulOn(c, LogRecords(marker, ops + [a] + [b]))
    ensures var torn, e := Encode(f, Added(c, [a]))[..written], Encode(f, Added(c, [b]));
            var file := LogBytes(f, c, marker, ops) + torn + e;
            && (SpliceReads(f, torn, e) <==> Records(f, file) == Encoded(c, LogRecords(marker, ops)) + Added(c, [b]))
            && (SpliceReads(f, torn, e) ==> Opened(f, c, file).meta == Compaction.Replay(map[], ops + [b]))
            && (Front(f, torn + e) == None ==> Opened(f, c, file).meta == Compaction.Replay(map[], ops))
  {
    hide Opened, OpsWithin, Complete, Torn, Records, Front, Encode, SpliceReads, Compaction.Replay, FaithfulOn,
         LogRecords, Kept, LogBytes, Encoded, OpRecords, CutInHeader, ProperFraming;
    var n := |LogBytes(f, c, marker, ops)| + written;
    HalfWritten(f, c, marker, ops, a, written);
    assert (ops + [a])[..|ops|] == ops;
    Faithful(c, marker, ops + [a], [b]);
    KeptOfCut(f, c, marker, ops + [a], n);
    ReopenedSurviveIff(f, c, marker, ops + [a], n, [b]);
  }

  lemma CleanFile(env: Env, s: State)
    requires ProperEnv(env) && Inv(env, s) && s.half.None? && s.file != []
    ensures s.file == LogBytes(env.f, env.c, env.marker, env.before + s.ops)
  {
    hide LogBytes, CallerInv;
    if !env.blank || s.ops != [] { WholeIsLog(env, s.ops); }
  }

  // The log with `written` bytes of one more record, as a cut of the log with that record.
  lemma HalfWritten(f: Framing, c: Codec, marker: Option<nat>, ops: seq<MetaOp>, a: MetaOp, written: nat)
    requires ProperFraming(f) && written < |Encode(f, Added(c, [a]))|
    ensures var log, n := Encoded(c, LogRecords(marker, ops + [a])), |LogBytes(f, c, marker, ops)| + written;
            && n <= |LogBytes(f, c, marker, ops + [a])|
            && LogBytes(f, c, marker, ops + [a])[..n] ==
              LogBytes(f, c, marker, ops) + Encode(f, Added(c, [a]))[..written]
            && Complete(f, log, n) == |LogRecords(marker, ops)|
            && log[..|LogRecords(marker, ops)|] == Encoded(c, LogRecords(marker, ops))
            && Torn(f, log, n) == Encode(f, Added(c, [a]))[..written]
            && OpsWithin(f, c, marker, ops + [a], n) == |ops| && !CutInHeader(f, c, n)
  {
    LogAppend(f, c, marker, ops, [a]);
    var log, old_, n := Encoded(c, LogRecords(marker, ops + [a])), Encoded(c, LogRecords(marker, ops)),
                        |LogBytes(f, c, marker, ops)| + written;
    assert log == old_ + Added(c, [a]);
    CompleteAfter(f, old_, Added(c, [a]), written);
    LogBegins(f, c, marker, ops);
  }

  lemma {:induction false} CompleteAfter(f: Framing, a: seq<seq<byte>>, b: seq<seq<byte>>, n: nat)
    requires |b| == 1 && n < |Encode(f, b)|
    ensures |Encode(f, a)| + n <= |Encode(f, a + b)|
    ensures Complete(f, a + b, |Encode(f, a)| + n) == |a|
    ensures Torn(f, a + b, |Encode(f, a)| + n) == Encode(f, b)[..n]
  {
    hide Frame;
    if a == [] {
      assert a + b == b && b[1..] == [];
    } else {
      assert (a + b)[1..] == a[1..] + b;
      CompleteAfter(f, a[1..], b, n);
    }
  }

  // ---- one call by itself, and the calls it serves ----

  lemma CallsOn(s: State, t: nat, first: Pc, second: Pc)
    requires t < |s.callers|
    ensures Goto(Goto(s, t, first), t, second) == Goto(s, t, second)
  {
    var caller := s.callers[t];
    assert s.callers[t := caller.(pc := first)][t := caller.(pc := second)] == s.callers[t := caller.(pc := second)];
  }

  lemma Three(env: Env, s: State, a: Action)
    ensures Exec(env, s, [a, a, a]) == Step(env, Step(env, Step(env, s, a), a), a)
  {
    hide Step;
    assert [a, a, a][..2] == [a, a] && [a, a][..1] == [a] && [a][..0] == [];
    assert Exec(env, s, [a]) == Step(env, s, a);
    assert Exec(env, s, [a, a]) == Step(env, Exec(env, s, [a]), a);
  }

  lemma {:induction false} ExecAppend(env: Env, s: State, xs: seq<Action>, ys: seq<Action>)
    ensures Exec(env, s, xs + ys) == Exec(env, Exec(env, s, xs), ys)
  {
    hide Step;
    if ys == [] {
      assert xs + ys == xs;
    } else {
      assert (xs + ys)[..|xs + ys| - 1] == xs + ys[..|ys| - 1];
      ExecAppend(env, s, xs, ys[..|ys| - 1]);
    }
  }

  /** A waiting call that is not covered yet syncs for everyone: undisturbed, it raises the
      synced number to that of the last record appended, and is acknowledged with its own. */
  lemma SoloSync(env: Env, s: State, t: nat, n: nat)
    requires t < |s.callers| && s.callers[t].pc == Written(n) && !s.callers[t].relaxed
    requires s.holder == None && s.synced < n <= |s.ops|
    ensures var go := Run(t, true, 0);
            Exec(env, s, [go, go, go]) ==
            s.(durable := |s.file|, synced := |s.ops|,
               callers := s.callers[t := Caller(s.callers[t].op, false, Acknowledged(n))])
  {
    var go, all := Run(t, true, 0), |s.ops|;
    var s1 := Goto(s.(holder := Some(t)), t, Loaded(n, all));
    assert Step(env, s, go) == s1;
    var flushed := s.(durable := |s.file|);
    var s2 := Goto(flushed.(holder := Some(t)), t, Flushed(n, all));
    assert Step(env, s1, go) == s2 by { CallsOn(flushed.(holder := Some(t)), t, Loaded(n, all), Flushed(n, all)); }
    CallsOn(flushed.(synced := all), t, Flushed(n, all), Acknowledged(n));
    Three(env, s, go);
  }

  /** One sync serves everyone who appended before it: after it every other waiting call is
      acknowledged in its next step, whatever the disk does then. */
  lemma OneSyncServesAll(env: Env, s: State, t: nat, n: nat, u: nat, m: nat, ok: bool, written: nat)
    requires t < |s.callers| && s.callers[t].pc == Written(n) && !s.callers[t].relaxed
    requires u < |s.callers| && s.callers[u].pc == Written(m) && !s.callers[u].relaxed && u != t
    requires s.holder == None && s.synced < n <= |s.ops| && m <= |s.ops|
    ensures var go := Run(t, true, 0);
            Exec(env, s, [go, go, go] + [Run(u, ok, written)]) ==
            s.(durable := |s.file|, synced := |s.ops|,
               callers := s.callers[t := Caller(s.callers[t].op, false, Acknowledged(n))]
                                   [u := Caller(s.callers[u].op, false, Acknowledged(m))])
  {
    var go, last := Run(t, true, 0), Run(u, ok, written);
    SoloSync(env, s, t, n);
    ExecAppend(env, s, [go, go, go], [last]);
    assert [last][..0] == [];
  }

  /** A call nobody disturbs appends its record, syncs the whole file, raises the synced
      number to its own and is acknowledged with it. */
  lemma SoloCommit(env: Env, s: State, t: nat)
    requires t < |s.callers| && s.callers[t].pc.Begin? && !s.callers[t].relaxed
    requires s.holder == None && s.synced <= |s.ops|
    ensures var go, op, n := Run(t, true, 0), s.callers[t].op, |s.ops| + 1;
            var file := s.file + Piece(env, s.file, op);
            Exec(env, s, [go] + [go, go, go]) ==
            s.(file := file, ops := s.ops + [op], durable := |file|, synced := n,
               callers := s.callers[t := Caller(op, false, Acknowledged(n))])
  {
    hide Piece;
    var go, op, n := Run(t, true, 0), s.callers[t].op, |s.ops| + 1;
    var s1 := Goto(s.(file := s.file + Piece(env, s.file, op), ops := s.ops + [op]), t, Written(n));
    ExecAppend(env, s, [go], [go, go, go]);
    assert Exec(env, s, [go]) == s1 by { assert [go][..0] == []; }
    SoloSync(env, s1, t, n);
    CallsOn(s, t, Written(n), Acknowledged(n));
  }

  /** A relaxed call returns once its record is appended. */
  lemma RelaxedReturns(env: Env, s: State, t: nat, ok: bool, written: nat)
    requires t < |s.callers| && s.callers[t].pc.Begin? && s.callers[t].relaxed
    ensures var op := s.callers[t].op;
            Exec(env, s, [Run(t, true, 0), Run(t, ok, written)]) ==
            s.(file := s.file + Piece(env, s.file, op), ops := s.ops + [op],
               callers := s.callers[t := Caller(op, true, Returned)])
  {
    hide Piece;
    var op, go, last := s.callers[t].op, Run(t, true, 0), Run(t, ok, written);
    assert [go, last][..1] == [go] && [go][..0] == [];
    var appended := s.(file := s.file + Piece(env, s.file, op), ops := s.ops + [op]);
    assert Exec(env, s, [go]) == Goto(appended, t, Written(|s.ops| + 1));
    CallsOn(appended, t, Written(|s.ops| + 1), Returned);
  }
}
