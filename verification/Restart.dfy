// Sessions, shutdowns and crashes around the fast-restart stamp. A start removes the
// stamp durably before it trusts it; a graceful shutdown writes a new one. A start judges a
// stamp by the position of the metadata log, and a power failure may take back the part of
// the log that was not synced.

module Restart {
  import opened Core

  // What a stamp records of the metadata log: its compaction count and its length.
  datatype Position = Position(generation: nat, length: nat)

  // Which session wrote the stamp, and where the log stood.
  datatype Stamp = Stamp(session: nat, at: Position)

  // The position a start would find now, and those a power failure may leave.
  datatype Log = Log(position: Position, mayLeave: set<Position>)

  datatype Application = Application(stamp: Stamp, session: nat)

  // `visible` is the stamp file as the system sees it, `durable` what a power failure
  // falls back to. `session` counts the starts that completed; `applied` is history.
  datatype State = State(
    visible: Option<Stamp>,
    durable: Option<Stamp>,
    log: Log,
    session: nat,
    running: bool,
    applied: seq<Application>)

  datatype Write = Written | Unsynced | NotWritten

  // A start with `readOk` false does not see the stamp, because it cannot read it or
  // because fast restart is switched off. `lost` is where a power failure leaves the log.
  datatype Action =
    | Start(readOk: bool, removeOk: bool, syncOk: bool, accepted: bool)
    | CrashInStart(removed: bool, synced: bool, lost: Option<Position>)
    | LogMoves(log: Log)
    | WriteBack
    | Shutdown(write: Write)
    | Crash(lost: Option<Position>)

  predicate PowerFails(s: State, lost: Option<Position>) {
    lost.Some? && lost.value in s.log.mayLeave
  }

  function Lose(s: State, lost: Option<Position>): State {
    if PowerFails(s, lost)
    then s.(running := false, visible := s.durable, log := Log(lost.value, {lost.value}))
    else s.(running := false)
  }

  function Begun(s: State): State {
    s.(session := s.session + 1, running := true)
  }

  // Reading, removing and syncing come first; only then is the stamp judged and applied.
  function StartStep(s: State, readOk: bool, removeOk: bool, syncOk: bool, accepted: bool): State {
    if s.visible.None? || !readOk || !removeOk then Begun(s)
    else if !syncOk then Begun(s.(visible := None))
    else
      var stamp := s.visible.value;
      var gone := s.(visible := None, durable := None);
      if accepted && stamp.at == s.log.position
      then Begun(gone.(applied := s.applied + [Application(stamp, s.session + 1)]))
      else Begun(gone)
  }

  function Step(s: State, a: Action): State {
    match a
    case Start(readOk, removeOk, syncOk, accepted) =>
      if s.running then s else StartStep(s, readOk, removeOk, syncOk, accepted)
    case CrashInStart(removed, synced, lost) =>
      if s.running then s
      else if s.visible.None? || !removed then Lose(s, lost)
      else if !synced then Lose(s.(visible := None), lost)
      else Lose(s.(visible := None, durable := None), lost)
    case LogMoves(log) => if log.position in log.mayLeave then s.(log := log) else s
    case WriteBack => s.(durable := s.visible)
    case Shutdown(write) =>
      if !s.running then s
      else
        var stamp := Some(Stamp(s.session, s.log.position));
        s.(running := false,
           visible := if write.NotWritten? then s.visible else stamp,
           durable := if write.Written? then stamp else s.durable)
    case Crash(lost) => Lose(s, lost)
  }

  function Exec(s: State, acts: seq<Action>): State {
    if acts == [] then s else Step(Exec(s, acts[..|acts| - 1]), acts[|acts| - 1])
  }

  predicate Initial(s: State) {
    && s.visible.None? && s.durable.None? && !s.running && s.session == 0 && s.applied == []
    && s.log.position in s.log.mayLeave
  }

  // ---- at most once ----

  // A stamp on disk is from an earlier session, or from the last one, which has ended.
  predicate Earlier(s: State, file: Option<Stamp>) {
    file.Some? ==> file.value.session <= s.session && (s.running ==> file.value.session < s.session)
  }

  predicate Unapplied(s: State, file: Option<Stamp>) {
    file.Some? ==> forall i | 0 <= i < |s.applied| :: s.applied[i].stamp.session != file.value.session
  }

  predicate Inv(s: State) {
    && Earlier(s, s.visible) && Earlier(s, s.durable)
    && Unapplied(s, s.visible) && Unapplied(s, s.durable)
    && (forall i | 0 <= i < |s.applied| :: s.applied[i].stamp.session < s.applied[i].session <= s.session)
    && (forall i, j | 0 <= i < j < |s.applied| :: s.applied[i].stamp.session != s.applied[j].stamp.session)
    && (forall i | 0 <= i < |s.applied| && s.running :: s.applied[i].stamp.session < s.session)
    && s.log.position in s.log.mayLeave
  }

  lemma StartKeepsInv(s: State, readOk: bool, removeOk: bool, syncOk: bool, accepted: bool)
    requires Inv(s) && !s.running
    ensures Inv(StartStep(s, readOk, removeOk, syncOk, accepted))
  {
  }

  lemma StepKeepsInv(s: State, a: Action)
    requires Inv(s)
    ensures Inv(Step(s, a))
  {
    hide StartStep;
    if a.Start? && !s.running { StartKeepsInv(s, a.readOk, a.removeOk, a.syncOk, a.accepted); }
  }

  lemma {:induction false} ExecKeepsInv(s: State, acts: seq<Action>)
    requires Inv(s)
    ensures Inv(Exec(s, acts))
  {
    hide Step, Inv;
    if acts != [] {
      ExecKeepsInv(s, acts[..|acts| - 1]);
      StepKeepsInv(Exec(s, acts[..|acts| - 1]), acts[|acts| - 1]);
    }
  }

  /** Under crashes and power failures at any point, no stamp is ever applied twice. */
  lemma AppliedAtMostOnce(s: State, acts: seq<Action>, i: nat, j: nat)
    requires Initial(s)
    requires i < |Exec(s, acts).applied| && j < |Exec(s, acts).applied| && i != j
    ensures Exec(s, acts).applied[i].stamp.session != Exec(s, acts).applied[j].stamp.session
  {
    hide Exec;
    ExecKeepsInv(s, acts);
  }

  // ---- only by the next session ----

  predicate Fresh(a: Application) {
    a.session == a.stamp.session + 1
  }

  predicate AllFresh(s: State) {
    forall i | 0 <= i < |s.applied| :: Fresh(s.applied[i])
  }

  // A stamp that the last session to start did not write.
  predicate Older(s: State, file: Option<Stamp>) {
    file.Some? && file.value.session < s.session
  }

  // Such a stamp is on disk, and a start might find the log where the stamp says: the file
  // as it is seen with the log as it stands, or both as a power failure leaves them. A
  // stamp of any other position is harmless.
  predicate Threat(s: State) {
    || (Older(s, s.visible) && s.visible.value.at == s.log.position)
    || (Older(s, s.durable) && s.durable.value.at in s.log.mayLeave)
  }

  const UNDISTURBED := Start(true, true, true, true)

  lemma StartStaysFresh(s: State, a: Action)
    requires Inv(s) && AllFresh(s) && !Threat(s)
    ensures AllFresh(Step(s, a))
  {
  }

  // What a crash brings back is no threat if nothing on disk is.
  lemma CrashAddsNoThreat(s: State, lost: Option<Position>)
    requires !Threat(s)
    ensures !Threat(Step(s, Crash(lost)))
  {
  }

  ghost predicate NeverThreat(s: State, acts: seq<Action>) {
    forall n | 0 <= n <= |acts| :: !Threat(Exec(s, acts[..n]))
  }

  lemma {:induction false} FreshWithoutThreat(s: State, acts: seq<Action>)
    requires Initial(s) && NeverThreat(s, acts)
    ensures AllFresh(Exec(s, acts))
  {
    hide Step, Threat, AllFresh, Inv;
    if acts == [] {
      assert AllFresh(s) by { StartsFresh(s); }
    } else {
      var n := |acts| - 1;
      var before := acts[..n];
      forall k | 0 <= k <= n ensures !Threat(Exec(s, before[..k])) { assert before[..k] == acts[..k]; }
      FreshWithoutThreat(s, before);
      assert before[..n] == before;
      InitialInv(s);
      ExecKeepsInv(s, before);
      StartStaysFresh(Exec(s, before), acts[n]);
    }
  }

  lemma InitialInv(s: State)
    requires Initial(s)
    ensures Inv(s)
  {
  }

  lemma StartsFresh(s: State)
    requires Initial(s)
    ensures AllFresh(s)
  {
  }

  // The crash that carries a threat out: none of the log lost if the file as seen is the
  // threat, otherwise a power failure that leaves the log where the durable stamp says.
  function Fatal(s: State): Option<Position>
    requires Threat(s)
  {
    if Older(s, s.visible) && s.visible.value.at == s.log.position then None else Some(s.durable.value.at)
  }

  // A threat is carried out by one crash and one undisturbed start.
  lemma ThreatIsReal(s: State)
    requires Inv(s) && Threat(s)
    ensures var s' := Step(Step(s, Crash(Fatal(s))), UNDISTURBED);
            |s'.applied| == |s.applied| + 1 && !Fresh(s'.applied[|s.applied|])
  {
  }

  lemma OneMore(s: State, acts: seq<Action>, a: Action)
    ensures Exec(s, acts + [a]) == Step(Exec(s, acts), a)
  {
    hide Step;
    assert (acts + [a])[..|acts|] == acts;
  }

  // After `n` actions of the run, a crash and an undisturbed start.
  function Retried(s: State, acts: seq<Action>, n: nat, lost: Option<Position>): State
    requires n <= |acts|
  {
    Step(Step(Exec(s, acts[..n]), Crash(lost)), UNDISTURBED)
  }

  /** Exactly when stamps are applied only by the session right after the one that wrote
      them, whatever becomes of the log: wherever the machine crashes, in a session or
      between two, with or without losing power and whatever the power failure takes back,
      and starts again undisturbed, if and only if the run never has a stamp on disk that
      its last session did not write while a start might find the log where it says. */
  lemma AppliedOnlyNext(s: State, acts: seq<Action>)
    requires Initial(s)
    ensures (forall n: nat, lost | n <= |acts| :: AllFresh(Retried(s, acts, n, lost))) <==> NeverThreat(s, acts)
    ensures NeverThreat(s, acts) ==> AllFresh(Exec(s, acts))
  {
    hide Step, Threat, AllFresh, Inv, Exec;
    InitialInv(s);
    if NeverThreat(s, acts) {
      FreshWithoutThreat(s, acts);
      forall n: nat, lost | n <= |acts| ensures AllFresh(Retried(s, acts, n, lost)) {
        RetriesFresh(s, acts, n, lost);
      }
    } else {
      var n :| 0 <= n <= |acts| && Threat(Exec(s, acts[..n]));
      ExecKeepsInv(s, acts[..n]);
      ThreatSpoils(s, acts, n);
    }
  }

  lemma RetriesFresh(s: State, acts: seq<Action>, n: nat, lost: Option<Position>)
    requires Initial(s) && NeverThreat(s, acts) && n <= |acts|
    ensures AllFresh(Retried(s, acts, n, lost))
  {
    hide Step, Threat, AllFresh, Inv, Exec;
    var here := acts[..n];
    forall k | 0 <= k <= n ensures !Threat(Exec(s, here[..k])) { assert here[..k] == acts[..k]; }
    FreshWithoutThreat(s, here);
    InitialInv(s);
    ExecKeepsInv(s, here);
    assert here == acts[..n];
    CrashAddsNoThreat(Exec(s, here), lost);
    StepKeepsInv(Exec(s, here), Crash(lost));
    StartStaysFresh(Exec(s, here), Crash(lost));
    StartStaysFresh(Step(Exec(s, here), Crash(lost)), UNDISTURBED);
  }

  lemma ThreatSpoils(s: State, acts: seq<Action>, n: nat)
    requires n <= |acts| && Inv(Exec(s, acts[..n])) && Threat(Exec(s, acts[..n]))
    ensures exists lost :: !AllFresh(Retried(s, acts, n, lost))
  {
    hide Step, Exec, Inv, Threat;
    var t := Exec(s, acts[..n]);
    ThreatIsReal(t);
    assert !AllFresh(Retried(s, acts, n, Fatal(t)));
  }

  // ---- which sessions leave a threat ----

  // What happens between the start of a session and its end.
  predicate Within(acts: seq<Action>) {
    forall i | 0 <= i < |acts| :: acts[i].LogMoves? || acts[i].WriteBack?
  }

  // The log after them, and whether the stamp file was written back meanwhile.
  function LogAfter(log: Log, acts: seq<Action>): Log {
    if acts == [] then log
    else
      var a := acts[|acts| - 1];
      if a.LogMoves? && a.log.position in a.log.mayLeave then a.log else LogAfter(log, acts[..|acts| - 1])
  }

  predicate WrittenBack(acts: seq<Action>) {
    exists i | 0 <= i < |acts| :: acts[i].WriteBack?
  }

  lemma {:induction false} SessionBody(s: State, acts: seq<Action>)
    requires Within(acts)
    ensures Exec(s, acts) == s.(log := LogAfter(s.log, acts),
                                durable := if WrittenBack(acts) then s.visible else s.durable)
  {
    if acts == [] {
    } else {
      var before, a := acts[..|acts| - 1], acts[|acts| - 1];
      SessionBody(s, before);
      assert WrittenBack(acts) <==> WrittenBack(before) || a.WriteBack? by {
        if WrittenBack(before) {
          var i :| 0 <= i < |before| && before[i].WriteBack?;
          assert acts[i].WriteBack?;
        }
        if WrittenBack(acts) && !a.WriteBack? {
          var i :| 0 <= i < |acts| && acts[i].WriteBack?;
          assert before[i].WriteBack?;
        }
      }
    }
  }

  // The stamp a start leaves to be seen, and the one it leaves to a power failure.
  function LeftVisible(s: State, a: Action): Option<Stamp>
    requires a.Start?
  {
    if !a.readOk || !a.removeOk then s.visible else None
  }

  function LeftDurable(s: State, a: Action): Option<Stamp>
    requires a.Start?
  {
    if s.visible.None? || !a.readOk || !a.removeOk || !a.syncOk then s.durable else None
  }

  predicate EndsSession(a: Action) {
    a.Crash? || a.Shutdown?
  }

  // Does the end of the session keep each of them?
  predicate KeepsVisible(a: Action) {
    a.Crash? || (a.Shutdown? && a.write.NotWritten?)
  }

  predicate KeepsDurable(a: Action) {
    a.Crash? || (a.Shutdown? && !a.write.Written?)
  }

  /** Exactly which sessions leave a threat behind, whatever happened in them: those whose
      start left a stamp that the end kept and that is seen with the log as it ended, or
      that a power failure falls back to together with what it may leave of the log. */
  lemma SessionLeavesThreatIff(s: State, start: Action, acts: seq<Action>, end: Action)
    requires Inv(s) && !s.running && start.Start? && Within(acts) && EndsSession(end)
    ensures var log, seen := LogAfter(s.log, acts), LeftVisible(s, start);
            var kept := if WrittenBack(acts) then seen else LeftDurable(s, start);
            Threat(Step(Exec(Step(s, start), acts), end)) <==>
              if end.Crash? && end.lost.Some? && end.lost.value in log.mayLeave
              then kept.Some? && kept.value.at == end.lost.value
              else || (KeepsVisible(end) && seen.Some? && seen.value.at == log.position)
                   || (KeepsDurable(end) && kept.Some? && kept.value.at in log.mayLeave)
  {
    hide Exec, LogAfter, WrittenBack;
    SessionBody(Step(s, start), acts);
  }

  // ---- what a power failure may leave of the log ----

  // A log file: how long it is, and how much of it is certainly on disk.
  datatype Disk = Disk(generation: nat, flushed: nat, length: nat)

  predicate Sound(d: Disk) {
    d.flushed <= d.length
  }

  // It may be cut anywhere in the part that is not.
  function LogOf(d: Disk): Log {
    Log(Position(d.generation, d.length),
        set i | d.flushed <= i <= d.length :: Position(d.generation, i))
  }

  // A record is appended, synced or not; a sync or the system writes the log out up to some
  // length; a compacted log replaces it.
  datatype LogStep = Append(bytes: nat) | FlushTo(length: nat) | Compact(length: nat)

  function DiskStep(d: Disk, a: LogStep): Disk {
    match a
    case Append(n) => d.(length := d.length + n)
    case FlushTo(n) => if d.flushed < n <= d.length then d.(flushed := n) else d
    case Compact(n) => Disk(d.generation + 1, n, n)
  }

  function DiskAfter(d: Disk, steps: seq<LogStep>): Disk {
    if steps == [] then d else DiskStep(DiskAfter(d, steps[..|steps| - 1]), steps[|steps| - 1])
  }

  // The same steps as actions of a session.
  function Moves(d: Disk, steps: seq<LogStep>): seq<Action> {
    seq(|steps|, i requires 0 <= i < |steps| => LogMoves(LogOf(DiskAfter(d, steps[..i + 1]))))
  }

  lemma {:induction false} DiskStaysSound(d: Disk, steps: seq<LogStep>)
    requires Sound(d)
    ensures Sound(DiskAfter(d, steps)) && LogOf(DiskAfter(d, steps)).position in LogOf(DiskAfter(d, steps)).mayLeave
  {
    if steps != [] { DiskStaysSound(d, steps[..|steps| - 1]); }
  }

  lemma MovesReach(d: Disk, steps: seq<LogStep>)
    requires Sound(d)
    ensures Within(Moves(d, steps)) && !WrittenBack(Moves(d, steps))
    ensures LogAfter(LogOf(d), Moves(d, steps)) == LogOf(DiskAfter(d, steps))
  {
    hide LogOf;
    if steps != [] {
      assert steps[..|steps|] == steps;
      DiskStaysSound(d, steps);
    }
  }

  // A stamp that a start might accept: of a length the log may be cut to.
  predicate Reaches(d: Disk, stamp: Option<Stamp>) {
    stamp.Some? && stamp.value.at.generation == d.generation && d.flushed <= stamp.value.at.length <= d.length
  }

  /** For a log that is appended to, written out and compacted: whatever the session did,
      some crash at its end leaves a threat if and only if a stamp its start left durable
      lies at or after the part of the log that is certainly on disk, or one it left
      visible lies at its very end. */
  lemma SomeCrashThreatensIff(s: State, start: Action, d: Disk, steps: seq<LogStep>)
    requires Inv(s) && !s.running && start.Start? && Sound(d) && s.log == LogOf(d)
    ensures var d', seen := DiskAfter(d, steps), LeftVisible(s, start);
            (exists lost :: Threat(Step(Exec(Step(s, start), Moves(d, steps)), Crash(lost)))) <==>
              || Reaches(d', LeftDurable(s, start))
              || (seen.Some? && seen.value.at == Position(d'.generation, d'.length))
  {
    hide Threat, Step, Exec, Inv, DiskAfter, Moves, LeftVisible, LeftDurable, LogAfter, Within, WrittenBack;
    var acts, d' := Moves(d, steps), DiskAfter(d, steps);
    var seen, kept := LeftVisible(s, start), LeftDurable(s, start);
    MovesReach(d, steps);
    forall lost
      ensures Threat(Step(Exec(Step(s, start), acts), Crash(lost))) <==>
              if lost.Some? && lost.value in LogOf(d').mayLeave
              then kept.Some? && kept.value.at == lost.value
              else || (seen.Some? && seen.value.at == LogOf(d').position)
                   || (kept.Some? && kept.value.at in LogOf(d').mayLeave)
    {
      SessionLeavesThreatIff(s, start, acts, Crash(lost));
    }
    assert Reaches(d', kept) <==> kept.Some? && kept.value.at in LogOf(d').mayLeave;
    assert Threat(Step(Exec(Step(s, start), acts), Crash(None))) <==>
           (seen.Some? && seen.value.at == LogOf(d').position) || Reaches(d', kept);
  }

  // ---- from the first start on ----

  lemma Six(s: State, a: Action, b: Action, c: Action, d: Action, e: Action, f: Action)
    ensures Exec(s, [a, b, c, d, e, f]) == Step(Step(Step(Step(Step(Step(s, a), b), c), d), e), f)
  {
    hide Step;
    assert Exec(s, []) == s;
    OneMore(s, [], a);
    OneMore(s, [a], b);
    OneMore(s, [a, b], c);
    OneMore(s, [a, b, c], d);
    OneMore(s, [a, b, c, d], e);
    OneMore(s, [a, b, c, d, e], f);
    assert [] + [a] == [a] && [a] + [b] == [a, b] && [a, b] + [c] == [a, b, c];
    assert [a, b, c] + [d] == [a, b, c, d] && [a, b, c, d] + [e] == [a, b, c, d, e];
    assert [a, b, c, d, e] + [f] == [a, b, c, d, e, f];
  }

  // A start that does not see the stamp, then any one action and end that leave it and the
  // log in place: the next start applies it late.
  lemma UnseenGoesStale(s: State, c: Action, d: Action, e: Action)
    requires Initial(s)
    requires var s2 := Step(Step(s, UNDISTURBED), Shutdown(Written));
             var s5 := Step(Step(Step(s2, c), d), e);
             !s5.running && s5.session == 2 && s5.visible == Some(Stamp(1, s.log.position)) &&
             s5.log.position == s.log.position && s5.applied == []
    ensures !AllFresh(Exec(s, [UNDISTURBED, Shutdown(Written), c, d, e, UNDISTURBED]))
  {
    Six(s, UNDISTURBED, Shutdown(Written), c, d, e, UNDISTURBED);
    var s5 := Step(Step(Step(Step(Step(s, UNDISTURBED), Shutdown(Written)), c), d), e);
    assert Step(s5, UNDISTURBED).applied == [Application(Stamp(1, s.log.position), 3)];
    assert !Fresh(Step(s5, UNDISTURBED).applied[0]);
  }

  const UNSEEN := Start(false, true, true, true)

  /** A crash between removing the stamp and syncing the removal, a session that changes
      nothing, a power failure: the stamp is applied although a session has run since. */
  lemma UnsyncedRemovalGoesStale(s: State)
    requires Initial(s)
    ensures var lost := Some(s.log.position);
            !AllFresh(Exec(s, [UNDISTURBED, Shutdown(Written), CrashInStart(true, false, None), UNDISTURBED,
                               Crash(lost), UNDISTURBED]))
  {
    UnseenGoesStale(s, CrashInStart(true, false, None), UNDISTURBED, Crash(Some(s.log.position)));
  }

  /** A start that cannot read the stamp, a session that changes nothing, and a crash. */
  lemma UnreadStampGoesStale(s: State)
    requires Initial(s)
    ensures !AllFresh(Exec(s, [UNDISTURBED, Shutdown(Written), UNSEEN, WriteBack, Crash(None), UNDISTURBED]))
  {
    UnseenGoesStale(s, UNSEEN, WriteBack, Crash(None));
  }

  /** A session that did change the metadata, by any number of bytes none of which were
      synced: a power failure takes them back, and the log is again where the stamp says. */
  lemma LostTailGoesStale(s: State, d: Disk, bytes: nat)
    requires Initial(s) && Sound(d) && s.log == LogOf(d)
    ensures var grown := LogMoves(LogOf(DiskStep(d, Append(bytes))));
            !AllFresh(Exec(s, [UNDISTURBED, Shutdown(Written), UNSEEN, grown, Crash(Some(s.log.position)),
                               UNDISTURBED]))
  {
    UnseenGoesStale(s, UNSEEN, LogMoves(LogOf(DiskStep(d, Append(bytes)))), Crash(Some(s.log.position)));
  }

  /** Without any crash: fast restart switched off for one session, and on again. */
  lemma DisabledSessionGoesStale(s: State)
    requires Initial(s)
    ensures !AllFresh(Exec(s, [UNDISTURBED, Shutdown(Written), UNSEEN, WriteBack, Shutdown(NotWritten), UNDISTURBED]))
  {
    UnseenGoesStale(s, UNSEEN, WriteBack, Shutdown(NotWritten));
  }
}
