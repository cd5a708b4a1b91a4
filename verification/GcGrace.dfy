// The grace period: how long a blob that was just asked for is left alone.

module GcGrace {
  import opened Core
  import opened Metadata
  import opened GcProtocol
  import opened GcSafety
  import Digests

  // The stamp a task is about to give `k`: it has read the clock and not yet
  // entered the candidate set.
  predicate PendingMark(task: Task, k: Key, at: Time) {
    || (task.pc == Mark(at) && task.key == k)
    || (task.pc.RemoveStamp? && task.pc.at == at && task.pc.i < |task.pc.refs|
        && Key(task.key.repo, task.pc.refs[task.pc.i]) == k)
  }

  // The task can stamp `k` no earlier than `floor`, and if it is a sweep that found
  // `k` due, that is because `delay` has passed since `floor`.
  ghost predicate TaskFresh(e: Env, sh: Shared, task: Task, k: Key, floor: Time) {
    && (task.pc.Batch? || task.pc.Sweeping? ==> task.pc.now <= sh.clock)
    && (forall at | PendingMark(task, k, at) :: floor <= at)
    && (task.pc.Sweeping? && !task.pc.stage.Due? && task.pc.i < |task.pc.due| && task.pc.due[task.pc.i] == k ==>
          floor + e.delay <= task.pc.now)
  }

  predicate StampFresh(sh: Shared, k: Key, floor: Time) {
    floor <= sh.clock && (k in sh.candidates ==> floor <= sh.candidates[k])
  }

  ghost predicate Fresh(s: State, k: Key, floor: Time) {
    && StampFresh(s.sh, k, floor)
    && (forall t | 0 <= t < |s.tasks| :: TaskFresh(s.env, s.sh, s.tasks[t], k, floor))
  }

  // What one step does to the stamp of `k` and to its own task's knowledge.
  ghost predicate StaysFresh(e: Env, sh: Shared, task: Task, m: Move, k: Key, floor: Time) {
    StampFresh(m.sh, k, floor) && TaskFresh(e, m.sh, task.(pc := m.pc), k, floor) && m.sh.clock == sh.clock
  }

  lemma StoreFresh(e: Env, sh: Shared, task: Task, ok: bool, k: Key, floor: Time)
    requires StampFresh(sh, k, floor) && TaskFresh(e, sh, task, k, floor)
    ensures StaysFresh(e, sh, task, StoreStep(sh, task, ok), k, floor)
  {
    hide Backrefs, IsManifest;
    if task.pc.Mark? { assert PendingMark(task, task.key, task.pc.at); }
  }

  lemma VerifyFresh(e: Env, sh: Shared, task: Task, ok: bool, k: Key, floor: Time)
    requires StampFresh(sh, k, floor) && TaskFresh(e, sh, task, k, floor) && Verifying(task.pc)
    ensures StaysFresh(e, sh, task, VerifyStep(sh, task, ok), k, floor)
  {
    hide RequiredOf, Apply;
  }

  lemma CommitFresh(e: Env, sh: Shared, task: Task, ok: bool, k: Key, floor: Time)
    requires StampFresh(sh, k, floor) && TaskFresh(e, sh, task, k, floor)
    ensures StaysFresh(e, sh, task, CommitStep(sh, task, ok), k, floor)
  {
    hide StoreStep, VerifyStep;
    StoreFresh(e, sh, task, ok, k, floor);
    if Verifying(task.pc) { VerifyFresh(e, sh, task, ok, k, floor); }
  }

  lemma SweepOneFresh(e: Env, sh: Shared, task: Task, ok: bool, k: Key, floor: Time)
    requires StampFresh(sh, k, floor) && TaskFresh(e, sh, task, k, floor) && e.delay > 0
    requires task.pc.Sweeping? && task.pc.i < |task.pc.due|
    ensures StaysFresh(e, sh, task, SweepOne(e, sh, task.pc, ok), k, floor)
  {
    hide Backrefs, IsManifest, Digests.Parses;
  }

  lemma SweepFresh(e: Env, sh: Shared, task: Task, ok: bool, order: seq<Key>, k: Key, floor: Time)
    requires StampFresh(sh, k, floor) && TaskFresh(e, sh, task, k, floor) && e.delay > 0
    ensures StaysFresh(e, sh, task, SweepStep(e, sh, task, ok, order), k, floor)
  {
    hide SweepOne;
    if task.pc.Sweeping? && task.pc.i < BatchEnd(task.pc.due, task.pc.lo) {
      SweepOneFresh(e, sh, task, ok, k, floor);
    }
  }

  lemma RemoveFresh(e: Env, sh: Shared, task: Task, ok: bool, k: Key, floor: Time)
    requires StampFresh(sh, k, floor) && TaskFresh(e, sh, task, k, floor)
    ensures StaysFresh(e, sh, task, RemoveStep(sh, task, ok), k, floor)
  {
    hide Backrefs, Apply;
    if task.pc.RemoveStamp? && task.pc.i < |task.pc.refs| {
      assert PendingMark(task, Key(task.key.repo, task.pc.refs[task.pc.i]), task.pc.at);
    }
  }

  lemma TaskStepFresh(e: Env, sh: Shared, task: Task, ok: bool, order: seq<Key>, k: Key, floor: Time)
    requires StampFresh(sh, k, floor) && TaskFresh(e, sh, task, k, floor) && e.delay > 0
    ensures StaysFresh(e, sh, task, TaskStep(e, sh, task, ok, order), k, floor)
  {
    hide StoreStep, CommitStep, SweepStep, RemoveStep;
    match task.kind {
      case Push => StoreFresh(e, sh, task, ok, k, floor);
      case Commit => CommitFresh(e, sh, task, ok, k, floor);
      case Check =>
      case Sweep => SweepFresh(e, sh, task, ok, order, k, floor);
      case RemoveBlob => RemoveFresh(e, sh, task, ok, k, floor);
      case RemoveManifest => RemoveFresh(e, sh, task, ok, k, floor);
    }
  }

  // Freshness survives every step of every task.
  lemma StepStaysFresh(s: State, a: Action, k: Key, floor: Time)
    requires Fresh(s, k, floor) && s.env.delay > 0
    ensures Fresh(Step(s, a), k, floor)
  {
    hide TaskStep;
    var s' := Step(s, a);
    if a.Run? && a.t < |s.tasks| {
      TaskStepFresh(s.env, s.sh, s.tasks[a.t], a.ok, a.order, k, floor);
    }
    forall t | 0 <= t < |s'.tasks| ensures TaskFresh(s'.env, s'.sh, s'.tasks[t], k, floor) {
      if t < |s.tasks| { assert TaskFresh(s.env, s.sh, s.tasks[t], k, floor); }
    }
  }

  lemma {:induction false} RunStaysFresh(s: State, acts: seq<Action>, k: Key, floor: Time)
    requires Fresh(s, k, floor) && s.env.delay > 0
    ensures Fresh(Exec(s, acts), k, floor) && Exec(s, acts).env == s.env
    decreases |acts|
  {
    if acts != [] {
      StepStaysFresh(s, acts[0], k, floor);
      RunStaysFresh(Step(s, acts[0]), acts[1..], k, floor);
    }
  }

  // The step that touches `k`: in a size or existence check, or in the re-check of a
  // commit. Both hold a pin.
  predicate Touches(task: Task, k: Key) {
    || (task.kind.Check? && task.pc.Touch? && task.key == k)
    || (task.kind.Commit? && task.pc.VerifyPinned? && task.pc.n < |RequiredOf(task.doc)|
        && Key(task.key.repo, RequiredOf(task.doc)[task.pc.n]) == k)
  }

  // A touch restarts the clock of `k`, as far back as the marks already under way.
  lemma TouchMakesFresh(s: State, t: nat, ok: bool, k: Key, floor: Time)
    requires Inv(s) && t < |s.tasks| && Touches(s.tasks[t], k)
    requires floor <= s.sh.clock
    requires forall u, at | 0 <= u < |s.tasks| && PendingMark(s.tasks[u], k, at) :: floor <= at
    ensures Fresh(Step(s, Run(t, ok, [])), k, floor)
  {
    var s' := Step(s, Run(t, ok, []));
    assert s'.sh == TouchNow(s.sh, k);
    TotalsUpdate(s.tasks, t, s.tasks[t]);
    forall u | 0 <= u < |s'.tasks| ensures TaskFresh(s'.env, s'.sh, s'.tasks[u], k, floor) {
      TotalsUpdate(s.tasks, u, s.tasks[u]);
      assert TaskSound(s.env, s.sh, s.tasks[u]);
    }
  }

  // Main result: after a touch of `k`, no sweep deletes `k` before `delay` has passed
  // since the touch, or since the oldest mark of `k` that had read the clock before
  // the touch and was still to be recorded. It does not matter when the sweep took its
  // own reading of the clock.
  lemma GracePeriod(s: State, t: nat, ok: bool, k: Key, floor: Time, acts: seq<Action>, u: nat)
    requires Inv(s) && s.env.delay > 0 && t < |s.tasks| && Touches(s.tasks[t], k)
    requires floor <= s.sh.clock
    requires forall i, at | 0 <= i < |s.tasks| && PendingMark(s.tasks[i], k, at) :: floor <= at
    requires var last := Exec(Step(s, Run(t, ok, [])), acts); u < |last.tasks| && Sweeps(last.tasks[u], k)
    ensures floor + s.env.delay <= Exec(Step(s, Run(t, ok, [])), acts).sh.clock
  {
    hide Step, Exec;
    var s1 := Step(s, Run(t, ok, []));
    TouchMakesFresh(s, t, ok, k, floor);
    assert s1.env == s.env by { StepKeepsEnv(s, Run(t, ok, [])); }
    RunStaysFresh(s1, acts, k, floor);
    var last := Exec(s1, acts);
    assert TaskFresh(last.env, last.sh, last.tasks[u], k, floor);
  }

  lemma StepKeepsEnv(s: State, a: Action)
    ensures Step(s, a).env == s.env
  {
    hide TaskStep;
  }

  // ---- why the marks under way matter ----

  ghost predicate Reachable(s: State, s': State) {
    exists acts :: Exec(s, acts) == s'
  }

  lemma ReachableRefl(s: State)
    ensures Reachable(s, s)
  {
    assert Exec(s, []) == s;
  }

  lemma {:induction false} ExecSnoc(s: State, acts: seq<Action>, a: Action)
    ensures Exec(s, acts + [a]) == Step(Exec(s, acts), a)
    decreases |acts|
  {
    hide Step;
    if acts == [] {
      assert (acts + [a])[1..] == [];
    } else {
      assert (acts + [a])[1..] == acts[1..] + [a];
      ExecSnoc(Step(s, acts[0]), acts[1..], a);
    }
  }

  lemma ReachableStep(s: State, s': State, a: Action)
    requires Reachable(s, s')
    ensures Reachable(s, Step(s', a))
  {
    hide Step, Exec;
    var acts :| Exec(s, acts) == s';
    ExecSnoc(s, acts, a);
  }

  // A push reads the clock at `at`, a size check touches at `touch`, and the push records
  // its reading only then.
  datatype Race = Race(k: Key, at: Time, touch: Time, delay: Time)

  function RaceEnv(r: Race): Env {
    Env({}, {}, true, r.delay)
  }

  // When the older reading is due, and not before the touch.
  function DueTime(r: Race): Time {
    if r.at + r.delay < r.touch then r.touch else r.at + r.delay
  }

  // A stored candidate, and nothing under way.
  function RaceStart(r: Race): State {
    State(RaceEnv(r), Shared({r.k}, map[], map[r.k := r.at], r.at, 0, false, map[], {}), [])
  }

  function PushAt(k: Key, pc: Pc): Task {
    Task(Push, k, Json.Null, pc)
  }

  function CheckAt(k: Key, pc: Pc): Task {
    Task(Check, k, Json.Null, pc)
  }

  function SweepAt(k: Key, pc: Pc): Task {
    Task(Sweep, k, Json.Null, pc)
  }

  // The push has read the clock and not recorded it yet, and the check is about to touch.
  function RaceMid(r: Race): State {
    State(RaceEnv(r), Shared({r.k}, map[], map[r.k := r.at], r.touch, 2, false, map[], {}),
          [PushAt(r.k, Mark(r.at)), CheckAt(r.k, Touch)])
  }

  // Both are done, the push's older reading is the one recorded, and it is due.
  function RaceLate(r: Race): State {
    State(RaceEnv(r), Shared({r.k}, map[], map[r.k := r.at], DueTime(r), 0, false, map[], {}),
          [PushAt(r.k, Done), CheckAt(r.k, Done)])
  }

  function RaceMarking(r: Race): State {
    State(RaceEnv(r), RaceStart(r).sh.(readers := 1), [PushAt(r.k, Mark(r.at))])
  }

  lemma RaceToMarking(r: Race)
    ensures Reachable(RaceStart(r), RaceMarking(r))
  {
    var s0 := RaceStart(r);
    ReachableRefl(s0);
    var run := Run(0, true, []);
    var s := s0;
    s := AlongRace(s0, s, Spawn(PushAt(r.k, Start)));
    s := AlongRace(s0, s, run);
    s := AlongRace(s0, s, run);
    assert s.tasks == [PushAt(r.k, Stored)] && s.sh == s0.sh.(readers := 1);
    s := AlongRace(s0, s, run);
    s := AlongRace(s0, s, run);
    s := AlongRace(s0, s, run);
    assert s == RaceMarking(r);
  }

  lemma RaceToMid(r: Race)
    requires r.at <= r.touch
    ensures Reachable(RaceStart(r), RaceMid(r))
  {
    RaceToMarking(r);
    var s0, s := RaceStart(r), RaceMarking(r);
    s := AlongRace(s0, s, Tick(r.touch - r.at));
    s := AlongRace(s0, s, Spawn(CheckAt(r.k, Start)));
    s := AlongRace(s0, s, Run(1, true, []));
    assert s == RaceMid(r);
  }

  lemma AlongRace(s0: State, s: State, a: Action) returns (s': State)
    requires Reachable(s0, s)
    ensures s' == Step(s, a) && Reachable(s0, s')
  {
    ReachableStep(s0, s, a);
    s' := Step(s, a);
  }

  function RaceChecked(r: Race): State {
    State(RaceEnv(r), RaceMid(r).sh.(candidates := map[r.k := r.touch], readers := 1),
          [PushAt(r.k, Mark(r.at)), CheckAt(r.k, Done)])
  }

  lemma RaceToChecked(r: Race)
    ensures Reachable(Step(RaceMid(r), Run(1, true, [])), RaceChecked(r))
  {
    var s0 := Step(RaceMid(r), Run(1, true, []));
    assert s0 == State(RaceEnv(r), RaceMid(r).sh.(candidates := map[r.k := r.touch]),
                       [PushAt(r.k, Mark(r.at)), CheckAt(r.k, CheckUnpin)]);
    ReachableRefl(s0);
    var s := s0;
    s := AlongRace(s0, s, Run(1, true, []));
    s := AlongRace(s0, s, Run(1, true, []));
    assert s == RaceChecked(r);
  }

  lemma RaceToLate(r: Race)
    ensures Reachable(Step(RaceMid(r), Run(1, true, [])), RaceLate(r))
  {
    var s0 := Step(RaceMid(r), Run(1, true, []));
    RaceToChecked(r);
    var s := RaceChecked(r);
    s := AlongRace(s0, s, Run(0, true, []));
    assert s.sh == RaceChecked(r).sh.(candidates := map[r.k := r.at]);
    s := AlongRace(s0, s, Run(0, true, []));
    assert s.tasks == [PushAt(r.k, Done), CheckAt(r.k, Done)];
    s := AlongRace(s0, s, Tick(DueTime(r) - r.touch));
    assert s == RaceLate(r);
  }

  function RaceSweep(r: Race, stage: Stage): State {
    State(RaceEnv(r), RaceLate(r).sh.(writer := true),
          [PushAt(r.k, Done), CheckAt(r.k, Done), SweepAt(r.k, Sweeping(DueTime(r), [r.k], 0, 0, stage))])
  }

  lemma RaceSweepStarts(s0: State, r: Race)
    requires Reachable(s0, RaceLate(r)) && r.at <= r.touch
    ensures Reachable(s0, RaceSweep(r, Due))
  {
    var s := RaceLate(r);
    s := AlongRace(s0, s, Spawn(SweepAt(r.k, Start)));
    assert Elements([r.k]) == (set x | x in s.sh.candidates && IsDue(RaceEnv(r), s.sh, x, DueTime(r)));
    s := AlongRace(s0, s, Run(2, true, [r.k]));
    assert s == State(RaceEnv(r), RaceLate(r).sh,
                      [PushAt(r.k, Done), CheckAt(r.k, Done), SweepAt(r.k, Batch(DueTime(r), [r.k], 0))]);
    s := AlongRace(s0, s, Run(2, true, []));
    assert s == RaceSweep(r, Due);
  }

  lemma RaceSweepMoves(s0: State, r: Race, stage: Stage, next: Stage)
    requires Reachable(s0, RaceSweep(r, stage)) && Digests.Parses(r.k.digest) && r.at <= r.touch
    requires (stage, next) in {(Due, Root), (Root, Unsafe), (Unsafe, Backref), (Backref, Media), (Media, Head),
                               (Head, Delete)}
    ensures Reachable(s0, RaceSweep(r, next))
  {
    hide Digests.Parses;
    var s := AlongRace(s0, RaceSweep(r, stage), Run(2, true, []));
    assert s == RaceSweep(r, next);
  }

  /** The floor is tight. For every time `at` of a mark under way, every later touch and
      every delay there is a run in which a sweep stands at deleting the touched blob at
      exactly the bound: when the mark's delay is over, and not before the touch. When the
      mark is older than the touch, that is before the touch's own delay is over. */
  lemma PendingMarkCutsGrace(r: Race) returns (mid: State, last: State)
    requires Digests.Parses(r.k.digest) && r.at <= r.touch && r.delay > 0
    ensures Initial(RaceStart(r)) && Reachable(RaceStart(r), mid) && mid.sh.clock == r.touch && mid.env.delay == r.delay
    ensures |mid.tasks| == 2 && Touches(mid.tasks[1], r.k) && PendingMark(mid.tasks[0], r.k, r.at)
    ensures Reachable(Step(mid, Run(1, true, [])), last)
    ensures |last.tasks| == 3 && Sweeps(last.tasks[2], r.k) && r.k in last.sh.cas
    ensures last.sh.clock == if r.at + r.delay < r.touch then r.touch else r.at + r.delay
    ensures r.at < r.touch ==> last.sh.clock < r.touch + r.delay
  {
    hide Step, Digests.Parses;
    RaceToMid(r);
    RaceToLate(r);
    mid, last := RaceMid(r), RaceSweep(r, Delete);
    var s0 := Step(mid, Run(1, true, []));
    RaceSweepStarts(s0, r);
    RaceSweepMoves(s0, r, Due, Root);
    RaceSweepMoves(s0, r, Root, Unsafe);
    RaceSweepMoves(s0, r, Unsafe, Backref);
    RaceSweepMoves(s0, r, Backref, Media);
    RaceSweepMoves(s0, r, Media, Head);
    RaceSweepMoves(s0, r, Head, Delete);
  }
}
