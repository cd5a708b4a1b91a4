// Quota admission of concurrent pushes and mounts under per-digest locks.
//
// A push takes the lock of its (repository, digest) from a map of shared lock handles,
// looks whether the blob is stored, charges its size when it is not, publishes the blob,
// and cleans up. The map forgets a lock nobody else has a handle on. Filesystem manifest
// commits do the same without the lock. Every map access, lock acquisition, lookup,
// charge, publish and clean-up action is one step; any step that can fail may fail.

module Admission {
  import opened Core
  import opened Sums
  import opened Quota

  type LockId = nat

  // Blob content, hence its size, is determined by the digest.
  datatype Env = Env(limits: Limits, size: Digest -> nat)

  datatype Phase = Fresh | Queued | Entered | Absent | Admitted(charged: nat) | Finished

  // `handle` is the task's counted reference to its lock; `listed` says that it has not
  // yet given the map a chance to forget the lock.
  datatype Task = Task(key: Key, locked: bool, handle: Option<LockId>, guard: bool, listed: bool, phase: Phase)

  function NewTask(key: Key, locked: bool): Task {
    Task(key, locked, None, false, false, Fresh)
  }

  // `excess` is history: bytes charged for blobs that another push had stored meanwhile.
  // `overflow` is history: some charge saturated a counter.
  datatype State = State(
    locks: map<Key, LockId>,
    next: LockId,
    bytes: Bytes,
    stored: map<Key, nat>,
    tasks: seq<Task>,
    excess: map<Repo, nat>,
    overflow: bool)

  datatype Cleanup = ReleaseLock | DropGuard | DropHandle

  datatype Action =
    | Spawn(key: Key, locked: bool)
    | Run(t: nat, ok: bool, cleanup: Cleanup)

  // ---- the lock map ----

  // Handles on a lock held by tasks.
  function Handles(tasks: seq<Task>, l: LockId): nat {
    if tasks == [] then 0
    else Handles(tasks[..|tasks| - 1], l) + if tasks[|tasks| - 1].handle == Some(l) then 1 else 0
  }

  // The map itself holds one more.
  function StrongCount(s: State, l: LockId): nat {
    Handles(s.tasks, l) + if l in s.locks.Values then 1 else 0
  }

  predicate Free(tasks: seq<Task>, l: LockId) {
    forall t | 0 <= t < |tasks| :: !(tasks[t].handle == Some(l) && tasks[t].guard)
  }

  // ---- steps ----

  function Goto(s: State, t: nat, task: Task): State
    requires t < |s.tasks|
  {
    s.(tasks := s.tasks[t := task])
  }

  function TakeHandle(s: State, t: nat): State
    requires t < |s.tasks|
  {
    var task := s.tasks[t];
    if task.key in s.locks then
      Goto(s, t, task.(handle := Some(s.locks[task.key]), listed := true, phase := Queued))
    else
      Goto(s.(locks := s.locks[task.key := s.next], next := s.next + 1), t,
           task.(handle := Some(s.next), listed := true, phase := Queued))
  }

  function LookUp(env: Env, s: State, t: nat, ok: bool): State
    requires t < |s.tasks|
  {
    var task := s.tasks[t];
    if !TracksBytes(env.limits) then Goto(s, t, task.(phase := Admitted(0)))
    else if !ok then Goto(s, t, task.(phase := Finished))
    else if task.key in s.stored then Goto(s, t, task.(phase := Admitted(0)))
    else Goto(s, t, task.(phase := Absent))
  }

  predicate Refused(env: Env, s: State, key: Key) {
    || Over(env.limits.maxRepoBytes, Used(s.bytes, key.repo), env.size(key.digest))
    || Over(env.limits.maxTotalBytes, s.bytes.total, env.size(key.digest))
  }

  function ChargeFor(env: Env, s: State, t: nat): State
    requires t < |s.tasks|
  {
    var task := s.tasks[t];
    var size := env.size(task.key.digest);
    if Refused(env, s, task.key) then Goto(s, t, task.(phase := Finished))
    else Goto(s.(bytes := Charge(s.bytes, task.key.repo, size),
                 overflow := s.overflow || s.bytes.total + size > U64_MAX), t,
              task.(phase := Admitted(size)))
  }

  function Excess(excess: map<Repo, nat>, repo: Repo): nat {
    if repo in excess then excess[repo] else 0
  }

  function Publish(env: Env, s: State, t: nat, ok: bool): State
    requires t < |s.tasks| && s.tasks[t].phase.Admitted?
  {
    var task := s.tasks[t];
    var (repo, charged) := (task.key.repo, task.phase.charged);
    if ok then
      Goto(s.(stored := s.stored[task.key := env.size(task.key.digest)],
              excess := if task.key in s.stored then s.excess[repo := Excess(s.excess, repo) + charged]
                        else s.excess), t,
           task.(phase := Finished))
    else
      Goto(s.(bytes := if TracksBytes(env.limits) then Release(s.bytes, repo, charged) else s.bytes), t,
           task.(phase := Finished))
  }

  // Clean-up in any order the backends use; a handle goes last.
  function CleanUp(s: State, t: nat, cleanup: Cleanup): State
    requires t < |s.tasks|
  {
    var task := s.tasks[t];
    match cleanup
    case ReleaseLock =>
      if task.handle.None? || !task.listed then s
      else if task.key in s.locks && StrongCount(s, s.locks[task.key]) <= 2 then
        Goto(s.(locks := s.locks - {task.key}), t, task.(listed := false))
      else Goto(s, t, task.(listed := false))
    case DropGuard => Goto(s, t, task.(guard := false))
    case DropHandle => if task.guard then s else Goto(s, t, task.(handle := None, listed := false))
  }

  function RunTask(env: Env, s: State, t: nat, ok: bool, cleanup: Cleanup): State
    requires t < |s.tasks|
  {
    var task := s.tasks[t];
    match task.phase
    case Fresh => if task.locked then TakeHandle(s, t) else Goto(s, t, task.(phase := Entered))
    case Queued =>
      if task.handle.Some? && Free(s.tasks, task.handle.value)
      then Goto(s, t, task.(guard := true, phase := Entered)) else s
    case Entered => LookUp(env, s, t, ok)
    case Absent => ChargeFor(env, s, t)
    case Admitted(_) => Publish(env, s, t, ok)
    case Finished => CleanUp(s, t, cleanup)
  }

  function Step(env: Env, s: State, a: Action): State {
    match a
    case Spawn(key, locked) => s.(tasks := s.tasks + [NewTask(key, locked)])
    case Run(t, ok, cleanup) => if t < |s.tasks| then RunTask(env, s, t, ok, cleanup) else s
  }

  function Exec(env: Env, s: State, acts: seq<Action>): State
    decreases |acts|
  {
    if acts == [] then s else Exec(env, Step(env, s, acts[0]), acts[1..])
  }

  // ---- mutual exclusion ----

  // Between lock acquisition and the first of release and unlock.
  predicate Inside(task: Task) {
    task.locked && task.guard && task.listed
  }

  // A task that has not released its lock holds the handle the map lists for its key.
  predicate HandlesListed(s: State) {
    forall t | 0 <= t < |s.tasks| && s.tasks[t].handle.Some? && s.tasks[t].listed ::
      s.tasks[t].key in s.locks && s.locks[s.tasks[t].key] == s.tasks[t].handle.value
  }

  predicate GuardsExclude(s: State) {
    forall t, u | 0 <= t < |s.tasks| && 0 <= u < |s.tasks| && t != u && s.tasks[t].guard && s.tasks[u].guard ::
      s.tasks[t].handle != s.tasks[u].handle
  }

  predicate TaskShape(task: Task) {
    && (task.listed || task.guard ==> task.handle.Some?)
    && (task.phase.Fresh? ==> task.handle.None?)
    && (task.phase.Queued? ==> task.handle.Some? && task.listed && !task.guard)
    && (task.locked && (task.phase.Entered? || task.phase.Absent? || task.phase.Admitted?) ==> Inside(task))
  }

  predicate Shapes(s: State) {
    forall t | 0 <= t < |s.tasks| :: TaskShape(s.tasks[t])
  }

  // Lock identities are never reused.
  predicate Issued(s: State) {
    && (forall t | 0 <= t < |s.tasks| && s.tasks[t].handle.Some? :: s.tasks[t].handle.value < s.next)
    && (forall k | k in s.locks :: s.locks[k] < s.next)
  }

  predicate LockInv(s: State) {
    HandlesListed(s) && GuardsExclude(s) && Shapes(s) && Issued(s)
  }

  lemma {:induction false} HandleCounts(tasks: seq<Task>, t: nat, l: LockId)
    requires t < |tasks| && tasks[t].handle == Some(l)
    ensures Handles(tasks, l) >= 1
  {
    if t < |tasks| - 1 { HandleCounts(tasks[..|tasks| - 1], t, l); }
  }

  lemma {:induction false} TwoHandlesCount(tasks: seq<Task>, t: nat, u: nat, l: LockId)
    requires t < u < |tasks| && tasks[t].handle == Some(l) && tasks[u].handle == Some(l)
    ensures Handles(tasks, l) >= 2
  {
    if u < |tasks| - 1 {
      TwoHandlesCount(tasks[..|tasks| - 1], t, u, l);
    } else {
      HandleCounts(tasks[..|tasks| - 1], t, l);
    }
  }

  // Forgetting a lock while others still hold a handle on it cannot happen.
  lemma OnlyHandle(s: State, t: nat, u: nat)
    requires HandlesListed(s) && t < |s.tasks| && u < |s.tasks| && t != u
    requires s.tasks[t].handle.Some? && s.tasks[t].listed && StrongCount(s, s.locks[s.tasks[t].key]) <= 2
    ensures s.tasks[u].handle != s.tasks[t].handle
  {
    var l := s.tasks[t].handle.value;
    assert l in s.locks.Values by { assert s.locks[s.tasks[t].key] == l; }
    if s.tasks[u].handle == Some(l) {
      TwoHandlesCount(s.tasks, if t < u then t else u, if t < u then u else t, l);
    }
  }

  lemma CleanUpKeepsLocks(s: State, t: nat, cleanup: Cleanup)
    requires LockInv(s) && t < |s.tasks| && s.tasks[t].phase.Finished?
    ensures LockInv(CleanUp(s, t, cleanup))
  {
    hide StrongCount;
    var task := s.tasks[t];
    if cleanup.ReleaseLock? && task.handle.Some? && task.listed && StrongCount(s, s.locks[task.key]) <= 2 {
      forall u | 0 <= u < |s.tasks| && u != t && s.tasks[u].handle.Some? && s.tasks[u].listed
        ensures s.tasks[u].key != task.key
      {
        OnlyHandle(s, t, u);
      }
    }
  }

  // Moving on without touching any lock.
  lemma PhaseKeepsLocks(s: State, s': State, t: nat, phase: Phase)
    requires LockInv(s) && t < |s.tasks| && s'.locks == s.locks && s'.next == s.next
    requires s'.tasks == s.tasks[t := s.tasks[t].(phase := phase)] && TaskShape(s'.tasks[t])
    ensures LockInv(s')
  {
  }

  lemma TakeKeepsListed(s: State, t: nat)
    requires HandlesListed(s) && t < |s.tasks|
    ensures HandlesListed(TakeHandle(s, t))
  {
  }

  lemma TakeKeepsLocks(s: State, t: nat)
    requires LockInv(s) && t < |s.tasks| && s.tasks[t].phase.Fresh?
    ensures LockInv(TakeHandle(s, t))
  {
    assert HandlesListed(TakeHandle(s, t)) by { TakeKeepsListed(s, t); }
    hide HandlesListed;
    assert TaskShape(s.tasks[t]);
  }

  lemma EnterKeepsLocks(s: State, t: nat)
    requires LockInv(s) && t < |s.tasks| && s.tasks[t].phase.Queued? && Free(s.tasks, s.tasks[t].handle.value)
    ensures LockInv(Goto(s, t, s.tasks[t].(guard := true, phase := Entered)))
  {
  }

  lemma ShapeOf(s: State, t: nat)
    requires LockInv(s) && t < |s.tasks|
    ensures TaskShape(s.tasks[t])
  {
  }

  lemma LookUpKeepsLocks(env: Env, s: State, t: nat, ok: bool)
    requires LockInv(s) && t < |s.tasks| && s.tasks[t].phase.Entered?
    ensures LockInv(LookUp(env, s, t, ok))
  {
    hide LockInv, TracksBytes;
    ShapeOf(s, t);
    var phase := if !TracksBytes(env.limits) then Admitted(0)
                 else if !ok then Finished
                 else if s.tasks[t].key in s.stored then Admitted(0)
                 else Absent;
    assert LookUp(env, s, t, ok) == Goto(s, t, s.tasks[t].(phase := phase));
    PhaseKeepsLocks(s, Goto(s, t, s.tasks[t].(phase := phase)), t, phase);
  }

  lemma ChargeKeepsLocks(env: Env, s: State, t: nat)
    requires LockInv(s) && t < |s.tasks| && s.tasks[t].phase.Absent?
    ensures LockInv(ChargeFor(env, s, t))
  {
    hide LockInv, Refused, Charge;
    ShapeOf(s, t);
    var phase := if Refused(env, s, s.tasks[t].key) then Finished else Admitted(env.size(s.tasks[t].key.digest));
    assert ChargeFor(env, s, t).tasks == s.tasks[t := s.tasks[t].(phase := phase)];
    PhaseKeepsLocks(s, ChargeFor(env, s, t), t, phase);
  }

  lemma PublishKeepsLocks(env: Env, s: State, t: nat, ok: bool)
    requires LockInv(s) && t < |s.tasks| && s.tasks[t].phase.Admitted?
    ensures LockInv(Publish(env, s, t, ok))
  {
    hide LockInv, Release, TracksBytes;
    ShapeOf(s, t);
    PhaseKeepsLocks(s, Publish(env, s, t, ok), t, Finished);
  }

  lemma RunKeepsLocks(env: Env, s: State, t: nat, ok: bool, cleanup: Cleanup)
    requires LockInv(s) && t < |s.tasks|
    ensures LockInv(RunTask(env, s, t, ok, cleanup))
  {
    hide CleanUp, TakeHandle, LookUp, ChargeFor, Publish, HandlesListed, GuardsExclude, Free;
    assert TaskShape(s.tasks[t]);
    match s.tasks[t].phase {
      case Fresh =>
        if s.tasks[t].locked {
          TakeKeepsLocks(s, t);
        } else {
          PhaseKeepsLocks(s, RunTask(env, s, t, ok, cleanup), t, Entered);
        }
      case Queued => if Free(s.tasks, s.tasks[t].handle.value) { EnterKeepsLocks(s, t); }
      case Entered => LookUpKeepsLocks(env, s, t, ok);
      case Absent => ChargeKeepsLocks(env, s, t);
      case Admitted(_) => PublishKeepsLocks(env, s, t, ok);
      case Finished => CleanUpKeepsLocks(s, t, cleanup);
    }
  }

  /** Every step keeps the lock discipline. */
  lemma StepKeepsLocks(env: Env, s: State, a: Action)
    requires LockInv(s)
    ensures LockInv(Step(env, s, a))
  {
    hide RunTask;
    if a.Run? && a.t < |s.tasks| { RunKeepsLocks(env, s, a.t, a.ok, a.cleanup); }
  }

  lemma InsideExcludes(s: State, t: nat, u: nat)
    requires LockInv(s) && t < |s.tasks| && u < |s.tasks| && t != u && s.tasks[t].key == s.tasks[u].key
    ensures !(Inside(s.tasks[t]) && Inside(s.tasks[u]))
  {
  }

  // ---- accounting ----

  function Reserve(task: Task, repo: Repo): nat {
    if task.phase.Admitted? && task.key.repo == repo then task.phase.charged else 0
  }

  // Bytes charged by pushes that have not published yet.
  function Reserved(tasks: seq<Task>, repo: Repo): nat {
    if tasks == [] then 0 else Reserved(tasks[..|tasks| - 1], repo) + Reserve(tasks[|tasks| - 1], repo)
  }

  ghost function StoredBytes(stored: map<Key, nat>, repo: Repo): nat {
    Sum(map k | k in stored && k.repo == repo :: stored[k])
  }

  lemma {:induction false} ReservedUpdate(tasks: seq<Task>, t: nat, task: Task, repo: Repo)
    requires t < |tasks|
    ensures Reserved(tasks[t := task], repo) == Reserved(tasks, repo) - Reserve(tasks[t], repo) + Reserve(task, repo)
  {
    hide Reserve;
    var n := |tasks| - 1;
    if t < n {
      assert tasks[t := task][..n] == tasks[..n][t := task];
      ReservedUpdate(tasks[..n], t, task, repo);
    } else {
      assert tasks[t := task][..n] == tasks[..n];
    }
  }

  lemma StoredInsert(stored: map<Key, nat>, k: Key, size: nat, repo: Repo)
    ensures StoredBytes(stored[k := size], repo) ==
            StoredBytes(stored, repo) + if k.repo != repo then 0 else size - (if k in stored then stored[k] else 0)
  {
    var was := map j | j in stored && j.repo == repo :: stored[j];
    var now := map j | j in stored[k := size] && j.repo == repo :: stored[k := size][j];
    if k.repo == repo {
      assert now == was[k := size];
      SumInsert(was, k, size);
    } else {
      assert now == was;
    }
  }

  // What a push has charged is its whole size, or nothing because the blob is stored.
  predicate Coherent(env: Env, s: State) {
    && (forall k | k in s.stored :: s.stored[k] == env.size(k.digest))
    && (forall t | 0 <= t < |s.tasks| && s.tasks[t].phase.Admitted? :: ChargeFits(env, s, s.tasks[t]))
  }

  predicate ChargeFits(env: Env, s: State, task: Task)
    requires task.phase.Admitted?
  {
    task.phase.charged == env.size(task.key.digest) || (task.phase.charged == 0 && task.key in s.stored)
  }

  // Every tracked byte is stored, reserved, or was charged twice.
  ghost predicate Balanced(s: State) {
    && Sound(s.bytes)
    && forall repo :: Used(s.bytes, repo) ==
         StoredBytes(s.stored, repo) + Reserved(s.tasks, repo) + Excess(s.excess, repo)
  }

  ghost predicate Account(env: Env, s: State) {
    Coherent(env, s) && (s.overflow || Balanced(s))
  }

  // A move that reserves nothing.
  lemma PhaseKeepsAccount(env: Env, s: State, s': State, t: nat, task: Task)
    requires Account(env, s) && t < |s.tasks| &&
             s' == s.(locks := s'.locks, next := s'.next, tasks := s.tasks[t := task])
    requires !s.tasks[t].phase.Admitted?
    requires task.phase.Admitted? ==> task.phase.charged == 0 && task.key in s.stored
    ensures Account(env, s')
  {
    hide Used, StoredBytes, Sound;
    forall repo ensures Reserved(s'.tasks, repo) == Reserved(s.tasks, repo) { ReservedUpdate(s.tasks, t, task, repo); }
  }

  lemma ChargeKeepsAccount(env: Env, s: State, t: nat)
    requires Account(env, s) && t < |s.tasks| && s.tasks[t].phase.Absent?
    ensures Account(env, ChargeFor(env, s, t))
  {
    hide Used, StoredBytes, Sound, Charge;
    var s', key := ChargeFor(env, s, t), s.tasks[t].key;
    forall repo ensures Reserved(s'.tasks, repo) == Reserved(s.tasks, repo) + Reserve(s'.tasks[t], repo) {
      ReservedUpdate(s.tasks, t, s'.tasks[t], repo);
    }
    if !Refused(env, s, key) && !s'.overflow { ChargeExact(s.bytes, key.repo, env.size(key.digest)); }
  }

  lemma FailKeepsAccount(env: Env, s: State, t: nat)
    requires TracksBytes(env.limits) && Account(env, s) && t < |s.tasks| && s.tasks[t].phase.Admitted?
    ensures Account(env, Publish(env, s, t, false))
  {
    hide Used, StoredBytes, Sound, Release;
    var s', key := Publish(env, s, t, false), s.tasks[t].key;
    forall repo ensures Reserved(s'.tasks, repo) == Reserved(s.tasks, repo) - Reserve(s.tasks[t], repo) {
      ReservedUpdate(s.tasks, t, s'.tasks[t], repo);
    }
    if !s.overflow {
      ReleaseExact(s.bytes, key.repo, s.tasks[t].phase.charged);
      assert Reserved(s'.tasks, key.repo) >= 0;
    }
  }

  lemma StoreKeepsAccount(env: Env, s: State, t: nat)
    requires Account(env, s) && t < |s.tasks| && s.tasks[t].phase.Admitted?
    ensures Account(env, Publish(env, s, t, true))
  {
    hide Used, StoredBytes, Sound;
    var s', key := Publish(env, s, t, true), s.tasks[t].key;
    assert ChargeFits(env, s, s.tasks[t]);
    forall repo
      ensures Reserved(s'.tasks, repo) == Reserved(s.tasks, repo) - Reserve(s.tasks[t], repo)
      ensures StoredBytes(s'.stored, repo) ==
              StoredBytes(s.stored, repo) + if key.repo != repo || key in s.stored then 0 else env.size(key.digest)
    {
      ReservedUpdate(s.tasks, t, s'.tasks[t], repo);
      StoredInsert(s.stored, key, env.size(key.digest), repo);
    }
  }

  lemma {:induction false} ReservedAppend(tasks: seq<Task>, task: Task, repo: Repo)
    ensures Reserved(tasks + [task], repo) == Reserved(tasks, repo) + Reserve(task, repo)
  {
    assert (tasks + [task])[..|tasks|] == tasks;
  }

  lemma TakeKeepsAccount(env: Env, s: State, t: nat)
    requires Account(env, s) && t < |s.tasks| && s.tasks[t].phase.Fresh?
    ensures Account(env, TakeHandle(s, t))
  {
    hide Account;
    PhaseKeepsAccount(env, s, TakeHandle(s, t), t, TakeHandle(s, t).tasks[t]);
  }

  lemma LookUpKeepsAccount(env: Env, s: State, t: nat, ok: bool)
    requires TracksBytes(env.limits) && Account(env, s) && t < |s.tasks| && s.tasks[t].phase.Entered?
    ensures Account(env, LookUp(env, s, t, ok))
  {
    hide Account, TracksBytes;
    var phase := if !ok then Finished else if s.tasks[t].key in s.stored then Admitted(0) else Absent;
    assert LookUp(env, s, t, ok) == Goto(s, t, s.tasks[t].(phase := phase));
    PhaseKeepsAccount(env, s, Goto(s, t, s.tasks[t].(phase := phase)), t, s.tasks[t].(phase := phase));
  }

  lemma CleanUpKeepsAccount(env: Env, s: State, t: nat, cleanup: Cleanup)
    requires Account(env, s) && t < |s.tasks| && s.tasks[t].phase.Finished?
    ensures Account(env, CleanUp(s, t, cleanup))
  {
    hide Account, StrongCount;
    PhaseKeepsAccount(env, s, CleanUp(s, t, cleanup), t, CleanUp(s, t, cleanup).tasks[t]);
  }

  lemma RunKeepsAccount(env: Env, s: State, t: nat, ok: bool, cleanup: Cleanup)
    requires TracksBytes(env.limits) && Account(env, s) && t < |s.tasks|
    ensures Account(env, RunTask(env, s, t, ok, cleanup))
  {
    hide Account, Publish, ChargeFor, Free, CleanUp, LookUp, TakeHandle;
    var task := s.tasks[t];
    match task.phase {
      case Fresh =>
        if task.locked { TakeKeepsAccount(env, s, t); } else {
          PhaseKeepsAccount(env, s, Goto(s, t, task.(phase := Entered)), t, task.(phase := Entered));
        }
      case Queued =>
        PhaseKeepsAccount(env, s, Goto(s, t, task.(guard := true, phase := Entered)), t,
                          task.(guard := true, phase := Entered));
      case Entered => LookUpKeepsAccount(env, s, t, ok);
      case Absent => ChargeKeepsAccount(env, s, t);
      case Admitted(_) => if ok { StoreKeepsAccount(env, s, t); } else { FailKeepsAccount(env, s, t); }
      case Finished => CleanUpKeepsAccount(env, s, t, cleanup);
    }
  }

  lemma StepKeepsAccount(env: Env, s: State, a: Action)
    requires TracksBytes(env.limits) && Account(env, s)
    ensures Account(env, Step(env, s, a))
  {
    hide RunTask, Sound, Used, StoredBytes;
    match a {
      case Run(t, ok, cleanup) => if t < |s.tasks| { RunKeepsAccount(env, s, t, ok, cleanup); }
      case Spawn(key, locked) =>
        forall repo ensures Reserved(Step(env, s, a).tasks, repo) == Reserved(s.tasks, repo) {
          ReservedAppend(s.tasks, NewTask(key, locked), repo);
        }
    }
  }

  // ---- with every push under its lock ----

  predicate WillStore(task: Task) {
    task.phase.Absent? || (task.phase.Admitted? && task.phase.charged > 0)
  }

  // Nobody stores behind the back of a push that found its blob absent.
  ghost predicate Undisturbed(s: State) {
    && (forall t | 0 <= t < |s.tasks| :: s.tasks[t].locked)
    && (forall t | 0 <= t < |s.tasks| && WillStore(s.tasks[t]) :: s.tasks[t].key !in s.stored)
    && (forall repo :: Excess(s.excess, repo) == 0)
  }

  lemma PublishUndisturbed(env: Env, s: State, t: nat, ok: bool)
    requires LockInv(s) && Undisturbed(s) && t < |s.tasks| && s.tasks[t].phase.Admitted?
    ensures Undisturbed(Publish(env, s, t, ok))
  {
    hide Release, TracksBytes, LockInv;
    var s' := Publish(env, s, t, ok);
    TaskUndisturbed(s, t);
    forall repo ensures Excess(s'.excess, repo) == 0 {
      assert Excess(s.excess, repo) == 0;
    }
    forall u | 0 <= u < |s'.tasks| && WillStore(s'.tasks[u]) ensures s'.tasks[u].key !in s'.stored {
      if u != t && s.tasks[u].key == s.tasks[t].key {
        ShapeOf(s, t);
        ShapeOf(s, u);
        InsideExcludes(s, t, u);
      }
    }
  }

  // Steps that neither store nor count excess.
  lemma PhaseUndisturbed(s: State, s': State, t: nat, task: Task)
    requires Undisturbed(s) && t < |s.tasks| && s'.tasks == s.tasks[t := task] && s'.stored == s.stored &&
             s'.excess == s.excess
    requires task.locked && task.key == s.tasks[t].key && (WillStore(task) ==> task.key !in s.stored)
    ensures Undisturbed(s')
  {
  }

  lemma ChargeUndisturbed(env: Env, s: State, t: nat)
    requires Undisturbed(s) && t < |s.tasks| && s.tasks[t].phase.Absent?
    ensures Undisturbed(ChargeFor(env, s, t))
  {
    hide Undisturbed, Charge, Refused;
    assert s.tasks[t].locked && s.tasks[t].key !in s.stored by { TaskUndisturbed(s, t); }
    PhaseUndisturbed(s, ChargeFor(env, s, t), t, ChargeFor(env, s, t).tasks[t]);
  }

  lemma TaskUndisturbed(s: State, t: nat)
    requires Undisturbed(s) && t < |s.tasks|
    ensures s.tasks[t].locked && (WillStore(s.tasks[t]) ==> s.tasks[t].key !in s.stored)
  {
  }

  lemma LookUpUndisturbed(env: Env, s: State, t: nat, ok: bool)
    requires Undisturbed(s) && t < |s.tasks| && s.tasks[t].phase.Entered?
    ensures Undisturbed(LookUp(env, s, t, ok))
  {
    hide Undisturbed, TracksBytes;
    TaskUndisturbed(s, t);
    PhaseUndisturbed(s, LookUp(env, s, t, ok), t, LookUp(env, s, t, ok).tasks[t]);
  }

  lemma RunUndisturbed(env: Env, s: State, t: nat, ok: bool, cleanup: Cleanup)
    requires LockInv(s) && Undisturbed(s) && t < |s.tasks|
    ensures Undisturbed(RunTask(env, s, t, ok, cleanup))
  {
    hide Undisturbed, LockInv, LookUp, ChargeFor, Publish, StrongCount, Free;
    TaskUndisturbed(s, t);
    match s.tasks[t].phase {
      case Entered => LookUpUndisturbed(env, s, t, ok);
      case Absent => ChargeUndisturbed(env, s, t);
      case Admitted(_) => PublishUndisturbed(env, s, t, ok);
      case _ =>
        var s' := RunTask(env, s, t, ok, cleanup);
        PhaseUndisturbed(s, s', t, s'.tasks[t]);
    }
  }

  lemma StepUndisturbed(env: Env, s: State, a: Action)
    requires LockInv(s) && Undisturbed(s) && (a.Spawn? ==> a.locked)
    ensures Undisturbed(Step(env, s, a))
  {
    hide RunTask, LockInv;
    if a.Run? && a.t < |s.tasks| { RunUndisturbed(env, s, a.t, a.ok, a.cleanup); }
  }

  // ---- caps ----

  lemma ChargeKeepsCaps(env: Env, s: State, t: nat)
    requires WithinCaps(env.limits, s.bytes) && t < |s.tasks|
    ensures WithinCaps(env.limits, ChargeFor(env, s, t).bytes)
    ensures 0 < env.limits.maxTotalBytes < U64_MAX && !s.overflow ==> !ChargeFor(env, s, t).overflow
  {
  }

  lemma PublishKeepsCaps(env: Env, s: State, t: nat, ok: bool)
    requires WithinCaps(env.limits, s.bytes) && t < |s.tasks| && s.tasks[t].phase.Admitted?
    ensures WithinCaps(env.limits, Publish(env, s, t, ok).bytes) && Publish(env, s, t, ok).overflow == s.overflow
  {
  }

  lemma StepKeepsCaps(env: Env, s: State, a: Action)
    requires WithinCaps(env.limits, s.bytes)
    ensures WithinCaps(env.limits, Step(env, s, a).bytes)
    ensures 0 < env.limits.maxTotalBytes < U64_MAX && !s.overflow ==> !Step(env, s, a).overflow
  {
    hide StrongCount, Free, WithinCaps, ChargeFor, Publish;
    if a.Run? && a.t < |s.tasks| {
      match s.tasks[a.t].phase {
        case Absent => ChargeKeepsCaps(env, s, a.t);
        case Admitted(_) => PublishKeepsCaps(env, s, a.t, a.ok);
        case _ => assert Step(env, s, a).bytes == s.bytes;
      }
    }
  }

  // ---- whole runs ----

  // A start: counters seeded from the stored blobs, no push under way.
  ghost predicate Initial(env: Env, s: State) {
    && s.tasks == [] && s.locks == map[] && s.excess == map[] && !s.overflow && Sound(s.bytes)
    && (forall k | k in s.stored :: s.stored[k] == env.size(k.digest))
    && (forall repo :: Used(s.bytes, repo) == StoredBytes(s.stored, repo))
  }

  predicate LockedOnly(acts: seq<Action>) {
    forall i | 0 <= i < |acts| && acts[i].Spawn? :: acts[i].locked
  }

  lemma {:induction false} ExecKeeps(env: Env, s: State, acts: seq<Action>)
    requires LockInv(s)
    ensures LockInv(Exec(env, s, acts))
    ensures TracksBytes(env.limits) && Account(env, s) ==> Account(env, Exec(env, s, acts))
    ensures Undisturbed(s) && LockedOnly(acts) ==> Undisturbed(Exec(env, s, acts))
    ensures WithinCaps(env.limits, s.bytes) ==> WithinCaps(env.limits, Exec(env, s, acts).bytes)
    ensures WithinCaps(env.limits, s.bytes) && !s.overflow && 0 < env.limits.maxTotalBytes < U64_MAX ==>
            !Exec(env, s, acts).overflow
    decreases |acts|
  {
    hide Step, LockInv, Account, Undisturbed, WithinCaps, TracksBytes;
    if acts != [] {
      var a := acts[0];
      StepKeepsLocks(env, s, a);
      if TracksBytes(env.limits) && Account(env, s) { StepKeepsAccount(env, s, a); }
      if Undisturbed(s) && LockedOnly(acts) { StepUndisturbed(env, s, a); }
      if WithinCaps(env.limits, s.bytes) { StepKeepsCaps(env, s, a); }
      ExecKeeps(env, Step(env, s, a), acts[1..]);
    }
  }

  /** However pushes and mounts interleave, and although locks come and go, at most one
      per (repository, digest) is between acquiring its lock and giving it up. */
  lemma MutualExclusion(env: Env, s0: State, acts: seq<Action>, t: nat, u: nat)
    requires Initial(env, s0)
    requires var s := Exec(env, s0, acts); t < |s.tasks| && u < |s.tasks| && t != u && s.tasks[t].key == s.tasks[u].key
    ensures var s := Exec(env, s0, acts); !(Inside(s.tasks[t]) && Inside(s.tasks[u]))
  {
    hide Exec, Initial;
    assert LockInv(s0) by { InitialKeeps(env, s0); }
    ExecKeeps(env, s0, acts);
    InsideExcludes(Exec(env, s0, acts), t, u);
  }

  lemma InitialKeeps(env: Env, s: State)
    requires Initial(env, s)
    ensures LockInv(s) && Account(env, s) && Undisturbed(s) && !s.overflow
  {
    hide Used, StoredBytes, Sound;
  }

  // No push is between its charge and its publish.
  predicate Quiet(s: State) {
    forall t | 0 <= t < |s.tasks| :: !s.tasks[t].phase.Admitted?
  }

  lemma {:induction false} QuietReservesNothing(tasks: seq<Task>, repo: Repo)
    requires forall t | 0 <= t < |tasks| :: !tasks[t].phase.Admitted?
    ensures Reserved(tasks, repo) == 0
  {
    if tasks != [] { QuietReservesNothing(tasks[..|tasks| - 1], repo); }
  }

  /** Once no push is in flight, what a repository is charged is what it stores plus what
      was charged twice, so the quota is exact if and only if no charged blob had already
      been stored by somebody else; and with every push under its lock none ever is. */
  lemma QuotaIsExact(env: Env, s0: State, acts: seq<Action>, repo: Repo)
    requires Initial(env, s0) && (env.limits.maxRepoBytes > 0 || env.limits.maxTotalBytes > 0)
    requires var s := Exec(env, s0, acts); Quiet(s) && !s.overflow
    ensures var s := Exec(env, s0, acts);
            && s.bytes.total == Sum(s.bytes.perRepo)
            && Used(s.bytes, repo) == StoredBytes(s.stored, repo) + Excess(s.excess, repo)
            && (LockedOnly(acts) ==> Used(s.bytes, repo) == StoredBytes(s.stored, repo))
  {
    hide Exec, Initial, Used, StoredBytes, LockedOnly, LockInv;
    InitialKeeps(env, s0);
    ExecKeeps(env, s0, acts);
    QuietReservesNothing(Exec(env, s0, acts).tasks, repo);
  }

  // ---- all repositories together ----

  ghost function Elsewhere(stored: map<Key, nat>, repo: Repo): map<Key, nat> {
    map k | k in stored && k.repo != repo :: stored[k]
  }

  lemma {:induction false} SumByRepo(stored: map<Key, nat>, repo: Repo)
    ensures Sum(stored) == StoredBytes(stored, repo) + Sum(Elsewhere(stored, repo))
    decreases |stored|
  {
    if stored == map[] {
      assert Elsewhere(stored, repo) == map[];
      assert (map k | k in stored && k.repo == repo :: stored[k]) == map[];
    } else {
      var k :| k in stored;
      var rest := stored - {k};
      Smaller(stored, k);
      SumWithout(stored, k);
      SumByRepo(rest, repo);
      assert stored == rest[k := stored[k]];
      StoredInsert(rest, k, stored[k], repo);
      if k.repo == repo {
        assert Elsewhere(stored, repo) == Elsewhere(rest, repo);
      } else {
        SumInsert(Elsewhere(rest, repo), k, stored[k]);
        assert Elsewhere(stored, repo) == Elsewhere(rest, repo)[k := stored[k]];
      }
    }
  }

  lemma ElsewhereBytes(stored: map<Key, nat>, repo: Repo, r: Repo)
    ensures StoredBytes(Elsewhere(stored, repo), r) == (if r == repo then 0 else StoredBytes(stored, r))
  {
    var part := map k | k in Elsewhere(stored, repo) && k.repo == r :: Elsewhere(stored, repo)[k];
    if r == repo {
      assert part == map[];
    } else {
      assert part == (map k | k in stored && k.repo == r :: stored[k]);
    }
  }

  // If no repository stores more than it is charged, the store holds no more than the sum.
  lemma {:induction false} SumsWithin(stored: map<Key, nat>, charged: map<Repo, nat>)
    requires forall r :: StoredBytes(stored, r) <= (if r in charged then charged[r] else 0)
    ensures Sum(stored) <= Sum(charged)
    decreases |charged|
  {
    hide StoredBytes, Elsewhere;
    if charged == map[] {
      NothingStored(stored);
    } else {
      var r :| r in charged;
      SumWithout(charged, r);
      Smaller(charged, r);
      SumByRepo(stored, r);
      var others := charged - {r};
      forall x ensures StoredBytes(Elsewhere(stored, r), x) <= (if x in others then others[x] else 0) {
        ElsewhereBytes(stored, r, x);
      }
      SumsWithin(Elsewhere(stored, r), others);
    }
  }

  lemma {:induction false} NothingStored(stored: map<Key, nat>)
    requires forall r :: StoredBytes(stored, r) == 0
    ensures Sum(stored) == 0
    decreases |stored|
  {
    if stored != map[] {
      var k :| k in stored;
      SumByRepo(stored, k.repo);
      forall x ensures StoredBytes(Elsewhere(stored, k.repo), x) == 0 { ElsewhereBytes(stored, k.repo, x); }
      FewerElsewhere(stored, k);
      NothingStored(Elsewhere(stored, k.repo));
    }
  }

  lemma FewerElsewhere(stored: map<Key, nat>, k: Key)
    requires k in stored
    ensures |Elsewhere(stored, k.repo)| < |stored|
  {
    var part := Elsewhere(stored, k.repo);
    assert part.Keys <= stored.Keys - {k};
    SubsetSize(part.Keys, stored.Keys - {k});
    assert |part.Keys| == |part| && |stored.Keys| == |stored|;
  }

  /** In every reachable state, not only quiet ones, the caps hold of what is charged and
      so of what is stored, in each repository and in all together. */
  lemma CapsHold(env: Env, s0: State, acts: seq<Action>, repo: Repo)
    requires Initial(env, s0) && (env.limits.maxRepoBytes > 0 || env.limits.maxTotalBytes > 0)
    requires env.limits.maxRepoBytes > 0 ==>
               forall r | r in s0.bytes.perRepo :: s0.bytes.perRepo[r] <= env.limits.maxRepoBytes
    requires env.limits.maxTotalBytes > 0 ==> s0.bytes.total <= env.limits.maxTotalBytes
    ensures var s := Exec(env, s0, acts);
            && (env.limits.maxRepoBytes > 0 ==>
                  forall r | r in s.bytes.perRepo :: s.bytes.perRepo[r] <= env.limits.maxRepoBytes)
            && (env.limits.maxTotalBytes > 0 ==> s.bytes.total <= env.limits.maxTotalBytes)
            && (0 < env.limits.maxTotalBytes < U64_MAX ==> !s.overflow)
            && (!s.overflow && env.limits.maxRepoBytes > 0 ==> StoredBytes(s.stored, repo) <= env.limits.maxRepoBytes)
            && (!s.overflow && env.limits.maxTotalBytes > 0 ==> Sum(s.stored) <= env.limits.maxTotalBytes)
  {
    hide Exec, Initial, StoredBytes, LockInv;
    InitialKeeps(env, s0);
    ExecKeeps(env, s0, acts);
    var s := Exec(env, s0, acts);
    if !s.overflow { SumsWithin(s.stored, s.bytes.perRepo); }
  }

  // ---- without the lock ----

  // Two lockless commits of the same manifest, side by side.
  function Race(s0: State, key: Key, bytes: Bytes, first: Phase, second: Phase): State {
    s0.(bytes := bytes, tasks := [NewTask(key, false).(phase := first), NewTask(key, false).(phase := second)])
  }

  lemma {:induction false} OneMore(env: Env, s: State, acts: seq<Action>, a: Action)
    ensures Exec(env, s, acts + [a]) == Step(env, Exec(env, s, acts), a)
    decreases |acts|
  {
    hide Step;
    if acts == [] {
      assert Exec(env, s, [a]) == Exec(env, Step(env, s, a), [a][1..]);
    } else {
      assert (acts + [a])[1..] == acts[1..] + [a];
      OneMore(env, Step(env, s, acts[0]), acts[1..], a);
    }
  }

  ghost predicate Reaches(env: Env, s0: State, s: State) {
    exists acts :: Exec(env, s0, acts) == s
  }

  lemma Onward(env: Env, s0: State, s: State, a: Action)
    requires Reaches(env, s0, s)
    ensures Reaches(env, s0, Step(env, s, a))
  {
    hide Step, Exec;
    var acts :| Exec(env, s0, acts) == s;
    OneMore(env, s0, acts, a);
  }

  lemma RaceMoves(s0: State, key: Key, b: Bytes, first: Phase, second: Phase, phase: Phase)
    ensures Goto(Race(s0, key, b, first, second), 0, NewTask(key, false).(phase := phase)) ==
            Race(s0, key, b, phase, second)
    ensures Goto(Race(s0, key, b, first, second), 1, NewTask(key, false).(phase := phase)) ==
            Race(s0, key, b, first, phase)
  {
    var x, y, z := NewTask(key, false).(phase := first), NewTask(key, false).(phase := second),
        NewTask(key, false).(phase := phase);
    assert [x, y][0 := z] == [z, y] && [x, y][1 := z] == [x, z];
  }

  lemma RaceStarts(env: Env, s0: State, key: Key)
    requires s0.tasks == []
    ensures Reaches(env, s0, Race(s0, key, s0.bytes, Fresh, Fresh))
  {
    hide RunTask;
    assert Exec(env, s0, []) == s0;
    Onward(env, s0, s0, Spawn(key, false));
    Onward(env, s0, Step(env, s0, Spawn(key, false)), Spawn(key, false));
    assert Step(env, Step(env, s0, Spawn(key, false)), Spawn(key, false)) == Race(s0, key, s0.bytes, Fresh, Fresh);
  }

  lemma RaceFindsNothing(env: Env, s0: State, key: Key)
    requires s0.tasks == [] && key !in s0.stored && TracksBytes(env.limits)
    ensures Reaches(env, s0, Race(s0, key, s0.bytes, Absent, Absent))
  {
    hide Reaches, TracksBytes;
    RaceStarts(env, s0, key);
    var b := s0.bytes;
    Onward(env, s0, Race(s0, key, b, Fresh, Fresh), Run(0, true, DropGuard));
    RaceMoves(s0, key, b, Fresh, Fresh, Entered);
    Onward(env, s0, Race(s0, key, b, Entered, Fresh), Run(0, true, DropGuard));
    RaceMoves(s0, key, b, Entered, Fresh, Absent);
    Onward(env, s0, Race(s0, key, b, Absent, Fresh), Run(1, true, DropGuard));
    RaceMoves(s0, key, b, Absent, Fresh, Entered);
    Onward(env, s0, Race(s0, key, b, Absent, Entered), Run(1, true, DropGuard));
    RaceMoves(s0, key, b, Absent, Entered, Absent);
  }

  lemma RaceCharges(env: Env, s0: State, key: Key)
    requires s0.tasks == [] && key !in s0.stored && TracksBytes(env.limits)
    requires var size := env.size(key.digest);
             && s0.bytes.total + 2 * size <= U64_MAX && !s0.overflow
             && !Refused(env, s0, key) && !Refused(env, s0.(bytes := Charge(s0.bytes, key.repo, size)), key)
    ensures var size := env.size(key.digest);
            Reaches(env, s0, Race(s0, key, Charge(Charge(s0.bytes, key.repo, size), key.repo, size), Admitted(size),
                                  Admitted(size)))
  {
    hide Reaches, TracksBytes, Over;
    RaceFindsNothing(env, s0, key);
    var size := env.size(key.digest);
    var b := Charge(s0.bytes, key.repo, size);
    Onward(env, s0, Race(s0, key, s0.bytes, Absent, Absent), Run(0, true, DropGuard));
    RaceMoves(s0, key, b, Absent, Absent, Admitted(size));
    Onward(env, s0, Race(s0, key, b, Admitted(size), Absent), Run(1, true, DropGuard));
    RaceMoves(s0, key, Charge(b, key.repo, size), Admitted(size), Absent, Admitted(size));
  }

  /** Without the lock the quota drifts: from every state with room for it, two commits of
      a manifest that is not stored yet can both be charged for the one blob they store. */
  lemma UnlockedCommitsChargeTwice(env: Env, s0: State, key: Key)
    requires Initial(env, s0) && key !in s0.stored && TracksBytes(env.limits) && env.size(key.digest) > 0
    requires var size := env.size(key.digest);
             && s0.bytes.total + 2 * size <= U64_MAX
             && !Refused(env, s0, key) && !Refused(env, s0.(bytes := Charge(s0.bytes, key.repo, size)), key)
    ensures exists s :: Reaches(env, s0, s) && Quiet(s) && !s.overflow
                        && Used(s.bytes, key.repo) == StoredBytes(s.stored, key.repo) + env.size(key.digest)
  {
    hide Reaches, TracksBytes, Over, StoredBytes, Used, Sound, Refused, Charge;
    RaceCharges(env, s0, key);
    var size := env.size(key.digest);
    var s1 := Race(s0, key, Charge(Charge(s0.bytes, key.repo, size), key.repo, size), Admitted(size), Admitted(size));
    var s2 := Step(env, s1, Run(0, true, DropGuard));
    var s3 := Step(env, s2, Run(1, true, DropGuard));
    Onward(env, s0, s1, Run(0, true, DropGuard));
    Onward(env, s0, s2, Run(1, true, DropGuard));
    assert Quiet(s3) && !s3.overflow && Excess(s3.excess, key.repo) == size;
    QuietRunIsExact(env, s0, s3, key.repo);
  }

  lemma QuietRunIsExact(env: Env, s0: State, s: State, repo: Repo)
    requires Initial(env, s0) && TracksBytes(env.limits) && Reaches(env, s0, s) && Quiet(s) && !s.overflow
    ensures Used(s.bytes, repo) == StoredBytes(s.stored, repo) + Excess(s.excess, repo)
  {
    hide Exec, Used, StoredBytes, Excess, Initial, Quiet;
    var acts :| Exec(env, s0, acts) == s;
    QuotaIsExact(env, s0, acts, repo);
  }

  // ---- a push on its own ----

  lemma GotoTwice(s: State, t: nat, a: Task, b: Task)
    requires t < |s.tasks|
    ensures Goto(Goto(s, t, a), t, b) == Goto(s, t, b)
  {
    assert s.tasks[t := a][t := b] == s.tasks[t := b];
  }

  lemma {:induction false} NobodyHolds(tasks: seq<Task>, l: LockId)
    requires forall t | 0 <= t < |tasks| :: tasks[t].handle != Some(l)
    ensures Handles(tasks, l) == 0
  {
    if tasks != [] { NobodyHolds(tasks[..|tasks| - 1], l); }
  }

  lemma {:induction false} OneHolder(tasks: seq<Task>, t: nat, l: LockId)
    requires t < |tasks| && forall u | 0 <= u < |tasks| :: tasks[u].handle == Some(l) <==> u == t
    ensures Handles(tasks, l) == 1
  {
    var n := |tasks| - 1;
    if t < n { OneHolder(tasks[..n], t, l); } else { NobodyHolds(tasks[..n], l); }
  }

  // The lock of a key nobody is pushing: taken, listed and free to enter.
  function Holding(s: State, t: nat, phase: Phase): State
    requires t < |s.tasks|
  {
    Goto(s.(locks := s.locks[s.tasks[t].key := s.next], next := s.next + 1), t,
         s.tasks[t].(handle := Some(s.next), listed := true, guard := !phase.Queued?, phase := phase))
  }

  lemma SoloEnters(env: Env, s: State, t: nat)
    requires LockInv(s) && t < |s.tasks| && s.tasks[t] == NewTask(s.tasks[t].key, true) && s.tasks[t].key !in s.locks
    ensures Reaches(env, s, Holding(s, t, Entered))
  {
    hide Reaches, Free;
    assert Exec(env, s, []) == s;
    assert Reaches(env, s, s) by { Here(env, s); }
    Onward(env, s, s, Run(t, true, DropGuard));
    var q := Holding(s, t, Queued);
    assert Step(env, s, Run(t, true, DropGuard)) == q;
    Onward(env, s, q, Run(t, true, DropGuard));
    assert Free(q.tasks, s.next) by { NewLockIsFree(s, t); }
    GotoTwice(s.(locks := q.locks, next := q.next), t, q.tasks[t], q.tasks[t].(guard := true, phase := Entered));
  }

  lemma Here(env: Env, s: State)
    ensures Reaches(env, s, s)
  {
    assert Exec(env, s, []) == s;
  }

  lemma NewLockIsFree(s: State, t: nat)
    requires LockInv(s) && t < |s.tasks|
    ensures Free(Holding(s, t, Queued).tasks, s.next)
  {
  }

  predicate HasRoom(env: Env, s: State, key: Key) {
    var size := env.size(key.digest);
    Fits(env.limits.maxRepoBytes, Used(s.bytes, key.repo), size) && Fits(env.limits.maxTotalBytes, s.bytes.total, size)
  }

  // What a push by itself is charged: nothing for a blob that is there already, or when
  // bytes are not counted. A 64-bit counter stops at its end.
  function Charged(env: Env, s: State, key: Key): (s': State)
    ensures s'.tasks == s.tasks && s'.locks == s.locks && s'.next == s.next
  {
    var size := env.size(key.digest);
    var (used, total) := (Used(s.bytes, key.repo) + size, s.bytes.total + size);
    if key in s.stored || (env.limits.maxRepoBytes == 0 && env.limits.maxTotalBytes == 0) then s
    else s.(bytes := Bytes(s.bytes.perRepo[key.repo := if used < U64_MAX then used else U64_MAX],
                           if total < U64_MAX then total else U64_MAX),
            overflow := s.overflow || total > U64_MAX)
  }

  // What a push by itself leaves behind.
  function Pushed(env: Env, s: State, key: Key): (s': State)
    ensures s'.tasks == s.tasks && s'.locks == s.locks && s'.next == s.next
  {
    if key !in s.stored && !HasRoom(env, s, key) then s
    else Charged(env, s, key).(
           stored := s.stored[key := env.size(key.digest)],
           excess := if key in s.stored then s.excess[key.repo := Excess(s.excess, key.repo)] else s.excess)
  }

  // A push that holds its lock and goes on to another phase.
  lemma HoldingMoves(s: State, s': State, t: nat, phase: Phase, phase': Phase)
    requires t < |s.tasks| && s'.tasks == s.tasks && s'.locks == s.locks && s'.next == s.next
    requires !phase.Queued? && !phase'.Queued?
    ensures var h := Holding(s, t, phase);
            Goto(s'.(locks := h.locks, next := h.next, tasks := h.tasks), t, h.tasks[t].(phase := phase')) ==
            Holding(s', t, phase')
  {
    var h := Holding(s, t, phase);
    GotoTwice(s'.(locks := h.locks, next := h.next), t, h.tasks[t], h.tasks[t].(phase := phase'));
  }

  lemma SoloLooksUp(env: Env, s: State, t: nat)
    requires LockInv(s) && t < |s.tasks| && s.tasks[t] == NewTask(s.tasks[t].key, true) && s.tasks[t].key !in s.locks
    ensures var counted := env.limits.maxRepoBytes > 0 || env.limits.maxTotalBytes > 0;
            var found := if counted && s.tasks[t].key !in s.stored then Absent else Admitted(0);
            Reaches(env, s, Holding(s, t, found))
  {
    hide Reaches, LockInv;
    SoloEnters(env, s, t);
    Onward(env, s, Holding(s, t, Entered), Run(t, true, DropGuard));
    HoldingMoves(s, s, t, Entered, Absent);
    HoldingMoves(s, s, t, Entered, Admitted(0));
  }

  lemma SoloIsCharged(env: Env, s: State, t: nat)
    requires LockInv(s) && t < |s.tasks| && s.tasks[t] == NewTask(s.tasks[t].key, true) && s.tasks[t].key !in s.locks
    requires s.tasks[t].key in s.stored || HasRoom(env, s, s.tasks[t].key)
    ensures exists n :: Reaches(env, s, Holding(Charged(env, s, s.tasks[t].key), t, Admitted(n)))
                        && (s.tasks[t].key in s.stored ==> n == 0)
  {
    hide Reaches, LockInv;
    var key := s.tasks[t].key;
    var size := env.size(key.digest);
    SoloLooksUp(env, s, t);
    if key in s.stored || (env.limits.maxRepoBytes == 0 && env.limits.maxTotalBytes == 0) {
      assert Reaches(env, s, Holding(Charged(env, s, key), t, Admitted(0)));
    } else {
      Onward(env, s, Holding(s, t, Absent), Run(t, true, DropGuard));
      HoldingMoves(s, Charged(env, s, key), t, Absent, Admitted(size));
      assert Reaches(env, s, Holding(Charged(env, s, key), t, Admitted(size)));
    }
  }

  lemma SoloIsRefused(env: Env, s: State, t: nat)
    requires LockInv(s) && t < |s.tasks| && s.tasks[t] == NewTask(s.tasks[t].key, true) && s.tasks[t].key !in s.locks
    requires s.tasks[t].key !in s.stored && !HasRoom(env, s, s.tasks[t].key)
    ensures Reaches(env, s, Holding(s, t, Finished))
  {
    hide Reaches, LockInv, Charge;
    SoloLooksUp(env, s, t);
    Onward(env, s, Holding(s, t, Absent), Run(t, true, DropGuard));
    HoldingMoves(s, s, t, Absent, Finished);
  }

  lemma SoloPublishes(env: Env, s: State, t: nat, c: State, n: nat)
    requires t < |s.tasks| && s.tasks[t] == NewTask(s.tasks[t].key, true)
    requires c == Charged(env, s, s.tasks[t].key) && Reaches(env, s, Holding(c, t, Admitted(n)))
    requires s.tasks[t].key in s.stored || HasRoom(env, s, s.tasks[t].key)
    requires s.tasks[t].key in s.stored ==> n == 0
    ensures Reaches(env, s, Holding(Pushed(env, s, s.tasks[t].key), t, Finished))
  {
    hide Reaches, HasRoom;
    assert c.stored == s.stored && c.excess == s.excess;
    hide Charged;
    var p := Pushed(env, s, s.tasks[t].key);
    Onward(env, s, Holding(c, t, Admitted(n)), Run(t, true, DropGuard));
    HoldingMoves(c, p, t, Admitted(n), Finished);
  }

  lemma SoloFinishes(env: Env, s: State, t: nat)
    requires LockInv(s) && t < |s.tasks| && s.tasks[t] == NewTask(s.tasks[t].key, true) && s.tasks[t].key !in s.locks
    ensures Reaches(env, s, Holding(Pushed(env, s, s.tasks[t].key), t, Finished))
  {
    hide Reaches, LockInv, HasRoom, Charged, Holding;
    var key := s.tasks[t].key;
    if key !in s.stored && !HasRoom(env, s, key) {
      SoloIsRefused(env, s, t);
    } else {
      SoloIsCharged(env, s, t);
      var n :| Reaches(env, s, Holding(Charged(env, s, key), t, Admitted(n))) && (key in s.stored ==> n == 0);
      SoloPublishes(env, s, t, Charged(env, s, key), n);
    }
  }

  /** A push on its own: when there is room under both caps, or the blob is there already, or
      no cap is set, it stores its blob and is charged exactly its size, once; otherwise it
      changes neither the store nor the counters. Either way it gives its lock back and
      leaves the lock map as it found it. */
  lemma SoloPush(env: Env, s: State, t: nat)
    requires LockInv(s) && t < |s.tasks| && s.tasks[t] == NewTask(s.tasks[t].key, true) && s.tasks[t].key !in s.locks
    ensures var key := s.tasks[t].key;
            Reaches(env, s, Goto(Pushed(env, s, key).(next := s.next + 1), t, NewTask(key, true).(phase := Finished)))
  {
    hide Reaches, Pushed;
    SoloFinishes(env, s, t);
    var key := s.tasks[t].key;
    var p := Pushed(env, s, key);
    var f := Holding(p, t, Finished);
    SoloForgets(env, s, t, f);
    var base := p.(next := s.next + 1);
    var r := Goto(base, t, f.tasks[t].(listed := false));
    Onward(env, s, r, Run(t, true, DropGuard));
    GotoTwice(base, t, r.tasks[t], r.tasks[t].(guard := false));
    var d := Goto(base, t, r.tasks[t].(guard := false));
    Onward(env, s, d, Run(t, true, DropHandle));
    GotoTwice(base, t, d.tasks[t], NewTask(key, true).(phase := Finished));
  }

  // Nobody else has a handle, so the map forgets the lock.
  lemma SoloForgets(env: Env, s: State, t: nat, f: State)
    requires LockInv(s) && t < |s.tasks| && s.tasks[t] == NewTask(s.tasks[t].key, true) && s.tasks[t].key !in s.locks
    requires f == Holding(Pushed(env, s, s.tasks[t].key), t, Finished) && Reaches(env, s, f)
    ensures Reaches(env, s, Goto(Pushed(env, s, s.tasks[t].key).(next := s.next + 1), t, f.tasks[t].(listed := false)))
  {
    hide Reaches, Pushed;
    var key := s.tasks[t].key;
    OneHolder(f.tasks, t, s.next);
    assert StrongCount(f, s.next) <= 2;
    Onward(env, s, f, Run(t, true, ReleaseLock));
    assert f.locks - {key} == s.locks;
    GotoTwice(Pushed(env, s, key).(next := s.next + 1), t, f.tasks[t], f.tasks[t].(listed := false));
  }
}
