// Online garbage collection next to live pushes, as a step protocol.
//
// Every shared access of a storage task is one step; any number of tasks
// interleave freely. The in-flight fence is a reader count plus a writer flag:
// tasks that depend on a blob's presence hold a pin, a sweep batch holds the
// fence exclusively. Client deletes take no fence.

module GcProtocol {
  import opened Core
  import opened Json
  import opened Metadata
  import Manifests
  import Digests

  type Time = nat

  // Most candidates a sweep handles in one exclusive section.
  const SWEEP_BATCH: nat := 256

  datatype Kind = Push | Commit | Check | Sweep | RemoveBlob | RemoveManifest

  // The tests a sweep makes on one candidate, in order.
  datatype Stage = Due | Root | Unsafe | Backref | Media | Head | Delete | Forget

  datatype Pc =
    | Start
    | Done
    // put_blob, finish_upload and mount_blob; put_manifest runs them inside its own pin
    | Outer
    | Pinned
    | Stored
    | Unreferenced
    | Loose
    | Mark(at: Time)
    | Leaving
    // put_manifest, continued
    | Verify(n: nat)
    | VerifyPinned(n: nat)
    | VerifyUnpin(n: nat)
    | VerifyHead(n: nat)
    | Clear(n: nat)
    | Release
    // blob_size and blob_exists
    | Touch
    | CheckUnpin
    | CheckHead
    // gc_sweep
    | Batch(now: Time, due: seq<Key>, lo: nat)
    | Sweeping(now: Time, due: seq<Key>, lo: nat, i: nat, stage: Stage)
    // delete_blob and delete_manifest
    | RemoveHead(refs: seq<Digest>)
    | RemoveForget(refs: seq<Digest>)
    | RemoveApply(refs: seq<Digest>)
    | RemoveMark(refs: seq<Digest>, i: nat)
    | RemoveStamp(refs: seq<Digest>, i: nat, at: Time)

  // `doc` is the manifest a task commits or removes; other tasks ignore it.
  datatype Task = Task(kind: Kind, key: Key, doc: Json, pc: Pc)

  // Fixed by configuration and by the startup consistency check.
  datatype Env = Env(roots: set<Key>, unsafeRepos: set<Repo>, ready: bool, delay: Time)

  // `committed` and `withdrawn` are history: the manifests whose commit was
  // applied and not deleted since, and the blobs a client deleted and nobody
  // stored since.
  datatype Shared = Shared(
    cas: set<Key>,
    meta: Meta,
    candidates: map<Key, Time>,
    clock: Time,
    readers: nat,
    writer: bool,
    committed: map<Key, Json>,
    withdrawn: set<Key>)

  datatype State = State(env: Env, sh: Shared, tasks: seq<Task>)

  // The outcome of one step of one task.
  datatype Move = Move(sh: Shared, pc: Pc)

  datatype Action =
    | Tick(dt: nat)
    | Spawn(task: Task)
    | Run(t: nat, ok: bool, order: seq<Key>)

  // ---- the tracker's operations on the candidate set ----

  function MarkAt(sh: Shared, k: Key, at: Time): Shared {
    sh.(candidates := sh.candidates[k := at])
  }

  function TouchNow(sh: Shared, k: Key): Shared {
    if k in sh.candidates then sh.(candidates := sh.candidates[k := sh.clock]) else sh
  }

  function Forgotten(sh: Shared, k: Key): Shared {
    sh.(candidates := sh.candidates - {k})
  }

  function SatSub(a: nat, b: nat): nat {
    if a >= b then a - b else 0
  }

  predicate IsDue(e: Env, sh: Shared, k: Key, now: Time) {
    k in sh.candidates && SatSub(now, sh.candidates[k]) >= e.delay
  }

  // ---- program steps ----

  function Pin(sh: Shared): Shared {
    sh.(readers := sh.readers + 1)
  }

  function Unpin(sh: Shared): Shared {
    sh.(readers := SatSub(sh.readers, 1))
  }

  // Take a pin, or wait while a sweep batch is inside.
  function TryPin(sh: Shared, task: Task, pc: Pc): Move {
    if sh.writer then Move(sh, task.pc) else Move(Pin(sh), pc)
  }

  function Published(sh: Shared, k: Key): Shared {
    sh.(cas := sh.cas + {k}, withdrawn := sh.withdrawn - {k})
  }

  function Collected(sh: Shared, k: Key): Shared {
    sh.(cas := sh.cas - {k})
  }

  function Withdrawn(sh: Shared, k: Key): Shared {
    sh.(cas := sh.cas - {k}, withdrawn := sh.withdrawn + {k})
  }

  function RequiredOf(doc: Json): seq<Digest> {
    if Manifests.Required(doc).Ok? then Manifests.Required(doc).value else []
  }

  function CommitOp(task: Task): MetaOp {
    PutManifest(task.key.repo, task.key.digest, "", None, Manifests.References(task.doc), None)
  }

  function Committed(sh: Shared, task: Task): Shared {
    sh.(meta := Apply(sh.meta, CommitOp(task)), committed := sh.committed[task.key := task.doc])
  }

  function Unlinked(sh: Shared, k: Key): Shared {
    sh.(meta := Apply(sh.meta, DeleteManifest(k.repo, k.digest)), committed := sh.committed - {k})
  }

  // No blob disappears and none is withdrawn.
  predicate KeepsBlobs(sh: Shared, sh': Shared) {
    sh.cas <= sh'.cas && sh'.withdrawn <= sh.withdrawn
  }

  // put_blob from its pin to the release of that pin.
  function StoreStep(sh: Shared, task: Task, ok: bool): (m: Move)
    ensures KeepsBlobs(sh, m.sh) && m.sh.meta == sh.meta
  {
    match task.pc
    case Pinned =>
      if ok then Move(Published(sh, task.key), Stored)
      else Move(Unpin(sh), if task.kind.Commit? then Release else Done)
    case Stored => Move(sh, if Backrefs(sh.meta, task.key) == {} then Unreferenced else Leaving)
    case Unreferenced => Move(sh, if IsManifest(sh.meta, task.key) then Leaving else Loose)
    case Loose => Move(sh, Mark(sh.clock))
    case Mark(at) => Move(MarkAt(sh, task.key, at), Leaving)
    case Leaving => Move(Unpin(sh), if task.kind.Commit? then Verify(0) else Done)
    case _ => Move(sh, task.pc)
  }

  function PushStep(sh: Shared, task: Task, ok: bool): (m: Move)
    ensures KeepsBlobs(sh, m.sh) && m.sh.meta == sh.meta
  {
    if task.pc.Start? then TryPin(sh, task, Pinned) else StoreStep(sh, task, ok)
  }

  // The re-check of one required blob: touch under a pin, then look.
  function VerifyStep(sh: Shared, task: Task, ok: bool): (m: Move)
    requires task.pc.Verify? || task.pc.VerifyPinned? || task.pc.VerifyUnpin? || task.pc.VerifyHead?
    ensures KeepsBlobs(sh, m.sh) && (m.sh.meta == sh.meta || m.sh.meta == Apply(sh.meta, CommitOp(task)))
  {
    var n, required := task.pc.n, RequiredOf(task.doc);
    if n >= |required| then
      if task.pc.Verify? && ok then Move(Committed(sh, task), Clear(0))
      else if task.pc.Verify? || task.pc.VerifyHead? then Move(sh, Release)
      else Move(sh, task.pc)
    else
      var k := Key(task.key.repo, required[n]);
      match task.pc
      case Verify(_) => TryPin(sh, task, VerifyPinned(n))
      case VerifyPinned(_) => Move(TouchNow(sh, k), VerifyUnpin(n))
      case VerifyUnpin(_) => Move(Unpin(sh), VerifyHead(n))
      case VerifyHead(_) => Move(sh, if ok && k in sh.cas then Verify(n + 1) else Release)
  }

  function CommitStep(sh: Shared, task: Task, ok: bool): (m: Move)
    ensures KeepsBlobs(sh, m.sh) && (m.sh.meta == sh.meta || m.sh.meta == Apply(sh.meta, CommitOp(task)))
  {
    var references := Manifests.References(task.doc);
    match task.pc
    case Start => TryPin(sh, task, Outer)
    case Outer => TryPin(sh, task, Pinned)
    case Verify(_) => VerifyStep(sh, task, ok)
    case VerifyPinned(_) => VerifyStep(sh, task, ok)
    case VerifyUnpin(_) => VerifyStep(sh, task, ok)
    case VerifyHead(_) => VerifyStep(sh, task, ok)
    // not `ok`: the record took effect, but its sync failed and the call gives up
    case Clear(n) =>
      if !ok then Move(sh, Release)
      else if n == 0 then Move(Forgotten(sh, task.key), Clear(1))
      else if n <= |references| then Move(Forgotten(sh, Key(task.key.repo, references[n - 1])), Clear(n + 1))
      else Move(sh, Release)
    case Release => Move(Unpin(sh), Done)
    case _ => StoreStep(sh, task, ok)
  }

  function CheckStep(sh: Shared, task: Task): (m: Move)
    ensures KeepsBlobs(sh, m.sh) && m.sh.meta == sh.meta
  {
    match task.pc
    case Start => TryPin(sh, task, Touch)
    case Touch => Move(TouchNow(sh, task.key), CheckUnpin)
    case CheckUnpin => Move(Unpin(sh), CheckHead)
    case CheckHead => Move(sh, Done)
    case _ => Move(sh, task.pc)
  }

  function BatchEnd(due: seq<Key>, lo: nat): nat {
    if lo + SWEEP_BATCH < |due| then lo + SWEEP_BATCH else |due|
  }

  // One test on one candidate, under the exclusive fence.
  function SweepOne(e: Env, sh: Shared, pc: Pc, ok: bool): (m: Move)
    requires pc.Sweeping? && pc.i < |pc.due|
    ensures m.sh.meta == sh.meta && m.sh.withdrawn == sh.withdrawn
    ensures m.sh.cas == sh.cas - (if pc.stage.Delete? && ok then {pc.due[pc.i]} else {})
  {
    var k := pc.due[pc.i];
    var next := pc.(i := pc.i + 1, stage := Due);
    match pc.stage
    case Due => Move(sh, if IsDue(e, sh, k, pc.now) then pc.(stage := Root) else next)
    case Root => if k in e.roots then Move(Forgotten(sh, k), next) else Move(sh, pc.(stage := Unsafe))
    case Unsafe => Move(sh, if k.repo in e.unsafeRepos then next else pc.(stage := Backref))
    case Backref =>
      if Backrefs(sh.meta, k) != {} then Move(Forgotten(sh, k), next) else Move(sh, pc.(stage := Media))
    case Media =>
      if IsManifest(sh.meta, k) then Move(Forgotten(sh, k), next) else Move(sh, pc.(stage := Head))
    case Head =>
      if !ok then Move(sh, next)
      else if !Digests.Parses(k.digest) || k !in sh.cas then Move(Forgotten(sh, k), next)
      else Move(sh, pc.(stage := Delete))
    case Delete =>
      if !ok then Move(sh, next)
      else if k in sh.cas then Move(Collected(sh, k), pc.(stage := Forget))
      else Move(Forgotten(sh, k), next)
    case Forget => Move(Forgotten(sh, k), next)
  }

  function SweepStep(e: Env, sh: Shared, task: Task, ok: bool, order: seq<Key>): (m: Move)
    ensures m.sh.meta == sh.meta && m.sh.withdrawn == sh.withdrawn
    ensures m.sh.cas == sh.cas ||
            (var pc := task.pc;
             pc.Sweeping? && pc.stage.Delete? && pc.i < |pc.due| && m.sh.cas == sh.cas - {pc.due[pc.i]})
  {
    match task.pc
    case Start =>
      if !e.ready then Move(sh, Done)
      else if Elements(order) == (set k | k in sh.candidates && IsDue(e, sh, k, sh.clock))
      then Move(sh, Batch(sh.clock, order, 0))
      else Move(sh, task.pc)
    case Batch(now, due, lo) =>
      if lo >= |due| then Move(sh, Done)
      else if sh.writer || sh.readers > 0 then Move(sh, task.pc)
      else Move(sh.(writer := true), Sweeping(now, due, lo, lo, Due))
    case Sweeping(now, due, lo, i, _) =>
      if i < BatchEnd(due, lo) then SweepOne(e, sh, task.pc, ok)
      else Move(sh.(writer := false), Batch(now, due, i))
    case _ => Move(sh, task.pc)
  }

  function RemoveStep(sh: Shared, task: Task, ok: bool): (m: Move)
    ensures m.sh.withdrawn - {task.key} <= sh.withdrawn <= m.sh.withdrawn
    ensures sh.cas - {task.key} <= m.sh.cas <= sh.cas <= m.sh.cas + m.sh.withdrawn
  {
    var k := task.key;
    match task.pc
    case Start => Move(sh, RemoveHead(if task.kind.RemoveManifest? && ok then Manifests.References(task.doc) else []))
    case RemoveHead(refs) => if ok && k in sh.cas then Move(Withdrawn(sh, k), RemoveForget(refs)) else Move(sh, Done)
    case RemoveForget(refs) => Move(Forgotten(sh, k), if task.kind.RemoveManifest? then RemoveApply(refs) else Done)
    case RemoveApply(refs) => if ok then Move(Unlinked(sh, k), RemoveMark(refs, 0)) else Move(sh, Done)
    // not `ok`: as above
    case RemoveMark(refs, i) =>
      if i >= |refs| || !ok then Move(sh, Done)
      else if Backrefs(sh.meta, Key(k.repo, refs[i])) == {} then Move(sh, RemoveStamp(refs, i, sh.clock))
      else Move(sh, RemoveMark(refs, i + 1))
    case RemoveStamp(refs, i, at) =>
      if i < |refs| then Move(MarkAt(sh, Key(k.repo, refs[i]), at), RemoveMark(refs, i + 1)) else Move(sh, task.pc)
    case _ => Move(sh, task.pc)
  }

  function TaskStep(e: Env, sh: Shared, task: Task, ok: bool, order: seq<Key>): Move {
    match task.kind
    case Push => PushStep(sh, task, ok)
    case Commit => CommitStep(sh, task, ok)
    case Check => CheckStep(sh, task)
    case Sweep => SweepStep(e, sh, task, ok, order)
    case RemoveBlob => RemoveStep(sh, task, ok)
    case RemoveManifest => RemoveStep(sh, task, ok)
  }

  // A manifest is committed only if its required descriptors are well formed.
  predicate Startable(task: Task) {
    task.pc.Start? && (task.kind.Commit? ==> Manifests.Required(task.doc).Ok?)
  }

  function After(s: State, t: nat, m: Move): State
    requires t < |s.tasks|
  {
    State(s.env, m.sh, s.tasks[t := s.tasks[t].(pc := m.pc)])
  }

  function Step(s: State, a: Action): State {
    match a
    case Tick(dt) => s.(sh := s.sh.(clock := s.sh.clock + dt))
    case Spawn(task) => if Startable(task) then s.(tasks := s.tasks + [task]) else s
    case Run(t, ok, order) =>
      if t < |s.tasks| then After(s, t, TaskStep(s.env, s.sh, s.tasks[t], ok, order)) else s
  }

  function Exec(s: State, acts: seq<Action>): State
    decreases |acts|
  {
    if acts == [] then s else Exec(Step(s, acts[0]), acts[1..])
  }

  // ---- the fence ----

  function Pins(task: Task): nat {
    match task.pc
    case Pinned => if task.kind.Commit? then 2 else 1
    case Stored => if task.kind.Commit? then 2 else 1
    case Unreferenced => if task.kind.Commit? then 2 else 1
    case Loose => if task.kind.Commit? then 2 else 1
    case Mark(_) => if task.kind.Commit? then 2 else 1
    case Leaving => if task.kind.Commit? then 2 else 1
    case Outer => 1
    case Verify(_) => 1
    case VerifyPinned(_) => 2
    case VerifyUnpin(_) => 2
    case VerifyHead(_) => 1
    case Clear(_) => 1
    case Release => 1
    case Touch => 1
    case CheckUnpin => 1
    case _ => 0
  }

  function Excl(task: Task): nat {
    if task.pc.Sweeping? then 1 else 0
  }

  function PinTotal(tasks: seq<Task>): nat {
    if tasks == [] then 0 else Pins(tasks[0]) + PinTotal(tasks[1..])
  }

  function ExclTotal(tasks: seq<Task>): nat {
    if tasks == [] then 0 else Excl(tasks[0]) + ExclTotal(tasks[1..])
  }

  // Readers are counted exactly, at most one sweep is inside, and never both.
  predicate Fenced(s: State) {
    && s.sh.readers == PinTotal(s.tasks)
    && ExclTotal(s.tasks) == (if s.sh.writer then 1 else 0)
    && (s.sh.writer ==> s.sh.readers == 0)
  }

  lemma {:induction false} TotalsUpdate(tasks: seq<Task>, t: nat, task: Task)
    requires t < |tasks|
    ensures PinTotal(tasks[t := task]) == PinTotal(tasks) - Pins(tasks[t]) + Pins(task)
    ensures ExclTotal(tasks[t := task]) == ExclTotal(tasks) - Excl(tasks[t]) + Excl(task)
    ensures Pins(tasks[t]) <= PinTotal(tasks)
    ensures Excl(tasks[t]) <= ExclTotal(tasks)
  {
    if t == 0 {
      assert tasks[t := task][1..] == tasks[1..];
    } else {
      assert tasks[t := task][1..] == tasks[1..][t - 1 := task];
      TotalsUpdate(tasks[1..], t - 1, task);
    }
  }

  lemma {:induction false} TotalsAppend(tasks: seq<Task>, task: Task)
    ensures PinTotal(tasks + [task]) == PinTotal(tasks) + Pins(task)
    ensures ExclTotal(tasks + [task]) == ExclTotal(tasks) + Excl(task)
  {
    if tasks == [] {
      assert (tasks + [task])[1..] == [];
    } else {
      assert (tasks + [task])[1..] == tasks[1..] + [task];
      TotalsAppend(tasks[1..], task);
    }
  }

  // ---- the invariant ----

  predicate Held(sh: Shared, k: Key) {
    k in sh.cas || k in sh.withdrawn
  }

  predicate Storing(pc: Pc) {
    pc.Stored? || pc.Unreferenced? || pc.Loose? || pc.Mark? || pc.Leaving?
  }

  predicate Verifying(pc: Pc) {
    pc.Verify? || pc.VerifyPinned? || pc.VerifyUnpin? || pc.VerifyHead?
  }

  // What a commit has established so far about the blobs it depends on.
  predicate CommitSound(sh: Shared, task: Task) {
    var required := RequiredOf(task.doc);
    && Manifests.Required(task.doc).Ok?
    && (Storing(task.pc) || Verifying(task.pc) ==> Held(sh, task.key))
    && (Verifying(task.pc) ==>
          && task.pc.n <= |required|
          && (!task.pc.Verify? ==> task.pc.n < |required|)
          && forall j | 0 <= j < task.pc.n :: Held(sh, Key(task.key.repo, required[j])))
  }

  // What a sweep has established about the candidate under test.
  predicate SweepSound(e: Env, sh: Shared, pc: Pc)
    requires pc.Sweeping?
  {
    && pc.lo <= pc.i <= BatchEnd(pc.due, pc.lo) <= |pc.due|
    && (!pc.stage.Due? ==> pc.i < BatchEnd(pc.due, pc.lo))
    && (pc.i < BatchEnd(pc.due, pc.lo) ==>
          var k, st := pc.due[pc.i], pc.stage;
          && (st.Unsafe? || st.Backref? || st.Media? || st.Head? || st.Delete? ==> k !in e.roots)
          && (st.Backref? || st.Media? || st.Head? || st.Delete? ==> k.repo !in e.unsafeRepos)
          && (st.Media? || st.Head? || st.Delete? ==> Backrefs(sh.meta, k) == {})
          && (st.Head? || st.Delete? ==> !IsManifest(sh.meta, k)))
  }

  // Which program each position belongs to.
  predicate Placed(task: Task) {
    match task.pc
    case Start => true
    case Done => true
    case Outer => task.kind.Commit?
    case Pinned => task.kind.Push? || task.kind.Commit?
    case Stored => task.kind.Push? || task.kind.Commit?
    case Unreferenced => task.kind.Push? || task.kind.Commit?
    case Loose => task.kind.Push? || task.kind.Commit?
    case Mark(_) => task.kind.Push? || task.kind.Commit?
    case Leaving => task.kind.Push? || task.kind.Commit?
    case Verify(_) => task.kind.Commit?
    case VerifyPinned(_) => task.kind.Commit?
    case VerifyUnpin(_) => task.kind.Commit?
    case VerifyHead(_) => task.kind.Commit?
    case Clear(_) => task.kind.Commit?
    case Release => task.kind.Commit?
    case Touch => task.kind.Check?
    case CheckUnpin => task.kind.Check?
    case CheckHead => task.kind.Check?
    case Batch(_, _, _) => task.kind.Sweep?
    case Sweeping(_, _, _, _, _) => task.kind.Sweep?
    case _ => task.kind.RemoveBlob? || task.kind.RemoveManifest?
  }

  predicate TaskSound(e: Env, sh: Shared, task: Task) {
    && Placed(task)
    && (task.kind.Commit? ==> CommitSound(sh, task))
    && (task.pc.Sweeping? ==> SweepSound(e, sh, task.pc))
    && (task.pc.Batch? || task.pc.Sweeping? ==> task.pc.now <= sh.clock)
  }

  // A committed manifest is recorded, referenced from everything it refers to,
  // and stored together with everything it requires.
  predicate CommitKept(sh: Shared, k: Key, doc: Json) {
    && Manifests.Required(doc).Ok?
    && IsManifest(sh.meta, k)
    && (forall r | r in Manifests.References(doc) :: k.digest in Backrefs(sh.meta, Key(k.repo, r)))
    && Held(sh, k)
    && (forall r | r in RequiredOf(doc) :: Held(sh, Key(k.repo, r)))
  }

  predicate CommitsKept(sh: Shared) {
    forall k | k in sh.committed :: CommitKept(sh, k, sh.committed[k])
  }

  predicate Inv(s: State) {
    && Fenced(s)
    && (forall t | 0 <= t < |s.tasks| :: TaskSound(s.env, s.sh, s.tasks[t]))
    && CommitsKept(s.sh)
  }

  // ---- one step of one task ----

  // What the invariant says to the task that moves next.
  predicate Local(e: Env, sh: Shared, task: Task) {
    && TaskSound(e, sh, task)
    && CommitsKept(sh)
    && Pins(task) <= sh.readers
    && (sh.writer ==> sh.readers == 0)
    && (Excl(task) > 0 ==> sh.writer)
  }

  predicate FenceMove(sh: Shared, task: Task, m: Move) {
    var next := task.(pc := m.pc);
    && m.sh.readers == sh.readers - Pins(task) + Pins(next)
    && (m.sh.writer <==> if Excl(next) == Excl(task) then sh.writer else Excl(next) > Excl(task))
    && (Pins(next) > Pins(task) ==> !sh.writer)
    && (Excl(next) > Excl(task) ==> !sh.writer && sh.readers == 0)
  }

  // Every other task's knowledge survives: blobs disappear without being
  // withdrawn only under the exclusive fence, and metadata gains protection only
  // under a pin.
  ghost predicate Harmless(sh: Shared, task: Task, sh': Shared) {
    && sh.clock <= sh'.clock
    && (Excl(task) == 0 ==> forall k | Held(sh, k) :: Held(sh', k))
    && (Pins(task) == 0 ==>
          && (forall k :: Backrefs(sh'.meta, k) <= Backrefs(sh.meta, k))
          && (forall k | IsManifest(sh'.meta, k) :: IsManifest(sh.meta, k)))
  }

  ghost predicate Good(e: Env, sh: Shared, task: Task, m: Move) {
    && FenceMove(sh, task, m)
    && Harmless(sh, task, m.sh)
    && TaskSound(e, m.sh, task.(pc := m.pc))
    && CommitsKept(m.sh)
  }

  // Same blobs, same metadata.
  predicate Quiet(sh: Shared, sh': Shared) {
    && sh'.cas == sh.cas && sh'.withdrawn == sh.withdrawn
    && sh'.meta == sh.meta && sh'.committed == sh.committed && sh'.clock == sh.clock
  }

  lemma QuietGood(e: Env, sh: Shared, task: Task, m: Move)
    requires Local(e, sh, task) && Quiet(sh, m.sh)
    requires FenceMove(sh, task, m) && TaskSound(e, sh, task.(pc := m.pc))
    ensures Good(e, sh, task, m)
  {
    forall k | k in m.sh.committed ensures CommitKept(m.sh, k, m.sh.committed[k]) {
      assert CommitKept(sh, k, sh.committed[k]);
    }
  }

  lemma PublishGood(e: Env, sh: Shared, task: Task)
    requires Local(e, sh, task) && task.pc.Pinned?
    ensures Good(e, sh, task, Move(Published(sh, task.key), Stored))
  {
    var sh' := Published(sh, task.key);
    forall k | k in sh'.committed ensures CommitKept(sh', k, sh'.committed[k]) {
      assert CommitKept(sh, k, sh.committed[k]);
    }
  }

  lemma StoreGood(e: Env, sh: Shared, task: Task, ok: bool)
    requires Local(e, sh, task) && (task.kind.Push? || task.kind.Commit?)
    ensures Good(e, sh, task, StoreStep(sh, task, ok))
  {
    hide Good, CommitsKept, Backrefs, IsManifest;
    if task.pc.Pinned? && ok {
      PublishGood(e, sh, task);
    } else {
      QuietGood(e, sh, task, StoreStep(sh, task, ok));
    }
  }

  lemma PushGood(e: Env, sh: Shared, task: Task, ok: bool)
    requires Local(e, sh, task) && task.kind.Push?
    ensures Good(e, sh, task, PushStep(sh, task, ok))
  {
    if task.pc.Start? {
      QuietGood(e, sh, task, TryPin(sh, task, Pinned));
    } else {
      StoreGood(e, sh, task, ok);
    }
  }

  lemma CheckGood(e: Env, sh: Shared, task: Task)
    requires Local(e, sh, task) && task.kind.Check?
    ensures Good(e, sh, task, CheckStep(sh, task))
  {
    hide Good, CommitsKept;
    QuietGood(e, sh, task, CheckStep(sh, task));
  }

  // The commit point: everything required was seen, and is held, under one pin.
  lemma CommitEstablished(sh: Shared, task: Task)
    requires CommitSound(sh, task) && task.pc.Verify? && task.pc.n == |RequiredOf(task.doc)|
    ensures CommitKept(Committed(sh, task), task.key, task.doc)
  {
    var sh', k := Committed(sh, task), task.key;
    ManifestsAfter(sh.meta, CommitOp(task), k);
    forall r | r in Manifests.References(task.doc) ensures k.digest in Backrefs(sh'.meta, Key(k.repo, r)) {
      BackrefsAfter(sh.meta, CommitOp(task), Key(k.repo, r));
    }
  }

  lemma CommitKeepsOther(sh: Shared, task: Task, c: Key, doc: Json)
    requires CommitKept(sh, c, doc)
    ensures CommitKept(Committed(sh, task), c, doc)
  {
    var sh' := Committed(sh, task);
    ManifestsAfter(sh.meta, CommitOp(task), c);
    forall r | r in Manifests.References(doc) ensures c.digest in Backrefs(sh'.meta, Key(c.repo, r)) {
      BackrefsAfter(sh.meta, CommitOp(task), Key(c.repo, r));
    }
    forall r | r in RequiredOf(doc) ensures Held(sh', Key(c.repo, r)) { assert Held(sh, Key(c.repo, r)); }
  }

  lemma CommitPointGood(e: Env, sh: Shared, task: Task)
    requires Local(e, sh, task) && task.pc.Verify? && task.pc.n == |RequiredOf(task.doc)|
    ensures Good(e, sh, task, Move(Committed(sh, task), Clear(0)))
  {
    var sh' := Committed(sh, task);
    forall k | k in sh'.committed ensures CommitKept(sh', k, sh'.committed[k]) {
      if k == task.key { CommitEstablished(sh, task); } else { CommitKeepsOther(sh, task, k, sh.committed[k]); }
    }
  }

  // The re-check of one required blob only records what it saw.
  lemma RecheckHeadGood(e: Env, sh: Shared, task: Task, ok: bool)
    requires Local(e, sh, task) && task.pc.VerifyHead? && task.pc.n < |RequiredOf(task.doc)|
    ensures Good(e, sh, task, VerifyStep(sh, task, ok))
  {
    hide Good, CommitsKept, Backrefs, IsManifest, RequiredOf;
    QuietGood(e, sh, task, VerifyStep(sh, task, ok));
  }

  lemma RecheckGood(e: Env, sh: Shared, task: Task, ok: bool)
    requires Local(e, sh, task) && Verifying(task.pc) && task.pc.n < |RequiredOf(task.doc)|
    ensures Good(e, sh, task, VerifyStep(sh, task, ok))
  {
    hide Good, CommitsKept, Backrefs, IsManifest, RequiredOf;
    var n, k := task.pc.n, Key(task.key.repo, RequiredOf(task.doc)[task.pc.n]);
    match task.pc {
      case Verify(_) => QuietGood(e, sh, task, TryPin(sh, task, VerifyPinned(n)));
      case VerifyPinned(_) => QuietGood(e, sh, task, Move(TouchNow(sh, k), VerifyUnpin(n)));
      case VerifyUnpin(_) => QuietGood(e, sh, task, Move(Unpin(sh), VerifyHead(n)));
      case VerifyHead(_) => RecheckHeadGood(e, sh, task, ok);
    }
  }

  lemma VerifyGood(e: Env, sh: Shared, task: Task, ok: bool)
    requires Local(e, sh, task) && Verifying(task.pc)
    ensures Good(e, sh, task, VerifyStep(sh, task, ok))
  {
    hide Good, CommitsKept;
    if task.pc.n < |RequiredOf(task.doc)| {
      RecheckGood(e, sh, task, ok);
    } else if ok {
      CommitPointGood(e, sh, task);
    } else {
      QuietGood(e, sh, task, Move(sh, Release));
    }
  }

  lemma CommitEdgeGood(e: Env, sh: Shared, task: Task, ok: bool)
    requires Local(e, sh, task) && task.kind.Commit?
    requires task.pc.Start? || task.pc.Outer? || task.pc.Clear? || task.pc.Release?
    ensures Good(e, sh, task, CommitStep(sh, task, ok))
  {
    hide Good, CommitsKept, StoreStep, VerifyStep, Manifests.References;
    QuietGood(e, sh, task, CommitStep(sh, task, ok));
  }

  lemma CommitGood(e: Env, sh: Shared, task: Task, ok: bool)
    requires Local(e, sh, task) && task.kind.Commit?
    ensures Good(e, sh, task, CommitStep(sh, task, ok))
  {
    hide Good, Local, StoreStep, VerifyStep;
    if task.pc.Start? || task.pc.Outer? || task.pc.Clear? || task.pc.Release? {
      CommitEdgeGood(e, sh, task, ok);
    } else if Verifying(task.pc) {
      VerifyGood(e, sh, task, ok);
    } else {
      StoreGood(e, sh, task, ok);
    }
  }

  // The deletion itself: a candidate that passed every test protects nothing.
  lemma CollectKeeps(sh: Shared, k: Key, c: Key)
    requires c in sh.committed && CommitKept(sh, c, sh.committed[c])
    requires Backrefs(sh.meta, k) == {} && !IsManifest(sh.meta, k)
    ensures CommitKept(Collected(sh, k), c, sh.committed[c])
  {
    Manifests.RequiredAreReferences(sh.committed[c]);
    forall r | r in RequiredOf(sh.committed[c]) ensures Held(Collected(sh, k), Key(c.repo, r)) {
      assert Held(sh, Key(c.repo, r));
      assert c.digest in Backrefs(sh.meta, Key(c.repo, r));
    }
  }

  lemma CollectGood(e: Env, sh: Shared, task: Task)
    requires Local(e, sh, task) && task.pc.Sweeping? && task.pc.stage.Delete?
    ensures Good(e, sh, task, Move(Collected(sh, task.pc.due[task.pc.i]), task.pc.(stage := Forget)))
  {
    var k := task.pc.due[task.pc.i];
    var sh' := Collected(sh, k);
    forall c | c in sh'.committed ensures CommitKept(sh', c, sh'.committed[c]) {
      CollectKeeps(sh, k, c);
    }
  }

  lemma SweepOneGood(e: Env, sh: Shared, task: Task, ok: bool)
    requires Local(e, sh, task) && task.pc.Sweeping? && task.pc.i < BatchEnd(task.pc.due, task.pc.lo)
    ensures Good(e, sh, task, SweepOne(e, sh, task.pc, ok))
  {
    hide Good, CommitsKept, Backrefs, IsManifest, IsDue, Digests.Parses;
    var m := SweepOne(e, sh, task.pc, ok);
    match task.pc.stage {
      case Delete =>
        if ok && task.pc.due[task.pc.i] in sh.cas { CollectGood(e, sh, task); } else { QuietGood(e, sh, task, m); }
      case Head => QuietGood(e, sh, task, m);
      case _ => QuietGood(e, sh, task, m);
    }
  }

  lemma SweepGood(e: Env, sh: Shared, task: Task, ok: bool, order: seq<Key>)
    requires Local(e, sh, task) && task.kind.Sweep?
    ensures Good(e, sh, task, SweepStep(e, sh, task, ok, order))
  {
    hide Good, CommitsKept, SweepOne;
    if task.pc.Sweeping? && task.pc.i < BatchEnd(task.pc.due, task.pc.lo) {
      SweepOneGood(e, sh, task, ok);
    } else {
      QuietGood(e, sh, task, SweepStep(e, sh, task, ok, order));
    }
  }

  // A client's delete withdraws protection from exactly the blob it names.
  lemma WithdrawGood(e: Env, sh: Shared, task: Task)
    requires Local(e, sh, task) && task.pc.RemoveHead?
    ensures Good(e, sh, task, Move(Withdrawn(sh, task.key), RemoveForget(task.pc.refs)))
  {
    var sh' := Withdrawn(sh, task.key);
    forall c | c in sh'.committed ensures CommitKept(sh', c, sh'.committed[c]) {
      assert CommitKept(sh, c, sh.committed[c]);
    }
  }

  lemma UnlinkKeeps(sh: Shared, k: Key, c: Key)
    requires c in sh.committed && c != k && CommitKept(sh, c, sh.committed[c])
    ensures CommitKept(Unlinked(sh, k), c, sh.committed[c])
  {
    var sh', op := Unlinked(sh, k), DeleteManifest(k.repo, k.digest);
    ManifestsAfter(sh.meta, op, c);
    forall r | r in Manifests.References(sh.committed[c]) ensures c.digest in Backrefs(sh'.meta, Key(c.repo, r)) {
      BackrefsAfter(sh.meta, op, Key(c.repo, r));
    }
    forall r | r in RequiredOf(sh.committed[c]) ensures Held(sh', Key(c.repo, r)) { assert Held(sh, Key(c.repo, r)); }
  }

  lemma UnlinkGood(e: Env, sh: Shared, task: Task)
    requires Local(e, sh, task) && task.pc.RemoveApply?
    ensures Good(e, sh, task, Move(Unlinked(sh, task.key), RemoveMark(task.pc.refs, 0)))
  {
    var k := task.key;
    var sh' := Unlinked(sh, k);
    forall x ensures Backrefs(sh'.meta, x) <= Backrefs(sh.meta, x) {
      BackrefsAfter(sh.meta, DeleteManifest(k.repo, k.digest), x);
    }
    forall x | IsManifest(sh'.meta, x) ensures IsManifest(sh.meta, x) {
      ManifestsAfter(sh.meta, DeleteManifest(k.repo, k.digest), x);
    }
    forall c | c in sh'.committed ensures CommitKept(sh', c, sh'.committed[c]) {
      UnlinkKeeps(sh, k, c);
    }
  }

  predicate Removing(pc: Pc) {
    pc.RemoveHead? || pc.RemoveForget? || pc.RemoveApply? || pc.RemoveMark? || pc.RemoveStamp?
  }

  lemma RemoveQuietGood(e: Env, sh: Shared, task: Task, m: Move)
    requires Local(e, sh, task) && (task.kind.RemoveBlob? || task.kind.RemoveManifest?)
    requires Quiet(sh, m.sh) && m.sh.readers == sh.readers && m.sh.writer == sh.writer
    requires m.pc == task.pc || m.pc.Done? || Removing(m.pc)
    ensures Good(e, sh, task, m)
  {
    hide Good, CommitsKept;
    QuietGood(e, sh, task, m);
  }

  lemma RemoveGood(e: Env, sh: Shared, task: Task, ok: bool)
    requires Local(e, sh, task) && (task.kind.RemoveBlob? || task.kind.RemoveManifest?)
    ensures Good(e, sh, task, RemoveStep(sh, task, ok))
  {
    hide Good, Local, Backrefs, Manifests.References, Apply, IsManifest;
    if task.pc.RemoveHead? && ok && task.key in sh.cas {
      WithdrawGood(e, sh, task);
    } else if task.pc.RemoveApply? && ok {
      UnlinkGood(e, sh, task);
    } else {
      RemoveQuietGood(e, sh, task, RemoveStep(sh, task, ok));
    }
  }

  lemma TaskGood(e: Env, sh: Shared, task: Task, ok: bool, order: seq<Key>)
    requires Local(e, sh, task)
    ensures Good(e, sh, task, TaskStep(e, sh, task, ok, order))
  {
    hide Good, Local, PushStep, CommitStep, CheckStep, SweepStep, RemoveStep;
    match task.kind {
      case Push => PushGood(e, sh, task, ok);
      case Commit => CommitGood(e, sh, task, ok);
      case Check => CheckGood(e, sh, task);
      case Sweep => SweepGood(e, sh, task, ok, order);
      case RemoveBlob => RemoveGood(e, sh, task, ok);
      case RemoveManifest => RemoveGood(e, sh, task, ok);
    }
  }

  // ---- every step of every run ----

  lemma OtherKept(e: Env, sh: Shared, task: Task, sh': Shared, other: Task)
    requires TaskSound(e, sh, other) && Harmless(sh, task, sh')
    requires Excl(task) > 0 ==> Pins(other) == 0
    requires Pins(task) > 0 ==> Excl(other) == 0
    ensures TaskSound(e, sh', other)
  {
  }

  lemma MoveKeepsInv(s: State, t: nat, m: Move)
    requires Inv(s) && t < |s.tasks| && Good(s.env, s.sh, s.tasks[t], m)
    ensures Inv(After(s, t, m))
  {
    var s', next := After(s, t, m), s.tasks[t].(pc := m.pc);
    TotalsUpdate(s.tasks, t, next);
    forall u | 0 <= u < |s'.tasks| ensures TaskSound(s'.env, s'.sh, s'.tasks[u]) {
      if u != t {
        TotalsUpdate(s.tasks, u, s.tasks[u]);
        OtherKept(s.env, s.sh, s.tasks[t], m.sh, s.tasks[u]);
      }
    }
  }

  // Every step of every task, in any state, keeps the invariant.
  lemma StepKeepsInv(s: State, a: Action)
    requires Inv(s)
    ensures Inv(Step(s, a))
  {
    match a {
      case Tick(dt) =>
        var s' := Step(s, a);
        forall k | k in s'.sh.committed ensures CommitKept(s'.sh, k, s'.sh.committed[k]) {
          assert CommitKept(s.sh, k, s.sh.committed[k]);
        }
        forall t | 0 <= t < |s'.tasks| ensures TaskSound(s'.env, s'.sh, s'.tasks[t]) {
          assert TaskSound(s.env, s.sh, s.tasks[t]);
        }
      case Spawn(task) => TotalsAppend(s.tasks, task);
      case Run(t, ok, order) =>
        if t < |s.tasks| {
          TotalsUpdate(s.tasks, t, s.tasks[t]);
          TaskGood(s.env, s.sh, s.tasks[t], ok, order);
          MoveKeepsInv(s, t, TaskStep(s.env, s.sh, s.tasks[t], ok, order));
        }
    }
  }

  lemma {:induction false} ExecKeepsInv(s: State, acts: seq<Action>)
    requires Inv(s)
    ensures Inv(Exec(s, acts))
    decreases |acts|
  {
    if acts != [] {
      StepKeepsInv(s, acts[0]);
      ExecKeepsInv(Step(s, acts[0]), acts[1..]);
    }
  }
}
