// index.json is written behind the metadata: mutators mark the repository dirty
// before and after their change, one background flusher rewrites dirty files, and
// readers derive the current view in memory while a repository is dirty.
//
// Marks, changes, file accesses and the flusher's snapshot and clear are one step each.
// The metadata reads of one rebuild are two steps, the known manifests with their media
// types first, tags and referrers later, so a change can fall between.

module WriteBehind {
  import opened Core
  import opened Json
  import opened Metadata
  import opened Layout
  import IndexFile

  // A derived index: the file, the metadata it was derived from, and how many
  // operations the two reads of the metadata had seen.
  datatype View = View(index: Json, rs: RepoState, lo: nat, hi: nat)

  datatype MutatorPc = MStart | MMarked | MApplied | MReturned

  // `floor` remembers which operations had been acknowledged when the read began.
  datatype ReaderPc =
    | RStart
    | RClean(floor: set<nat>)
    | RDirty(floor: set<nat>)
    | RExisting(floor: set<nat>, existing: Option<Json>)
    | RHalf(floor: set<nat>, existing: Option<Json>, lo: nat)
    | RDone(floor: set<nat>, view: View)

  datatype Task =
    | Mutator(op: MetaOp, mpc: MutatorPc)
    | Reader(repo: Repo, rpc: ReaderPc)

  datatype Item = Item(repo: Repo, generation: nat)

  datatype Phase =
    | Begin
    | Existing(existing: Option<Json>)
    | Half(existing: Option<Json>, lo: nat)
    | Built(view: View)
    | Written

  // The flusher works on the head of its snapshot of the dirty map.
  datatype Flusher = Idle | Working(todo: seq<Item>, phase: Phase)

  datatype Entry = Entry(op: MetaOp, who: nat)

  // `log` is history: the operations applied since the start, over the metadata `base`.
  datatype State = State(
    base: Meta,
    log: seq<Entry>,
    meta: Meta,
    dirty: map<Repo, nat>,
    disk: map<Repo, View>,
    tasks: seq<Task>,
    flusher: Flusher)

  datatype Action =
    | Spawn(task: Task)
    | Run(t: nat, ok: bool, index: Json)
    | Flush(ok: bool, index: Json, order: seq<Item>)

  function MetaAt(base: Meta, log: seq<Entry>, n: nat): Meta
    requires n <= |log|
  {
    if n == 0 then base else Apply(MetaAt(base, log, n - 1), log[n - 1].op)
  }

  // The metadata of a repository as two reads at different times put it together.
  function TwoReads(first: RepoState, second: RepoState): RepoState {
    second.(mediaTypes := first.mediaTypes)
  }

  ghost predicate IsRebuild(rs: RepoState, existing: Option<Json>, index: Json) {
    exists via: Via, tags: seq<Tag>, plain: seq<Digest> ::
      Walks(rs, via) && InOrder(rs, tags, plain) && index == Rebuilt(rs, via, existing, tags, plain)
  }

  // A file that is up to date: it lists the same descriptors as some rebuild of `rs`.
  ghost predicate Describes(rs: RepoState, index: Json) {
    exists existing, rebuilt :: IsRebuild(rs, existing, rebuilt) && SameManifestSet(rebuilt, index)
  }

  lemma RebuildDescribes(rs: RepoState, existing: Option<Json>, index: Json)
    requires IsRebuild(rs, existing, index)
    ensures Describes(rs, index)
  {
    hide IsRebuild;
    assert SameManifestSet(index, index);
  }

  function Generation(s: State, repo: Repo): nat {
    if repo in s.dirty then s.dirty[repo] else 0
  }

  function Marked(s: State, repo: Repo): State {
    s.(dirty := s.dirty[repo := Generation(s, repo) + 1])
  }

  // Reading a file that does not exist yields the empty index.
  const EMPTY_INDEX := Obj(map[FSchemaVersion := Number(2), FMediaType := Text(MEDIA_TYPE_INDEX),
                               FManifests := Array([])])

  function OnDisk(s: State, repo: Repo): View {
    if repo in s.disk then s.disk[repo] else View(EMPTY_INDEX, EmptyRepo, 0, 0)
  }

  function DiskIndex(s: State, repo: Repo): Option<Json> {
    if repo in s.disk then Some(s.disk[repo].index) else None
  }

  predicate Returned(s: State, i: nat)
    requires i < |s.log|
  {
    var t := s.log[i].who;
    t < |s.tasks| && s.tasks[t].Mutator? && s.tasks[t].mpc.MReturned?
  }

  // The operations on `repo` whose callers have their answer.
  function Acknowledged(s: State, repo: Repo): set<nat> {
    set i | 0 <= i < |s.log| && s.log[i].op.repo == repo && Returned(s, i)
  }

  // The second read of the metadata, and the derived view.
  ghost function Derive(s: State, repo: Repo, lo: nat, index: Json): View
    requires lo <= |s.log|
  {
    View(index, TwoReads(RepoOf(MetaAt(s.base, s.log, lo), repo), RepoOf(s.meta, repo)), lo, |s.log|)
  }

  // ---- steps ----

  function Goto(s: State, t: nat, task: Task): State
    requires t < |s.tasks|
  {
    s.(tasks := s.tasks[t := task])
  }

  function MutatorStep(s: State, t: nat, ok: bool): State
    requires t < |s.tasks| && s.tasks[t].Mutator?
  {
    var task := s.tasks[t];
    var repo := task.op.repo;
    match task.mpc
    case MStart => Goto(Marked(s, repo), t, task.(mpc := MMarked))
    case MMarked =>
      var s1 := if ok then s.(meta := Apply(s.meta, task.op), log := s.log + [Entry(task.op, t)]) else s;
      Goto(s1, t, task.(mpc := MApplied))
    case MApplied => Goto(Marked(s, repo), t, task.(mpc := MReturned))
    case MReturned => s
  }

  ghost function ReaderStep(s: State, t: nat, index: Json): State
    requires t < |s.tasks| && s.tasks[t].Reader?
  {
    var task := s.tasks[t];
    var repo := task.repo;
    match task.rpc
    case RStart =>
      var floor := Acknowledged(s, repo);
      Goto(s, t, task.(rpc := if repo in s.dirty then RDirty(floor) else RClean(floor)))
    case RClean(floor) => Goto(s, t, task.(rpc := RDone(floor, OnDisk(s, repo))))
    case RDirty(floor) => Goto(s, t, task.(rpc := RExisting(floor, DiskIndex(s, repo))))
    case RExisting(floor, existing) => Goto(s, t, task.(rpc := RHalf(floor, existing, |s.log|)))
    case RHalf(floor, existing, lo) =>
      if lo <= |s.log| && IsRebuild(Derive(s, repo, lo, index).rs, existing, index)
      then Goto(s, t, task.(rpc := RDone(floor, Derive(s, repo, lo, index))))
      else s
    case RDone(_, _) => s
  }

  // The dirty map as a list of pairs, in any order.
  predicate Snapshots(dirty: map<Repo, nat>, order: seq<Item>) {
    && (forall i | 0 <= i < |order| :: order[i].repo in dirty && dirty[order[i].repo] == order[i].generation)
    && (forall i, j | 0 <= i < j < |order| :: order[i].repo != order[j].repo)
    && (forall r | r in dirty :: exists i :: 0 <= i < |order| && order[i].repo == r)
  }

  lemma SomeSnapshot(dirty: map<Repo, nat>) returns (order: seq<Item>)
    ensures Snapshots(dirty, order)
  {
    var repos := SomeOrder(dirty.Keys);
    forall i | 0 <= i < |repos| ensures repos[i] in dirty { assert repos[i] in Elements(repos); }
    order := seq(|repos|, i requires 0 <= i < |repos| => Item(repos[i], dirty[repos[i]]));
    forall i, j | 0 <= i < j < |order| ensures order[i].repo != order[j].repo {
      ListsDistinct(repos, dirty.Keys, i, j);
    }
    forall r | r in dirty ensures exists i :: 0 <= i < |order| && order[i].repo == r {
      assert r in Elements(repos);
      var i :| 0 <= i < |repos| && repos[i] == r;
      assert order[i].repo == r;
    }
  }

  function Skip(s: State): State
    requires s.flusher.Working? && s.flusher.todo != []
  {
    s.(flusher := Working(s.flusher.todo[1..], Begin))
  }

  ghost function FlushStep(s: State, ok: bool, index: Json, order: seq<Item>): State {
    match s.flusher
    case Idle => if Snapshots(s.dirty, order) then s.(flusher := Working(order, Begin)) else s
    case Working(todo, phase) =>
      if todo == [] then s.(flusher := Idle)
      else
        var repo := todo[0].repo;
        match phase
        case Begin => if ok then s.(flusher := Working(todo, Existing(DiskIndex(s, repo)))) else Skip(s)
        case Existing(existing) => s.(flusher := Working(todo, Half(existing, |s.log|)))
        case Half(existing, lo) =>
          if lo <= |s.log| && IsRebuild(Derive(s, repo, lo, index).rs, existing, index)
          then s.(flusher := Working(todo, Built(Derive(s, repo, lo, index))))
          else s
        case Built(view) =>
          if ok then s.(disk := s.disk[repo := view], flusher := Working(todo, Written)) else Skip(s)
        case Written =>
          var s1 := if repo in s.dirty && s.dirty[repo] == todo[0].generation then s.(dirty := s.dirty - {repo}) else s;
          Skip(s1)
  }

  predicate Startable(task: Task) {
    (task.Mutator? && task.mpc.MStart?) || (task.Reader? && task.rpc.RStart?)
  }

  ghost function Step(s: State, a: Action): State {
    match a
    case Spawn(task) => if Startable(task) then s.(tasks := s.tasks + [task]) else s
    case Run(t, ok, index) =>
      if t >= |s.tasks| then s
      else if s.tasks[t].Mutator? then MutatorStep(s, t, ok)
      else ReaderStep(s, t, index)
    case Flush(ok, index, order) => FlushStep(s, ok, index, order)
  }

  ghost function Exec(s: State, acts: seq<Action>): State
    decreases |acts|
  {
    if acts == [] then s else Exec(Step(s, acts[0]), acts[1..])
  }

  // ---- the invariant ----

  // The view was rebuilt from metadata that had seen its first `lo` and `hi` operations.
  ghost predicate ViewSound(s: State, repo: Repo, v: View) {
    && v.lo <= v.hi <= |s.log|
    && v.rs == TwoReads(RepoOf(MetaAt(s.base, s.log, v.lo), repo), RepoOf(MetaAt(s.base, s.log, v.hi), repo))
    && Describes(v.rs, v.index)
  }

  // Every operation on `repo` a view has missed is one whose caller still waits.
  predicate MissesOnlyPending(s: State, repo: Repo, lo: nat) {
    forall i | lo <= i < |s.log| && s.log[i].op.repo == repo :: !Returned(s, i)
  }

  // A clean repository has a sound file that misses nothing acknowledged.
  ghost predicate CleanSound(s: State, repo: Repo) {
    repo in s.dirty ||
    (ViewSound(s, repo, OnDisk(s, repo)) && MissesOnlyPending(s, repo, OnDisk(s, repo).lo))
  }

  predicate FloorBelow(s: State, floor: set<nat>, n: nat) {
    forall i | i in floor :: i < n
  }

  ghost predicate ReaderSound(s: State, repo: Repo, pc: ReaderPc) {
    match pc
    case RStart => true
    case RClean(floor) => FloorBelow(s, floor, OnDisk(s, repo).lo) && ViewSound(s, repo, OnDisk(s, repo))
    case RDirty(floor) => FloorBelow(s, floor, |s.log|)
    case RExisting(floor, _) => FloorBelow(s, floor, |s.log|)
    case RHalf(floor, _, lo) => FloorBelow(s, floor, lo) && lo <= |s.log|
    case RDone(floor, view) => FloorBelow(s, floor, view.lo) && ViewSound(s, repo, view)
  }

  // What the flusher may rely on for the repository it is rewriting: as long as its
  // generation is current, it has missed nothing acknowledged.
  ghost predicate FlusherSound(s: State) {
    s.flusher.Working? ==>
      var todo, phase := s.flusher.todo, s.flusher.phase;
      && (forall i | 0 <= i < |todo| :: todo[i].generation <= Generation(s, todo[i].repo) && todo[i].repo in s.dirty)
      && (forall i, j | 0 <= i < j < |todo| :: todo[i].repo != todo[j].repo)
      && (todo != [] ==>
            var repo, current := todo[0].repo, Generation(s, todo[0].repo) == todo[0].generation;
            match phase
            case Begin => true
            case Existing(_) => true
            case Half(_, lo) => OnDisk(s, repo).lo <= lo <= |s.log| && (current ==> MissesOnlyPending(s, repo, lo))
            case Built(view) =>
              OnDisk(s, repo).lo <= view.lo && ViewSound(s, repo, view) &&
                (current ==> MissesOnlyPending(s, repo, view.lo))
            case Written =>
              ViewSound(s, repo, OnDisk(s, repo)) && (current ==> MissesOnlyPending(s, repo, OnDisk(s, repo).lo)))
  }

  predicate LogSound(s: State) {
    && s.meta == MetaAt(s.base, s.log, |s.log|)
    && (forall i | 0 <= i < |s.log| :: s.log[i].who < |s.tasks| && s.tasks[s.log[i].who].Mutator?
          && (s.tasks[s.log[i].who].mpc.MApplied? || s.tasks[s.log[i].who].mpc.MReturned?)
          && s.tasks[s.log[i].who].op == s.log[i].op)
  }

  ghost predicate DiskSound(s: State) {
    (forall repo :: CleanSound(s, repo)) && (forall repo | repo in s.disk :: s.disk[repo].lo <= |s.log|)
  }

  ghost predicate ReadersSound(s: State) {
    forall t | 0 <= t < |s.tasks| && s.tasks[t].Reader? :: ReaderSound(s, s.tasks[t].repo, s.tasks[t].rpc)
  }

  ghost predicate Inv(s: State) {
    LogSound(s) && DiskSound(s) && ReadersSound(s) && FlusherSound(s)
  }

  // ---- history only grows ----

  ghost predicate Grows(s: State, s': State) {
    s'.base == s.base && s.log <= s'.log
  }

  // Nobody is newly acknowledged on `repo`.
  ghost predicate NoNewAnswer(s: State, s': State, repo: Repo) {
    && Grows(s, s')
    && (forall i | 0 <= i < |s.log| && s.log[i].op.repo == repo && Returned(s', i) :: Returned(s, i))
    && (forall i | |s.log| <= i < |s'.log| :: !Returned(s', i))
  }

  lemma {:induction false} MetaAtPrefix(base: Meta, log: seq<Entry>, log': seq<Entry>, n: nat)
    requires n <= |log| && log <= log'
    ensures MetaAt(base, log', n) == MetaAt(base, log, n)
  {
    hide Apply;
    if n > 0 { MetaAtPrefix(base, log, log', n - 1); }
  }

  lemma ViewStays(s: State, s': State, repo: Repo, v: View)
    requires ViewSound(s, repo, v) && Grows(s, s')
    ensures ViewSound(s', repo, v)
  {
    hide MetaAt, Describes;
    MetaAtPrefix(s.base, s.log, s'.log, v.lo);
    MetaAtPrefix(s.base, s.log, s'.log, v.hi);
  }

  lemma MissesStays(s: State, s': State, repo: Repo, lo: nat)
    requires MissesOnlyPending(s, repo, lo) && NoNewAnswer(s, s', repo)
    ensures MissesOnlyPending(s', repo, lo)
  {
    hide Returned;
    forall i | lo <= i < |s'.log| && s'.log[i].op.repo == repo ensures !Returned(s', i) {
      if i < |s.log| { assert s'.log[i] == s.log[i]; }
    }
  }

  lemma CleanStays(s: State, s': State, repo: Repo)
    requires CleanSound(s, repo)
    requires repo in s'.dirty || (NoNewAnswer(s, s', repo) && OnDisk(s', repo) == OnDisk(s, repo) && repo !in s.dirty)
    ensures CleanSound(s', repo)
  {
    hide ViewSound, MissesOnlyPending, NoNewAnswer;
    if repo !in s'.dirty {
      assert Grows(s, s') by { AnswerGrows(s, s', repo); }
      ViewStays(s, s', repo, OnDisk(s, repo));
      MissesStays(s, s', repo, OnDisk(s, repo).lo);
    }
  }

  lemma AnswerGrows(s: State, s': State, repo: Repo)
    requires NoNewAnswer(s, s', repo)
    ensures Grows(s, s')
  {
  }

  // A reader's knowledge survives: files are only ever replaced by later ones.
  lemma ReaderStays(s: State, s': State, repo: Repo, pc: ReaderPc)
    requires ReaderSound(s, repo, pc) && Grows(s, s')
    requires OnDisk(s', repo) == OnDisk(s, repo) ||
             (OnDisk(s, repo).lo <= OnDisk(s', repo).lo && ViewSound(s', repo, OnDisk(s', repo)))
    ensures ReaderSound(s', repo, pc)
  {
    hide ViewSound;
    if pc.RClean? && OnDisk(s', repo) == OnDisk(s, repo) { ViewStays(s, s', repo, OnDisk(s, repo)); }
    if pc.RDone? { ViewStays(s, s', repo, pc.view); }
  }

  // Either nothing happened to `repo` that matters, or it was marked again.
  ghost predicate CalmOrMarked(s: State, s': State, repo: Repo) {
    || (NoNewAnswer(s, s', repo) && (repo in s'.dirty <==> repo in s.dirty) &&
        Generation(s', repo) == Generation(s, repo))
    || (repo in s'.dirty && Generation(s', repo) > Generation(s, repo))
  }

  ghost predicate TaskMove(s: State, s': State) {
    && Grows(s, s') && s'.disk == s.disk && s'.flusher == s.flusher
    && forall repo :: CalmOrMarked(s, s', repo)
  }

  lemma FlusherStays(s: State, s': State)
    requires FlusherSound(s) && TaskMove(s, s')
    ensures FlusherSound(s')
  {
    hide ViewSound, MissesOnlyPending, NoNewAnswer, Grows;
    if s.flusher.Working? && s.flusher.todo != [] {
      var todo, phase := s.flusher.todo, s.flusher.phase;
      var repo := todo[0].repo;
      assert CalmOrMarked(s, s', repo);
      assert Grows(s, s');
      var current := Generation(s', repo) == todo[0].generation;
      match phase {
        case Half(_, lo) =>
          if current { MissesStays(s, s', repo, lo); }
          LogLonger(s, s');
        case Built(view) =>
          if current { MissesStays(s, s', repo, view.lo); }
          ViewStays(s, s', repo, view);
        case Written =>
          if current { MissesStays(s, s', repo, OnDisk(s, repo).lo); }
          ViewStays(s, s', repo, OnDisk(s, repo));
        case _ =>
      }
      forall i | 0 <= i < |todo|
        ensures todo[i].generation <= Generation(s', todo[i].repo) && todo[i].repo in s'.dirty
      {
        assert CalmOrMarked(s, s', todo[i].repo);
      }
    }
  }

  lemma LogLonger(s: State, s': State)
    requires Grows(s, s')
    ensures |s.log| <= |s'.log|
  {
  }

  lemma DiskStays(s: State, s': State)
    requires DiskSound(s) && TaskMove(s, s')
    ensures DiskSound(s')
  {
    hide ViewSound, MissesOnlyPending, NoNewAnswer, Grows, CleanSound;
    LogLonger(s, s');
    forall repo ensures CleanSound(s', repo) {
      assert CalmOrMarked(s, s', repo);
      if repo in s.dirty {
        CleanWhenDirty(s', repo);
      } else {
        CleanStays(s, s', repo);
      }
    }
  }

  lemma CleanWhenDirty(s: State, repo: Repo)
    requires repo in s.dirty
    ensures CleanSound(s, repo)
  {
  }

  lemma TaskMoveKeeps(s: State, s': State, t: nat, task: Task)
    requires Inv(s) && t < |s.tasks| && s'.tasks == s.tasks[t := task]
    requires TaskMove(s, s') && LogSound(s')
    requires task.Reader? ==> ReaderSound(s', task.repo, task.rpc)
    ensures Inv(s')
  {
    hide ReaderSound, LogSound, CalmOrMarked;
    FlusherStays(s, s');
    DiskStays(s, s');
    forall u | 0 <= u < |s'.tasks| && s'.tasks[u].Reader? ensures ReaderSound(s', s'.tasks[u].repo, s'.tasks[u].rpc) {
      if u != t { ReaderStays(s, s', s.tasks[u].repo, s.tasks[u].rpc); }
    }
  }

  // ---- mutators ----

  lemma MarkKeeps(s: State, t: nat)
    requires Inv(s) && t < |s.tasks| && s.tasks[t].Mutator? && s.tasks[t].mpc.MStart?
    ensures Inv(MutatorStep(s, t, true))
  {
    var s' := MutatorStep(s, t, true);
    hide FlusherSound, DiskSound, ReadersSound;
    forall repo ensures CalmOrMarked(s, s', repo) {}
    TaskMoveKeeps(s, s', t, s'.tasks[t]);
  }

  lemma ReturnKeeps(s: State, t: nat)
    requires Inv(s) && t < |s.tasks| && s.tasks[t].Mutator? && s.tasks[t].mpc.MApplied?
    ensures Inv(MutatorStep(s, t, true))
  {
    var s' := MutatorStep(s, t, true);
    hide FlusherSound, DiskSound, ReadersSound;
    forall repo ensures CalmOrMarked(s, s', repo) {}
    TaskMoveKeeps(s, s', t, s'.tasks[t]);
  }

  lemma ApplyLogSound(s: State, t: nat, ok: bool)
    requires LogSound(s) && t < |s.tasks| && s.tasks[t].Mutator? && s.tasks[t].mpc.MMarked?
    ensures LogSound(MutatorStep(s, t, ok))
  {
    hide Apply;
    if ok { MetaAtPrefix(s.base, s.log, MutatorStep(s, t, ok).log, |s.log|); }
  }

  lemma ApplyIsCalm(s: State, t: nat, ok: bool, repo: Repo)
    requires t < |s.tasks| && s.tasks[t].Mutator? && s.tasks[t].mpc.MMarked?
    ensures CalmOrMarked(s, MutatorStep(s, t, ok), repo)
  {
    hide Apply;
  }

  lemma ApplyKeeps(s: State, t: nat, ok: bool)
    requires Inv(s) && t < |s.tasks| && s.tasks[t].Mutator? && s.tasks[t].mpc.MMarked?
    ensures Inv(MutatorStep(s, t, ok))
  {
    var s' := MutatorStep(s, t, ok);
    hide FlusherSound, DiskSound, ReadersSound, LogSound, CalmOrMarked, Apply;
    ApplyLogSound(s, t, ok);
    forall repo ensures CalmOrMarked(s, s', repo) { ApplyIsCalm(s, t, ok, repo); }
    TaskMoveKeeps(s, s', t, s'.tasks[t]);
  }

  // ---- readers ----

  // A reader's own step changes nothing but its task.
  lemma ReaderIsCalm(s: State, t: nat, pc: ReaderPc)
    requires LogSound(s) && t < |s.tasks| && s.tasks[t].Reader?
    ensures var s' := Goto(s, t, s.tasks[t].(rpc := pc)); TaskMove(s, s') && LogSound(s')
  {
    hide MetaAt;
    var s' := Goto(s, t, s.tasks[t].(rpc := pc));
    forall repo ensures CalmOrMarked(s, s', repo) {}
  }

  lemma ReaderMoves(s: State, t: nat, pc: ReaderPc)
    requires Inv(s) && t < |s.tasks| && s.tasks[t].Reader?
    requires ReaderSound(Goto(s, t, s.tasks[t].(rpc := pc)), s.tasks[t].repo, pc)
    ensures Inv(Goto(s, t, s.tasks[t].(rpc := pc)))
  {
    var s' := Goto(s, t, s.tasks[t].(rpc := pc));
    hide FlusherSound, DiskSound, ReadersSound, ReaderSound, LogSound, TaskMove;
    ReaderIsCalm(s, t, pc);
    TaskMoveKeeps(s, s', t, s'.tasks[t]);
  }

  lemma DeriveSound(s: State, repo: Repo, lo: nat, existing: Option<Json>, index: Json)
    requires LogSound(s) && lo <= |s.log| && IsRebuild(Derive(s, repo, lo, index).rs, existing, index)
    ensures ViewSound(s, repo, Derive(s, repo, lo, index))
  {
    hide IsRebuild, MetaAt, Describes;
    RebuildDescribes(Derive(s, repo, lo, index).rs, existing, index);
  }

  // A view's soundness depends on the history alone.
  lemma ViewElsewhere(s: State, s': State, repo: Repo, v: View)
    requires ViewSound(s, repo, v) && s'.base == s.base && s'.log == s.log
    ensures ViewSound(s', repo, v)
  {
    hide Describes, MetaAt;
  }

  lemma ReaderBegins(s: State, t: nat, index: Json)
    requires Inv(s) && t < |s.tasks| && s.tasks[t].Reader? && s.tasks[t].rpc.RStart?
    ensures Inv(ReaderStep(s, t, index))
  {
    var repo := s.tasks[t].repo;
    var floor := Acknowledged(s, repo);
    var pc := if repo in s.dirty then RDirty(floor) else RClean(floor);
    var s' := Goto(s, t, s.tasks[t].(rpc := pc));
    hide FlusherSound, ReadersSound, ViewSound;
    assert CleanSound(s, repo);
    if repo !in s.dirty { ViewElsewhere(s, s', repo, OnDisk(s, repo)); }
    assert ReaderSound(s', repo, pc);
    ReaderMoves(s, t, pc);
  }

  lemma ReaderKeeps(s: State, t: nat, index: Json)
    requires Inv(s) && t < |s.tasks| && s.tasks[t].Reader?
    ensures Inv(ReaderStep(s, t, index))
  {
    hide FlusherSound, DiskSound, ViewSound, IsRebuild, LogSound, MetaAt;
    var task, repo := s.tasks[t], s.tasks[t].repo;
    assert ReaderSound(s, repo, task.rpc);
    match task.rpc {
      case RStart => ReaderBegins(s, t, index);
      case RClean(floor) =>
        var pc := RDone(floor, OnDisk(s, repo));
        ViewElsewhere(s, Goto(s, t, task.(rpc := pc)), repo, OnDisk(s, repo));
        ReaderMoves(s, t, pc);
      case RDirty(floor) => ReaderMoves(s, t, RExisting(floor, DiskIndex(s, repo)));
      case RExisting(floor, existing) => ReaderMoves(s, t, RHalf(floor, existing, |s.log|));
      case RHalf(floor, existing, lo) =>
        if IsRebuild(Derive(s, repo, lo, index).rs, existing, index) {
          var pc := RDone(floor, Derive(s, repo, lo, index));
          DeriveSound(s, repo, lo, existing, index);
          ViewElsewhere(s, Goto(s, t, task.(rpc := pc)), repo, pc.view);
          ReaderMoves(s, t, pc);
        }
      case RDone(_, _) =>
    }
  }

  // ---- the flusher ----

  // A flusher step that leaves files and marks alone.
  lemma FlusherMoves(s: State, f: Flusher)
    requires Inv(s) && FlusherSound(s.(flusher := f))
    ensures Inv(s.(flusher := f))
  {
    hide ViewSound, FlusherSound;
    var s' := s.(flusher := f);
    forall repo ensures CleanSound(s', repo) {
      assert CleanSound(s, repo);
      if repo !in s.dirty { ViewElsewhere(s, s', repo, OnDisk(s, repo)); }
    }
    forall t | 0 <= t < |s'.tasks| && s'.tasks[t].Reader? ensures ReaderSound(s', s'.tasks[t].repo, s'.tasks[t].rpc) {
      ReaderStays(s, s', s.tasks[t].repo, s.tasks[t].rpc);
    }
  }

  // The write: a later view replaces the file of a repository that is dirty.
  lemma WriteKeeps(s: State)
    requires Inv(s) && s.flusher.Working? && s.flusher.todo != [] && s.flusher.phase.Built?
    ensures var repo := s.flusher.todo[0].repo;
            Inv(s.(disk := s.disk[repo := s.flusher.phase.view], flusher := Working(s.flusher.todo, Written)))
  {
    hide ViewSound;
    var repo, view := s.flusher.todo[0].repo, s.flusher.phase.view;
    var s' := s.(disk := s.disk[repo := view], flusher := Working(s.flusher.todo, Written));
    ViewElsewhere(s, s', repo, view);
    assert view.lo <= |s.log| by { ViewBound(s, repo, view); }
    forall r ensures CleanSound(s', r) {
      assert CleanSound(s, r);
      if r !in s.dirty { ViewElsewhere(s, s', r, OnDisk(s, r)); }
    }
    forall t | 0 <= t < |s'.tasks| && s'.tasks[t].Reader? ensures ReaderSound(s', s'.tasks[t].repo, s'.tasks[t].rpc) {
      ReaderStays(s, s', s.tasks[t].repo, s.tasks[t].rpc);
    }
  }

  lemma ViewBound(s: State, repo: Repo, v: View)
    requires ViewSound(s, repo, v)
    ensures v.lo <= |s.log|
  {
  }

  // The clear: the generation is unchanged, so the file just written misses nothing
  // that was acknowledged.
  lemma ClearKeeps(s: State)
    requires Inv(s) && s.flusher.Working? && s.flusher.todo != [] && s.flusher.phase.Written?
    requires Generation(s, s.flusher.todo[0].repo) == s.flusher.todo[0].generation
    ensures Inv(s.(dirty := s.dirty - {s.flusher.todo[0].repo}, flusher := Working(s.flusher.todo[1..], Begin)))
  {
    hide ViewSound;
    var repo, rest := s.flusher.todo[0].repo, s.flusher.todo[1..];
    var s' := s.(dirty := s.dirty - {repo}, flusher := Working(rest, Begin));
    forall r ensures CleanSound(s', r) {
      assert CleanSound(s, r);
      if r == repo || r !in s.dirty { ViewElsewhere(s, s', r, OnDisk(s, r)); }
    }
    forall t | 0 <= t < |s'.tasks| && s'.tasks[t].Reader? ensures ReaderSound(s', s'.tasks[t].repo, s'.tasks[t].rpc) {
      ReaderStays(s, s', s.tasks[t].repo, s.tasks[t].rpc);
    }
    forall i | 0 <= i < |rest| ensures rest[i].generation <= Generation(s', rest[i].repo) && rest[i].repo in s'.dirty {
      assert rest[i] == s.flusher.todo[i + 1];
    }
  }

  lemma SkipSound(s: State)
    requires FlusherSound(s) && s.flusher.Working? && s.flusher.todo != []
    ensures FlusherSound(Skip(s))
  {
    hide ViewSound, MissesOnlyPending;
    var todo, rest := s.flusher.todo, s.flusher.todo[1..];
    assert forall i | 0 <= i < |rest| :: rest[i] == todo[i + 1];
  }

  lemma BuiltSound(s: State, index: Json)
    requires Inv(s) && s.flusher.Working? && s.flusher.todo != [] && s.flusher.phase.Half?
    requires var f := s.flusher; IsRebuild(Derive(s, f.todo[0].repo, f.phase.lo, index).rs, f.phase.existing, index)
    ensures var f := s.flusher;
            FlusherSound(s.(flusher := Working(f.todo, Built(Derive(s, f.todo[0].repo, f.phase.lo, index)))))
  {
    hide ViewSound, IsRebuild, ReadersSound, DiskSound;
    var f := s.flusher;
    var repo := f.todo[0].repo;
    DeriveSound(s, repo, f.phase.lo, f.phase.existing, index);
    ViewElsewhere(s, s.(flusher := Working(f.todo, Built(Derive(s, repo, f.phase.lo, index)))), repo,
                  Derive(s, repo, f.phase.lo, index));
  }

  lemma FlushKeeps(s: State, ok: bool, index: Json, order: seq<Item>)
    requires Inv(s)
    ensures Inv(FlushStep(s, ok, index, order))
  {
    hide ViewSound, IsRebuild, ReadersSound;
    if s.flusher.Idle? {
      if Snapshots(s.dirty, order) { FlusherMoves(s, Working(order, Begin)); }
    } else if s.flusher.todo == [] {
      FlusherMoves(s, Idle);
    } else {
      WorkKeeps(s, ok, index, order);
    }
  }

  lemma WorkKeeps(s: State, ok: bool, index: Json, order: seq<Item>)
    requires Inv(s) && s.flusher.Working? && s.flusher.todo != []
    ensures Inv(FlushStep(s, ok, index, order))
  {
    hide ViewSound, IsRebuild, ReadersSound, CleanSound, LogSound;
    var todo, phase := s.flusher.todo, s.flusher.phase;
    var repo := todo[0].repo;
    SkipSound(s);
    match phase {
      case Begin => FlusherMoves(s, if ok then Working(todo, Existing(DiskIndex(s, repo)))
                                 else Working(todo[1..], Begin));
      case Existing(existing) => FlusherMoves(s, Working(todo, Half(existing, |s.log|)));
      case Half(existing, lo) =>
        if IsRebuild(Derive(s, repo, lo, index).rs, existing, index) {
          BuiltSound(s, index);
          FlusherMoves(s, Working(todo, Built(Derive(s, repo, lo, index))));
        }
      case Built(view) =>
        if ok { WriteKeeps(s); } else { FlusherMoves(s, Working(todo[1..], Begin)); }
      case Written =>
        if s.dirty[repo] == todo[0].generation { ClearKeeps(s); } else { FlusherMoves(s, Working(todo[1..], Begin)); }
    }
  }

  // ---- runs ----

  lemma SpawnKeeps(s: State, task: Task)
    requires Inv(s) && Startable(task)
    ensures Inv(s.(tasks := s.tasks + [task]))
  {
    var s' := s.(tasks := s.tasks + [task]);
    hide ViewSound, CleanSound, FlusherSound, MissesOnlyPending, ReaderSound;
    assert TaskMove(s, s') by {
      forall repo ensures CalmOrMarked(s, s', repo) {}
    }
    FlusherStays(s, s');
    DiskStays(s, s');
    forall t | 0 <= t < |s'.tasks| && s'.tasks[t].Reader? ensures ReaderSound(s', s'.tasks[t].repo, s'.tasks[t].rpc) {
      if t < |s.tasks| {
        ReaderStays(s, s', s.tasks[t].repo, s.tasks[t].rpc);
      } else {
        StartSound(s', task.repo);
      }
    }
  }

  lemma StartSound(s: State, repo: Repo)
    ensures ReaderSound(s, repo, RStart)
  {
  }

  lemma MutatorKeeps(s: State, t: nat, ok: bool)
    requires Inv(s) && t < |s.tasks| && s.tasks[t].Mutator?
    ensures Inv(MutatorStep(s, t, ok))
  {
    hide LogSound, FlusherSound, DiskSound, ReadersSound;
    match s.tasks[t].mpc {
      case MStart => MarkKeeps(s, t);
      case MMarked => ApplyKeeps(s, t, ok);
      case MApplied => ReturnKeeps(s, t);
      case MReturned =>
    }
  }

  /** Every step of a mutator, a reader or the flusher keeps the invariant. */
  lemma StepKeepsInv(s: State, a: Action)
    requires Inv(s)
    ensures Inv(Step(s, a))
  {
    hide Inv, MutatorStep, ReaderStep, FlushStep;
    match a {
      case Spawn(task) => if Startable(task) { SpawnKeeps(s, task); }
      case Run(t, ok, index) =>
        if t < |s.tasks| {
          if s.tasks[t].Mutator? { MutatorKeeps(s, t, ok); } else { ReaderKeeps(s, t, index); }
        }
      case Flush(ok, index, order) => FlushKeeps(s, ok, index, order);
    }
  }

  lemma {:induction false} ExecKeepsInv(s: State, acts: seq<Action>)
    requires Inv(s)
    ensures Inv(Exec(s, acts))
    decreases |acts|
  {
    hide Inv, Step;
    if acts != [] {
      StepKeepsInv(s, acts[0]);
      ExecKeepsInv(Step(s, acts[0]), acts[1..]);
    }
  }

  // A start: nothing has happened yet, and every clean repository's file lists the same
  // descriptors as a rebuild of its metadata, or is absent together with the metadata.
  ghost predicate Initial(s: State) {
    && s.log == [] && s.meta == s.base && s.tasks == [] && s.flusher.Idle?
    && (forall repo | repo in s.disk :: s.disk[repo].lo == 0 && s.disk[repo].hi == 0)
    && forall repo :: FileCurrent(s, repo) || repo in s.dirty
  }

  // The file of `repo` is up to date with exactly the current metadata.
  ghost predicate FileCurrent(s: State, repo: Repo) {
    && OnDisk(s, repo).rs == RepoOf(s.meta, repo)
    && Describes(RepoOf(s.meta, repo), OnDisk(s, repo).index)
  }

  lemma InitialInv(s: State)
    requires Initial(s)
    ensures Inv(s)
  {
    hide Describes;
    forall repo ensures CleanSound(s, repo) {
      assert FileCurrent(s, repo) || repo in s.dirty;
    }
  }

  // An operation on another repository leaves this one's metadata alone.
  lemma {:induction false} Untouched(base: Meta, log: seq<Entry>, repo: Repo, lo: nat, hi: nat)
    requires lo <= hi <= |log|
    requires forall i | lo <= i < hi :: log[i].op.repo != repo
    ensures RepoOf(MetaAt(base, log, hi), repo) == RepoOf(MetaAt(base, log, lo), repo)
  {
    hide ApplyRepo;
    if lo < hi { Untouched(base, log, repo, lo, hi - 1); }
  }

  // A sound view that missed no operation on its repository is current.
  lemma NothingMissed(s: State, repo: Repo, v: View)
    requires LogSound(s) && ViewSound(s, repo, v)
    requires forall i | v.lo <= i < |s.log| :: s.log[i].op.repo != repo
    ensures v.rs == RepoOf(s.meta, repo)
    ensures Describes(RepoOf(s.meta, repo), v.index)
  {
    hide Describes;
    Untouched(s.base, s.log, repo, v.lo, v.hi);
    Untouched(s.base, s.log, repo, v.hi, |s.log|);
  }

  // Some mutation of `repo` has been applied and not yet marked a second time.
  predicate BetweenApplyAndMark(s: State, repo: Repo) {
    exists t :: 0 <= t < |s.tasks| && s.tasks[t].Mutator? && s.tasks[t].op.repo == repo && s.tasks[t].mpc.MApplied?
  }

  /** In every reachable state a repository missing from the dirty map has a file
      rebuilt from exactly the current metadata, unless a mutation of it is between
      its apply and its second mark. */
  lemma CleanFileIsCurrent(s0: State, acts: seq<Action>, repo: Repo)
    requires Initial(s0)
    requires var s := Exec(s0, acts); repo !in s.dirty && !BetweenApplyAndMark(s, repo)
    ensures FileCurrent(Exec(s0, acts), repo)
  {
    var s := Exec(s0, acts);
    InitialInv(s0);
    ExecKeepsInv(s0, acts);
    hide ViewSound, Initial, FlusherSound, ReadersSound, Describes;
    assert CleanSound(s, repo);
    forall i | OnDisk(s, repo).lo <= i < |s.log| ensures s.log[i].op.repo != repo {}
    NothingMissed(s, repo, OnDisk(s, repo));
  }

  lemma {:induction false} TagsAlwaysKnown(base: Meta, log: seq<Entry>, n: nat, repo: Repo)
    requires n <= |log| && TagsKnown(RepoOf(base, repo))
    ensures TagsKnown(RepoOf(MetaAt(base, log, n), repo))
  {
    hide ApplyRepo, TagsKnown;
    if n > 0 {
      TagsAlwaysKnown(base, log, n - 1, repo);
      TagsStayKnown(RepoOf(MetaAt(base, log, n - 1), repo), log[n - 1].op);
    }
  }

  /** What a clean repository's file resolves is what the metadata holds now: exactly the
      current tags, save those of digests the file lists with annotations that are not an
      object, each with its current digest. A tag that was deleted or moved, at any point
      of any run, is never served from the file. */
  lemma CleanFileServesTags(s0: State, acts: seq<Action>, repo: Repo, tag: Tag)
    requires Initial(s0) && TagsKnown(RepoOf(s0.base, repo))
    requires var s := Exec(s0, acts); repo !in s.dirty && !BetweenApplyAndMark(s, repo)
    ensures var s := Exec(s0, acts);
            var entries, now := Entries(OnDisk(s, repo).index), RepoOf(s.meta, repo).tags;
            var found := IndexFile.Resolve(entries, tag);
            && (found.Some? <==> tag in now && !IndexFile.Unlistable(entries, now[tag].digest))
            && (found.Some? ==> EntryDigest(found.value) == Some(now[tag].digest))
  {
    var s := Exec(s0, acts);
    hide Exec, Initial, Describes, IndexFile.Resolve, IndexFile.Unlistable, ViewSound, FlusherSound, ReadersSound,
         DiskSound, MetaAt;
    CleanFileIsCurrent(s0, acts, repo);
    InitialInv(s0);
    ExecKeepsInv(s0, acts);
    BaseFixed(s0, acts);
    TagsAlwaysKnown(s.base, s.log, |s.log|, repo);
    UpToDateResolves(RepoOf(s.meta, repo), OnDisk(s, repo).index, tag);
  }

  lemma UpToDateResolves(rs: RepoState, index: Json, tag: Tag)
    requires Describes(rs, index) && TagsKnown(rs)
    ensures var found := IndexFile.Resolve(Entries(index), tag);
            && (found.Some? <==> tag in rs.tags && !IndexFile.Unlistable(Entries(index), rs.tags[tag].digest))
            && (found.Some? ==> EntryDigest(found.value) == Some(rs.tags[tag].digest))
  {
    hide IndexFile.Resolve, IndexFile.Unlistable, TagsKnown, Rebuilt, InOrder, Walks, SameManifestSet;
    var existing, rebuilt :| IsRebuild(rs, existing, rebuilt) && SameManifestSet(rebuilt, index);
    var via: Via, tags, plain :| Walks(rs, via) && InOrder(rs, tags, plain) &&
        rebuilt == Rebuilt(rs, via, existing, tags, plain);
    IndexFile.SameSetResolves(rs, via, existing, tags, plain, index, tag);
  }

  lemma {:induction false} BaseFixed(s: State, acts: seq<Action>)
    ensures Exec(s, acts).base == s.base
    decreases |acts|
  {
    hide Apply, IsRebuild, Derive, OnDisk, DiskIndex, Snapshots, Acknowledged;
    if acts != [] {
      BaseFixed(Step(s, acts[0]), acts[1..]);
    }
  }

  // ---- reads over whole runs ----

  function Floor(pc: ReaderPc): set<nat>
    requires !pc.RStart?
  {
    match pc
    case RClean(floor) => floor
    case RDirty(floor) => floor
    case RExisting(floor, _) => floor
    case RHalf(floor, _, _) => floor
    case RDone(floor, _) => floor
  }

  // A read under way stays that read, with the floor it began with.
  ghost predicate Reading(s: State, t: nat, repo: Repo, floor: set<nat>) {
    && t < |s.tasks| && s.tasks[t].Reader? && s.tasks[t].repo == repo
    && !s.tasks[t].rpc.RStart? && Floor(s.tasks[t].rpc) == floor
  }

  lemma FlushKeepsTasks(s: State, ok: bool, index: Json, order: seq<Item>)
    ensures FlushStep(s, ok, index, order).tasks == s.tasks
    ensures FlushStep(s, ok, index, order).log == s.log
    ensures FlushStep(s, ok, index, order).base == s.base
  {
    hide IsRebuild, Derive, OnDisk, DiskIndex, Snapshots, TwoReads;
    match s.flusher {
      case Idle =>
      case Working(todo, phase) =>
        if todo != [] {
          match phase {
            case Half(_, _) =>
            case Written =>
            case _ =>
          }
        }
    }
  }

  lemma ReaderKeepsReading(s: State, u: nat, index: Json, t: nat, repo: Repo, floor: set<nat>)
    requires Reading(s, t, repo, floor) && u < |s.tasks| && s.tasks[u].Reader?
    ensures Reading(ReaderStep(s, u, index), t, repo, floor) && Grows(s, ReaderStep(s, u, index))
  {
    hide Acknowledged, IsRebuild, Derive, OnDisk, DiskIndex;
  }

  lemma StepKeepsReading(s: State, a: Action, t: nat, repo: Repo, floor: set<nat>)
    requires Reading(s, t, repo, floor)
    ensures Reading(Step(s, a), t, repo, floor) && Grows(s, Step(s, a))
  {
    hide Apply, FlushStep, ReaderStep, Floor;
    match a {
      case Spawn(_) =>
      case Run(u, _, index) =>
        if u < |s.tasks| && s.tasks[u].Reader? { ReaderKeepsReading(s, u, index, t, repo, floor); }
      case Flush(ok, index, order) => FlushKeepsTasks(s, ok, index, order);
    }
  }

  lemma {:induction false} ExecKeepsReading(s: State, acts: seq<Action>, t: nat, repo: Repo, floor: set<nat>)
    requires Reading(s, t, repo, floor)
    ensures Reading(Exec(s, acts), t, repo, floor) && Grows(s, Exec(s, acts))
    decreases |acts|
  {
    hide Reading, Step;
    if acts != [] {
      StepKeepsReading(s, acts[0], t, repo, floor);
      ExecKeepsReading(Step(s, acts[0]), acts[1..], t, repo, floor);
    }
  }

  lemma {:induction false} ExecAppend(s: State, xs: seq<Action>, ys: seq<Action>)
    ensures Exec(s, xs + ys) == Exec(Exec(s, xs), ys)
    decreases |xs|
  {
    hide Step;
    if xs == [] {
      assert xs + ys == ys;
    } else {
      assert (xs + ys)[1..] == xs[1..] + ys;
      ExecAppend(Step(s, xs[0]), xs[1..], ys);
    }
  }

  lemma FirstStep(s: State, t: nat, ok: bool, index: Json)
    requires t < |s.tasks| && s.tasks[t].Reader? && s.tasks[t].rpc.RStart?
    ensures Reading(Step(s, Run(t, ok, index)), t, s.tasks[t].repo, Acknowledged(s, s.tasks[t].repo))
    ensures Step(s, Run(t, ok, index)).log == s.log
  {
  }

  /** Read your writes: whatever the interleaving, a read returns an index derived from
      metadata that includes every operation acknowledged before the read began. */
  lemma ReadReflectsAcknowledged(s0: State, before: seq<Action>, t: nat, ok: bool, index: Json, after: seq<Action>)
    requires Initial(s0)
    requires var s1 := Exec(s0, before); t < |s1.tasks| && s1.tasks[t].Reader? && s1.tasks[t].rpc.RStart?
    requires var s2 := Exec(s0, before + [Run(t, ok, index)] + after);
             t < |s2.tasks| && s2.tasks[t].Reader? && s2.tasks[t].rpc.RDone?
    ensures var s1, s2 := Exec(s0, before), Exec(s0, before + [Run(t, ok, index)] + after);
            var repo, view := s1.tasks[t].repo, s2.tasks[t].rpc.view;
            && s1.log <= s2.log && view.lo <= view.hi <= |s2.log| && Describes(view.rs, view.index)
            && view.rs == RepoOf(MetaAt(s2.base, s2.log, view.hi), repo).(
                            mediaTypes := RepoOf(MetaAt(s2.base, s2.log, view.lo), repo).mediaTypes)
            && forall i | 0 <= i < |s1.log| && s1.log[i].op.repo == repo
                          && s1.log[i].who < |s1.tasks|
                          && s1.tasks[s1.log[i].who] == Mutator(s1.log[i].op, MReturned) ::
                 i < view.lo
  {
    hide ViewSound, Acknowledged, Describes, Exec, MetaAt;
    ReadAfterAnswers(s0, before, t, ok, index, after);
    var s1, s2 := Exec(s0, before), Exec(s0, before + [Run(t, ok, index)] + after);
    var repo, view := s1.tasks[t].repo, s2.tasks[t].rpc.view;
    SoundMeans(s2, repo, view);
    forall i | 0 <= i < |s1.log| && s1.log[i].op.repo == repo
               && s1.log[i].who < |s1.tasks| && s1.tasks[s1.log[i].who] == Mutator(s1.log[i].op, MReturned)
      ensures i < view.lo
    {
      assert i in Acknowledged(s1, repo) by { AnsweredIsAcknowledged(s1, repo, i); }
    }
  }

  lemma SoundMeans(s: State, repo: Repo, v: View)
    requires ViewSound(s, repo, v)
    ensures v.lo <= v.hi <= |s.log| && Describes(v.rs, v.index)
    ensures v.rs == RepoOf(MetaAt(s.base, s.log, v.hi), repo).(
                      mediaTypes := RepoOf(MetaAt(s.base, s.log, v.lo), repo).mediaTypes)
  {
    hide Describes, MetaAt;
  }

  lemma AnsweredIsAcknowledged(s: State, repo: Repo, i: nat)
    requires i < |s.log| && s.log[i].op.repo == repo
    requires s.log[i].who < |s.tasks| && s.tasks[s.log[i].who] == Mutator(s.log[i].op, MReturned)
    ensures i in Acknowledged(s, repo)
  {
  }

  lemma ReadAfterAnswers(s0: State, before: seq<Action>, t: nat, ok: bool, index: Json, after: seq<Action>)
    requires Initial(s0)
    requires var s1 := Exec(s0, before); t < |s1.tasks| && s1.tasks[t].Reader? && s1.tasks[t].rpc.RStart?
    requires var s2 := Exec(s0, before + [Run(t, ok, index)] + after);
             t < |s2.tasks| && s2.tasks[t].Reader? && s2.tasks[t].rpc.RDone?
    ensures var s1, s2 := Exec(s0, before), Exec(s0, before + [Run(t, ok, index)] + after);
            var repo, view := s1.tasks[t].repo, s2.tasks[t].rpc.view;
            && s1.log <= s2.log && ViewSound(s2, repo, view)
            && forall i | i in Acknowledged(s1, repo) :: i < view.lo
  {
    var a := Run(t, ok, index);
    var s1, s2 := Exec(s0, before), Exec(s0, before + [a] + after);
    hide ViewSound, Initial, Step, Acknowledged, LogSound, DiskSound, FlusherSound, Exec;
    ExecAppend(s0, before + [a], after);
    ExecAppend(s0, before, [a]);
    assert Exec(s1, [a]) == Step(s1, a) by { OneStep(s1, a); }
    FirstStep(s1, t, ok, index);
    ExecKeepsReading(Step(s1, a), after, t, s1.tasks[t].repo, Acknowledged(s1, s1.tasks[t].repo));
    InitialInv(s0);
    ExecKeepsInv(s0, before + [a] + after);
    assert ReaderSound(s2, s2.tasks[t].repo, s2.tasks[t].rpc);
  }

  lemma OneStep(s: State, a: Action)
    ensures Exec(s, [a]) == Step(s, a)
  {
    hide Step;
    assert Exec(Step(s, a), [a][1..]) == Step(s, a);
  }

  /** With no operation on the repository beyond the acknowledged ones, the read is
      derived from exactly the current metadata. */
  lemma QuietReadIsCurrent(s0: State, before: seq<Action>, t: nat, ok: bool, index: Json, after: seq<Action>)
    requires Initial(s0)
    requires var s1 := Exec(s0, before); t < |s1.tasks| && s1.tasks[t].Reader? && s1.tasks[t].rpc.RStart?
    requires var s2 := Exec(s0, before + [Run(t, ok, index)] + after);
             t < |s2.tasks| && s2.tasks[t].Reader? && s2.tasks[t].rpc.RDone?
    requires var s1, s2 := Exec(s0, before), Exec(s0, before + [Run(t, ok, index)] + after);
             forall i: nat | i < |s2.log| && s2.log[i].op.repo == s1.tasks[t].repo ::
               i in Acknowledged(s1, s1.tasks[t].repo)
    ensures var s1, s2 := Exec(s0, before), Exec(s0, before + [Run(t, ok, index)] + after);
            var rs := RepoOf(s2.meta, s1.tasks[t].repo);
            s2.tasks[t].rpc.view.rs == rs && Describes(rs, s2.tasks[t].rpc.view.index)
  {
    hide Exec, Describes, ViewSound, Acknowledged, Initial, DiskSound, FlusherSound, ReadersSound;
    ReadAfterAnswers(s0, before, t, ok, index, after);
    InitialInv(s0);
    ExecKeepsInv(s0, before + [Run(t, ok, index)] + after);
    var s2 := Exec(s0, before + [Run(t, ok, index)] + after);
    NothingMissed(s2, Exec(s0, before).tasks[t].repo, s2.tasks[t].rpc.view);
  }

  // ---- once mutations stop ----

  ghost predicate Reaches(s: State, s': State) {
    exists acts :: Exec(s, acts) == s'
  }

  lemma Onward(s0: State, s: State, a: Action)
    requires Reaches(s0, s)
    ensures Reaches(s0, Step(s, a))
  {
    hide Step, Exec;
    var acts :| Exec(s0, acts) == s;
    ExecAppend(s0, acts, [a]);
    OneStep(s, a);
  }

  // Some rebuild always exists.
  lemma SomeRebuild(rs: RepoState, existing: Option<Json>) returns (index: Json)
    ensures IsRebuild(rs, existing, index)
  {
    hide Lists, Rebuilt;
    var tags := SomeOrder(rs.tags.Keys);
    var plain := SomeOrder(Described(rs) - TaggedDigests(rs));
    var walk := SomeOrder(rs.referrers.Keys);
    var via := Via(d => None, walk);
    index := Rebuilt(rs, via, existing, tags, plain);
    assert Walks(rs, via) && InOrder(rs, tags, plain);
  }

  // A file rebuilt from what the metadata of `repo` is now.
  function Fresh(s: State, repo: Repo, index: Json): View {
    View(index, RepoOf(s.meta, repo), |s.log|, |s.log|)
  }

  function Flushed(s: State, index: Json): State
    requires s.flusher.Working? && s.flusher.todo != []
  {
    var repo := s.flusher.todo[0].repo;
    s.(disk := s.disk[repo := Fresh(s, repo, index)], dirty := s.dirty - {repo},
       flusher := Working(s.flusher.todo[1..], Begin))
  }

  lemma SoloItem(s0: State, s: State) returns (index: Json, existing: Option<Json>)
    requires Reaches(s0, s) && LogSound(s) && s.flusher.Working? && s.flusher.phase.Begin? && s.flusher.todo != []
    requires var item := s.flusher.todo[0]; item.repo in s.dirty && s.dirty[item.repo] == item.generation
    ensures existing == DiskIndex(s, s.flusher.todo[0].repo)
    ensures IsRebuild(RepoOf(s.meta, s.flusher.todo[0].repo), existing, index)
    ensures Reaches(s0, Flushed(s, index))
  {
    hide Reaches, IsRebuild, LogSound, RepoOf;
    var todo, n := s.flusher.todo, |s.log|;
    var repo := todo[0].repo;
    existing := DiskIndex(s, repo);
    index := SomeRebuild(RepoOf(s.meta, repo), existing);
    var go := Flush(true, index, []);
    var s1 := s.(flusher := Working(todo, Existing(existing)));
    Onward(s0, s, go);
    var s2 := s.(flusher := Working(todo, Half(existing, n)));
    Onward(s0, s1, go);
    assert Derive(s2, repo, n, index) == Fresh(s, repo, index) by { DeriveNow(s, s2, repo, index); }
    var s3 := s.(flusher := Working(todo, Built(Fresh(s, repo, index))));
    Onward(s0, s2, go);
    assert Step(s2, go) == s3;
    var s4 := s3.(disk := s.disk[repo := Fresh(s, repo, index)], flusher := Working(todo, Written));
    Onward(s0, s3, go);
    Onward(s0, s4, go);
  }

  lemma DeriveNow(s: State, s2: State, repo: Repo, index: Json)
    requires LogSound(s) && s2.log == s.log && s2.base == s.base && s2.meta == s.meta
    ensures Derive(s2, repo, |s.log|, index) == Fresh(s, repo, index)
  {
  }

  predicate Skips(todo: seq<Item>, r: Repo) {
    forall i | 0 <= i < |todo| :: todo[i].repo != r
  }

  lemma SkipsSplit(todo: seq<Item>, r: Repo)
    requires todo != []
    ensures Skips(todo, r) <==> r != todo[0].repo && Skips(todo[1..], r)
  {
    assert forall i | 0 < i < |todo| :: todo[i] == todo[1..][i - 1];
  }

  // What an undisturbed pass leaves: marks and files of the items done.
  ghost predicate PassDone(s: State, s': State, todo: seq<Item>) {
    && s'.base == s.base && s'.log == s.log && s'.meta == s.meta && s'.tasks == s.tasks && s'.flusher.Idle?
    && MarksDone(s, s', todo) && FilesDone(s, s', todo)
  }

  ghost predicate MarksDone(s: State, s': State, todo: seq<Item>) {
    forall r :: r in s'.dirty <==> r in s.dirty && Skips(todo, r)
  }

  predicate SameFile(s: State, s': State, repo: Repo) {
    (repo in s'.disk <==> repo in s.disk) && OnDisk(s', repo) == OnDisk(s, repo)
  }

  // The file of `repo` in `s'` is a rebuild of the metadata over the file it had in `s`.
  ghost predicate Rewritten(s: State, s': State, repo: Repo) {
    repo in s'.disk &&
      IsRebuild(RepoOf(s.meta, repo), if repo in s.disk then Some(s.disk[repo].index) else None, s'.disk[repo].index)
  }

  ghost predicate FilesDone(s: State, s': State, todo: seq<Item>) {
    && (forall i | 0 <= i < |todo| :: FileCurrent(s', todo[i].repo) && Rewritten(s, s', todo[i].repo))
    && (forall r | Skips(todo, r) :: SameFile(s, s', r))
  }

  ghost predicate Pending(s: State, todo: seq<Item>) {
    && s.flusher == Working(todo, Begin)
    && (forall i | 0 <= i < |todo| :: todo[i].repo in s.dirty && s.dirty[todo[i].repo] == todo[i].generation)
    && (forall i, j | 0 <= i < j < |todo| :: todo[i].repo != todo[j].repo)
  }

  lemma {:induction false} SoloPass(s0: State, s: State, todo: seq<Item>) returns (s': State)
    requires Reaches(s0, s) && LogSound(s) && Pending(s, todo)
    ensures Reaches(s0, s') && PassDone(s, s', todo)
    decreases |todo|
  {
    hide Reaches, IsRebuild, LogSound;
    if todo == [] {
      Onward(s0, s, Flush(true, Array([]), []));
      s' := s.(flusher := Idle);
    } else {
      var index, existing := SoloItem(s0, s);
      var next, rest := Flushed(s, index), todo[1..];
      assert LogSound(next) by { LogElsewhere(s, next); }
      assert forall i | 0 <= i < |rest| :: rest[i] == todo[i + 1];
      s' := SoloPass(s0, next, rest);
      PassExtends(s, index, existing, s', todo);
    }
  }

  lemma LogElsewhere(s: State, s': State)
    requires LogSound(s) && s'.base == s.base && s'.log == s.log && s'.meta == s.meta && s'.tasks == s.tasks
    ensures LogSound(s')
  {
  }

  lemma OthersUnflushed(s: State, index: Json, s': State, r: Repo)
    requires s.flusher.Working? && s.flusher.todo != [] && r != s.flusher.todo[0].repo
    ensures SameFile(Flushed(s, index), s', r) <==> SameFile(s, s', r)
    ensures Rewritten(Flushed(s, index), s', r) <==> Rewritten(s, s', r)
  {
    hide IsRebuild, RepoOf;
  }

  lemma LaterItem(s: State, todo: seq<Item>, i: nat)
    requires 0 < i < |todo| && Pending(s, todo)
    ensures todo[i] == todo[1..][i - 1] && todo[i].repo != todo[0].repo
  {
  }

  lemma HeadCurrent(s: State, index: Json, existing: Option<Json>, s': State, repo: Repo)
    requires s.flusher.Working? && s.flusher.todo != [] && repo == s.flusher.todo[0].repo
    requires SameFile(Flushed(s, index), s', repo) && s'.meta == s.meta && existing == DiskIndex(s, repo) &&
             IsRebuild(RepoOf(s.meta, repo), existing, index)
    ensures FileCurrent(s', repo) && Rewritten(s, s', repo)
  {
    hide IsRebuild, RepoOf, Describes;
    RebuildDescribes(RepoOf(s.meta, repo), existing, index);
  }

  lemma MarksExtend(s: State, index: Json, s': State, todo: seq<Item>)
    requires todo != [] && s.flusher == Working(todo, Begin) && MarksDone(Flushed(s, index), s', todo[1..])
    ensures MarksDone(s, s', todo)
  {
    hide Skips;
    forall r ensures Skips(todo, r) <==> r != todo[0].repo && Skips(todo[1..], r) { SkipsSplit(todo, r); }
  }

  lemma HeadSkipped(s: State, todo: seq<Item>)
    requires todo != [] && Pending(s, todo)
    ensures Skips(todo[1..], todo[0].repo) && s.flusher == Working(todo, Begin)
  {
  }

  lemma FilesExtend(s: State, index: Json, existing: Option<Json>, s': State, todo: seq<Item>)
    requires todo != [] && Pending(s, todo) && FilesDone(Flushed(s, index), s', todo[1..]) && s'.meta == s.meta
    requires existing == DiskIndex(s, todo[0].repo) && IsRebuild(RepoOf(s.meta, todo[0].repo), existing, index)
    ensures FilesDone(s, s', todo)
  {
    hide IsRebuild, RepoOf, Skips, FileCurrent, Rewritten, SameFile, Flushed, Pending;
    var repo, rest := todo[0].repo, todo[1..];
    HeadSkipped(s, todo);
    forall r ensures Skips(todo, r) <==> r != repo && Skips(rest, r) { SkipsSplit(todo, r); }
    forall r | Skips(todo, r) ensures SameFile(s, s', r) { OthersUnflushed(s, index, s', r); }
    HeadCurrent(s, index, existing, s', repo);
    forall i | 0 <= i < |todo| ensures FileCurrent(s', todo[i].repo) && Rewritten(s, s', todo[i].repo) {
      if i > 0 {
        assert todo[i] == rest[i - 1] && todo[i].repo != repo by { LaterItem(s, todo, i); }
        OthersUnflushed(s, index, s', todo[i].repo);
      }
    }
  }

  lemma PassExtends(s: State, index: Json, existing: Option<Json>, s': State, todo: seq<Item>)
    requires todo != [] && Pending(s, todo) && PassDone(Flushed(s, index), s', todo[1..])
    requires existing == DiskIndex(s, todo[0].repo) && IsRebuild(RepoOf(s.meta, todo[0].repo), existing, index)
    ensures PassDone(s, s', todo)
  {
    hide IsRebuild, RepoOf, MarksDone, FilesDone;
    MarksExtend(s, index, s', todo);
    FilesExtend(s, index, existing, s', todo);
  }

  /** Convergence: from every reachable state with an idle flusher, one undisturbed pass
      leaves no repository dirty, the metadata as it is, and in place of every rewritten file
      a rebuild of the current metadata over that file. */
  lemma FlushConverges(s0: State, acts: seq<Action>, order: seq<Item>) returns (s': State)
    requires Initial(s0)
    requires var s := Exec(s0, acts); s.flusher.Idle? && Snapshots(s.dirty, order)
    ensures Reaches(Exec(s0, acts), s') && s'.meta == Exec(s0, acts).meta
    ensures s'.dirty == map[] && forall r | r in Exec(s0, acts).dirty :: FileCurrent(s', r)
    ensures forall r | r in Exec(s0, acts).dirty :: Rewritten(Exec(s0, acts), s', r)
  {
    var s := Exec(s0, acts);
    InitialInv(s0);
    ExecKeepsInv(s0, acts);
    hide Exec, Initial, DiskSound, ReadersSound, FlusherSound, FileCurrent, LogSound, Rewritten, PassDone, Snapshots;
    assert Reaches(s, s) by { Here(s); }
    var go := Flush(true, Array([]), order);
    Onward(s, s, go);
    var w := s.(flusher := Working(order, Begin));
    assert Step(s, go) == w;
    assert LogSound(w) by { LogElsewhere(s, w); }
    s' := SoloPass(s, w, order);
    PassCleans(s, w, s', order);
  }

  lemma PassCleans(s: State, w: State, s': State, order: seq<Item>)
    requires w == s.(flusher := Working(order, Begin)) && PassDone(w, s', order) && Snapshots(s.dirty, order)
    ensures s'.meta == s.meta && s'.dirty == map[]
    ensures forall r | r in s.dirty :: FileCurrent(s', r) && Rewritten(s, s', r)
  {
    hide FileCurrent, IsRebuild, RepoOf;
    forall r | r in s.dirty ensures r !in s'.dirty && FileCurrent(s', r) && Rewritten(s, s', r) {
      var i :| 0 <= i < |order| && order[i].repo == r;
      assert Rewritten(w, s', order[i].repo);
    }
    forall r ensures r !in s'.dirty {}
    assert s'.dirty == map[];
  }

  lemma Here(s: State)
    ensures Reaches(s, s)
  {
    assert Exec(s, []) == s;
  }

  // ---- one task by itself ----

  /** A mutation nobody disturbs marks its repository twice and answers. If it succeeds, its
      operation is the last of the history and the metadata is what the operation makes of
      it; if it fails, neither has changed. Files and other tasks stay as they were. */
  lemma SoloMutate(s: State, t: nat, ok: bool)
    requires t < |s.tasks| && s.tasks[t].Mutator? && s.tasks[t].mpc.MStart?
    ensures var op := s.tasks[t].op;
            var marks := if op.repo in s.dirty then s.dirty[op.repo] else 0;
            Reaches(s, s.(meta := if ok then Apply(s.meta, op) else s.meta,
                          log := if ok then s.log + [Entry(op, t)] else s.log,
                          dirty := s.dirty[op.repo := marks + 2],
                          tasks := s.tasks[t := Mutator(op, MReturned)]))
  {
    hide Reaches, Apply, FlushStep, ReaderStep;
    var op, go := s.tasks[t].op, Run(t, ok, Array([]));
    var applied := s.(meta := if ok then Apply(s.meta, op) else s.meta,
                      log := if ok then s.log + [Entry(op, t)] else s.log);
    Here(s);
    Onward(s, s, go);
    Onward(s, Solo(s, t, op, 1, MMarked), go);
    SoloApplies(s, t, ok);
    Onward(s, Solo(applied, t, op, 1, MApplied), go);
    SoloReturns(applied, t, ok);
  }

  function Solo(s: State, t: nat, op: MetaOp, marks: nat, mpc: MutatorPc): State
    requires t < |s.tasks|
  {
    s.(dirty := s.dirty[op.repo := Generation(s, op.repo) + marks], tasks := s.tasks[t := Mutator(op, mpc)])
  }

  lemma SoloApplies(s: State, t: nat, ok: bool)
    requires t < |s.tasks| && s.tasks[t].Mutator?
    ensures var op := s.tasks[t].op;
            MutatorStep(Solo(s, t, op, 1, MMarked), t, ok) ==
            Solo(s.(meta := if ok then Apply(s.meta, op) else s.meta,
                    log := if ok then s.log + [Entry(op, t)] else s.log), t, op, 1, MApplied)
  {
    hide Apply;
    var op := s.tasks[t].op;
    assert s.tasks[t := Mutator(op, MMarked)][t := Mutator(op, MApplied)] == s.tasks[t := Mutator(op, MApplied)];
  }

  lemma SoloReturns(s: State, t: nat, ok: bool)
    requires t < |s.tasks| && s.tasks[t].Mutator?
    ensures var op := s.tasks[t].op;
            MutatorStep(Solo(s, t, op, 1, MApplied), t, ok) == Solo(s, t, op, 2, MReturned)
  {
    hide Apply;
    var op, n := s.tasks[t].op, Generation(s, s.tasks[t].op.repo);
    assert s.tasks[t := Mutator(op, MApplied)][t := Mutator(op, MReturned)] == s.tasks[t := Mutator(op, MReturned)];
    assert s.dirty[op.repo := n + 1][op.repo := n + 2] == s.dirty[op.repo := n + 2];
  }

  /** A read nobody disturbs answers with the file as it is when the repository is clean,
      and otherwise with a rebuild of the metadata as it is now over that file; it changes
      nothing. */
  lemma SoloRead(s0: State, acts: seq<Action>, t: nat) returns (floor: set<nat>, view: View)
    requires Initial(s0)
    requires var s := Exec(s0, acts); t < |s.tasks| && s.tasks[t].Reader? && s.tasks[t].rpc.RStart?
    ensures var s := Exec(s0, acts);
            var repo := s.tasks[t].repo;
            && Reaches(s, s.(tasks := s.tasks[t := Reader(repo, RDone(floor, view))]))
            && (repo !in s.dirty ==>
                  view.index == if repo in s.disk then s.disk[repo].index
                                else Obj(map[FSchemaVersion := Number(2), FMediaType := Text(MEDIA_TYPE_INDEX),
                                             FManifests := Array([])]))
            && (repo in s.dirty ==>
                  IsRebuild(RepoOf(s.meta, repo), if repo in s.disk then Some(s.disk[repo].index) else None,
                            view.index))
  {
    var s := Exec(s0, acts);
    InitialInv(s0);
    ExecKeepsInv(s0, acts);
    hide Exec, Initial, DiskSound, ReadersSound, FlusherSound, LogSound;
    floor := Acknowledged(s, s.tasks[t].repo);
    if s.tasks[t].repo in s.dirty {
      view := SoloDerives(s, t);
    } else {
      view := OnDisk(s, s.tasks[t].repo);
      SoloReadsFile(s, t);
    }
  }

  lemma SoloReadsFile(s: State, t: nat)
    requires t < |s.tasks| && s.tasks[t].Reader? && s.tasks[t].rpc.RStart? && s.tasks[t].repo !in s.dirty
    ensures var repo := s.tasks[t].repo;
            Reaches(s, Goto(s, t, Reader(repo, RDone(Acknowledged(s, repo), OnDisk(s, repo)))))
  {
    hide Reaches, Acknowledged;
    var repo, go := s.tasks[t].repo, Run(t, true, Array([]));
    Here(s);
    Onward(s, s, go);
    Onward(s, Goto(s, t, Reader(repo, RClean(Acknowledged(s, repo)))), go);
    GotoTwice(s, t, Reader(repo, RClean(Acknowledged(s, repo))),
              Reader(repo, RDone(Acknowledged(s, repo), OnDisk(s, repo))));
  }

  lemma GotoTwice(s: State, t: nat, first: Task, second: Task)
    requires t < |s.tasks|
    ensures Goto(Goto(s, t, first), t, second) == Goto(s, t, second)
  {
    assert s.tasks[t := first][t := second] == s.tasks[t := second];
  }

  lemma SoloDerives(s: State, t: nat) returns (view: View)
    requires LogSound(s) && t < |s.tasks| && s.tasks[t].Reader? && s.tasks[t].rpc.RStart? && s.tasks[t].repo in s.dirty
    ensures var repo := s.tasks[t].repo;
            && Reaches(s, Goto(s, t, Reader(repo, RDone(Acknowledged(s, repo), view))))
            && IsRebuild(RepoOf(s.meta, repo), DiskIndex(s, repo), view.index)
  {
    hide Reaches, Acknowledged, IsRebuild, LogSound, RepoOf;
    var repo, floor := s.tasks[t].repo, Acknowledged(s, s.tasks[t].repo);
    var existing := DiskIndex(s, repo);
    var index := SomeRebuild(RepoOf(s.meta, repo), existing);
    view := Fresh(s, repo, index);
    var go := Run(t, true, index);
    var pcs := [RDirty(floor), RExisting(floor, existing), RHalf(floor, existing, |s.log|), RDone(floor, view)];
    Here(s);
    Onward(s, s, go);
    GotoTwice(s, t, Reader(repo, pcs[0]), Reader(repo, pcs[1]));
    Onward(s, Goto(s, t, Reader(repo, pcs[0])), go);
    GotoTwice(s, t, Reader(repo, pcs[1]), Reader(repo, pcs[2]));
    Onward(s, Goto(s, t, Reader(repo, pcs[1])), go);
    var s3 := Goto(s, t, Reader(repo, pcs[2]));
    assert Derive(s3, repo, |s.log|, index) == view by { DeriveNow(s, s3, repo, index); }
    GotoTwice(s, t, Reader(repo, pcs[2]), Reader(repo, pcs[3]));
    Onward(s, s3, go);
  }
}
