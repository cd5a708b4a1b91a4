// What the collection protocol guarantees over whole runs.

module GcSafety {
  import opened Core
  import opened Json
  import opened Metadata
  import opened GcProtocol
  import Manifests

  // ---- who can remove a blob, and what protects it ----

  predicate IsRemoval(task: Task) {
    task.kind.RemoveBlob? || task.kind.RemoveManifest?
  }

  // The task is a sweep about to delete `k`.
  predicate Sweeps(task: Task, k: Key) {
    && task.kind.Sweep? && task.pc.Sweeping? && task.pc.stage.Delete?
    && task.pc.i < |task.pc.due| && task.pc.due[task.pc.i] == k
  }

  // Something keeps `k` from being collected.
  predicate Shielded(e: Env, sh: Shared, k: Key) {
    || k in e.roots
    || k.repo in e.unsafeRepos
    || Backrefs(sh.meta, k) != {}
    || IsManifest(sh.meta, k)
  }

  // A blob leaves the store only by a client's delete of that very blob, which
  // withdraws it, or by a sweep that stands right before deleting it.
  lemma LeavesOnlyBy(e: Env, sh: Shared, task: Task, ok: bool, order: seq<Key>, k: Key)
    requires k in sh.cas && k !in TaskStep(e, sh, task, ok, order).sh.cas
    ensures Sweeps(task, k) || (IsRemoval(task) && task.key == k && k in TaskStep(e, sh, task, ok, order).sh.withdrawn)
  {
    hide PushStep, CommitStep, CheckStep, SweepStep, RemoveStep;
  }

  lemma WithdrawnOnlyByClients(e: Env, sh: Shared, task: Task, ok: bool, order: seq<Key>)
    ensures TaskStep(e, sh, task, ok, order).sh.withdrawn <=
            sh.withdrawn + (if IsRemoval(task) then {task.key} else {})
  {
    hide PushStep, CommitStep, CheckStep, SweepStep, RemoveStep;
  }

  lemma MetaGrows(e: Env, sh: Shared, task: Task, ok: bool, order: seq<Key>)
    requires !IsRemoval(task)
    ensures var sh' := TaskStep(e, sh, task, ok, order).sh;
            sh'.meta == sh.meta || sh'.meta == Apply(sh.meta, CommitOp(task))
  {
    hide PushStep, CommitStep, CheckStep, SweepStep, RemoveStep;
  }

  lemma ShieldKept(e: Env, sh: Shared, task: Task, ok: bool, order: seq<Key>, k: Key)
    requires !IsRemoval(task) && Shielded(e, sh, k)
    ensures Shielded(e, TaskStep(e, sh, task, ok, order).sh, k)
  {
    hide TaskStep;
    MetaGrows(e, sh, task, ok, order);
    BackrefsAfter(sh.meta, CommitOp(task), k);
    ManifestsAfter(sh.meta, CommitOp(task), k);
  }

  // ---- safety over whole runs ----

  // Nothing is running yet; blobs, metadata, candidates and roots are arbitrary.
  predicate Initial(s: State) {
    && s.tasks == [] && s.sh.readers == 0 && !s.sh.writer
    && s.sh.committed == map[] && s.sh.withdrawn == {}
  }

  predicate NoRemovalTask(s: State) {
    forall t | 0 <= t < |s.tasks| :: !IsRemoval(s.tasks[t])
  }

  // A run in which no client asks for a delete.
  predicate NoRemovals(acts: seq<Action>) {
    forall i | 0 <= i < |acts| :: acts[i].Spawn? ==> !IsRemoval(acts[i].task)
  }

  lemma QuietStep(s: State, a: Action)
    requires NoRemovalTask(s) && (a.Spawn? ==> !IsRemoval(a.task))
    ensures NoRemovalTask(Step(s, a))
    ensures Step(s, a).sh.withdrawn <= s.sh.withdrawn
  {
    hide TaskStep;
    if a.Run? && a.t < |s.tasks| {
      WithdrawnOnlyByClients(s.env, s.sh, s.tasks[a.t], a.ok, a.order);
    }
  }

  lemma {:induction false} QuietRun(s: State, acts: seq<Action>)
    requires NoRemovalTask(s) && NoRemovals(acts)
    ensures Exec(s, acts).sh.withdrawn <= s.sh.withdrawn
    decreases |acts|
  {
    if acts != [] {
      assert acts[0].Spawn? ==> !IsRemoval(acts[0].task);
      assert NoRemovals(acts[1..]) by {
        forall i | 0 <= i < |acts[1..]| && acts[1..][i].Spawn? ensures !IsRemoval(acts[1..][i].task) {
          assert acts[1..][i] == acts[i + 1];
        }
      }
      QuietStep(s, acts[0]);
      QuietRun(Step(s, acts[0]), acts[1..]);
    }
  }

  // In every run, every manifest committed and not deleted by a client has its own blob and
  // whatever its config and layers name stored, except what a client deleted itself.
  lemma CommittedStayStored(s: State, acts: seq<Action>, k: Key)
    requires Initial(s) && k in Exec(s, acts).sh.committed
    ensures var sh := Exec(s, acts).sh;
            && (k in sh.cas || k in sh.withdrawn)
            && forall r | Manifests.Needs(sh.committed[k], r) ::
                 Key(k.repo, r) in sh.cas || Key(k.repo, r) in sh.withdrawn
  {
    hide Exec, Manifests.Needs, Manifests.Required;
    ExecKeepsInv(s, acts);
    var sh := Exec(s, acts).sh;
    assert CommitKept(sh, k, sh.committed[k]);
    forall r | Manifests.Needs(sh.committed[k], r) ensures Held(sh, Key(k.repo, r)) {
      Manifests.RequiredIsNeeded(sh.committed[k], r);
    }
  }

  // Without client deletes nothing a committed manifest needs is ever missing.
  lemma CollectionIsSafe(s: State, acts: seq<Action>, k: Key)
    requires Initial(s) && NoRemovals(acts) && k in Exec(s, acts).sh.committed
    ensures var sh := Exec(s, acts).sh;
            k in sh.cas && forall r | Manifests.Needs(sh.committed[k], r) :: Key(k.repo, r) in sh.cas
  {
    hide Exec, Manifests.Needs;
    QuietRun(s, acts);
    CommittedStayStored(s, acts, k);
  }

  // A blob that is a root, a manifest, referenced, or in a repository the startup
  // check could not read, survives every step without a client delete.
  lemma ShieldedStep(s: State, a: Action, k: Key)
    requires Inv(s) && NoRemovalTask(s)
    requires k in s.sh.cas && Shielded(s.env, s.sh, k)
    ensures k in Step(s, a).sh.cas && Shielded(Step(s, a).env, Step(s, a).sh, k)
  {
    hide TaskStep;
    if a.Run? && a.t < |s.tasks| {
      var task := s.tasks[a.t];
      assert TaskSound(s.env, s.sh, task);
      assert !IsRemoval(task);
      ShieldKept(s.env, s.sh, task, a.ok, a.order, k);
      if k !in TaskStep(s.env, s.sh, task, a.ok, a.order).sh.cas {
        LeavesOnlyBy(s.env, s.sh, task, a.ok, a.order, k);
      }
    }
  }

  lemma {:induction false} ShieldedSurvives(s: State, acts: seq<Action>, k: Key)
    requires Inv(s) && NoRemovalTask(s) && NoRemovals(acts)
    requires k in s.sh.cas && Shielded(s.env, s.sh, k)
    ensures k in Exec(s, acts).sh.cas
    decreases |acts|
  {
    if acts != [] {
      assert acts[0].Spawn? ==> !IsRemoval(acts[0].task);
      assert NoRemovals(acts[1..]) by {
        forall i | 0 <= i < |acts[1..]| && acts[1..][i].Spawn? ensures !IsRemoval(acts[1..][i].task) {
          assert acts[1..][i] == acts[i + 1];
        }
      }
      StepKeepsInv(s, acts[0]);
      QuietStep(s, acts[0]);
      ShieldedStep(s, acts[0], k);
      ShieldedSurvives(Step(s, acts[0]), acts[1..], k);
    }
  }

  // ---- exclusive sections are short ----

  predicate ShortSection(task: Task) {
    task.pc.Sweeping? ==> task.pc.lo <= task.pc.i <= task.pc.lo + 256
  }

  lemma SweepStaysShort(e: Env, sh: Shared, task: Task, ok: bool, order: seq<Key>)
    requires ShortSection(task)
    ensures ShortSection(task.(pc := SweepStep(e, sh, task, ok, order).pc))
  {
    hide IsDue, Backrefs, IsManifest, Digests.Parses;
  }

  lemma StepStaysShort(s: State, a: Action)
    requires forall t | 0 <= t < |s.tasks| :: ShortSection(s.tasks[t])
    ensures forall t | 0 <= t < |Step(s, a).tasks| :: ShortSection(Step(s, a).tasks[t])
  {
    hide SweepStep, Backrefs, IsManifest, Manifests.Required, Manifests.References;
    if a.Run? && a.t < |s.tasks| && s.tasks[a.t].kind.Sweep? {
      SweepStaysShort(s.env, s.sh, s.tasks[a.t], a.ok, a.order);
    }
  }

  /** In every run a sweep handles at most 256 candidates between taking the fence and
      giving it back. */
  lemma SectionsAreShort(s: State, acts: seq<Action>, t: nat)
    requires Initial(s) && t < |Exec(s, acts).tasks| && Exec(s, acts).tasks[t].pc.Sweeping?
    ensures var pc := Exec(s, acts).tasks[t].pc; pc.lo <= pc.i <= pc.lo + 256
  {
    RunStaysShort(s, acts);
    assert ShortSection(Exec(s, acts).tasks[t]);
  }

  lemma {:induction false} RunStaysShort(s: State, acts: seq<Action>)
    requires forall t | 0 <= t < |s.tasks| :: ShortSection(s.tasks[t])
    ensures forall t | 0 <= t < |Exec(s, acts).tasks| :: ShortSection(Exec(s, acts).tasks[t])
    decreases |acts|
  {
    hide Step;
    if acts != [] {
      StepStaysShort(s, acts[0]);
      RunStaysShort(Step(s, acts[0]), acts[1..]);
    }
  }
}
