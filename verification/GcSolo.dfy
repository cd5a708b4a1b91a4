// What the step protocol computes when a task has the store to itself: the steps add up
// to the call they stand for.

module GcSolo {
  import opened Core
  import opened Json
  import opened Metadata
  import opened GcProtocol
  import Manifests
  import Digests

  // One undisturbed step in which every store call succeeds.
  function Next(e: Env, task: Task, order: seq<Key>, m: Move): Move {
    TaskStep(e, m.sh, task.(pc := m.pc), true, order)
  }

  function Alone(e: Env, task: Task, order: seq<Key>, m: Move, n: nat): Move {
    if n == 0 then m else Next(e, task, order, Alone(e, task, order, m, n - 1))
  }

  ghost predicate Leads(e: Env, task: Task, order: seq<Key>, from: Move, to: Move) {
    exists n: nat :: Alone(e, task, order, from, n) == to
  }

  lemma LeadsHere(e: Env, task: Task, order: seq<Key>, m: Move)
    ensures Leads(e, task, order, m, m)
  {
    assert Alone(e, task, order, m, 0) == m;
  }

  lemma Onward(e: Env, task: Task, order: seq<Key>, from: Move, m: Move, m': Move)
    requires Leads(e, task, order, from, m) && Next(e, task, order, m) == m'
    ensures Leads(e, task, order, from, m')
  {
    hide Next;
    var n: nat :| Alone(e, task, order, from, n) == m;
    assert Alone(e, task, order, from, n + 1) == m';
  }

  // ---- a commit ----

  // The manifest's blob is stored, and listed unless something wants it already.
  function Landed(sh: Shared, k: Key): Shared {
    var listed := if Backrefs(sh.meta, k) == {} && !IsManifest(sh.meta, k) then sh.candidates[k := sh.clock]
        else sh.candidates;
    Published(sh, k).(candidates := listed)
  }

  lemma SoloStore(e: Env, task: Task, sh: Shared)
    requires task.kind.Commit? && !sh.writer
    ensures Leads(e, task, [], Move(sh, Start), Move(Pin(Landed(sh, task.key)), Verify(0)))
  {
    hide Leads, Backrefs, IsManifest;
    var from, k := Move(sh, Start), task.key;
    LeadsHere(e, task, [], from);
    var p := Pin(Pin(sh));
    var s := Published(p, k);
    Onward(e, task, [], from, from, Move(Pin(sh), Outer));
    Onward(e, task, [], from, Move(Pin(sh), Outer), Move(p, Pinned));
    Onward(e, task, [], from, Move(p, Pinned), Move(s, Stored));
    if Backrefs(sh.meta, k) != {} {
      Onward(e, task, [], from, Move(s, Stored), Move(s, Leaving));
      Onward(e, task, [], from, Move(s, Leaving), Move(Pin(Landed(sh, k)), Verify(0)));
    } else {
      SoloListing(e, task, sh);
    }
  }

  lemma SoloListing(e: Env, task: Task, sh: Shared)
    requires task.kind.Commit? && !sh.writer && Backrefs(sh.meta, task.key) == {}
    requires Leads(e, task, [], Move(sh, Start), Move(Published(Pin(Pin(sh)), task.key), Stored))
    ensures Leads(e, task, [], Move(sh, Start), Move(Pin(Landed(sh, task.key)), Verify(0)))
  {
    hide Leads, Backrefs, IsManifest;
    var from, k := Move(sh, Start), task.key;
    var s := Published(Pin(Pin(sh)), k);
    Onward(e, task, [], from, Move(s, Stored), Move(s, Unreferenced));
    if IsManifest(sh.meta, k) {
      Onward(e, task, [], from, Move(s, Unreferenced), Move(s, Leaving));
      Onward(e, task, [], from, Move(s, Leaving), Move(Pin(Landed(sh, k)), Verify(0)));
    } else {
      var l := MarkAt(s, k, sh.clock);
      Onward(e, task, [], from, Move(s, Unreferenced), Move(s, Loose));
      Onward(e, task, [], from, Move(s, Loose), Move(s, Mark(sh.clock)));
      Onward(e, task, [], from, Move(s, Mark(sh.clock)), Move(l, Leaving));
      Onward(e, task, [], from, Move(l, Leaving), Move(Pin(Landed(sh, k)), Verify(0)));
    }
  }

  // The same but for the stamps of candidates.
  predicate SameButStamps(sh: Shared, sh': Shared) {
    sh' == sh.(candidates := sh'.candidates) && sh'.candidates.Keys == sh.candidates.Keys
  }

  predicate AllStored(sh: Shared, repo: Repo, ds: seq<Digest>) {
    forall d | d in ds :: Key(repo, d) in sh.cas
  }

  // The re-check passes over every required blob, or stops at the first one missing.
  lemma {:induction false} SoloRecheck(e: Env, task: Task, from: Move, sh: Shared, n: nat) returns (sh': Shared)
    requires task.kind.Commit? && !sh.writer && n <= |RequiredOf(task.doc)|
    requires Leads(e, task, [], from, Move(sh, Verify(n)))
    ensures SameButStamps(sh, sh')
    ensures var rest := RequiredOf(task.doc)[n..];
            Leads(e, task, [], from,
                  Move(sh', if AllStored(sh, task.key.repo, rest) then Verify(|RequiredOf(task.doc)|) else Release))
    decreases |RequiredOf(task.doc)| - n
  {
    hide Leads, RequiredOf;
    var required := RequiredOf(task.doc);
    if n == |required| {
      assert required[n..] == [];
      return sh;
    }
    var k := Key(task.key.repo, required[n]);
    var t := TouchNow(sh, k);
    SoloTouch(e, task, from, sh, n);
    assert required[n..] == [required[n]] + required[n + 1..];
    if k in sh.cas {
      Onward(e, task, [], from, Move(t, VerifyHead(n)), Move(t, Verify(n + 1)));
      sh' := SoloRecheck(e, task, from, t, n + 1);
    } else {
      Onward(e, task, [], from, Move(t, VerifyHead(n)), Move(t, Release));
      sh' := t;
    }
  }

  lemma SoloTouch(e: Env, task: Task, from: Move, sh: Shared, n: nat)
    requires task.kind.Commit? && !sh.writer && n < |RequiredOf(task.doc)|
    requires Leads(e, task, [], from, Move(sh, Verify(n)))
    ensures Leads(e, task, [], from, Move(TouchNow(sh, Key(task.key.repo, RequiredOf(task.doc)[n])), VerifyHead(n)))
    ensures SameButStamps(sh, TouchNow(sh, Key(task.key.repo, RequiredOf(task.doc)[n])))
  {
    hide Leads, RequiredOf;
    var k := Key(task.key.repo, RequiredOf(task.doc)[n]);
    Onward(e, task, [], from, Move(sh, Verify(n)), Move(Pin(sh), VerifyPinned(n)));
    Onward(e, task, [], from, Move(Pin(sh), VerifyPinned(n)), Move(TouchNow(Pin(sh), k), VerifyUnpin(n)));
    Onward(e, task, [], from, Move(TouchNow(Pin(sh), k), VerifyUnpin(n)), Move(TouchNow(sh, k), VerifyHead(n)));
  }

  // The references from number `n` on, counting from one.
  function Later(task: Task, n: nat): set<Key>
    requires 1 <= n <= |Manifests.References(task.doc)| + 1
  {
    set d | d in Manifests.References(task.doc)[n - 1..] :: Key(task.key.repo, d)
  }

  lemma LaterSplits(task: Task, n: nat)
    requires 1 <= n <= |Manifests.References(task.doc)|
    ensures Later(task, n) == {Key(task.key.repo, Manifests.References(task.doc)[n - 1])} + Later(task, n + 1)
  {
    var references := Manifests.References(task.doc);
    assert references[n - 1..] == [references[n - 1]] + references[n..];
  }

  lemma {:induction false} SoloClear(e: Env, task: Task, from: Move, sh: Shared, n: nat)
    requires task.kind.Commit? && 1 <= n <= |Manifests.References(task.doc)| + 1
    requires Leads(e, task, [], from, Move(sh, Clear(n)))
    ensures Leads(e, task, [], from, Move(sh.(candidates := sh.candidates - Later(task, n)), Release))
    decreases |Manifests.References(task.doc)| - n + 1
  {
    hide Leads, Manifests.References;
    if n == |Manifests.References(task.doc)| + 1 {
      assert sh.candidates - Later(task, n) == sh.candidates;
      Onward(e, task, [], from, Move(sh, Clear(n)), Move(sh, Release));
    } else {
      hide Later;
      var k := Key(task.key.repo, Manifests.References(task.doc)[n - 1]);
      var f := Forgotten(sh, k);
      Onward(e, task, [], from, Move(sh, Clear(n)), Move(f, Clear(n + 1)));
      SoloClear(e, task, from, f, n + 1);
      LaterSplits(task, n);
      assert f.candidates - Later(task, n + 1) == sh.candidates - Later(task, n);
    }
  }

  // Everything a commit takes off the candidates.
  function LinkedBy(task: Task): set<Key> {
    Linked(task.key.repo, task.key.digest, Manifests.References(task.doc))
  }

  lemma CommitSteps(e: Env, task: Task, sh: Shared) returns (sh': Shared)
    requires task.kind.Commit? && !sh.writer && Manifests.Required(task.doc).Ok?
    ensures Leads(e, task, [], Move(sh, Start), Move(sh', Done))
    ensures sh'.cas == sh.cas + {task.key} && sh'.readers == sh.readers && sh'.writer == sh.writer
    ensures AllStored(sh', task.key.repo, RequiredOf(task.doc)) ==>
              && sh'.meta == Apply(sh.meta, CommitOp(task)) && sh'.committed == sh.committed[task.key := task.doc]
              && sh'.candidates.Keys == sh.candidates.Keys - LinkedBy(task)
    ensures !AllStored(sh', task.key.repo, RequiredOf(task.doc)) ==>
            sh'.meta == sh.meta && sh'.committed == sh.committed
  {
    hide Leads, RequiredOf, Manifests.Required, Manifests.References, Backrefs, IsManifest, Apply;
    var from, required := Move(sh, Start), RequiredOf(task.doc);
    SoloStore(e, task, sh);
    var landed := Pin(Landed(sh, task.key));
    var seen := SoloRecheck(e, task, from, landed, 0);
    assert required[0..] == required;
    if AllStored(landed, task.key.repo, required) {
      sh' := SoloPoint(e, task, from, seen);
    } else {
      sh' := Unpin(seen);
      Onward(e, task, [], from, Move(seen, Release), Move(sh', Done));
    }
  }

  // Whatever the config and the layers name is stored.
  ghost predicate NeedsStored(doc: Json, repo: Repo, cas: set<Key>) {
    forall r | Manifests.Needs(doc, r) :: Key(repo, r) in cas
  }

  // `k` is something the manifest mentions, in its repository.
  ghost predicate MentionsKey(task: Task, k: Key) {
    k.repo == task.key.repo && Manifests.Mentions(task.doc, k.digest)
  }

  lemma StoredIsNeeded(task: Task, sh: Shared)
    requires Manifests.Required(task.doc).Ok?
    ensures AllStored(sh, task.key.repo, RequiredOf(task.doc)) <==> NeedsStored(task.doc, task.key.repo, sh.cas)
  {
    hide Manifests.Needs, Manifests.Required;
    forall r ensures r in RequiredOf(task.doc) <==> Manifests.Needs(task.doc, r) {
      Manifests.RequiredIsNeeded(task.doc, r);
    }
  }

  /** An undisturbed commit stores its blob and ends with the fence released. It commits
      exactly when everything its config and layers name is stored: then the manifest is
      known, everything it mentions has an edge to it, and neither that nor itself is a
      candidate; otherwise the metadata is untouched. */
  lemma SoloCommit(e: Env, task: Task, sh: Shared) returns (sh': Shared)
    requires task.kind.Commit? && !sh.writer && Manifests.Required(task.doc).Ok?
    ensures Leads(e, task, [], Move(sh, Start), Move(sh', Done))
    ensures sh'.cas == sh.cas + {task.key} && sh'.readers == sh.readers && sh'.writer == sh.writer
    ensures NeedsStored(task.doc, task.key.repo, sh'.cas) ==>
              && sh'.committed == sh.committed[task.key := task.doc]
              && (forall k :: IsManifest(sh'.meta, k) <==> IsManifest(sh.meta, k) || k == task.key)
              && (forall k :: Backrefs(sh'.meta, k) == Backrefs(sh.meta, k) +
                    (if MentionsKey(task, k) then {task.key.digest} else {}))
              && (forall k :: k in sh'.candidates <==>
                    k in sh.candidates && k != task.key && !MentionsKey(task, k))
    ensures !NeedsStored(task.doc, task.key.repo, sh'.cas) ==> sh'.meta == sh.meta && sh'.committed == sh.committed
  {
    hide Leads, RequiredOf, Manifests.Required, Manifests.References, Manifests.Mentions, Manifests.Needs, NeedsStored,
         AllStored, Backrefs, IsManifest, Apply, LinkedBy;
    sh' := CommitSteps(e, task, sh);
    StoredIsNeeded(task, sh');
    if NeedsStored(task.doc, task.key.repo, sh'.cas) {
      forall k
        ensures IsManifest(sh'.meta, k) <==> IsManifest(sh.meta, k) || k == task.key
        ensures Backrefs(sh'.meta, k) == Backrefs(sh.meta, k) +
                  (if MentionsKey(task, k) then {task.key.digest} else {})
        ensures k in LinkedBy(task) <==> k == task.key || MentionsKey(task, k)
      {
        ManifestsAfter(sh.meta, CommitOp(task), k);
        BackrefsAfter(sh.meta, CommitOp(task), k);
        Manifests.ReferencesAreMentioned(task.doc, k.digest);
        InLinked(task, k);
      }
    }
  }

  lemma InLinked(task: Task, k: Key)
    ensures k in LinkedBy(task) <==>
            k == task.key || (k.repo == task.key.repo && k.digest in Manifests.References(task.doc))
  {
  }

  lemma LinkedAll(task: Task)
    ensures LinkedBy(task) == {task.key} + Later(task, 1)
  {
    assert Manifests.References(task.doc)[0..] == Manifests.References(task.doc);
  }

  lemma SoloPoint(e: Env, task: Task, from: Move, sh: Shared) returns (sh': Shared)
    requires task.kind.Commit? && sh.readers > 0 && Leads(e, task, [], from, Move(sh, Verify(|RequiredOf(task.doc)|)))
    ensures Leads(e, task, [], from, Move(sh', Done))
    ensures sh' == Unpin(Committed(sh, task)).(candidates := sh.candidates - LinkedBy(task))
  {
    hide Leads, RequiredOf, Manifests.References, Apply;
    var c := Committed(sh, task);
    Onward(e, task, [], from, Move(sh, Verify(|RequiredOf(task.doc)|)), Move(c, Clear(0)));
    var f := Forgotten(c, task.key);
    Onward(e, task, [], from, Move(c, Clear(0)), Move(f, Clear(1)));
    SoloClear(e, task, from, f, 1);
    var cleared := f.(candidates := f.candidates - Later(task, 1));
    assert cleared.candidates == sh.candidates - LinkedBy(task) by { LinkedAll(task); }
    sh' := Unpin(cleared);
    Onward(e, task, [], from, Move(cleared, Release), Move(sh', Done));
  }

  // ---- a sweep ----

  // The candidate is removed: due, wanted by nobody, and stored.
  predicate Doomed(e: Env, sh: Shared, k: Key, now: Time) {
    && IsDue(e, sh, k, now) && k !in e.roots && k.repo !in e.unsafeRepos
    && Backrefs(sh.meta, k) == {} && !IsManifest(sh.meta, k)
    && Digests.Parses(k.digest) && k in sh.cas
  }

  // On to the next candidate.
  function Passed(pc: Pc): Pc
    requires pc.Sweeping?
  {
    Sweeping(pc.now, pc.due, pc.lo, pc.i + 1, Due)
  }

  // One candidate settled: at most its blob and its entry are gone.
  predicate Settled(e: Env, sh: Shared, k: Key, now: Time, sh': Shared) {
    && sh' == sh.(cas := sh.cas - (if Doomed(e, sh, k, now) then {k} else {}), candidates := sh'.candidates)
    && (sh'.candidates == sh.candidates || sh'.candidates == sh.candidates - {k})
  }

  lemma {:induction false} SoloCandidate(e: Env, task: Task, order: seq<Key>, from: Move, sh: Shared, pc: Pc)
    returns (sh': Shared)
    requires task.kind.Sweep? && pc.Sweeping? && pc.stage.Due? && pc.i < BatchEnd(pc.due, pc.lo)
    requires Leads(e, task, order, from, Move(sh, pc))
    ensures Settled(e, sh, pc.due[pc.i], pc.now, sh')
    ensures Leads(e, task, order, from, Move(sh', Passed(pc)))
  {
    hide Leads, Backrefs, IsManifest, IsDue, Digests.Parses;
    var k, done := pc.due[pc.i], Passed(pc);
    if !IsDue(e, sh, k, pc.now) {
      sh' := sh;
      Onward(e, task, order, from, Move(sh, pc), Move(sh, done));
      return;
    }
    Onward(e, task, order, from, Move(sh, pc), Move(sh, pc.(stage := Root)));
    if k in e.roots {
      sh' := Forgotten(sh, k);
      Onward(e, task, order, from, Move(sh, pc.(stage := Root)), Move(sh', done));
      return;
    }
    Onward(e, task, order, from, Move(sh, pc.(stage := Root)), Move(sh, pc.(stage := Unsafe)));
    if k.repo in e.unsafeRepos {
      sh' := sh;
      Onward(e, task, order, from, Move(sh, pc.(stage := Unsafe)), Move(sh, done));
      return;
    }
    Onward(e, task, order, from, Move(sh, pc.(stage := Unsafe)), Move(sh, pc.(stage := Backref)));
    sh' := SoloUnwanted(e, task, order, from, sh, pc);
  }

  lemma SoloUnwanted(e: Env, task: Task, order: seq<Key>, from: Move, sh: Shared, pc: Pc) returns (sh': Shared)
    requires task.kind.Sweep? && pc.Sweeping? && pc.stage.Due? && pc.i < BatchEnd(pc.due, pc.lo)
    requires var k := pc.due[pc.i]; IsDue(e, sh, k, pc.now) && k !in e.roots && k.repo !in e.unsafeRepos
    requires Leads(e, task, order, from, Move(sh, pc.(stage := Backref)))
    ensures Settled(e, sh, pc.due[pc.i], pc.now, sh')
    ensures Leads(e, task, order, from, Move(sh', Passed(pc)))
  {
    hide Leads, Backrefs, IsManifest, IsDue, Digests.Parses;
    var k, done := pc.due[pc.i], Passed(pc);
    sh' := Forgotten(sh, k);
    if Backrefs(sh.meta, k) != {} {
      Onward(e, task, order, from, Move(sh, pc.(stage := Backref)), Move(sh', done));
      return;
    }
    Onward(e, task, order, from, Move(sh, pc.(stage := Backref)), Move(sh, pc.(stage := Media)));
    if IsManifest(sh.meta, k) {
      Onward(e, task, order, from, Move(sh, pc.(stage := Media)), Move(sh', done));
      return;
    }
    Onward(e, task, order, from, Move(sh, pc.(stage := Media)), Move(sh, pc.(stage := Head)));
    sh' := SoloDelete(e, task, order, from, sh, pc);
  }

  lemma SoloDelete(e: Env, task: Task, order: seq<Key>, from: Move, sh: Shared, pc: Pc) returns (sh': Shared)
    requires task.kind.Sweep? && pc.Sweeping? && pc.stage.Due? && pc.i < BatchEnd(pc.due, pc.lo)
    requires Leads(e, task, order, from, Move(sh, pc.(stage := Head)))
    ensures var k := pc.due[pc.i];
            sh' == sh.(cas := sh.cas - (if Digests.Parses(k.digest) then {k} else {}),
                       candidates := sh.candidates - {k})
            || (sh' == Forgotten(sh, k) && !(Digests.Parses(k.digest) && k in sh.cas))
    ensures Leads(e, task, order, from, Move(sh', Passed(pc)))
  {
    hide Leads, Digests.Parses;
    var k, done := pc.due[pc.i], Passed(pc);
    sh' := Forgotten(sh, k);
    if !Digests.Parses(k.digest) || k !in sh.cas {
      Onward(e, task, order, from, Move(sh, pc.(stage := Head)), Move(sh', done));
      return;
    }
    var c := Collected(sh, k);
    Onward(e, task, order, from, Move(sh, pc.(stage := Head)), Move(sh, pc.(stage := Delete)));
    Onward(e, task, order, from, Move(sh, pc.(stage := Delete)), Move(c, pc.(stage := Forget)));
    sh' := Forgotten(c, k);
    Onward(e, task, order, from, Move(c, pc.(stage := Forget)), Move(sh', done));
  }

  // The blobs a sweep of `due` removes, judged by the state it started in.
  function DoomedIn(e: Env, sh: Shared, due: seq<Key>, now: Time): set<Key> {
    set k | k in due && Doomed(e, sh, k, now)
  }

  // Candidates before `i` are settled, the others as they were at the start.
  predicate SweptTo(e: Env, start: Shared, sh: Shared, due: seq<Key>, now: Time, i: nat)
    requires i <= |due|
  {
    && sh == start.(cas := start.cas - DoomedIn(e, start, due[..i], now), candidates := sh.candidates,
                    writer := sh.writer)
    && sh.candidates.Keys <= start.candidates.Keys
    && (forall j | i <= j < |due| && due[j] in start.candidates ::
          due[j] in sh.candidates && sh.candidates[due[j]] == start.candidates[due[j]])
  }

  lemma SettledOne(e: Env, start: Shared, sh: Shared, due: seq<Key>, now: Time, i: nat, sh': Shared)
    requires i < |due| && DistinctKeys(due) && SweptTo(e, start, sh, due, now, i) && Settled(e, sh, due[i], now, sh')
    ensures SweptTo(e, start, sh', due, now, i + 1)
  {
    hide Backrefs, IsManifest, Digests.Parses;
    var k := due[i];
    assert due[..i + 1] == due[..i] + [k];
    assert k !in due[..i];
    assert Doomed(e, sh, k, now) <==> Doomed(e, start, k, now);
    assert DoomedIn(e, start, due[..i + 1], now) ==
           DoomedIn(e, start, due[..i], now) + (if Doomed(e, start, k, now) then {k} else {});
    assert sh'.cas == start.cas - DoomedIn(e, start, due[..i + 1], now);
  }

  lemma {:induction false} SoloBatch(e: Env, task: Task, order: seq<Key>, from: Move, start: Shared, sh: Shared, pc: Pc)
    returns (sh': Shared)
    requires task.kind.Sweep? && pc.Sweeping? && pc.stage.Due? && pc.lo <= pc.i <= BatchEnd(pc.due, pc.lo) &&
             DistinctKeys(pc.due)
    requires Leads(e, task, order, from, Move(sh, pc)) && SweptTo(e, start, sh, pc.due, pc.now, pc.i)
    ensures var end := BatchEnd(pc.due, pc.lo);
            Leads(e, task, order, from, Move(sh', Sweeping(pc.now, pc.due, pc.lo, end, Due))) &&
              SweptTo(e, start, sh', pc.due, pc.now, end) && sh'.writer == sh.writer
    decreases BatchEnd(pc.due, pc.lo) - pc.i
  {
    hide Leads, Doomed, DoomedIn, Backrefs, IsManifest, Digests.Parses;
    if pc.i == BatchEnd(pc.due, pc.lo) {
      sh' := sh;
    } else {
      var one := SoloCandidate(e, task, order, from, sh, pc);
      SettledOne(e, start, sh, pc.due, pc.now, pc.i, one);
      sh' := SoloBatch(e, task, order, from, start, one, Passed(pc));
    }
  }

  lemma {:induction false} SoloBatches(e: Env, task: Task, order: seq<Key>, from: Move, start: Shared, sh: Shared,
                                       now: Time, due: seq<Key>, lo: nat)
    returns (sh': Shared)
    requires task.kind.Sweep? && DistinctKeys(due) && lo <= |due| && !sh.writer && sh.readers == 0
    requires Leads(e, task, order, from, Move(sh, Batch(now, due, lo))) && SweptTo(e, start, sh, due, now, lo)
    ensures Leads(e, task, order, from, Move(sh', Done)) && SweptTo(e, start, sh', due, now, |due|) && !sh'.writer
    decreases |due| - lo
  {
    hide Leads, Doomed, DoomedIn, Backrefs, IsManifest, Digests.Parses;
    if lo == |due| {
      sh' := sh;
      Onward(e, task, order, from, Move(sh, Batch(now, due, lo)), Move(sh, Done));
    } else {
      var fenced := sh.(writer := true);
      Onward(e, task, order, from, Move(sh, Batch(now, due, lo)), Move(fenced, Sweeping(now, due, lo, lo, Due)));
      var end := BatchEnd(due, lo);
      var swept := SoloBatch(e, task, order, from, start, fenced, Sweeping(now, due, lo, lo, Due));
      var open := swept.(writer := false);
      Onward(e, task, order, from, Move(swept, Sweeping(now, due, lo, end, Due)), Move(open, Batch(now, due, end)));
      sh' := SoloBatches(e, task, order, from, start, open, now, due, end);
    }
  }

  lemma SweepSteps(e: Env, task: Task, sh: Shared, order: seq<Key>) returns (sh': Shared)
    requires task.kind.Sweep? && e.ready && !sh.writer && sh.readers == 0 && DistinctKeys(order)
    requires Elements(order) == (set k | k in sh.candidates && IsDue(e, sh, k, sh.clock))
    ensures Leads(e, task, order, Move(sh, Start), Move(sh', Done))
    ensures sh'.cas == sh.cas - (set k | k in sh.candidates && Doomed(e, sh, k, sh.clock))
    ensures sh'.meta == sh.meta && !sh'.writer && sh'.candidates.Keys <= sh.candidates.Keys
  {
    hide Leads, Backrefs, IsManifest, Digests.Parses;
    var from := Move(sh, Start);
    LeadsHere(e, task, order, from);
    Onward(e, task, order, from, from, Move(sh, Batch(sh.clock, order, 0)));
    assert order[..0] == [] && order[..|order|] == order;
    assert sh.cas - DoomedIn(e, sh, [], sh.clock) == sh.cas;
    sh' := SoloBatches(e, task, order, from, sh, sh, sh.clock, order, 0);
    assert DoomedIn(e, sh, order, sh.clock) == (set k | k in sh.candidates && Doomed(e, sh, k, sh.clock)) by {
      forall k | k in sh.candidates && Doomed(e, sh, k, sh.clock) ensures k in order { assert k in Elements(order); }
    }
  }

  /** An undisturbed sweep, over the candidates whose delay is over in whatever order,
      terminates with the fence open. It removes exactly the stored ones among them that are
      no root, in no unsafe repository, referenced by nothing and no manifest. */
  lemma SoloSweep(e: Env, task: Task, sh: Shared, order: seq<Key>) returns (sh': Shared)
    requires task.kind.Sweep? && e.ready && !sh.writer && sh.readers == 0 && DistinctKeys(order)
    requires forall k :: k in order <==> k in sh.candidates && IsDue(e, sh, k, sh.clock)
    ensures Leads(e, task, order, Move(sh, Start), Move(sh', Done))
    ensures forall k :: k in sh'.cas <==>
              k in sh.cas && !(&& k in sh.candidates
                               && (sh.candidates[k] + e.delay <= sh.clock || e.delay == 0)
                               && k !in e.roots && k.repo !in e.unsafeRepos
                               && Backrefs(sh.meta, k) == {} && !IsManifest(sh.meta, k) && Digests.Parses(k.digest))
    ensures sh'.meta == sh.meta && !sh'.writer && sh'.candidates.Keys <= sh.candidates.Keys
  {
    hide Leads, Backrefs, IsManifest, Digests.Parses;
    assert Elements(order) == (set k | k in sh.candidates && IsDue(e, sh, k, sh.clock));
    sh' := SweepSteps(e, task, sh, order);
  }

  // ---- a push, an existence check and a client's delete ----

  /** An undisturbed push stores its blob, takes back a withdrawal of it, and lists it as of
      now unless something refers to it or it is a manifest. Nothing else changes. */
  lemma SoloPush(e: Env, task: Task, sh: Shared) returns (sh': Shared)
    requires task.kind.Push? && !sh.writer
    ensures Leads(e, task, [], Move(sh, Start), Move(sh', Done))
    ensures sh' == sh.(cas := sh.cas + {task.key}, withdrawn := sh.withdrawn - {task.key}, candidates := sh'.candidates)
    ensures sh'.candidates == if Backrefs(sh.meta, task.key) == {} && !IsManifest(sh.meta, task.key)
                              then sh.candidates[task.key := sh.clock] else sh.candidates
  {
    hide Leads, Backrefs, IsManifest;
    var from, k := Move(sh, Start), task.key;
    LeadsHere(e, task, [], from);
    var p, s := Pin(sh), Published(Pin(sh), k);
    sh' := Landed(sh, k);
    Onward(e, task, [], from, from, Move(p, Pinned));
    Onward(e, task, [], from, Move(p, Pinned), Move(s, Stored));
    if Backrefs(sh.meta, k) != {} {
      Onward(e, task, [], from, Move(s, Stored), Move(s, Leaving));
      Onward(e, task, [], from, Move(s, Leaving), Move(sh', Done));
      return;
    }
    Onward(e, task, [], from, Move(s, Stored), Move(s, Unreferenced));
    if IsManifest(sh.meta, k) {
      Onward(e, task, [], from, Move(s, Unreferenced), Move(s, Leaving));
      Onward(e, task, [], from, Move(s, Leaving), Move(sh', Done));
      return;
    }
    var l := MarkAt(s, k, sh.clock);
    Onward(e, task, [], from, Move(s, Unreferenced), Move(s, Loose));
    Onward(e, task, [], from, Move(s, Loose), Move(s, Mark(sh.clock)));
    Onward(e, task, [], from, Move(s, Mark(sh.clock)), Move(l, Leaving));
    Onward(e, task, [], from, Move(l, Leaving), Move(sh', Done));
  }

  /** An undisturbed existence check stamps its blob with the present time if it is a
      candidate, and changes nothing else. */
  lemma SoloCheck(e: Env, task: Task, sh: Shared) returns (sh': Shared)
    requires task.kind.Check? && !sh.writer
    ensures Leads(e, task, [], Move(sh, Start), Move(sh', Done))
    ensures sh' == sh.(candidates := if task.key in sh.candidates then sh.candidates[task.key := sh.clock]
                                     else sh.candidates)
  {
    hide Leads;
    var from, k := Move(sh, Start), task.key;
    LeadsHere(e, task, [], from);
    var p := Pin(sh);
    Onward(e, task, [], from, from, Move(p, Touch));
    Onward(e, task, [], from, Move(p, Touch), Move(TouchNow(p, k), CheckUnpin));
    sh' := TouchNow(sh, k);
    Onward(e, task, [], from, Move(TouchNow(p, k), CheckUnpin), Move(sh', CheckHead));
    Onward(e, task, [], from, Move(sh', CheckHead), Move(sh', Done));
  }

  // The references from number `i` on that nothing refers to.
  function LooseFrom(m: Meta, repo: Repo, refs: seq<Digest>, i: nat): set<Key>
    requires i <= |refs|
  {
    set d | d in refs[i..] && Backrefs(m, Key(repo, d)) == {} :: Key(repo, d)
  }

  lemma LooseSplits(m: Meta, repo: Repo, refs: seq<Digest>, i: nat)
    requires i < |refs|
    ensures LooseFrom(m, repo, refs, i) ==
            LooseFrom(m, repo, refs, i + 1) +
            (if Backrefs(m, Key(repo, refs[i])) == {} then {Key(repo, refs[i])} else {})
  {
    hide Backrefs;
    assert refs[i..] == [refs[i]] + refs[i + 1..];
  }

  // One reference: listed if nothing refers to it.
  lemma RelistOne(e: Env, task: Task, from: Move, sh: Shared, refs: seq<Digest>, i: nat) returns (sh': Shared)
    requires task.kind.RemoveManifest? && i < |refs|
    requires Leads(e, task, [], from, Move(sh, RemoveMark(refs, i)))
    ensures Leads(e, task, [], from, Move(sh', RemoveMark(refs, i + 1)))
    ensures var k := Key(task.key.repo, refs[i]);
            sh' == if Backrefs(sh.meta, k) == {} then MarkAt(sh, k, sh.clock) else sh
  {
    hide Leads, Backrefs;
    var k := Key(task.key.repo, refs[i]);
    if Backrefs(sh.meta, k) == {} {
      sh' := MarkAt(sh, k, sh.clock);
      Onward(e, task, [], from, Move(sh, RemoveMark(refs, i)), Move(sh, RemoveStamp(refs, i, sh.clock)));
      Onward(e, task, [], from, Move(sh, RemoveStamp(refs, i, sh.clock)), Move(sh', RemoveMark(refs, i + 1)));
    } else {
      sh' := sh;
      Onward(e, task, [], from, Move(sh, RemoveMark(refs, i)), Move(sh, RemoveMark(refs, i + 1)));
    }
  }

  lemma {:induction false} SoloRelist(e: Env, task: Task, from: Move, sh: Shared, refs: seq<Digest>, i: nat)
    returns (sh': Shared)
    requires task.kind.RemoveManifest? && i <= |refs|
    requires Leads(e, task, [], from, Move(sh, RemoveMark(refs, i)))
    ensures Leads(e, task, [], from, Move(sh', Done))
    ensures sh' == sh.(candidates := sh'.candidates)
    ensures sh'.candidates.Keys == sh.candidates.Keys + LooseFrom(sh.meta, task.key.repo, refs, i)
    decreases |refs| - i
  {
    hide Leads, Backrefs;
    if i == |refs| {
      sh' := sh;
      assert LooseFrom(sh.meta, task.key.repo, refs, i) == {};
      Onward(e, task, [], from, Move(sh, RemoveMark(refs, i)), Move(sh, Done));
    } else {
      hide LooseFrom;
      var one := RelistOne(e, task, from, sh, refs, i);
      sh' := SoloRelist(e, task, from, one, refs, i + 1);
      LooseSplits(sh.meta, task.key.repo, refs, i);
    }
  }

  /** An undisturbed delete of a stored blob by a client removes exactly that blob and its
      entry among the candidates. If it is a manifest that is deleted, the metadata forgets
      it as well, and what it mentioned and nothing else refers to is listed. */
  lemma SoloRemove(e: Env, task: Task, sh: Shared) returns (sh': Shared)
    requires (task.kind.RemoveBlob? || task.kind.RemoveManifest?) && task.key in sh.cas
    ensures Leads(e, task, [], Move(sh, Start), Move(sh', Done))
    ensures sh'.cas == sh.cas - {task.key} && sh'.withdrawn == sh.withdrawn + {task.key}
    ensures sh'.readers == sh.readers && sh'.writer == sh.writer
    ensures task.kind.RemoveBlob? ==> sh'.meta == sh.meta && sh'.candidates == sh.candidates - {task.key}
    ensures task.kind.RemoveManifest? ==>
              && task.key !in sh'.committed
              && sh'.meta == Apply(sh.meta, DeleteManifest(task.key.repo, task.key.digest))
              && forall k :: k in sh'.candidates <==>
                   || (k in sh.candidates && k != task.key)
                   || (MentionsKey(task, k) && Backrefs(sh'.meta, k) == {})
  {
    hide Leads, Backrefs, Apply, Manifests.References, Manifests.Mentions;
    var from, k := Move(sh, Start), task.key;
    LeadsHere(e, task, [], from);
    var refs := if task.kind.RemoveManifest? then Manifests.References(task.doc) else [];
    var w := Withdrawn(sh, k);
    var f := Forgotten(w, k);
    Onward(e, task, [], from, from, Move(sh, RemoveHead(refs)));
    Onward(e, task, [], from, Move(sh, RemoveHead(refs)), Move(w, RemoveForget(refs)));
    if task.kind.RemoveBlob? {
      sh' := f;
      Onward(e, task, [], from, Move(w, RemoveForget(refs)), Move(f, Done));
      return;
    }
    var u := Unlinked(f, k);
    Onward(e, task, [], from, Move(w, RemoveForget(refs)), Move(f, RemoveApply(refs)));
    Onward(e, task, [], from, Move(f, RemoveApply(refs)), Move(u, RemoveMark(refs, 0)));
    sh' := SoloRelist(e, task, from, u, refs, 0);
    assert refs[0..] == refs;
    forall x: Key ensures x in LooseFrom(u.meta, k.repo, refs, 0) <==>
      MentionsKey(task, x) && Backrefs(u.meta, x) == {}
    {
      Manifests.ReferencesAreMentioned(task.doc, x.digest);
      assert x == Key(x.repo, x.digest);
    }
  }
}
