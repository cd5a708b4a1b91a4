// The storage operations as whole calls on one registry: what each leaves behind.
//
// The rule every call must keep: a stored blob that nothing refers to is on the
// list of candidates for collection, so it cannot be forgotten forever.

module Registry {
  import opened Core
  import opened Json
  import opened Metadata
  import opened Trackers
  import Manifests
  import Digests

  // Nothing refers to `k`: no manifest points at it, it is not a manifest, not immune.
  predicate Unwanted(m: Meta, roots: set<Key>, k: Key) {
    Backrefs(m, k) == {} && !IsManifest(m, k) && k !in roots
  }

  predicate OrphanFree(cas: set<Key>, m: Meta, roots: set<Key>, candidates: map<Key, Time>) {
    forall k | k in cas && Unwanted(m, roots, k) :: k in candidates
  }

  // Every recorded edge comes from the content of the manifest it starts at.
  ghost predicate EdgesTrue(m: Meta, content: Digest -> Json) {
    forall k, d | d in Backrefs(m, k) :: k.digest in Manifests.References(content(d))
  }

  // Only well-formed digests ever name a stored blob.
  predicate StoredParse(cas: set<Key>) {
    forall k | k in cas :: Digests.Parses(k.digest)
  }

  lemma CommitKeepsOrphanFree(cas: set<Key>, m: Meta, roots: set<Key>, candidates: map<Key, Time>, op: MetaOp)
    requires OrphanFree(cas, m, roots, candidates) && op.PutManifest?
    ensures OrphanFree(cas, Apply(m, op), roots, candidates - Linked(op.repo, op.digest, op.references))
    ensures OrphanFree(cas, Apply(m, op), roots, candidates)
  {
    forall k | k in cas && Unwanted(Apply(m, op), roots, k)
      ensures k in candidates && k !in Linked(op.repo, op.digest, op.references)
    {
      BackrefsAfter(m, op, k);
      ManifestsAfter(m, op, k);
      assert Unwanted(m, roots, k);
    }
  }

  lemma EdgesStayTrue(m: Meta, op: MetaOp, content: Digest -> Json)
    requires EdgesTrue(m, content)
    requires op.DeleteManifest? || (op.PutManifest? && op.references == Manifests.References(content(op.digest)))
    ensures EdgesTrue(Apply(m, op), content)
  {
    forall k, d | d in Backrefs(Apply(m, op), k) ensures k.digest in Manifests.References(content(d)) {
      BackrefsAfter(m, op, k);
    }
  }

  // A blob that hangs on one manifest alone.
  predicate HangsOn(m: Meta, roots: set<Key>, manifest: Key, k: Key) {
    k.repo == manifest.repo && Backrefs(m, k) == {manifest.digest} && !IsManifest(m, k) && k !in roots
  }

  // A delete orphans exactly the blobs that hung on the deleted manifest alone.
  lemma OrphanedIff(m: Meta, roots: set<Key>, deleted: Key, k: Key)
    requires k != deleted
    ensures Unwanted(Unlinked(m, deleted), roots, k) && !Unwanted(m, roots, k) <==> HangsOn(m, roots, deleted, k)
    ensures Unwanted(m, roots, k) ==> Unwanted(Unlinked(m, deleted), roots, k)
  {
    var op := DeleteManifest(deleted.repo, deleted.digest);
    BackrefsAfter(m, op, k);
    ManifestsAfter(m, op, k);
  }

  // The blobs a delete may orphan are among the deleted manifest's own references.
  lemma OrphansAreReferences(m: Meta, roots: set<Key>, deleted: Key, k: Key, content: Digest -> Json)
    requires EdgesTrue(m, content) && k != deleted && Unwanted(Unlinked(m, deleted), roots, k) && !Unwanted(m, roots, k)
    ensures k.repo == deleted.repo && k.digest in Manifests.References(content(deleted.digest))
    ensures Backrefs(m, k) == {deleted.digest}
  {
    OrphanedIff(m, roots, deleted, k);
  }

  function Unlinked(m: Meta, k: Key): Meta {
    Apply(m, DeleteManifest(k.repo, k.digest))
  }

  // The loose ones among `listed` that the backend takes for stored.
  function Loose(m: Meta, repo: Repo, listed: seq<Digest>, present: set<Key>): set<Key> {
    set d | d in listed && Backrefs(m, Key(repo, d)) == {} && Key(repo, d) in present :: Key(repo, d)
  }

  lemma NothingLoose(m: Meta, repo: Repo, present: set<Key>)
    ensures Loose(m, repo, [], present) == {}
  {
  }

  lemma LooseMentioned(m: Meta, repo: Repo, doc: Json, present: set<Key>)
    ensures forall x :: x in Loose(m, repo, Manifests.References(doc), present) <==>
              x.repo == repo && Manifests.Mentions(doc, x.digest) && Backrefs(m, x) == {} && x in present
  {
    hide Manifests.Mentions, Manifests.References, Backrefs;
    forall x: Key ensures x in Loose(m, repo, Manifests.References(doc), present) <==>
      x.repo == repo && Manifests.Mentions(doc, x.digest) && Backrefs(m, x) == {} && x in present
    {
      Manifests.ReferencesAreMentioned(doc, x.digest);
      assert x == Key(x.repo, x.digest);
    }
  }

  /** Whatever is re-listed after a delete, the rule survives exactly when every stored blob
      that hung on the manifest alone is a candidate already or among what is re-listed. */
  lemma RelistedDelete(cas: set<Key>, m: Meta, roots: set<Key>, candidates: map<Key, Time>, k: Key, listed: seq<Digest>,
                       present: set<Key>, after: map<Key, Time>)
    requires OrphanFree(cas, m, roots, candidates) && cas <= present
    requires after.Keys == candidates.Keys - {k} + Loose(Unlinked(m, k), k.repo, listed, present)
    ensures OrphanFree(cas - {k}, Unlinked(m, k), roots, after) <==>
            forall x | x in cas && x != k && HangsOn(m, roots, k, x) :: x in candidates || x.digest in listed
  {
    hide HangsOn, Unlinked;
    forall x | x in cas && x != k
      ensures Unwanted(Unlinked(m, k), roots, x) && x !in after <==>
              HangsOn(m, roots, k, x) && x !in candidates && x.digest !in listed
    {
      OrphanedIff(m, roots, k, x);
      if Unwanted(m, roots, x) { assert x in candidates; }
      if HangsOn(m, roots, k, x) {
        assert x == Key(k.repo, x.digest) by { HangsInRepo(m, roots, k, x); }
      }
    }
  }

  lemma HangsInRepo(m: Meta, roots: set<Key>, k: Key, x: Key)
    requires HangsOn(m, roots, k, x)
    ensures x.repo == k.repo
  {
  }

  // Re-listing the deleted manifest's own references is enough.
  lemma DeleteKeepsOrphanFree(cas: set<Key>, m: Meta, roots: set<Key>, candidates: map<Key, Time>, k: Key,
                              present: set<Key>, after: map<Key, Time>, content: Digest -> Json)
    requires OrphanFree(cas, m, roots, candidates) && EdgesTrue(m, content) && cas <= present
    requires after.Keys == candidates.Keys - {k} +
               Loose(Unlinked(m, k), k.repo, Manifests.References(content(k.digest)), present)
    ensures OrphanFree(cas - {k}, Unlinked(m, k), roots, after)
  {
    RelistedDelete(cas, m, roots, candidates, k, Manifests.References(content(k.digest)), present, after);
    forall x | x in cas && x != k && HangsOn(m, roots, k, x)
      ensures x.digest in Manifests.References(content(k.digest))
    {
      assert k.digest in Backrefs(m, x);
    }
  }

  // ---- deletes that re-list too little ----

  // What reading the manifest gives: an error, bytes that do not parse, or a document, which
  // need not be the one that was pushed.
  datatype Reading = ReadError | Unparseable | Parsed(doc: Json)

  // A metadata operation changes the state and the file before it syncs, so it may take
  // effect and fail all the same.
  datatype Recorded = Applied | Refused | AppliedUnsynced

  // Does the delete of a stored manifest take effect on the metadata?
  predicate Deletes(backend: Backend, read: Reading, removed: bool, recorded: Recorded) {
    !(backend.Fs? && read.ReadError?) && removed && !recorded.Refused?
  }

  // What it re-lists then.
  function Relisted(read: Reading, recorded: Recorded): seq<Digest> {
    if recorded.Applied? && read.Parsed? then Manifests.References(read.doc) else []
  }

  /** In every registry: a manifest that is committed with a layer nothing else refers to,
      and then deleted without re-listing that layer, leaves the layer forgotten. */
  lemma DeleteForgets(cas: set<Key>, m: Meta, roots: set<Key>, candidates: map<Key, Time>, a: Key, layer: Digest,
                      listed: seq<Digest>, present: set<Key>, after: map<Key, Time>)
    requires OrphanFree(cas, m, roots, candidates) && cas + {a} <= present && layer !in listed
    requires var b := Key(a.repo, layer); b != a && b in cas && Unwanted(m, roots, b)
    requires var m1 := Apply(m, PutManifest(a.repo, a.digest, "", None, [layer], None));
             after.Keys == candidates.Keys - Linked(a.repo, a.digest, [layer]) - {a} +
                           Loose(Unlinked(m1, a), a.repo, listed, present)
    ensures var m1 := Apply(m, PutManifest(a.repo, a.digest, "", None, [layer], None));
            && OrphanFree(cas + {a}, m1, roots, candidates - Linked(a.repo, a.digest, [layer]))
            && !OrphanFree(cas + {a} - {a}, Unlinked(m1, a), roots, after)
  {
    var op := PutManifest(a.repo, a.digest, "", None, [layer], None);
    var m1, b, cleared := Apply(m, op), Key(a.repo, layer), candidates - Linked(a.repo, a.digest, [layer]);
    CommitKeepsOrphanFree(cas, m, roots, candidates, op);
    ManifestsAfter(m, op, a);
    BackrefsAfter(m, op, b);
    ManifestsAfter(m, op, b);
    assert HangsOn(m1, roots, a, b);
    assert b in Linked(a.repo, a.digest, [layer]);
    hide OrphanFree, HangsOn, Unlinked, Apply, Loose;
    assert OrphanFree(cas + {a}, m1, roots, cleared) by { StoredManifestIsWanted(cas, m1, roots, cleared, a); }
    RelistedDelete(cas + {a}, m1, roots, cleared, a, listed, present, after);
  }

  // The rule held with `a` committed over its one layer, and is broken once `a` is deleted
  // and nothing re-listed.
  predicate Forgets(cas: set<Key>, m: Meta, roots: set<Key>, candidates: map<Key, Time>, a: Key, layer: Digest) {
    var m1 := Apply(m, PutManifest(a.repo, a.digest, "", None, [layer], None));
    var cleared := candidates - Linked(a.repo, a.digest, [layer]);
    OrphanFree(cas + {a}, m1, roots, cleared) && !OrphanFree(cas + {a} - {a}, Unlinked(m1, a), roots, cleared - {a})
  }

  lemma UnlistedDeleteForgets(cas: set<Key>, m: Meta, roots: set<Key>, candidates: map<Key, Time>, a: Key,
                              layer: Digest)
    requires OrphanFree(cas, m, roots, candidates)
    requires var b := Key(a.repo, layer); b != a && b in cas && Unwanted(m, roots, b)
    ensures Forgets(cas, m, roots, candidates, a, layer)
  {
    hide OrphanFree, Unlinked, Apply, Loose, Unwanted;
    var m1 := Apply(m, PutManifest(a.repo, a.digest, "", None, [layer], None));
    var cleared := candidates - Linked(a.repo, a.digest, [layer]);
    NothingLoose(Unlinked(m1, a), a.repo, cas + {a});
    DeleteForgets(cas, m, roots, candidates, a, layer, [], cas + {a}, cleared - {a});
  }

  /** The ways to get there. On either backend, whatever was read, the record of the delete
      takes effect and its sync fails. */
  lemma UnsyncedDeleteForgets(cas: set<Key>, m: Meta, roots: set<Key>, candidates: map<Key, Time>, a: Key,
                              layer: Digest, backend: Backend, read: Reading)
    requires OrphanFree(cas, m, roots, candidates) && !(backend.Fs? && read.ReadError?)
    requires var b := Key(a.repo, layer); b != a && b in cas && Unwanted(m, roots, b)
    ensures Deletes(backend, read, true, AppliedUnsynced) && Relisted(read, AppliedUnsynced) == []
    ensures Forgets(cas, m, roots, candidates, a, layer)
  {
    UnlistedDeleteForgets(cas, m, roots, candidates, a, layer);
  }

  /** On either backend, the manifest reads but does not parse. */
  lemma UnparsedDeleteForgets(cas: set<Key>, m: Meta, roots: set<Key>, candidates: map<Key, Time>, a: Key,
                              layer: Digest, backend: Backend)
    requires OrphanFree(cas, m, roots, candidates)
    requires var b := Key(a.repo, layer); b != a && b in cas && Unwanted(m, roots, b)
    ensures Deletes(backend, Unparseable, true, Applied) && Relisted(Unparseable, Applied) == []
    ensures Forgets(cas, m, roots, candidates, a, layer)
  {
    UnlistedDeleteForgets(cas, m, roots, candidates, a, layer);
  }

  /** On the object store only, the manifest cannot be read. */
  lemma UnreadDeleteForgets(cas: set<Key>, m: Meta, roots: set<Key>, candidates: map<Key, Time>, a: Key, layer: Digest)
    requires OrphanFree(cas, m, roots, candidates)
    requires var b := Key(a.repo, layer); b != a && b in cas && Unwanted(m, roots, b)
    ensures Deletes(S3, ReadError, true, Applied) && Relisted(ReadError, Applied) == []
    ensures !Deletes(Fs, ReadError, true, Applied)
    ensures Forgets(cas, m, roots, candidates, a, layer)
  {
    UnlistedDeleteForgets(cas, m, roots, candidates, a, layer);
  }

  lemma StoredManifestIsWanted(cas: set<Key>, m: Meta, roots: set<Key>, candidates: map<Key, Time>, a: Key)
    requires OrphanFree(cas, m, roots, candidates) && IsManifest(m, a)
    ensures OrphanFree(cas + {a}, m, roots, candidates)
  {
  }

  // A sweep in progress: the blobs and candidates it started from, the blobs it will remove
  // and the candidates it will forget.
  datatype Progress = Progress(cas: set<Key>, candidates: map<Key, Time>, gone: set<Key>, dropped: set<Key>)

  // The first `n` candidates are settled, the others untouched.
  predicate Swept(p: Progress, order: seq<Key>, n: nat, cas: set<Key>, candidates: map<Key, Time>)
    requires n <= |order|
  {
    && cas == p.cas - (p.gone * Elements(order[..n]))
    && candidates == p.candidates - (p.dropped * Elements(order[..n]))
    && (forall j | 0 <= j < |order| :: order[j] in p.candidates)
  }

  lemma SweptAt(p: Progress, order: seq<Key>, n: nat, cas: set<Key>, candidates: map<Key, Time>)
    requires n < |order| && DistinctKeys(order) && Swept(p, order, n, cas, candidates)
    ensures order[n] in cas <==> order[n] in p.cas
    ensures order[n] in candidates && order[n] in p.candidates && candidates[order[n]] == p.candidates[order[n]]
  {
    assert order[n] !in order[..n];
  }

  lemma SweptNext(p: Progress, order: seq<Key>, n: nat, cas: set<Key>, candidates: map<Key, Time>,
                  cas': set<Key>, candidates': map<Key, Time>)
    requires n < |order| && DistinctKeys(order) && Swept(p, order, n, cas, candidates)
    requires cas' == if order[n] in p.gone then cas - {order[n]} else cas
    requires candidates' == if order[n] in p.dropped then candidates - {order[n]} else candidates
    ensures Swept(p, order, n + 1, cas', candidates')
  {
    assert order[..n + 1] == order[..n] + [order[n]];
    ElementsSnoc(order[..n], order[n]);
  }

  lemma StoredAt(cas: set<Key>, k: Key)
    requires StoredParse(cas)
    ensures k in cas ==> Digests.Parses(k.digest)
  {
  }

  lemma StoredLess(cas: set<Key>, cas': set<Key>)
    requires StoredParse(cas) && cas' <= cas
    ensures StoredParse(cas')
  {
  }

  // What a successful push leaves in the metadata besides the edges: the manifest with its
  // media type, its tag, and its descriptor under its subject.
  predicate RecordedAs(m: Meta, k: Key, tag: Option<Tag>, mediaType: MediaType,
                       refersTo: Option<(Digest, Descriptor)>) {
    && k.repo in m && k.digest in m[k.repo].mediaTypes && m[k.repo].mediaTypes[k.digest] == mediaType
    && (tag.Some? ==> tag.value in m[k.repo].tags && m[k.repo].tags[tag.value] == Tagged(k.digest, mediaType))
    && (refersTo.Some? ==> Refers(m, k.repo, refersTo.value.0, k.digest, refersTo.value.1))
  }

  lemma PushRecords(m: Meta, op: MetaOp)
    requires op.PutManifest?
    ensures RecordedAs(Apply(m, op), Key(op.repo, op.digest), op.tag, op.mediaType, op.refersTo)
  {
    MediaTypesAfter(m, op, op.repo, op.digest);
    if op.tag.Some? { TagsAfter(m, op, op.repo, op.tag.value); }
    if op.refersTo.Some? { ReferrersAfter(m, op, op.repo, op.refersTo.value.0, op.digest, op.refersTo.value.1); }
  }

  lemma PushLinks(m: Meta, op: MetaOp)
    requires op.PutManifest?
    ensures forall d | d in op.references :: op.digest in Backrefs(Apply(m, op), Key(op.repo, d))
    ensures forall d | d in op.references :: Key(op.repo, d) in Linked(op.repo, op.digest, op.references)
  {
    forall d | d in op.references ensures op.digest in Backrefs(Apply(m, op), Key(op.repo, d)) {
      BackrefsAfter(m, op, Key(op.repo, d));
    }
  }

  // After a delete no tag names the manifest and no subject lists it.
  ghost predicate Erased(m: Meta, k: Key) {
    && !IsManifest(m, k)
    && (forall t | k.repo in m && t in m[k.repo].tags :: m[k.repo].tags[t].digest != k.digest)
    && (forall s, d :: !Refers(m, k.repo, s, k.digest, d))
    && (forall x: Key | x.repo == k.repo :: k.digest !in Backrefs(m, x))
  }

  lemma DeleteErases(m: Meta, k: Key)
    ensures Erased(Unlinked(m, k), k)
  {
    hide Refers, Backrefs, IsManifest;
    var op := DeleteManifest(k.repo, k.digest);
    ManifestsAfter(m, op, k);
    forall s, d ensures !Refers(Apply(m, op), k.repo, s, k.digest, d) { ReferrersAfter(m, op, k.repo, s, k.digest, d); }
    forall x: Key | x.repo == k.repo ensures k.digest !in Backrefs(Apply(m, op), x) { BackrefsAfter(m, op, x); }
    forall t | t in Apply(m, op)[k.repo].tags ensures Apply(m, op)[k.repo].tags[t].digest != k.digest {
      TagsAfter(m, op, k.repo, t);
    }
  }

  // Everything the config and the layers name is stored, and looking for it does not fail.
  ghost predicate NeedsFound(doc: Json, repo: Repo, cas: set<Key>, failing: set<Key>) {
    forall d | Manifests.Needs(doc, d) :: Key(repo, d) in cas && Key(repo, d) !in failing
  }

  lemma FoundIff(doc: Json, repo: Repo, cas: set<Key>, failing: set<Key>)
    requires Manifests.Required(doc).Ok?
    ensures NeedsFound(doc, repo, cas, failing) <==>
            forall d | d in Manifests.Required(doc).value :: Key(repo, d) in cas && Key(repo, d) !in failing
    ensures NeedsFound(doc, repo, cas, failing) ==> NeedsFound(doc, repo, cas, {})
  {
    hide Manifests.Needs, Manifests.Required;
    forall d ensures d in Manifests.Required(doc).value <==> Manifests.Needs(doc, d) {
      Manifests.RequiredIsNeeded(doc, d);
    }
  }

  lemma AllMentioned(doc: Json)
    ensures forall d :: d in Manifests.References(doc) <==> Manifests.Mentions(doc, d)
  {
    hide Manifests.Mentions, Manifests.References;
    forall d ensures d in Manifests.References(doc) <==> Manifests.Mentions(doc, d) {
      Manifests.ReferencesAreMentioned(doc, d);
    }
  }

  datatype Backend = Fs | S3

  datatype Failure = NotFound | Missing(digest: Digest) | Malformed | IoError

  type Outcome = Result<(), Failure>

  class Storage {
    const meta: MetadataStore
    const gc: GcTracker
    // Content addressing: the document a digest is the hash of.
    const content: Digest -> Json
    var cas: set<Key>

    constructor (meta: MetadataStore, gc: GcTracker, content: Digest -> Json)
      ensures this.meta == meta && this.gc == gc && this.content == content && cas == {}
    {
      this.meta, this.gc, this.content, this.cas := meta, gc, content, {};
    }

    ghost predicate Valid()
      reads this, meta, gc
    {
      && gc.enabled
      && OrphanFree(cas, meta.state, gc.roots, gc.candidates)
      && EdgesTrue(meta.state, content)
      && StoredParse(cas)
    }

    // Bookkeeping after `k` landed in the store.
    method NoteBlobEntered(k: Key, now: Time)
      requires gc.enabled
      modifies gc`candidates
      ensures gc.candidates == if Backrefs(meta.state, k) == {} && !IsManifest(meta.state, k)
                               then old(gc.candidates)[k := now] else old(gc.candidates)
    {
      if Backrefs(meta.state, k) == {} && !IsManifest(meta.state, k) {
        gc.MarkAt(k, now);
      }
    }

    // Store a blob; `published` says whether the backend's write went through.
    method PutBlob(k: Key, now: Time, published: bool) returns (r: Outcome)
      requires Valid() && Digests.Parses(k.digest)
      modifies this`cas, gc`candidates
      ensures Valid()
      ensures r == if published then Ok(()) else Err(IoError)
      ensures cas == if published then old(cas) + {k} else old(cas)
      ensures gc.candidates == if published && Backrefs(meta.state, k) == {} && !IsManifest(meta.state, k)
                               then old(gc.candidates)[k := now] else old(gc.candidates)
    {
      if !published { return Err(IoError); }
      cas := cas + {k};
      NoteBlobEntered(k, now);
      return Ok(());
    }

    // Look for each required blob, refreshing its stamp first; looking for those in
    // `failing` goes wrong.
    method Recheck(repo: Repo, required: seq<Digest>, now: Time, failing: set<Key>) returns (r: Outcome)
      requires gc.enabled
      modifies gc`candidates
      ensures gc.candidates.Keys == old(gc.candidates).Keys
      ensures forall k | k in gc.candidates ::
                gc.candidates[k] == now || gc.candidates[k] == old(gc.candidates)[k]
      ensures r.Ok? ==> forall d | d in required && Key(repo, d) in gc.candidates :: gc.candidates[Key(repo, d)] == now
      ensures forall k | k in gc.candidates && (k.repo != repo || k.digest !in required) ::
                gc.candidates[k] == old(gc.candidates)[k]
      ensures r.Ok? <==> forall d | d in required :: Key(repo, d) in cas && Key(repo, d) !in failing
      ensures r.Err? ==> || (r.error == IoError && exists d :: d in required && Key(repo, d) in failing)
                         || (r.error.Missing? && r.error.digest in required && Key(repo, r.error.digest) !in cas)
    {
      for i := 0 to |required|
        invariant gc.candidates.Keys == old(gc.candidates).Keys
        invariant forall k | k in gc.candidates ::
          gc.candidates[k] == if k.repo == repo && k.digest in required[..i] then now else old(gc.candidates)[k]
        invariant forall j | 0 <= j < i :: Key(repo, required[j]) in cas && Key(repo, required[j]) !in failing
      {
        var k := Key(repo, required[i]);
        assert required[..i + 1] == required[..i] + [required[i]];
        gc.Touch(k, now);
        if k in failing { return Err(IoError); }
        if k !in cas { return Err(Missing(required[i])); }
      }
      return Ok(());
    }

    method ClearAll(repo: Repo, ds: seq<Digest>)
      requires gc.enabled
      modifies gc`candidates
      ensures gc.candidates == old(gc.candidates) - (set d | d in ds :: Key(repo, d))
    {
      for i := 0 to |ds|
        invariant gc.candidates == old(gc.candidates) - (set d | d in ds[..i] :: Key(repo, d))
      {
        assert ds[..i + 1] == ds[..i] + [ds[i]];
        gc.Clear(Key(repo, ds[i]));
      }
      assert ds[..|ds|] == ds;
    }

    // The metadata record of a push, and the clearing of what it links unless its sync failed.
    method CommitRecord(k: Key, op: MetaOp, recorded: Recorded) returns (r: Outcome)
      requires Valid() && op.PutManifest? && k == Key(op.repo, op.digest) && !recorded.Refused?
      requires op.references == Manifests.References(content(k.digest))
      modifies gc`candidates, meta
      ensures Valid() && meta.state == Apply(old(meta.state), op)
      ensures r == if recorded.Applied? then Ok(()) else Err(IoError)
      ensures r.Ok? ==> gc.candidates == old(gc.candidates) - Linked(k.repo, k.digest, op.references)
    {
      CommitKeepsOrphanFree(cas, meta.state, gc.roots, gc.candidates, op);
      EdgesStayTrue(meta.state, op, content);
      ghost var before := gc.candidates;
      hide OrphanFree, EdgesTrue, Digests.Parses, Backrefs, IsManifest, Apply, Manifests.References;
      meta.ApplyOp(op);
      if recorded.AppliedUnsynced? { return Err(IoError); }
      gc.Clear(k);
      ClearAll(k.repo, op.references);
      assert gc.candidates == before - Linked(k.repo, k.digest, op.references);
      return Ok(());
    }

    // Push a manifest: refuse one whose required descriptors are malformed, store its blob,
    // re-check what it requires, then make one metadata record with all its edges. Every
    // way it can fail keeps the rule, also a record that took effect although its sync
    // failed.
    method PutManifest(k: Key, tag: Option<Tag>, mediaType: MediaType, refersTo: Option<(Digest, Descriptor)>,
                       now: Time, published: bool, failing: set<Key>, recorded: Recorded)
      returns (r: Outcome)
      requires Valid() && Digests.Parses(k.digest)
      modifies this`cas, gc`candidates, meta
      ensures Valid()
      ensures cas == if published && Manifests.Required(content(k.digest)).Ok? then old(cas) + {k} else old(cas)
      ensures r == Err(Malformed) <==> Manifests.Required(content(k.digest)).Err?
      ensures r.Ok? ==>
                && recorded.Applied? && published
                && NeedsFound(content(k.digest), k.repo, cas, {})
                && (forall d | Manifests.Mentions(content(k.digest), d) ::
                      k.digest in Backrefs(meta.state, Key(k.repo, d)) && Key(k.repo, d) !in gc.candidates)
                && k !in gc.candidates && RecordedAs(meta.state, k, tag, mediaType, refersTo)
      ensures r.Err? && !recorded.AppliedUnsynced? ==> meta.state == old(meta.state)
      ensures var references := Manifests.References(content(k.digest));
              var op := Metadata.PutManifest(k.repo, k.digest, mediaType, tag, references, refersTo);
              var reached := && Manifests.Required(content(k.digest)).Ok? && published
                             && NeedsFound(content(k.digest), k.repo, cas, failing);
              && (r.Ok? <==> reached && recorded.Applied?)
              && meta.state == if reached && !recorded.Refused? then Apply(old(meta.state), op) else old(meta.state)
    {
      var required := Manifests.Required(content(k.digest));
      if required.Err? { return Err(Malformed); }
      hide OrphanFree, EdgesTrue, Digests.Parses, Backrefs, IsManifest, Apply, RecordedAs, NeedsFound,
           Manifests.Mentions, Manifests.Required, Manifests.References;
      r := PutBlob(k, now, published);
      if r.Err? { return; }
      FoundIff(content(k.digest), k.repo, cas, failing);
      r := Recheck(k.repo, required.value, now, failing);
      if r.Err? { return; }
      if recorded.Refused? { return Err(IoError); }
      var references := Manifests.References(content(k.digest));
      var op := Metadata.PutManifest(k.repo, k.digest, mediaType, tag, references, refersTo);
      PushRecords(meta.state, op);
      AllMentioned(content(k.digest));
      PushLinks(meta.state, op);
      r := CommitRecord(k, op, recorded);
    }

    // Bookkeeping after `k` left the store.
    method NoteBlobLeft(k: Key)
      requires gc.enabled
      modifies gc`candidates
      ensures gc.candidates == old(gc.candidates) - {k}
    {
      gc.Clear(k);
    }

    // `removed` says whether the backend's look-up and delete went through.
    method DeleteBlob(k: Key, removed: bool) returns (r: Outcome)
      requires Valid()
      modifies this`cas, gc`candidates
      ensures Valid()
      ensures r == if !removed then Err(IoError) else if k in old(cas) then Ok(()) else Err(NotFound)
      ensures r.Ok? ==> cas == old(cas) - {k} && gc.candidates == old(gc.candidates) - {k}
      ensures r.Err? ==> cas == old(cas) && gc.candidates == old(gc.candidates)
    {
      if !removed { return Err(IoError); }
      if k !in cas { return Err(NotFound); }
      cas := cas - {k};
      NoteBlobLeft(k);
      return Ok(());
    }

    method MarkLoose(repo: Repo, ds: seq<Digest>, present: set<Key>, now: Time)
      requires gc.enabled
      modifies gc`candidates
      ensures gc.candidates.Keys == old(gc.candidates).Keys + Loose(meta.state, repo, ds, present)
    {
      for i := 0 to |ds|
        invariant gc.candidates.Keys == old(gc.candidates).Keys + Loose(meta.state, repo, ds[..i], present)
      {
        assert ds[..i + 1] == ds[..i] + [ds[i]];
        var k := Key(repo, ds[i]);
        if Backrefs(meta.state, k) == {} && k in present { gc.MarkAt(k, now); }
      }
      assert ds[..|ds|] == ds;
    }

    // Delete a manifest. The filesystem backend gives up when the manifest cannot be read;
    // the object-store backend goes on. Both go on when it does not parse, and both return
    // before re-listing anything when the metadata record took effect but was not synced.
    // `present` is what the filesystem's presence filter lets through, which is at least
    // everything stored; the object store has no filter.
    method DeleteManifest(backend: Backend, k: Key, now: Time, read: Reading, removed: bool, recorded: Recorded,
                          present: set<Key>)
      returns (r: Outcome)
      requires Valid() && cas <= present
      modifies this`cas, gc`candidates, meta
      ensures gc.enabled && EdgesTrue(meta.state, content) && StoredParse(cas)
      ensures var done := k in old(cas) && Deletes(backend, read, removed, recorded);
              && meta.state == (if done then Unlinked(old(meta.state), k) else old(meta.state))
              && (r.Ok? <==> done && recorded.Applied?)
              && (!done ==> Valid())
              && (done ==>
                   (Valid() <==>
                    forall x | x in old(cas) && x != k && old(HangsOn(meta.state, gc.roots, k, x)) ::
                      x in old(gc.candidates) || x.digest in Relisted(read, recorded)))
      ensures recorded.Applied? && read == Parsed(content(k.digest)) ==> Valid()
      ensures r.Ok? ==> Erased(meta.state, k)
      ensures r.Ok? ==>
                forall x :: x in gc.candidates <==>
                  || (x in old(gc.candidates) && x != k)
                  || (&& x.repo == k.repo && read.Parsed? && Manifests.Mentions(read.doc, x.digest)
                      && Backrefs(meta.state, x) == {} && x in present)
      ensures cas == if removed && !(backend.Fs? && read.ReadError?) then old(cas) - {k} else old(cas)
    {
      if backend.Fs? && read.ReadError? { return Err(if k in cas then IoError else NotFound); }
      var references := if read.Parsed? then Manifests.References(read.doc) else [];
      ghost var m, candidates := meta.state, gc.candidates;
      EdgesStayTrue(m, Metadata.DeleteManifest(k.repo, k.digest), content);
      DeleteErases(m, k);
      if read.Parsed? { LooseMentioned(Unlinked(m, k), k.repo, read.doc, present); }
      hide OrphanFree, EdgesTrue, Unwanted, HangsOn, Digests.Parses, Loose, Erased, Manifests.Mentions,
           Manifests.References;
      r := DeleteBlob(k, removed);
      if r.Err? { return; }
      if recorded.Refused? { return Err(IoError); }
      meta.ApplyOp(Metadata.DeleteManifest(k.repo, k.digest));
      assert meta.state == Unlinked(m, k);
      if recorded.Applied? { MarkLoose(k.repo, references, present, now); }
      assert Loose(meta.state, k.repo, [], present) == {} by { NothingLoose(meta.state, k.repo, present); }
      RelistedDelete(old(cas), m, gc.roots, candidates, k, Relisted(read, recorded), present, gc.candidates);
      if recorded.Applied? && read == Parsed(content(k.digest)) {
        DeleteKeepsOrphanFree(old(cas), m, gc.roots, candidates, k, present, gc.candidates, content);
      }
      return if recorded.Applied? then Ok(()) else Err(IoError);
    }

    // What one sweep at `now` removes; `failing` holds the blobs whose backend calls fail.
    predicate Collectable(k: Key, now: Time, failing: set<Key>)
      reads this`cas, meta, gc
    {
      && gc.IsDue(k, now) && Unwanted(meta.state, gc.roots, k) && k.repo !in gc.unsafeRepos
      && Digests.Parses(k.digest) && k in cas && k !in failing
    }

    // What one sweep at `now` forgets, whether or not there is a blob to remove.
    predicate Settled(k: Key, now: Time, failing: set<Key>)
      reads meta, gc
    {
      gc.IsDue(k, now) && (k in gc.roots || (k.repo !in gc.unsafeRepos && !Held(k, failing)))
    }

    // Nothing but a failing backend call stands in the way of collecting `k`.
    predicate Held(k: Key, failing: set<Key>)
      reads meta
    {
      Backrefs(meta.state, k) == {} && !IsManifest(meta.state, k) && Digests.Parses(k.digest) && k in failing
    }

    // One candidate of a sweep: the tests in the order the sweep makes them.
    method SweepOne(k: Key, now: Time, failing: set<Key>)
      requires gc.enabled
      modifies this`cas, gc`candidates
      ensures cas == if old(Collectable(k, now, failing)) then old(cas) - {k} else old(cas)
      ensures gc.candidates == if old(Settled(k, now, failing)) then old(gc.candidates) - {k} else old(gc.candidates)
      ensures OrphanFree(old(cas), meta.state, gc.roots, old(gc.candidates)) &&
              (k in old(cas) ==> Digests.Parses(k.digest)) ==>
                OrphanFree(cas, meta.state, gc.roots, gc.candidates)
    {
      if !gc.IsDue(k, now) {
      } else if k in gc.roots {
        gc.Clear(k);
      } else if k.repo in gc.unsafeRepos {
      } else if Backrefs(meta.state, k) != {} {
        gc.Clear(k);
      } else if IsManifest(meta.state, k) {
        gc.Clear(k);
      } else if !Digests.Parses(k.digest) {
        gc.Clear(k);
      } else if k in failing {
      } else if k !in cas {
        gc.Clear(k);
      } else {
        cas := cas - {k};
        NoteBlobLeft(k);
      }
    }

    // Candidates handled per exclusive section.
    static const SWEEP_BATCH: nat := 256

    // What a sweep fixes for its whole duration, read at its start.
    ghost function Doomed(now: Time, failing: set<Key>): set<Key>
      reads this, meta, gc
    {
      set k | k in cas && Collectable(k, now, failing)
    }

    // One exclusive section: candidates `lo` to `hi`.
    method SweepBatch(now: Time, order: seq<Key>, lo: nat, hi: nat, failing: set<Key>, ghost p: Progress)
      requires Valid() && lo <= hi <= |order| && hi - lo <= 256 && DistinctKeys(order)
      requires Swept(p, order, lo, cas, gc.candidates)
      requires forall k :: k in p.gone <==> k in p.cas && Passes(p, k, now, failing)
      requires forall k :: k in p.dropped <==> Drops(p, k, now, failing)
      modifies this`cas, gc`candidates
      ensures Valid() && Swept(p, order, hi, cas, gc.candidates)
    {
      hide OrphanFree, EdgesTrue, StoredParse, Swept;
      for i := lo to hi
        invariant Valid() && Swept(p, order, i, cas, gc.candidates)
      {
        SweptAt(p, order, i, cas, gc.candidates);
        assert Collectable(order[i], now, failing) <==> order[i] in p.gone;
        assert Settled(order[i], now, failing) <==> order[i] in p.dropped;
        ghost var cas1, candidates1 := cas, gc.candidates;
        StoredAt(cas, order[i]);
        SweepOne(order[i], now, failing);
        StoredLess(cas1, cas);
        SweptNext(p, order, i, cas1, candidates1, cas, gc.candidates);
      }
    }

    // The tests of a sweep against the state it started from.
    ghost predicate Passes(p: Progress, k: Key, now: Time, failing: set<Key>)
      reads meta, gc
    {
      && k in p.candidates && (if now >= p.candidates[k] then now - p.candidates[k] else 0) >= gc.delay
      && Unwanted(meta.state, gc.roots, k) && k.repo !in gc.unsafeRepos
      && Digests.Parses(k.digest) && k !in failing
    }

    ghost predicate Drops(p: Progress, k: Key, now: Time, failing: set<Key>)
      reads meta, gc
    {
      && k in p.candidates && (if now >= p.candidates[k] then now - p.candidates[k] else 0) >= gc.delay
      && (k in gc.roots || (k.repo !in gc.unsafeRepos && !Held(k, failing)))
    }

    // A whole sweep: it removes exactly the due candidates that are stored, wanted by
    // nothing and can be deleted, forgets those and the due ones that turned out to be
    // wanted, and keeps the rule.
    // `order` lists the candidates due at `now`, each once, in any order.
    method Sweep(now: Time, order: seq<Key>, failing: set<Key>)
      requires Valid() && DistinctKeys(order)
      requires forall k :: k in order <==> k in gc.candidates && gc.IsDue(k, now)
      modifies this`cas, gc`candidates
      ensures Valid()
      ensures forall k :: k in cas <==>
                k in old(cas) && !(&& gc.ready && k in old(gc.candidates)
                                   && (old(gc.candidates)[k] + gc.delay <= now || gc.delay == 0)
                                   && k !in gc.roots && k.repo !in gc.unsafeRepos
                                   && Backrefs(meta.state, k) == {} && !IsManifest(meta.state, k)
                                   && Digests.Parses(k.digest) && k !in failing)
      ensures forall k :: k in gc.candidates <==>
                k in old(gc.candidates) && !(&& gc.ready
                                             && (old(gc.candidates)[k] + gc.delay <= now || gc.delay == 0)
                                             && (|| k in gc.roots
                                                 || (k.repo !in gc.unsafeRepos
                                                     && (|| Backrefs(meta.state, k) != {} || IsManifest(meta.state, k)
                                                         || !Digests.Parses(k.digest) || k !in failing))))
      ensures forall k | k in gc.candidates :: k in old(gc.candidates) && gc.candidates[k] == old(gc.candidates)[k]
    {
      hide OrphanFree, EdgesTrue, StoredParse;
      if !gc.ready { return; }
      ghost var dropped := set k | k in gc.candidates && Settled(k, now, failing);
      ghost var p := Progress(cas, gc.candidates, Doomed(now, failing), dropped);
      var lo := 0;
      while lo < |order|
        invariant lo <= |order| && Valid() && Swept(p, order, lo, cas, gc.candidates)
      {
        var hi := if lo + SWEEP_BATCH < |order| then lo + SWEEP_BATCH else |order|;
        SweepBatch(now, order, lo, hi, failing, p);
        lo := hi;
      }
      assert order[..lo] == order;
      assert p.gone <= Elements(order) && dropped <= Elements(order);
    }

    // Look at every stored blob the listing yields, which stops at the first error, and list
    // those nothing wants. The rule then holds if and only if no orphan was missed.
    method SeedCandidates(keys: seq<Key>, now: Time)
      requires gc.enabled && Elements(keys) <= cas
      modifies gc`candidates
      ensures gc.candidates.Keys == old(gc.candidates).Keys + set k | k in keys && Unwanted(meta.state, gc.roots, k)
      ensures OrphanFree(cas, meta.state, gc.roots, gc.candidates) <==>
              forall k | k in cas && Unwanted(meta.state, gc.roots, k) :: k in keys || k in old(gc.candidates)
    {
      for i := 0 to |keys|
        invariant gc.candidates.Keys ==
                  old(gc.candidates).Keys + set k | k in keys[..i] && Unwanted(meta.state, gc.roots, k)
      {
        assert keys[..i + 1] == keys[..i] + [keys[i]];
        if Unwanted(meta.state, gc.roots, keys[i]) { gc.MarkAt(keys[i], now); }
      }
      assert keys[..|keys|] == keys;
    }
  }
}
