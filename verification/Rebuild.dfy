// Startup consistency check: rebuild back references by walking every manifest
// reachable from the metadata index and from index.json.

module Rebuild {
  import opened Core
  import opened Json
  import opened Metadata
  import opened Trackers
  import GcProtocol
  import GcSafety
  import Manifests
  import Digests

  // What reading one blob as a manifest yields. An absent blob is not in the store.
  datatype Content = Document(doc: Json) | Unparseable | Unreadable

  type Store = map<Digest, Content>

  predicate Readable(cas: Store, d: Digest) {
    Digests.Parses(d) && d in cas && cas[d].Document?
  }

  // Visited, but its manifest is missing, oversized, unreadable or not JSON.
  predicate Broken(cas: Store, d: Digest) {
    Digests.Parses(d) && !Readable(cas, d)
  }

  function ChildDigests(entries: seq<Json>): set<Digest> {
    set e | e in entries && AsText(Get(e, FDigest)).Some? :: AsText(Get(e, FDigest)).value
  }

  function Children(cas: Store, d: Digest): set<Digest> {
    if Readable(cas, d) then ChildDigests(AsItems(Get(cas[d].doc, FManifests))) else {}
  }

  function References(cas: Store, d: Digest): seq<Digest> {
    if Readable(cas, d) then Manifests.References(cas[d].doc) else []
  }

  // A walk from a root along index children, last digest first.
  predicate IsWalk(cas: Store, roots: set<Digest>, walk: seq<Digest>) {
    && walk != []
    && walk[|walk| - 1] in roots
    && forall i | 0 <= i < |walk| - 1 :: walk[i] in Children(cas, walk[i + 1])
  }

  ghost predicate Reaches(cas: Store, roots: set<Digest>, d: Digest) {
    exists walk :: IsWalk(cas, roots, walk) && walk[0] == d
  }

  lemma ReachesRoot(cas: Store, roots: set<Digest>, d: Digest)
    requires d in roots
    ensures Reaches(cas, roots, d)
  {
    assert IsWalk(cas, roots, [d]);
  }

  lemma ReachesChild(cas: Store, roots: set<Digest>, d: Digest, child: Digest)
    requires Reaches(cas, roots, d) && child in Children(cas, d)
    ensures Reaches(cas, roots, child)
  {
    var walk :| IsWalk(cas, roots, walk) && walk[0] == d;
    assert IsWalk(cas, roots, [child] + walk);
  }

  // A set that holds the roots and is closed under children holds all that is reachable.
  lemma {:induction false} ClosedHoldsWalk(cas: Store, roots: set<Digest>, closed: set<Digest>, walk: seq<Digest>)
    requires roots <= closed && (forall d | d in closed :: Children(cas, d) <= closed)
    requires IsWalk(cas, roots, walk)
    ensures walk[0] in closed
  {
    if |walk| > 1 {
      assert IsWalk(cas, roots, walk[1..]) by {
        forall i | 0 <= i < |walk[1..]| - 1 ensures walk[1..][i] in Children(cas, walk[1..][i + 1]) {
          assert walk[i + 1] in Children(cas, walk[i + 2]);
        }
      }
      ClosedHoldsWalk(cas, roots, closed, walk[1..]);
      assert walk[0] in Children(cas, walk[1]);
    }
  }

  // The digests the walk can ever meet: finite because the store is.
  function Universe(cas: Store, roots: set<Digest>): set<Digest> {
    roots + set d, c | d in cas && c in Children(cas, d) :: c
  }

  // `found` holds the roots and everything found so far; `done` has been expanded.
  ghost predicate Sound(cas: Store, roots: set<Digest>, found: set<Digest>, done: set<Digest>) {
    && roots <= found <= Universe(cas, roots) && done <= found
    && (forall d | d in found :: Reaches(cas, roots, d))
    && (forall d | d in done :: Children(cas, d) <= found)
  }

  // The edges recorded for the expanded manifests, and no others.
  ghost predicate EdgesOf(cas: Store, done: set<Digest>, before: Meta, now: Meta, repo: Repo) {
    && (forall k: Key | k.repo == repo ::
          Backrefs(now, k) == Backrefs(before, k) + (set d | d in done && k.digest in References(cas, d)))
    && (forall k: Key | k.repo != repo :: Backrefs(now, k) == Backrefs(before, k))
    && (forall k :: IsManifest(now, k) <==> IsManifest(before, k))
  }

  method Expand(entries: seq<Json>, found: set<Digest>, toVisit: seq<Digest>)
    returns (found': set<Digest>, toVisit': seq<Digest>)
    ensures found' == found + ChildDigests(entries)
    ensures Elements(toVisit') == Elements(toVisit) + (ChildDigests(entries) - found)
    ensures found' == found ==> toVisit' == toVisit
  {
    found', toVisit' := found, toVisit;
    for i := 0 to |entries|
      invariant found' == found + ChildDigests(entries[..i])
      invariant Elements(toVisit') == Elements(toVisit) + (ChildDigests(entries[..i]) - found)
      invariant found' == found ==> toVisit' == toVisit
    {
      var d := AsText(Get(entries[i], FDigest));
      assert entries[..i + 1] == entries[..i] + [entries[i]];
      assert ChildDigests(entries[..i + 1]) == ChildDigests(entries[..i]) + (if d.Some? then {d.value} else {});
      if d.Some? && d.value !in found' {
        ElementsSnoc(toVisit', d.value);
        found', toVisit' := found' + {d.value}, toVisit' + [d.value];
      }
    }
    assert entries[..|entries|] == entries;
  }

  // One blob's edges before and after recording one manifest's missing edges.
  lemma EdgesExtendAt(cas: Store, done: set<Digest>, before: set<Digest>, d: Digest, missing: seq<Digest>, now: Meta,
                      repo: Repo, r: Digest)
    requires Backrefs(now, Key(repo, r)) == before + (set x | x in done && r in References(cas, x))
    requires r in missing <==> r in References(cas, d) && d !in Backrefs(now, Key(repo, r))
    ensures Backrefs(now, Key(repo, r)) + (if r in missing then {d} else {})
            == before + (set x | x in done + {d} && r in References(cas, x))
  {
    hide References, Backrefs;
  }

  // Recording one manifest's missing edges adds exactly that manifest's edges.
  lemma EdgesExtend(cas: Store, done: set<Digest>, before: Meta, now: Meta, now': Meta, repo: Repo, d: Digest,
                    missing: seq<Digest>)
    requires EdgesOf(cas, done, before, now, repo)
    requires Elements(missing) == (set r | r in References(cas, d) && d !in Backrefs(now, Key(repo, r)))
    requires now' == if missing == [] then now else Apply(now, PutBackrefs(repo, d, missing))
    ensures EdgesOf(cas, done + {d}, before, now', repo)
  {
    hide References, Backrefs, IsManifest, Apply;
    forall k: Key
      ensures k.repo == repo ==>
                Backrefs(now', k) == Backrefs(before, k) + (set x | x in done + {d} && k.digest in References(cas, x))
      ensures k.repo != repo ==> Backrefs(now', k) == Backrefs(before, k)
      ensures IsManifest(now', k) <==> IsManifest(before, k)
    {
      var op := PutBackrefs(repo, d, missing);
      BackrefsAfter(now, op, k);
      ManifestsAfter(now, op, k);
      if k.repo == repo {
        assert k == Key(repo, k.digest);
        assert k.digest in missing <==> k.digest in Elements(missing);
        EdgesExtendAt(cas, done, Backrefs(before, k), d, missing, now, repo, k.digest);
      }
    }
  }

  method MissingEdges(meta: MetadataStore, repo: Repo, d: Digest, references: seq<Digest>)
    returns (missing: seq<Digest>)
    ensures Elements(missing) == set r | r in references && d !in Backrefs(meta.state, Key(repo, r))
  {
    missing := [];
    for i := 0 to |references|
      invariant Elements(missing) == set r | r in references[..i] && d !in Backrefs(meta.state, Key(repo, r))
    {
      assert references[..i + 1] == references[..i] + [references[i]];
      if d !in Backrefs(meta.state, Key(repo, references[i])) {
        ElementsSnoc(missing, references[i]);
        missing := missing + [references[i]];
      }
    }
  }

  ghost predicate AnyBroken(cas: Store, ds: set<Digest>) {
    exists d :: d in ds && Broken(cas, d)
  }

  // Visit one digest: expand its children, record its edges.
  method Visit(repo: Repo, meta: MetadataStore, gc: GcTracker, cas: Store, d: Digest,
               found: set<Digest>, toVisit: seq<Digest>, ghost before: Meta, ghost done: set<Digest>)
    returns (found': set<Digest>, toVisit': seq<Digest>)
    requires EdgesOf(cas, done, before, meta.state, repo)
    modifies meta, gc`unsafeRepos
    ensures found' == found + Children(cas, d)
    ensures Elements(toVisit') == Elements(toVisit) + (Children(cas, d) - found)
    ensures found' == found ==> toVisit' == toVisit
    ensures EdgesOf(cas, done + {d}, before, meta.state, repo)
    ensures gc.unsafeRepos == old(gc.unsafeRepos) + (if gc.enabled && Broken(cas, d) then {repo} else {})
  {
    found', toVisit' := found, toVisit;
    ghost var now := meta.state;
    if !Digests.Parses(d) {
      EdgesExtend(cas, done, before, now, meta.state, repo, d, []);
    } else if !Readable(cas, d) {
      gc.MarkUnsafe(repo);
      EdgesExtend(cas, done, before, now, meta.state, repo, d, []);
    } else {
      found', toVisit' := Expand(AsItems(Get(cas[d].doc, FManifests)), found, toVisit);
      var missing := MissingEdges(meta, repo, d, Manifests.References(cas[d].doc));
      if missing != [] {
        meta.ApplyOp(PutBackrefs(repo, d, missing));
      }
      EdgesExtend(cas, done, before, now, meta.state, repo, d, missing);
    }
  }

  lemma RootsSound(cas: Store, roots: seq<Digest>)
    ensures Sound(cas, Elements(roots), Elements(roots), {}) && !AnyBroken(cas, {})
    ensures Accounted(Elements(roots), {}, roots)
  {
    forall d | d in Elements(roots) ensures Reaches(cas, Elements(roots), d) { ReachesRoot(cas, Elements(roots), d); }
  }

  lemma NoEdgesYet(cas: Store, m: Meta, repo: Repo)
    ensures EdgesOf(cas, {}, m, m, repo)
  {
  }

  // Whatever was found is either expanded or still on the worklist.
  predicate Accounted(found: set<Digest>, done: set<Digest>, toVisit: seq<Digest>) {
    done + Elements(toVisit) == found
  }

  lemma AccountedPop(found: set<Digest>, done: set<Digest>, rest: seq<Digest>, d: Digest)
    requires Accounted(found, done, rest + [d])
    ensures d in found && Accounted(found, done + {d}, rest)
  {
    ElementsSnoc(rest, d);
  }

  lemma AccountedPush(found: set<Digest>, done: set<Digest>, rest: seq<Digest>, cs: set<Digest>, rest': seq<Digest>)
    requires Accounted(found, done, rest) && Elements(rest') == Elements(rest) + (cs - found)
    ensures Accounted(found + cs, done, rest')
  {
  }

  method Walk(repo: Repo, meta: MetadataStore, gc: GcTracker, roots: seq<Digest>, cas: Store)
    returns (found: set<Digest>)
    modifies meta, gc`unsafeRepos
    ensures Sound(cas, Elements(roots), found, found)
    ensures EdgesOf(cas, found, old(meta.state), meta.state, repo)
    ensures gc.unsafeRepos == old(gc.unsafeRepos) + (if gc.enabled && AnyBroken(cas, found) then {repo} else {})
  {
    hide EdgesOf, Sound, Universe, Children, AnyBroken, Broken, Elements, Accounted;
    var toVisit := roots;
    found := Elements(roots);
    ghost var done: set<Digest> := {};
    NoEdgesYet(cas, meta.state, repo);
    RootsSound(cas, roots);
    while toVisit != []
      invariant Sound(cas, Elements(roots), found, done)
      invariant Accounted(found, done, toVisit)
      invariant EdgesOf(cas, done, old(meta.state), meta.state, repo)
      invariant gc.unsafeRepos == old(gc.unsafeRepos) + (if gc.enabled && AnyBroken(cas, done) then {repo} else {})
      decreases |Universe(cas, Elements(roots)) - found|, |toVisit|
    {
      var d, rest := toVisit[|toVisit| - 1], toVisit[..|toVisit| - 1];
      assert toVisit == rest + [d];
      AccountedPop(found, done, rest, d);
      Visited(cas, Elements(roots), found, done, d);
      ghost var seen := found;
      found, toVisit := Visit(repo, meta, gc, cas, d, found, rest, old(meta.state), done);
      done := done + {d};
      AccountedPush(seen, done, rest, Children(cas, d), toVisit);
    }
    AllExpanded(found, done);
  }

  lemma AllExpanded(found: set<Digest>, done: set<Digest>)
    requires Accounted(found, done, [])
    ensures done == found
  {
    ElementsEmpty<Digest>();
  }

  // The walk terminates for every finite store, cycles included. It visits exactly
  // what is reachable from the roots, records an edge for every reference of every
  // readable manifest on the way and no other edge, makes immune what the metadata
  // does not know, and declares the repository unsafe exactly when some visited
  // manifest could not be read.
  method RebuildBackrefs(repo: Repo, meta: MetadataStore, gc: GcTracker, roots: seq<Digest>, cas: Store)
    returns (ghost visited: set<Digest>)
    modifies meta, gc`roots, gc`unsafeRepos
    ensures forall d :: d in visited <==> Reaches(cas, Elements(roots), d)
    ensures EdgesOf(cas, visited, old(meta.state), meta.state, repo)
    ensures gc.enabled ==>
              gc.roots == old(gc.roots) +
                (set d | d in visited && !IsManifest(meta.state, Key(repo, d)) :: Key(repo, d))
    ensures gc.unsafeRepos == old(gc.unsafeRepos) + (if gc.enabled && AnyBroken(cas, visited) then {repo} else {})
    ensures !gc.enabled ==> gc.roots == old(gc.roots)
  {
    hide EdgesOf, Reaches, Sound, AnyBroken;
    var found := Walk(repo, meta, gc, roots, cas);
    visited := found;
    AllReached(cas, Elements(roots), found);
    MakeImmune(repo, meta, gc, found);
  }

  lemma AllReached(cas: Store, roots: set<Digest>, found: set<Digest>)
    requires Sound(cas, roots, found, found)
    ensures forall d :: d in found <==> Reaches(cas, roots, d)
  {
    forall d | Reaches(cas, roots, d) ensures d in found {
      var walk :| IsWalk(cas, roots, walk) && walk[0] == d;
      ClosedHoldsWalk(cas, roots, found, walk);
    }
  }

  lemma Visited(cas: Store, roots: set<Digest>, found: set<Digest>, done: set<Digest>, d: Digest)
    requires Sound(cas, roots, found, done) && d in found
    ensures Sound(cas, roots, found + Children(cas, d), done + {d})
    ensures AnyBroken(cas, done + {d}) <==> AnyBroken(cas, done) || Broken(cas, d)
    ensures var all, found' := Universe(cas, roots), found + Children(cas, d);
            |all - found'| <= |all - found| && (found' != found ==> |all - found'| < |all - found|)
  {
    UniverseShrinks(Universe(cas, roots), found, found + Children(cas, d));
    forall c | c in Children(cas, d) ensures Reaches(cas, roots, c) { ReachesChild(cas, roots, d, c); }
  }

  lemma UniverseShrinks(all: set<Digest>, found: set<Digest>, found': set<Digest>)
    requires found <= found' <= all
    ensures |all - found'| <= |all - found|
    ensures found' != found ==> |all - found'| < |all - found|
  {
    var gained := found' - found;
    assert all - found == (all - found') + gained;
    assert |all - found| == |all - found'| + |gained|;
    if found' != found { assert gained != {}; }
  }

  method MakeImmune(repo: Repo, meta: MetadataStore, gc: GcTracker, found: set<Digest>)
    modifies gc`roots
    ensures gc.enabled ==>
              gc.roots == old(gc.roots) + (set d | d in found && !IsManifest(meta.state, Key(repo, d)) :: Key(repo, d))
    ensures !gc.enabled ==> gc.roots == old(gc.roots)
  {
    var rest := found;
    while rest != {}
      invariant rest <= found
      invariant gc.enabled ==>
                  gc.roots == old(gc.roots) +
                    (set d | d in found - rest && !IsManifest(meta.state, Key(repo, d)) :: Key(repo, d))
      invariant !gc.enabled ==> gc.roots == old(gc.roots)
    {
      var d :| d in rest;
      if !IsManifest(meta.state, Key(repo, d)) { gc.AddRoot(Key(repo, d)); }
      rest := rest - {d};
    }
  }

  // ---- one repository at startup ----

  datatype IndexRead = IndexFile(index: Json) | NoIndex | CorruptIndex

  // The roots of a repository: what the metadata knows and what index.json lists.
  function RootsOf(m: Meta, repo: Repo, index: IndexRead): set<Digest> {
    ManifestsOf(m, repo) + (if index.IndexFile? then ChildDigests(AsItems(Get(index.index, FManifests))) else {})
  }

  method ListOf(s: set<Digest>) returns (l: seq<Digest>)
    ensures Elements(l) == s
  {
    l := [];
    var rest := s;
    while rest != {}
      invariant rest <= s && Elements(l) == s - rest
    {
      var d :| d in rest;
      ElementsSnoc(l, d);
      l, rest := l + [d], rest - {d};
    }
  }

  // Needed by something live: reachable itself, or referenced by a reachable manifest.
  ghost predicate Live(cas: Store, roots: set<Digest>, d: Digest) {
    Reaches(cas, roots, d) || exists m :: Reaches(cas, roots, m) && d in References(cas, m)
  }

  // Every live digest of the repository is shielded from collection.
  ghost predicate Covered(cas: Store, live: set<Digest>, m: Meta, roots: set<Key>, unsafeRepos: set<Repo>, repo: Repo) {
    repo in unsafeRepos ||
    forall d | Live(cas, live, d) ::
      var k := Key(repo, d); k in roots || Backrefs(m, k) != {} || IsManifest(m, k)
  }

  lemma WalkCovers(cas: Store, live: set<Digest>, visited: set<Digest>, before: Meta, now: Meta,
                   roots: set<Key>, unsafeRepos: set<Repo>, repo: Repo)
    requires forall d :: d in visited <==> Reaches(cas, live, d)
    requires EdgesOf(cas, visited, before, now, repo)
    requires forall d | d in visited && !IsManifest(now, Key(repo, d)) :: Key(repo, d) in roots
    ensures Covered(cas, live, now, roots, unsafeRepos, repo)
  {
    forall d | Live(cas, live, d)
      ensures Key(repo, d) in roots || Backrefs(now, Key(repo, d)) != {} || IsManifest(now, Key(repo, d))
    {
      if !Reaches(cas, live, d) {
        var m :| Reaches(cas, live, m) && d in References(cas, m);
        assert m in Backrefs(now, Key(repo, d));
      }
    }
  }

  // Edges only grow, and every new one is a reference of a readable manifest.
  ghost predicate EdgesFrom(cas: Store, before: Meta, now: Meta) {
    forall k ::
      && Backrefs(before, k) <= Backrefs(now, k)
      && forall d | d in Backrefs(now, k) - Backrefs(before, k) :: k.digest in References(cas, d)
  }

  lemma EdgesOfGrow(cas: Store, done: set<Digest>, before: Meta, now: Meta, repo: Repo)
    requires EdgesOf(cas, done, before, now, repo)
    ensures EdgesFrom(cas, before, now)
  {
    hide References, Backrefs;
    forall k ensures Backrefs(before, k) <= Backrefs(now, k)
    ensures forall d | d in Backrefs(now, k) - Backrefs(before, k) :: k.digest in References(cas, d)
    {
      assert k.repo == repo || k.repo != repo;
    }
  }

  // ---- what that means, in terms of the files ----

  // The `manifests` of an index list a descriptor of `d`.
  ghost predicate ListsDigest(index: Json, d: Digest) {
    && index.Obj? && FManifests in index.fields && index.fields[FManifests].Array?
    && exists e :: e in index.fields[FManifests].items && e.Obj? && FDigest in e.fields && e.fields[FDigest] == Text(d)
  }

  // The document stored under `p` can be read, and is `doc`.
  predicate Reads(cas: Store, p: Digest, doc: Json) {
    Digests.Parses(p) && p in cas && cas[p] == Document(doc)
  }

  // Something keeps `k` from being collected.
  predicate Safe(m: Meta, roots: set<Key>, k: Key) {
    k in roots || Backrefs(m, k) != {} || IsManifest(m, k)
  }

  // `kept` holds what the metadata knew and what index.json lists, and with every manifest
  // that can be read what that lists; all of it is safe, and so is all its manifests mention.
  ghost predicate Keeps(cas: Store, index: IndexRead, before: Meta, m: Meta, roots: set<Key>, repo: Repo,
                        kept: iset<Digest>) {
    && (forall d | IsManifest(before, Key(repo, d)) :: d in kept)
    && (index.IndexFile? ==> forall d | ListsDigest(index.index, d) :: d in kept)
    && (forall p, doc, d | p in kept && Reads(cas, p, doc) && ListsDigest(doc, d) :: d in kept)
    && (forall d | d in kept :: Safe(m, roots, Key(repo, d)))
    && (forall p, doc, d | p in kept && Reads(cas, p, doc) && Manifests.Mentions(doc, d) ::
          Safe(m, roots, Key(repo, d)))
  }

  // Nothing that the metadata or index.json of a repository leads to can be collected.
  ghost predicate Protected(cas: Store, index: IndexRead, before: Meta, m: Meta, roots: set<Key>,
                            unsafeRepos: set<Repo>, repo: Repo) {
    repo in unsafeRepos || (!index.CorruptIndex? && exists kept :: Keeps(cas, index, before, m, roots, repo, kept))
  }

  lemma ChildIff(doc: Json, d: Digest)
    ensures d in ChildDigests(AsItems(Get(doc, FManifests))) <==> ListsDigest(doc, d)
  {
  }

  lemma ReachesListed(cas: Store, roots: set<Digest>, p: Digest, doc: Json, d: Digest)
    requires Reaches(cas, roots, p) && Reads(cas, p, doc) && ListsDigest(doc, d)
    ensures Reaches(cas, roots, d)
  {
    hide Reaches, ListsDigest, ChildDigests;
    ChildIff(doc, d);
    ReachesChild(cas, roots, p, d);
  }

  lemma LiveMentioned(cas: Store, roots: set<Digest>, p: Digest, doc: Json, d: Digest)
    requires Reaches(cas, roots, p) && Reads(cas, p, doc) && Manifests.Mentions(doc, d)
    ensures Live(cas, roots, d)
  {
    hide Reaches, Manifests.Mentions, Manifests.References;
    Manifests.ReferencesAreMentioned(doc, d);
    assert d in References(cas, p);
  }

  lemma CoveredIsProtected(cas: Store, index: IndexRead, before: Meta, m: Meta, roots: set<Key>,
                           unsafeRepos: set<Repo>, repo: Repo)
    requires Covered(cas, RootsOf(before, repo, index), m, roots, unsafeRepos, repo)
    requires index.CorruptIndex? ==> repo in unsafeRepos
    ensures Protected(cas, index, before, m, roots, unsafeRepos, repo)
  {
    if repo !in unsafeRepos {
      var live := RootsOf(before, repo, index);
      var kept := iset d | Reaches(cas, live, d);
      forall d | IsManifest(before, Key(repo, d)) ensures d in kept { ReachesRoot(cas, live, d); }
      if index.IndexFile? {
        forall d | ListsDigest(index.index, d) ensures d in kept {
          ChildIff(index.index, d);
          ReachesRoot(cas, live, d);
        }
      }
      hide Reaches, ListsDigest, RootsOf, Manifests.Mentions, References, Reads;
      forall p, doc, d | p in kept && Reads(cas, p, doc) && ListsDigest(doc, d) ensures d in kept {
        ReachesListed(cas, live, p, doc, d);
      }
      forall p, doc, d | p in kept && Reads(cas, p, doc) && Manifests.Mentions(doc, d)
        ensures Safe(m, roots, Key(repo, d))
      {
        LiveMentioned(cas, live, p, doc, d);
      }
      assert Keeps(cas, index, before, m, roots, repo, kept);
    }
  }

  /** Startup of one repository: nothing its metadata or its index.json leads to can be
      collected, or the repository is skipped. That is so exactly when it was before, when
      index.json is corrupt, or when a manifest on the way cannot be read. */
  method RebuildRepo(repo: Repo, meta: MetadataStore, gc: GcTracker, index: IndexRead, cas: Store)
    requires gc.enabled
    modifies meta, gc`roots, gc`unsafeRepos
    ensures Protected(cas, index, old(meta.state), meta.state, gc.roots, gc.unsafeRepos, repo)
    ensures gc.unsafeRepos == old(gc.unsafeRepos) +
              (if index.CorruptIndex?
                  || exists p :: Reaches(cas, RootsOf(old(meta.state), repo, index), p) && Broken(cas, p)
               then {repo} else {})
    ensures old(gc.roots) <= gc.roots
    ensures forall k | k in gc.roots - old(gc.roots) ::
              && k.repo == repo && !IsManifest(meta.state, k)
              && Reaches(cas, RootsOf(old(meta.state), repo, index), k.digest)
    ensures forall k: Key | k.repo != repo :: Backrefs(meta.state, k) == old(Backrefs(meta.state, k))
    ensures forall k :: IsManifest(meta.state, k) <==> old(IsManifest(meta.state, k))
    ensures EdgesFrom(cas, old(meta.state), meta.state)
  {
    if index.CorruptIndex? {
      gc.MarkUnsafe(repo);
      return;
    }
    ghost var live := RootsOf(meta.state, repo, index);
    var roots := ListOf(RootsOf(meta.state, repo, index));
    hide RootsOf, Reaches, Protected, Broken, Covered, Backrefs, IsManifest;
    ghost var visited := RebuildBackrefs(repo, meta, gc, roots, cas);
    WalkCovers(cas, live, visited, old(meta.state), meta.state, gc.roots, gc.unsafeRepos, repo);
    EdgesOfGrow(cas, visited, old(meta.state), meta.state, repo);
    CoveredIsProtected(cas, index, old(meta.state), meta.state, gc.roots, gc.unsafeRepos, repo);
  }

  // The document of `p` lists `d`.
  ghost predicate LeadsTo(cas: Store, p: Digest, d: Digest) {
    exists doc :: Reads(cas, p, doc) && ListsDigest(doc, d)
  }

  // A chain of manifests, each listed by the document of the one before.
  ghost predicate Chain(cas: Store, path: seq<Digest>) {
    path != [] && forall i | 0 <= i < |path| - 1 :: LeadsTo(cas, path[i], path[i + 1])
  }

  lemma KeepsNext(cas: Store, index: IndexRead, before: Meta, m: Meta, roots: set<Key>, repo: Repo,
                  kept: iset<Digest>, p: Digest, d: Digest)
    requires Keeps(cas, index, before, m, roots, repo, kept) && p in kept && LeadsTo(cas, p, d)
    ensures d in kept
  {
    hide ListsDigest, Reads, Safe, IsManifest, Manifests.Mentions;
    var doc :| Reads(cas, p, doc) && ListsDigest(doc, d);
  }

  lemma {:induction false} KeepsChain(cas: Store, index: IndexRead, before: Meta, m: Meta, roots: set<Key>, repo: Repo,
                                      kept: iset<Digest>, path: seq<Digest>)
    requires Keeps(cas, index, before, m, roots, repo, kept) && Chain(cas, path) && path[0] in kept
    ensures path[|path| - 1] in kept
  {
    hide LeadsTo, Keeps;
    if |path| > 1 {
      var n := |path| - 2;
      KeepsChain(cas, index, before, m, roots, repo, kept, path[..n + 1]);
      KeepsNext(cas, index, before, m, roots, repo, kept, path[n], path[n + 1]);
    }
  }

  // Where a chain may begin.
  ghost predicate Begins(index: IndexRead, before: Meta, repo: Repo, d: Digest) {
    (index.IndexFile? && ListsDigest(index.index, d)) || IsManifest(before, Key(repo, d))
  }

  // A manifest itself, or something its document mentions.
  ghost predicate Belongs(cas: Store, p: Digest, d: Digest) {
    d == p || exists doc :: Reads(cas, p, doc) && Manifests.Mentions(doc, d)
  }

  lemma KeepsBegun(cas: Store, index: IndexRead, before: Meta, m: Meta, roots: set<Key>, repo: Repo,
                   kept: iset<Digest>, d: Digest)
    requires Keeps(cas, index, before, m, roots, repo, kept) && Begins(index, before, repo, d)
    ensures d in kept
  {
    hide ListsDigest, Reads, Safe, IsManifest, Manifests.Mentions;
  }

  lemma KeepsSafe(cas: Store, index: IndexRead, before: Meta, m: Meta, roots: set<Key>, repo: Repo,
                  kept: iset<Digest>, p: Digest, d: Digest)
    requires Keeps(cas, index, before, m, roots, repo, kept) && p in kept && Belongs(cas, p, d)
    ensures Safe(m, roots, Key(repo, d))
  {
    hide ListsDigest, Reads, Safe, IsManifest, Manifests.Mentions;
  }

  /** From a rebuilt state no sweep, in any interleaving with pushes and commits, ever removes
      a stored blob that index.json or the metadata leads to: the last manifest of any chain
      that begins in one of them, and anything that manifest mentions. */
  lemma ListedNeverCollected(s: GcProtocol.State, acts: seq<GcProtocol.Action>, cas: Store, index: IndexRead,
                             before: Meta, repo: Repo, path: seq<Digest>, d: Digest)
    requires GcSafety.Initial(s) && GcSafety.NoRemovals(acts)
    requires Protected(cas, index, before, s.sh.meta, s.env.roots, s.env.unsafeRepos, repo)
    requires Chain(cas, path) && Begins(index, before, repo, path[0]) && Belongs(cas, path[|path| - 1], d)
    requires Key(repo, d) in s.sh.cas
    ensures Key(repo, d) in GcProtocol.Exec(s, acts).sh.cas
  {
    hide Keeps, Begins, Belongs, IsManifest, Backrefs, GcProtocol.Exec, LeadsTo;
    if repo !in s.env.unsafeRepos {
      var kept :| Keeps(cas, index, before, s.sh.meta, s.env.roots, repo, kept);
      KeepsBegun(cas, index, before, s.sh.meta, s.env.roots, repo, kept, path[0]);
      KeepsChain(cas, index, before, s.sh.meta, s.env.roots, repo, kept, path);
      KeepsSafe(cas, index, before, s.sh.meta, s.env.roots, repo, kept, path[|path| - 1], d);
    }
    GcSafety.ShieldedSurvives(s, acts, Key(repo, d));
  }

  // The same for whatever a state covers.
  lemma LiveNeverCollected(s: GcProtocol.State, acts: seq<GcProtocol.Action>, cas: Store, live: set<Digest>, repo: Repo,
                           d: Digest)
    requires GcSafety.Initial(s) && GcSafety.NoRemovals(acts)
    requires Covered(cas, live, s.sh.meta, s.env.roots, s.env.unsafeRepos, repo)
    requires Live(cas, live, d) && Key(repo, d) in s.sh.cas
    ensures Key(repo, d) in GcProtocol.Exec(s, acts).sh.cas
  {
    hide Live, GcProtocol.Exec;
    GcSafety.ShieldedSurvives(s, acts, Key(repo, d));
  }
}
