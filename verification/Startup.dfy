// The startup consistency check as a whole: every repository rebuilt, then every stored
// blob that nothing wants listed.

module Startup {
  import opened Core
  import opened Json
  import opened Metadata
  import opened Trackers
  import opened Registry
  import opened Rebuild
  import Manifests

  // What reading the blobs of each repository yields agrees with content addressing.
  ghost predicate Agree(stores: map<Repo, Store>, content: Digest -> Json) {
    forall r, d | r in stores && d in stores[r] && stores[r][d].Document? :: stores[r][d].doc == content(d)
  }

  lemma EdgesStayFromContent(stores: map<Repo, Store>, content: Digest -> Json, repo: Repo, before: Meta, now: Meta)
    requires repo in stores && Agree(stores, content) && EdgesTrue(before, content) &&
             EdgesFrom(stores[repo], before, now)
    ensures EdgesTrue(now, content)
  {
    hide Backrefs, Manifests.References;
    forall k, d | d in Backrefs(now, k) ensures k.digest in Manifests.References(content(d)) {
      if d !in Backrefs(before, k) { assert k.digest in Rebuild.References(stores[repo], d); }
    }
  }

  lemma SafeStays(m: Meta, roots: set<Key>, m': Meta, roots': set<Key>, k: Key)
    requires Safe(m, roots, k) && roots <= roots' && Backrefs(m, k) <= Backrefs(m', k)
    requires IsManifest(m', k) <==> IsManifest(m, k)
    ensures Safe(m', roots', k)
  {
    hide Backrefs, IsManifest;
  }

  lemma ProtectedStays(cas: Store, index: IndexRead, before: Meta, m: Meta, roots: set<Key>, unsafeRepos: set<Repo>,
                       repo: Repo, m': Meta, roots': set<Key>, unsafeRepos': set<Repo>)
    requires Protected(cas, index, before, m, roots, unsafeRepos, repo)
    requires roots <= roots' && unsafeRepos <= unsafeRepos'
    requires forall k :: Backrefs(m, k) <= Backrefs(m', k) && (IsManifest(m', k) <==> IsManifest(m, k))
    ensures Protected(cas, index, before, m', roots', unsafeRepos', repo)
  {
    hide Backrefs, IsManifest, Safe, Reads, ListsDigest, Manifests.Mentions;
    if repo !in unsafeRepos' {
      var kept :| Keeps(cas, index, before, m, roots, repo, kept);
      forall k: Key | Safe(m, roots, k) ensures Safe(m', roots', k) { SafeStays(m, roots, m', roots', k); }
      assert Keeps(cas, index, before, m', roots', repo, kept);
    }
  }

  lemma SameBefore(cas: Store, index: IndexRead, before: Meta, before': Meta, m: Meta, roots: set<Key>,
                   unsafeRepos: set<Repo>, repo: Repo)
    requires Protected(cas, index, before, m, roots, unsafeRepos, repo)
    requires forall k :: IsManifest(before', k) <==> IsManifest(before, k)
    ensures Protected(cas, index, before', m, roots, unsafeRepos, repo)
  {
    hide IsManifest, Safe, Reads, ListsDigest, Manifests.Mentions;
    if repo !in unsafeRepos {
      var kept :| Keeps(cas, index, before, m, roots, repo, kept);
      assert Keeps(cas, index, before', m, roots, repo, kept);
    }
  }

  /** However incomplete the metadata was: afterwards nothing that the metadata or index.json
      of any repository leads to can be collected, or that repository is skipped; every
      recorded edge is true, and sweeps may begin. Every stored blob that nothing wants is a
      candidate if and only if the listing reached those that were not listed before, so
      always when it was complete. */
  method ConsistencyCheck(st: Storage, repos: seq<Repo>, index: map<Repo, IndexRead>, stores: map<Repo, Store>,
                          keys: seq<Key>, now: Time)
    requires st.gc.enabled && EdgesTrue(st.meta.state, st.content) && StoredParse(st.cas) && Elements(keys) <= st.cas
    requires (forall r | r in repos :: r in index && r in stores) && Agree(stores, st.content)
    modifies st.meta, st.gc
    ensures st.gc.ready && EdgesTrue(st.meta.state, st.content)
    ensures st.Valid() <==> forall k | k in st.cas && Unwanted(st.meta.state, st.gc.roots, k) ::
                              k in keys || k in old(st.gc.candidates)
    ensures Elements(keys) == st.cas ==> st.Valid()
    ensures forall r | r in repos ::
              Protected(stores[r], index[r], old(st.meta.state), st.meta.state, st.gc.roots, st.gc.unsafeRepos, r)
    ensures forall k :: IsManifest(st.meta.state, k) <==> old(IsManifest(st.meta.state, k))
    ensures st.gc.candidates.Keys ==
            old(st.gc.candidates).Keys + set k | k in keys && Unwanted(st.meta.state, st.gc.roots, k)
  {
    hide EdgesTrue, Protected, Reaches, Broken, RootsOf, StoredParse, OrphanFree, Agree, EdgesFrom;
    ghost var before := st.meta.state;
    for i := 0 to |repos|
      invariant EdgesTrue(st.meta.state, st.content) && st.gc.candidates == old(st.gc.candidates)
      invariant forall k :: IsManifest(st.meta.state, k) <==> IsManifest(before, k)
      invariant forall j | 0 <= j < i ::
        Protected(stores[repos[j]], index[repos[j]], before, st.meta.state, st.gc.roots, st.gc.unsafeRepos, repos[j])
    {
      var r := repos[i];
      ghost var m, roots, unsafeRepos := st.meta.state, st.gc.roots, st.gc.unsafeRepos;
      RebuildRepo(r, st.meta, st.gc, index[r], stores[r]);
      EdgesStayFromContent(stores, st.content, r, m, st.meta.state);
      Grown(stores[r], m, st.meta.state);
      SameBefore(stores[r], index[r], m, before, st.meta.state, st.gc.roots, st.gc.unsafeRepos, r);
      forall j | 0 <= j < i
        ensures Protected(stores[repos[j]], index[repos[j]], before, st.meta.state, st.gc.roots, st.gc.unsafeRepos,
                          repos[j])
      {
        ProtectedStays(stores[repos[j]], index[repos[j]], before, m, roots, unsafeRepos, repos[j],
                       st.meta.state, st.gc.roots, st.gc.unsafeRepos);
      }
    }
    st.SeedCandidates(keys, now);
    st.gc.ready := true;
  }

  lemma Grown(cas: Store, before: Meta, now: Meta)
    requires EdgesFrom(cas, before, now)
    ensures forall k :: Backrefs(before, k) <= Backrefs(now, k)
  {
  }
}
