// Compacting the metadata log: the live state is written out as a minimal list of
// operations, section by section over all repositories, and replayed at the next start.

module Compaction {
  import opened Core
  import opened Json
  import opened Metadata
  import Layout

  function ReplayRepo(rs: RepoState, ops: seq<MetaOp>): RepoState {
    if ops == [] then rs else ApplyRepo(ReplayRepo(rs, ops[..|ops| - 1]), ops[|ops| - 1])
  }

  function Replay(m: Meta, ops: seq<MetaOp>): Meta {
    if ops == [] then m else Apply(Replay(m, ops[..|ops| - 1]), ops[|ops| - 1])
  }

  // The order in which the maps of a repository happen to be walked.
  datatype Walk = Walk(
    tags: seq<Tag>,
    digests: seq<Digest>,
    edges: seq<(Digest, Digest)>,
    referrers: seq<(Digest, Digest)>,
    checksums: seq<Digest>)

  predicate Covers(rs: RepoState, w: Walk) {
    && Elements(w.tags) == rs.tags.Keys
    && Elements(w.digests) == rs.mediaTypes.Keys
    && (forall e | e in w.edges :: e.0 in rs.backrefs && e.1 in rs.backrefs[e.0])
    && (forall b, m | b in rs.backrefs && m in rs.backrefs[b] :: (b, m) in w.edges)
    && (forall e | e in w.referrers :: e.0 in rs.referrers && e.1 in rs.referrers[e.0])
    && (forall s, r | s in rs.referrers && r in rs.referrers[s] :: (s, r) in w.referrers)
    && Elements(w.checksums) == rs.checksums.Keys
  }

  // Every repository can be walked.
  lemma SomeWalk(rs: RepoState) returns (w: Walk)
    ensures Covers(rs, w)
  {
    var tags := Layout.SomeOrder(rs.tags.Keys);
    var digests := Layout.SomeOrder(rs.mediaTypes.Keys);
    var edges := Layout.SomeOrder(set b, m | b in rs.backrefs && m in rs.backrefs[b] :: (b, m));
    var referrers := Layout.SomeOrder(set s, r | s in rs.referrers && r in rs.referrers[s] :: (s, r));
    var checksums := Layout.SomeOrder(rs.checksums.Keys);
    w := Walk(tags, digests, edges, referrers, checksums);
    forall e | e in edges ensures e.0 in rs.backrefs && e.1 in rs.backrefs[e.0] { assert e in Elements(edges); }
    forall e | e in referrers ensures e.0 in rs.referrers && e.1 in rs.referrers[e.0] {
      assert e in Elements(referrers);
    }
    forall b, m | b in rs.backrefs && m in rs.backrefs[b] ensures (b, m) in edges { assert (b, m) in Elements(edges); }
    forall s, r | s in rs.referrers && r in rs.referrers[s] ensures (s, r) in referrers {
      assert (s, r) in Elements(referrers);
    }
  }

  // ---- the image of one repository ----

  predicate AllFor(ops: seq<MetaOp>, repo: Repo) {
    forall i | 0 <= i < |ops| :: ops[i].repo == repo
  }

  function TagOps(repo: Repo, rs: RepoState, tags: seq<Tag>): (ops: seq<MetaOp>)
    requires forall t | t in tags :: t in rs.tags
    ensures AllFor(ops, repo)
  {
    if tags == [] then []
    else
      var t := tags[|tags| - 1];
      TagOps(repo, rs, tags[..|tags| - 1]) +
        [PutManifest(repo, rs.tags[t].digest, rs.tags[t].mediaType, Some(t), [], None)]
  }

  predicate IsTagged(rs: RepoState, d: Digest) {
    exists t :: t in rs.tags && rs.tags[t].digest == d
  }

  function PlainOps(repo: Repo, rs: RepoState, digests: seq<Digest>): (ops: seq<MetaOp>)
    requires forall d | d in digests :: d in rs.mediaTypes
    ensures AllFor(ops, repo)
  {
    if digests == [] then []
    else
      var d := digests[|digests| - 1];
      PlainOps(repo, rs, digests[..|digests| - 1])
      + if IsTagged(rs, d) then [] else [PutManifest(repo, d, rs.mediaTypes[d], None, [], None)]
  }

  function EdgeOps(repo: Repo, edges: seq<(Digest, Digest)>): (ops: seq<MetaOp>)
    ensures AllFor(ops, repo)
  {
    if edges == [] then []
    else
      var (blob, manifest) := edges[|edges| - 1];
      EdgeOps(repo, edges[..|edges| - 1]) + [PutBackrefs(repo, manifest, [blob])]
  }

  function ReferrerOps(repo: Repo, rs: RepoState, pairs: seq<(Digest, Digest)>): (ops: seq<MetaOp>)
    requires forall e | e in pairs :: e.0 in rs.referrers && e.1 in rs.referrers[e.0]
    ensures AllFor(ops, repo)
  {
    if pairs == [] then []
    else
      var e := pairs[|pairs| - 1];
      ReferrerOps(repo, rs, pairs[..|pairs| - 1]) + [PutReferrer(repo, e.0, e.1, rs.referrers[e.0][e.1])]
  }

  function ChecksumOps(repo: Repo, rs: RepoState, digests: seq<Digest>): (ops: seq<MetaOp>)
    requires forall d | d in digests :: d in rs.checksums
    ensures AllFor(ops, repo)
  {
    if digests == [] then []
    else
      var d := digests[|digests| - 1];
      ChecksumOps(repo, rs, digests[..|digests| - 1]) + [PutChecksum(repo, d, rs.checksums[d])]
  }

  function RepoImage(repo: Repo, rs: RepoState, w: Walk): seq<MetaOp>
    requires Covers(rs, w)
  {
    CoversParts(rs, w);
    TagOps(repo, rs, w.tags) + PlainOps(repo, rs, w.digests) + EdgeOps(repo, w.edges)
    + ReferrerOps(repo, rs, w.referrers) + ChecksumOps(repo, rs, w.checksums)
  }

  lemma CoversParts(rs: RepoState, w: Walk)
    requires Covers(rs, w)
    ensures forall t | t in w.tags :: t in rs.tags
    ensures forall d | d in w.digests :: d in rs.mediaTypes
    ensures forall d | d in w.checksums :: d in rs.checksums
    ensures forall e | e in w.referrers :: e.0 in rs.referrers && e.1 in rs.referrers[e.0]
  {
    forall t | t in w.tags ensures t in rs.tags { assert t in Elements(w.tags); }
    forall d | d in w.digests ensures d in rs.mediaTypes { assert d in Elements(w.digests); }
    forall d | d in w.checksums ensures d in rs.checksums { assert d in Elements(w.checksums); }
  }

  // ---- what replaying each section does ----

  lemma {:induction false} ReplayAppend(rs: RepoState, a: seq<MetaOp>, b: seq<MetaOp>)
    ensures ReplayRepo(rs, a + b) == ReplayRepo(ReplayRepo(rs, a), b)
  {
    hide ApplyRepo;
    if b == [] {
      assert a + b == a;
    } else {
      assert (a + b)[..|a + b| - 1] == a + b[..|b| - 1];
      ReplayAppend(rs, a, b[..|b| - 1]);
    }
  }

  lemma OneMore(rs: RepoState, a: seq<MetaOp>, op: MetaOp)
    ensures ReplayRepo(rs, a + [op]) == ApplyRepo(ReplayRepo(rs, a), op)
  {
    hide ApplyRepo;
    assert (a + [op])[..|a|] == a;
  }

  // The media type recorded with the last tag of `d` in the walk.
  function LastType(rs: RepoState, tags: seq<Tag>, d: Digest): Option<MediaType> {
    if tags == [] then None
    else
      var t := tags[|tags| - 1];
      if t in rs.tags && rs.tags[t].digest == d then Some(rs.tags[t].mediaType) else LastType(rs, tags[..|tags| - 1], d)
  }

  // An unreferencing commit changes a tag and a media type.
  lemma CommitAlone(rs: RepoState, repo: Repo, d: Digest, mt: MediaType, tag: Option<Tag>)
    ensures ApplyRepo(rs, PutManifest(repo, d, mt, tag, [], None)) ==
            rs.(mediaTypes := rs.mediaTypes[d := mt],
                tags := if tag.Some? then rs.tags[tag.value := Tagged(d, mt)] else rs.tags)
  {
    assert Elements<Digest>([]) == {} by { ElementsEmpty<Digest>(); }
    var b := AddBackrefs(rs.backrefs, d, []);
    forall x | x in rs.backrefs ensures x in b && b[x] == rs.backrefs[x] {
      assert b[x] == Edges(rs.backrefs, x) + {};
    }
    assert b == rs.backrefs;
  }

  lemma {:induction false} TagSection(repo: Repo, rs: RepoState, tags: seq<Tag>)
    requires forall t | t in tags :: t in rs.tags
    ensures var r := ReplayRepo(EmptyRepo, TagOps(repo, rs, tags));
            && r.tags.Keys == Elements(tags) && (forall t | t in tags :: r.tags[t] == rs.tags[t])
            && (forall d :: (if d in r.mediaTypes then Some(r.mediaTypes[d]) else None) == LastType(rs, tags, d))
            && r.backrefs == map[] && r.referrers == map[] && r.checksums == map[]
  {
    hide ApplyRepo;
    if tags != [] {
      var n := |tags| - 1;
      var t := tags[n];
      TagSection(repo, rs, tags[..n]);
      OneMore(EmptyRepo, TagOps(repo, rs, tags[..n]),
              PutManifest(repo, rs.tags[t].digest, rs.tags[t].mediaType, Some(t), [], None));
      CommitAlone(ReplayRepo(EmptyRepo, TagOps(repo, rs, tags[..n])), repo, rs.tags[t].digest, rs.tags[t].mediaType,
                  Some(t));
      assert tags == tags[..n] + [t];
      ElementsSnoc(tags[..n], t);
    }
  }

  // Media types after the untagged manifests among `digests` have been written.
  ghost predicate WithPlain(types: map<Digest, MediaType>, before: map<Digest, MediaType>, rs: RepoState,
                            digests: seq<Digest>)
    requires forall d | d in digests :: d in rs.mediaTypes
  {
    && (forall d :: d in types <==> d in before || (d in digests && !IsTagged(rs, d)))
    && (forall d | d in types :: types[d] == if d in digests && !IsTagged(rs, d) then rs.mediaTypes[d] else before[d])
  }

  lemma PlainAdded(types: map<Digest, MediaType>, before: map<Digest, MediaType>, rs: RepoState, digests: seq<Digest>,
                   d: Digest)
    requires d in rs.mediaTypes && (forall x | x in digests :: x in rs.mediaTypes) &&
             WithPlain(types, before, rs, digests)
    ensures WithPlain(if IsTagged(rs, d) then types else types[d := rs.mediaTypes[d]], before, rs, digests + [d])
  {
    hide IsTagged;
  }

  lemma {:induction false} PlainSection(base: RepoState, repo: Repo, rs: RepoState, digests: seq<Digest>)
    requires forall d | d in digests :: d in rs.mediaTypes
    ensures var r := ReplayRepo(base, PlainOps(repo, rs, digests));
            r == base.(mediaTypes := r.mediaTypes) && WithPlain(r.mediaTypes, base.mediaTypes, rs, digests)
  {
    hide ApplyRepo, IsTagged;
    if digests != [] {
      hide WithPlain;
      var n := |digests| - 1;
      var d := digests[n];
      PlainSection(base, repo, rs, digests[..n]);
      var ops := PlainOps(repo, rs, digests[..n]);
      assert digests == digests[..n] + [d];
      PlainAdded(ReplayRepo(base, ops).mediaTypes, base.mediaTypes, rs, digests[..n], d);
      if IsTagged(rs, d) {
        assert ops + [] == ops;
      } else {
        OneMore(base, ops, PutManifest(repo, d, rs.mediaTypes[d], None, [], None));
        CommitAlone(ReplayRepo(base, ops), repo, d, rs.mediaTypes[d], None);
      }
    }
  }

  lemma {:induction false} EdgeSection(base: RepoState, repo: Repo, edges: seq<(Digest, Digest)>)
    requires base.backrefs == map[]
    ensures var r := ReplayRepo(base, EdgeOps(repo, edges));
            && r == base.(backrefs := r.backrefs)
            && (forall b, m :: m in Edges(r.backrefs, b) <==> (b, m) in edges)
            && (forall b | b in r.backrefs :: r.backrefs[b] != {})
  {
    if edges != [] {
      var n := |edges| - 1;
      var (blob, manifest) := edges[n];
      EdgeSection(base, repo, edges[..n]);
      OneMore(base, EdgeOps(repo, edges[..n]), PutBackrefs(repo, manifest, [blob]));
      assert edges == edges[..n] + [(blob, manifest)];
      EdgeAdded(ReplayRepo(base, EdgeOps(repo, edges[..n])).backrefs, manifest, blob);
    }
  }

  lemma EdgeAdded(b: map<Digest, set<Digest>>, manifest: Digest, blob: Digest)
    requires forall x | x in b :: b[x] != {}
    ensures var b' := AddBackrefs(b, manifest, [blob]);
            && (forall x, m :: m in Edges(b', x) <==> m in Edges(b, x) || (x == blob && m == manifest))
            && (forall x | x in b' :: b'[x] != {})
  {
    var b' := AddBackrefs(b, manifest, [blob]);
    assert Elements([blob]) == {blob};
    forall x | x in b' ensures b'[x] != {} {
      if x == blob { assert manifest in b'[x]; } else { assert b'[x] == b[x]; }
    }
  }

  // Exactly the given pairs are recorded, each with its descriptor.
  predicate RefersAs(r: map<Digest, map<Digest, Descriptor>>, full: map<Digest, map<Digest, Descriptor>>,
                     pairs: seq<(Digest, Digest)>)
    requires forall e | e in pairs :: e.0 in full && e.1 in full[e.0]
  {
    && (forall s | s in r :: r[s] != map[])
    && (forall s, d | s in r && d in r[s] :: (s, d) in pairs && r[s][d] == full[s][d])
    && (forall e | e in pairs :: e.0 in r && e.1 in r[e.0])
  }

  lemma ReferrerAdded(r: map<Digest, map<Digest, Descriptor>>, full: map<Digest, map<Digest, Descriptor>>,
                      pairs: seq<(Digest, Digest)>, e: (Digest, Digest))
    requires (forall x | x in pairs + [e] :: x.0 in full && x.1 in full[x.0]) &&
             (forall x | x in pairs :: x in pairs + [e])
    requires RefersAs(r, full, pairs)
    ensures RefersAs(AddReferrer(r, e.0, e.1, full[e.0][e.1]), full, pairs + [e])
  {
    var r' := AddReferrer(r, e.0, e.1, full[e.0][e.1]);
    assert e.1 in r'[e.0];
    forall s, d | s in r' && d in r'[s] ensures (s, d) in pairs + [e] && r'[s][d] == full[s][d] {
      assert (s, d) == e || (s in r && d in r[s]);
    }
  }

  lemma ReferrerAlone(rs: RepoState, repo: Repo, subject: Digest, referrer: Digest, d: Descriptor)
    ensures ApplyRepo(rs, PutReferrer(repo, subject, referrer, d)) ==
            rs.(referrers := AddReferrer(rs.referrers, subject, referrer, d))
  {
  }

  lemma ReferrerOpsSnoc(repo: Repo, rs: RepoState, pairs: seq<(Digest, Digest)>)
    requires pairs != [] && forall e | e in pairs :: e.0 in rs.referrers && e.1 in rs.referrers[e.0]
    ensures var n := |pairs| - 1;
            var e := pairs[n];
            ReferrerOps(repo, rs, pairs) ==
            ReferrerOps(repo, rs, pairs[..n]) + [PutReferrer(repo, e.0, e.1, rs.referrers[e.0][e.1])]
  {
  }

  lemma NoReferrers(base: RepoState, repo: Repo, rs: RepoState)
    requires base.referrers == map[]
    ensures ReplayRepo(base, ReferrerOps(repo, rs, [])) == base && RefersAs(base.referrers, rs.referrers, [])
  {
  }

  lemma {:induction false} ReferrerSection(base: RepoState, repo: Repo, rs: RepoState, pairs: seq<(Digest, Digest)>)
    requires base.referrers == map[] && forall e | e in pairs :: e.0 in rs.referrers && e.1 in rs.referrers[e.0]
    ensures var r := ReplayRepo(base, ReferrerOps(repo, rs, pairs));
            r == base.(referrers := r.referrers) && RefersAs(r.referrers, rs.referrers, pairs)
  {
    hide RefersAs, AddReferrer, ApplyRepo, ReplayRepo, ReferrerOps;
    if pairs == [] {
      NoReferrers(base, repo, rs);
    } else {
      var n := |pairs| - 1;
      var e := pairs[n];
      ReferrerSection(base, repo, rs, pairs[..n]);
      ReferrerOpsSnoc(repo, rs, pairs);
      var ops := ReferrerOps(repo, rs, pairs[..n]);
      OneMore(base, ops, PutReferrer(repo, e.0, e.1, rs.referrers[e.0][e.1]));
      ReferrerAlone(ReplayRepo(base, ops), repo, e.0, e.1, rs.referrers[e.0][e.1]);
      assert pairs == pairs[..n] + [e];
      ReferrerAdded(ReplayRepo(base, ops).referrers, rs.referrers, pairs[..n], e);
    }
  }

  lemma ChecksumAlone(rs: RepoState, repo: Repo, d: Digest, c: Checksum)
    ensures ApplyRepo(rs, PutChecksum(repo, d, c)) == rs.(checksums := rs.checksums[d := c])
  {
  }

  lemma {:induction false} ChecksumSection(base: RepoState, repo: Repo, rs: RepoState, digests: seq<Digest>)
    requires base.checksums == map[] && forall d | d in digests :: d in rs.checksums
    ensures var r := ReplayRepo(base, ChecksumOps(repo, rs, digests));
            && r == base.(checksums := r.checksums)
            && r.checksums.Keys == Elements(digests) && (forall d | d in digests :: r.checksums[d] == rs.checksums[d])
  {
    if digests != [] {
      hide ApplyRepo;
      var n := |digests| - 1;
      var d := digests[n];
      ChecksumSection(base, repo, rs, digests[..n]);
      OneMore(base, ChecksumOps(repo, rs, digests[..n]), PutChecksum(repo, d, rs.checksums[d]));
      ChecksumAlone(ReplayRepo(base, ChecksumOps(repo, rs, digests[..n])), repo, d, rs.checksums[d]);
      assert digests == digests[..n] + [d];
      ElementsSnoc(digests[..n], d);
    }
  }

  // ---- one repository ----

  // Maps hold no empty entries, and tags name known manifests. No operation breaks this.
  predicate Canonical(rs: RepoState) {
    && TagsKnown(rs)
    && (forall b | b in rs.backrefs :: rs.backrefs[b] != {})
    && (forall s | s in rs.referrers :: rs.referrers[s] != map[])
  }

  lemma CanonicalStays(rs: RepoState, op: MetaOp)
    requires Canonical(rs)
    ensures Canonical(ApplyRepo(rs, op))
  {
    hide TagsKnown;
    TagsStayKnown(rs, op);
    match op {
      case PutManifest(_, digest, _, _, references, refersTo) =>
        BackrefsStayFull(rs.backrefs, digest, references);
        if refersTo.Some? { ReferrersStayFull(rs.referrers, refersTo.value.0, digest, refersTo.value.1); }
      case PutBackrefs(_, manifest, blobs) => BackrefsStayFull(rs.backrefs, manifest, blobs);
      case PutReferrer(_, subject, referrer, d) => ReferrersStayFull(rs.referrers, subject, referrer, d);
      case _ =>
    }
  }

  lemma BackrefsStayFull(b: map<Digest, set<Digest>>, manifest: Digest, blobs: seq<Digest>)
    requires forall x | x in b :: b[x] != {}
    ensures forall x | x in AddBackrefs(b, manifest, blobs) :: AddBackrefs(b, manifest, blobs)[x] != {}
  {
    var b' := AddBackrefs(b, manifest, blobs);
    forall x | x in b' ensures b'[x] != {} {
      if x in blobs {
        assert manifest in b'[x];
      } else {
        assert b'[x] == Edges(b, x);
      }
    }
  }

  lemma ReferrersStayFull(r: map<Digest, map<Digest, Descriptor>>, subject: Digest, referrer: Digest, d: Descriptor)
    requires forall s | s in r :: r[s] != map[]
    ensures forall s | s in AddReferrer(r, subject, referrer, d) :: AddReferrer(r, subject, referrer, d)[s] != map[]
  {
    assert referrer in AddReferrer(r, subject, referrer, d)[subject];
  }

  // The last tag of every tagged manifest carries the manifest's own media type.
  ghost predicate Typed(rs: RepoState, tags: seq<Tag>) {
    forall d | IsTagged(rs, d) && d in rs.mediaTypes :: LastType(rs, tags, d) == Some(rs.mediaTypes[d])
  }

  lemma {:induction false} LastTypeSome(rs: RepoState, tags: seq<Tag>, d: Digest)
    requires forall t | t in tags :: t in rs.tags
    ensures LastType(rs, tags, d).Some? <==> exists t :: t in tags && rs.tags[t].digest == d
  {
    if tags != [] {
      var n := |tags| - 1;
      LastTypeSome(rs, tags[..n], d);
      assert tags == tags[..n] + [tags[n]];
      assert tags[n] in tags;
    }
  }

  lemma TaggedIff(rs: RepoState, w: Walk, d: Digest)
    requires Covers(rs, w) && forall t | t in w.tags :: t in rs.tags
    ensures LastType(rs, w.tags, d).Some? <==> IsTagged(rs, d)
  {
    hide LastType;
    LastTypeSome(rs, w.tags, d);
    if t :| t in rs.tags && rs.tags[t].digest == d { assert t in Elements(w.tags); }
  }

  // Tags come back exactly; media types come back exactly when they are typed.
  lemma ManifestsRestored(repo: Repo, rs: RepoState, w: Walk)
    requires Covers(rs, w) && TagsKnown(rs) && (forall t | t in w.tags :: t in rs.tags) &&
             (forall d | d in w.digests :: d in rs.mediaTypes)
    ensures var r := ReplayRepo(EmptyRepo, TagOps(repo, rs, w.tags) + PlainOps(repo, rs, w.digests));
            && r.tags == rs.tags && r.mediaTypes.Keys == rs.mediaTypes.Keys
            && r.backrefs == map[] && r.referrers == map[] && r.checksums == map[]
            && (r.mediaTypes == rs.mediaTypes <==> Typed(rs, w.tags))
  {
    hide LastType, IsTagged, ReplayRepo, TagOps, PlainOps;
    var tagOps, plainOps := TagOps(repo, rs, w.tags), PlainOps(repo, rs, w.digests);
    ReplayAppend(EmptyRepo, tagOps, plainOps);
    TagSection(repo, rs, w.tags);
    var r1 := ReplayRepo(EmptyRepo, tagOps);
    PlainSection(r1, repo, rs, w.digests);
    var r := ReplayRepo(r1, plainOps);
    assert r.tags == rs.tags by {
      forall t | t in rs.tags ensures t in r.tags && r.tags[t] == rs.tags[t] { assert t in Elements(w.tags); }
    }
    forall d
      ensures d in r.mediaTypes <==> d in rs.mediaTypes
      ensures d in r.mediaTypes && d in rs.mediaTypes ==>
                r.mediaTypes[d] == if IsTagged(rs, d) then LastType(rs, w.tags, d).value else rs.mediaTypes[d]
    {
      TaggedIff(rs, w, d);
      assert d in w.digests <==> d in rs.mediaTypes by { assert d in Elements(w.digests) <==> d in rs.mediaTypes.Keys; }
      if IsTagged(rs, d) { TaggedKnown(rs, d); }
    }
    forall d | IsTagged(rs, d) ensures d in rs.mediaTypes { TaggedKnown(rs, d); }
    if Typed(rs, w.tags) {
      assert r.mediaTypes == rs.mediaTypes;
    }
    if r.mediaTypes == rs.mediaTypes {
      forall d | IsTagged(rs, d) && d in rs.mediaTypes ensures LastType(rs, w.tags, d) == Some(rs.mediaTypes[d]) {
        TaggedIff(rs, w, d);
      }
    }
  }

  lemma TaggedKnown(rs: RepoState, d: Digest)
    requires TagsKnown(rs) && IsTagged(rs, d)
    ensures d in rs.mediaTypes
  {
  }

  lemma EdgesRestored(base: RepoState, repo: Repo, rs: RepoState, w: Walk)
    requires Covers(rs, w) && Canonical(rs) && base.backrefs == map[]
    ensures ReplayRepo(base, EdgeOps(repo, w.edges)) == base.(backrefs := rs.backrefs)
  {
    hide ReplayRepo, EdgeOps;
    EdgeSection(base, repo, w.edges);
    var b := ReplayRepo(base, EdgeOps(repo, w.edges)).backrefs;
    forall x ensures Edges(b, x) == Edges(rs.backrefs, x) {
      forall m ensures m in Edges(b, x) <==> m in Edges(rs.backrefs, x) {
        assert m in Edges(b, x) <==> (x, m) in w.edges;
      }
    }
    SameEdges(b, rs.backrefs);
  }

  lemma SameEdges(a: map<Digest, set<Digest>>, b: map<Digest, set<Digest>>)
    requires (forall x | x in a :: a[x] != {}) && (forall x | x in b :: b[x] != {})
    requires forall x :: Edges(a, x) == Edges(b, x)
    ensures a == b
  {
    forall x ensures x in a <==> x in b { assert Edges(a, x) == Edges(b, x); }
    forall x | x in a ensures a[x] == b[x] { assert Edges(a, x) == Edges(b, x); }
  }

  lemma ReferrersRestored(base: RepoState, repo: Repo, rs: RepoState, w: Walk)
    requires Covers(rs, w) && Canonical(rs) && base.referrers == map[]
    ensures ReplayRepo(base, ReferrerOps(repo, rs, w.referrers)) == base.(referrers := rs.referrers)
  {
    hide ReplayRepo, ReferrerOps;
    ReferrerSection(base, repo, rs, w.referrers);
    SameReferrers(ReplayRepo(base, ReferrerOps(repo, rs, w.referrers)).referrers, rs.referrers, w.referrers);
  }

  lemma SameReferrers(r: map<Digest, map<Digest, Descriptor>>, full: map<Digest, map<Digest, Descriptor>>,
                      pairs: seq<(Digest, Digest)>)
    requires (forall e | e in pairs :: e.0 in full && e.1 in full[e.0]) && RefersAs(r, full, pairs)
    requires forall s, d | s in full && d in full[s] :: (s, d) in pairs
    requires forall s | s in full :: full[s] != map[]
    ensures r == full
  {
    forall s | s in r ensures s in full { var d :| d in r[s]; }
    forall s | s in full ensures s in r { var d :| d in full[s]; assert (s, d) in pairs; }
    forall s | s in full ensures r[s] == full[s] {
      forall d ensures d in r[s] <==> d in full[s] {
        if d in full[s] { assert (s, d) in pairs; }
      }
    }
  }

  lemma ChecksumsRestored(base: RepoState, repo: Repo, rs: RepoState, w: Walk)
    requires Covers(rs, w) && base.checksums == map[] && forall d | d in w.checksums :: d in rs.checksums
    ensures ReplayRepo(base, ChecksumOps(repo, rs, w.checksums)) == base.(checksums := rs.checksums)
  {
    hide ReplayRepo, ChecksumOps;
    ChecksumSection(base, repo, rs, w.checksums);
    var c := ReplayRepo(base, ChecksumOps(repo, rs, w.checksums)).checksums;
    forall d | d in rs.checksums ensures d in c && c[d] == rs.checksums[d] { assert d in Elements(w.checksums); }
    assert c == rs.checksums;
  }

  /** Replaying a repository's image restores everything but, perhaps, the media types of
      tagged manifests; those come back if and only if each agrees with its last tag. */
  lemma RepoRestored(repo: Repo, rs: RepoState, w: Walk)
    requires Covers(rs, w) && Canonical(rs)
    ensures var r := ReplayRepo(EmptyRepo, RepoImage(repo, rs, w));
            && r == rs.(mediaTypes := r.mediaTypes) && r.mediaTypes.Keys == rs.mediaTypes.Keys
            && (r == rs <==> Typed(rs, w.tags))
  {
    hide ReplayRepo, TagOps, PlainOps, EdgeOps, ReferrerOps, ChecksumOps, Typed, Covers, Canonical;
    CoversParts(rs, w);
    assert TagsKnown(rs) by { KnownOf(rs); }
    var a := TagOps(repo, rs, w.tags) + PlainOps(repo, rs, w.digests);
    var (b, c, d) := (EdgeOps(repo, w.edges), ReferrerOps(repo, rs, w.referrers), ChecksumOps(repo, rs, w.checksums));
    ReplayAppend(EmptyRepo, a, b);
    ReplayAppend(EmptyRepo, a + b, c);
    ReplayAppend(EmptyRepo, a + b + c, d);
    ManifestsRestored(repo, rs, w);
    var r1 := ReplayRepo(EmptyRepo, a);
    EdgesRestored(r1, repo, rs, w);
    ReferrersRestored(r1.(backrefs := rs.backrefs), repo, rs, w);
    ChecksumsRestored(r1.(backrefs := rs.backrefs, referrers := rs.referrers), repo, rs, w);
  }

  lemma KnownOf(rs: RepoState)
    requires Canonical(rs)
    ensures TagsKnown(rs)
  {
  }

  // ---- the whole store ----

  datatype Section = Tags | Plain | Backrefs | Referrers | Checksums

  // A full pass: which repositories are walked, and how each one's maps are.
  datatype Pass = Pass(repos: seq<Repo>, walks: map<Repo, Walk>)

  ghost predicate Whole(m: Meta, p: Pass) {
    && Elements(p.repos) == m.Keys && p.walks.Keys == m.Keys
    && (forall i, j | 0 <= i < j < |p.repos| :: p.repos[i] != p.repos[j])
    && (forall r | r in m :: Canonical(m[r]) && Covers(m[r], p.walks[r]))
  }

  function Part(section: Section, repo: Repo, rs: RepoState, w: Walk): (ops: seq<MetaOp>)
    requires Covers(rs, w)
    ensures AllFor(ops, repo)
  {
    CoversParts(rs, w);
    match section
    case Tags => TagOps(repo, rs, w.tags)
    case Plain => PlainOps(repo, rs, w.digests)
    case Backrefs => EdgeOps(repo, w.edges)
    case Referrers => ReferrerOps(repo, rs, w.referrers)
    case Checksums => ChecksumOps(repo, rs, w.checksums)
  }

  // One section over the first `n` repositories of the pass.
  ghost function SectionOps(section: Section, m: Meta, p: Pass, n: nat): seq<MetaOp>
    requires Whole(m, p) && n <= |p.repos|
  {
    if n == 0 then []
    else
      var r := p.repos[n - 1];
      assert r in Elements(p.repos);
      SectionOps(section, m, p, n - 1) + Part(section, r, m[r], p.walks[r])
  }

  ghost function Image(m: Meta, p: Pass): seq<MetaOp>
    requires Whole(m, p)
  {
    var n := |p.repos|;
    SectionOps(Tags, m, p, n) + SectionOps(Plain, m, p, n) + SectionOps(Backrefs, m, p, n)
    + SectionOps(Referrers, m, p, n) + SectionOps(Checksums, m, p, n)
  }

  function OpsFor(ops: seq<MetaOp>, repo: Repo): seq<MetaOp> {
    if ops == [] then []
    else OpsFor(ops[..|ops| - 1], repo) + if ops[|ops| - 1].repo == repo then [ops[|ops| - 1]] else []
  }

  // A repository sees only its own operations.
  lemma {:induction false} ReplayAt(m: Meta, ops: seq<MetaOp>, repo: Repo)
    ensures RepoOf(Replay(m, ops), repo) == ReplayRepo(RepoOf(m, repo), OpsFor(ops, repo))
  {
    hide ApplyRepo;
    if ops != [] {
      var n := |ops| - 1;
      ReplayAt(m, ops[..n], repo);
      if ops[n].repo == repo {
        OneMore(RepoOf(m, repo), OpsFor(ops[..n], repo), ops[n]);
      } else {
        assert OpsFor(ops[..n], repo) + [] == OpsFor(ops[..n], repo);
      }
    }
  }

  lemma {:induction false} OpsForAppend(a: seq<MetaOp>, b: seq<MetaOp>, repo: Repo)
    ensures OpsFor(a + b, repo) == OpsFor(a, repo) + OpsFor(b, repo)
  {
    if b == [] {
      assert a + b == a;
    } else {
      assert (a + b)[..|a + b| - 1] == a + b[..|b| - 1];
      OpsForAppend(a, b[..|b| - 1], repo);
    }
  }

  lemma {:induction false} OpsForOwn(ops: seq<MetaOp>, owner: Repo, repo: Repo)
    requires AllFor(ops, owner)
    ensures OpsFor(ops, repo) == if repo == owner then ops else []
  {
    if ops != [] {
      OpsForOwn(ops[..|ops| - 1], owner, repo);
      assert ops == ops[..|ops| - 1] + [ops[|ops| - 1]];
    }
  }

  lemma {:induction false} OpsForSection(section: Section, m: Meta, p: Pass, n: nat, repo: Repo)
    requires Whole(m, p) && n <= |p.repos|
    ensures OpsFor(SectionOps(section, m, p, n), repo) ==
            if repo in p.repos[..n] && repo in m then Part(section, repo, m[repo], p.walks[repo]) else []
  {
    hide Canonical, Covers, Part, OpsFor;
    if n == 0 {
      assert OpsFor([], repo) == [] by { OpsForOwn([], repo, repo); }
    } else {
      var r := p.repos[n - 1];
      assert r in Elements(p.repos);
      assert p.repos[..n] == p.repos[..n - 1] + [r];
      OpsForSection(section, m, p, n - 1, repo);
      var part := Part(section, r, m[r], p.walks[r]);
      OpsForAppend(SectionOps(section, m, p, n - 1), part, repo);
      OpsForOwn(part, r, repo);
    }
  }

  lemma OpsForFive(a: seq<MetaOp>, b: seq<MetaOp>, c: seq<MetaOp>, d: seq<MetaOp>, e: seq<MetaOp>, repo: Repo)
    ensures OpsFor(a + b + c + d + e, repo) ==
            OpsFor(a, repo) + OpsFor(b, repo) + OpsFor(c, repo) + OpsFor(d, repo) + OpsFor(e, repo)
  {
    hide OpsFor;
    OpsForAppend(a, b, repo);
    OpsForAppend(a + b, c, repo);
    OpsForAppend(a + b + c, d, repo);
    OpsForAppend(a + b + c + d, e, repo);
  }

  lemma OpsForWhole(section: Section, m: Meta, p: Pass, repo: Repo)
    requires Whole(m, p)
    ensures OpsFor(SectionOps(section, m, p, |p.repos|), repo) ==
            if repo in m then Part(section, repo, m[repo], p.walks[repo]) else []
  {
    hide Canonical, Covers, OpsFor, SectionOps, Part;
    assert p.repos[..|p.repos|] == p.repos;
    assert repo in p.repos <==> repo in m by { assert repo in Elements(p.repos) <==> repo in m.Keys; }
    OpsForSection(section, m, p, |p.repos|, repo);
  }

  lemma ImageOfParts(repo: Repo, rs: RepoState, w: Walk)
    requires Covers(rs, w)
    ensures RepoImage(repo, rs, w) == Part(Tags, repo, rs, w) + Part(Plain, repo, rs, w) + Part(Backrefs, repo, rs, w)
                                      + Part(Referrers, repo, rs, w) + Part(Checksums, repo, rs, w)
  {
    hide Covers, TagOps, PlainOps, EdgeOps, ReferrerOps, ChecksumOps;
  }

  lemma OpsForImage(m: Meta, p: Pass, repo: Repo)
    requires Whole(m, p)
    ensures OpsFor(Image(m, p), repo) == if repo in m then RepoImage(repo, m[repo], p.walks[repo]) else []
  {
    hide Canonical, Covers, OpsFor, SectionOps, Part, RepoImage;
    var n := |p.repos|;
    if repo in m { ImageOfParts(repo, m[repo], p.walks[repo]); }
    OpsForFive(SectionOps(Tags, m, p, n), SectionOps(Plain, m, p, n), SectionOps(Backrefs, m, p, n),
               SectionOps(Referrers, m, p, n), SectionOps(Checksums, m, p, n), repo);
    OpsForWhole(Tags, m, p, repo);
    OpsForWhole(Plain, m, p, repo);
    OpsForWhole(Backrefs, m, p, repo);
    OpsForWhole(Referrers, m, p, repo);
    OpsForWhole(Checksums, m, p, repo);
  }

  // Every repository's tagged manifests agree with their last tags.
  ghost predicate AllTyped(m: Meta, p: Pass)
    requires Whole(m, p)
  {
    forall r | r in m :: Typed(m[r], p.walks[r].tags)
  }

  /** Compaction is lossless, in every repository, if and only if every tagged manifest's
      media type is the one its last tag in the walk recorded; and whatever happens to
      media types, tags, edges, referrers and checksums are restored. */
  lemma CompactionRestores(m: Meta, p: Pass)
    requires Whole(m, p)
    ensures forall r :: var now := RepoOf(Replay(map[], Image(m, p)), r);
            now == RepoOf(m, r).(mediaTypes := now.mediaTypes)
    ensures (forall r :: RepoOf(Replay(map[], Image(m, p)), r) == RepoOf(m, r)) <==> AllTyped(m, p)
  {
    hide Canonical, Covers, Image, Typed;
    forall r
      ensures r in m ==> (RepoOf(Replay(map[], Image(m, p)), r) == RepoOf(m, r) <==> Typed(m[r], p.walks[r].tags))
      ensures r !in m ==> RepoOf(Replay(map[], Image(m, p)), r) == RepoOf(m, r)
      ensures var now := RepoOf(Replay(map[], Image(m, p)), r); now == RepoOf(m, r).(mediaTypes := now.mediaTypes)
    {
      RestoredAt(m, p, r);
    }
  }

  lemma RestoredAt(m: Meta, p: Pass, r: Repo)
    requires Whole(m, p)
    ensures r in m ==> (RepoOf(Replay(map[], Image(m, p)), r) == RepoOf(m, r) <==> Typed(m[r], p.walks[r].tags))
    ensures r !in m ==> RepoOf(Replay(map[], Image(m, p)), r) == RepoOf(m, r)
    ensures var now := RepoOf(Replay(map[], Image(m, p)), r); now == RepoOf(m, r).(mediaTypes := now.mediaTypes)
  {
    hide Canonical, Covers, Image, Typed, RepoImage, Replay, OpsFor;
    ReplayAt(map[], Image(m, p), r);
    OpsForImage(m, p, r);
    if r in m {
      RepoRestored(r, m[r], p.walks[r]);
    }
  }

  // Pushing one manifest under two media types, the later push under the earlier tag.
  function Retagged(repo: Repo, d: Digest, first: MediaType, second: MediaType): RepoState {
    var rs := ApplyRepo(EmptyRepo, PutManifest(repo, d, first, Some("b"), [], None));
    ApplyRepo(rs, PutManifest(repo, d, second, Some("a"), [], None))
  }

  /** After that, compaction and a restart bring back the older media type. */
  lemma RetaggingLosesMediaType(repo: Repo, d: Digest, first: MediaType, second: MediaType, w: Walk)
    requires first != second && w.tags == ["a", "b"] && Covers(Retagged(repo, d, first, second), w)
    ensures var rs := Retagged(repo, d, first, second);
            var r := ReplayRepo(EmptyRepo, RepoImage(repo, rs, w));
            d in rs.mediaTypes && rs.mediaTypes[d] == second && r != rs && r.tags == rs.tags
  {
    var rs := Retagged(repo, d, first, second);
    var one := ApplyRepo(EmptyRepo, PutManifest(repo, d, first, Some("b"), [], None));
    CommitAlone(EmptyRepo, repo, d, first, Some("b"));
    CommitAlone(one, repo, d, second, Some("a"));
    hide ApplyRepo, ReplayRepo, RepoImage, Covers;
    assert Canonical(rs);
    RepoRestored(repo, rs, w);
    assert LastType(rs, w.tags, d) == Some(first);
    assert IsTagged(rs, d) by { assert rs.tags["b"].digest == d; }
  }
}
