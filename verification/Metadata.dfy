// The metadata index: per-repository maps, changed only by applying operations.

module Metadata {
  import opened Core
  import opened Json

  type MediaType = string

  // A referrer descriptor as its readers see it: the parsed object, or `None`
  // when the recorded bytes are not a JSON object.
  type Descriptor = Option<Object>

  datatype Checksum = Checksum(crc32c: nat, size: nat)

  datatype Tagged = Tagged(digest: Digest, mediaType: MediaType)

  datatype RepoState = RepoState(
    tags: map<Tag, Tagged>,
    mediaTypes: map<Digest, MediaType>,
    referrers: map<Digest, map<Digest, Descriptor>>,
    backrefs: map<Digest, set<Digest>>,
    checksums: map<Digest, Checksum>)

  const EmptyRepo := RepoState(map[], map[], map[], map[], map[])

  type Meta = map<Repo, RepoState>

  datatype MetaOp =
    | PutManifest(repo: Repo, digest: Digest, mediaType: MediaType, tag: Option<Tag>,
                  references: seq<Digest>, refersTo: Option<(Digest, Descriptor)>)
    | PutBackrefs(repo: Repo, manifest: Digest, blobs: seq<Digest>)
    | DeleteManifest(repo: Repo, digest: Digest)
    | PutReferrer(repo: Repo, subject: Digest, referrer: Digest, descriptor: Descriptor)
    | PutChecksum(repo: Repo, digest: Digest, checksum: Checksum)
    | DeleteBlob(repo: Repo, digest: Digest)

  function RepoOf(m: Meta, repo: Repo): RepoState {
    if repo in m then m[repo] else EmptyRepo
  }

  function Edges(b: map<Digest, set<Digest>>, blob: Digest): set<Digest> {
    if blob in b then b[blob] else {}
  }

  // Record `manifest` as a referent of each of `blobs`.
  function AddBackrefs(b: map<Digest, set<Digest>>, manifest: Digest, blobs: seq<Digest>): map<Digest, set<Digest>> {
    map x | x in b.Keys + Elements(blobs) :: Edges(b, x) + (if x in blobs then {manifest} else {})
  }

  function AddReferrer(r: map<Digest, map<Digest, Descriptor>>, subject: Digest, referrer: Digest, d: Descriptor)
    : map<Digest, map<Digest, Descriptor>>
  {
    r[subject := (if subject in r then r[subject] else map[])[referrer := d]]
  }

  // Forget `digest` in every edge set; sets left empty disappear.
  function DropBackrefs(b: map<Digest, set<Digest>>, digest: Digest): map<Digest, set<Digest>> {
    map x | x in b && b[x] - {digest} != {} :: b[x] - {digest}
  }

  function DropReferrer(r: map<Digest, map<Digest, Descriptor>>, digest: Digest): map<Digest, map<Digest, Descriptor>> {
    map s | s in r && r[s] - {digest} != map[] :: r[s] - {digest}
  }

  function ApplyRepo(rs: RepoState, op: MetaOp): RepoState {
    match op
    case PutManifest(_, digest, mt, tag, references, refersTo) =>
      rs.(mediaTypes := rs.mediaTypes[digest := mt],
          tags := if tag.Some? then rs.tags[tag.value := Tagged(digest, mt)] else rs.tags,
          backrefs := AddBackrefs(rs.backrefs, digest, references),
          referrers := if refersTo.Some?
                       then AddReferrer(rs.referrers, refersTo.value.0, digest, refersTo.value.1)
                       else rs.referrers)
    case PutBackrefs(_, manifest, blobs) =>
      rs.(backrefs := AddBackrefs(rs.backrefs, manifest, blobs))
    case DeleteManifest(_, digest) =>
      rs.(checksums := rs.checksums - {digest},
          mediaTypes := rs.mediaTypes - {digest},
          tags := map t | t in rs.tags && rs.tags[t].digest != digest :: rs.tags[t],
          referrers := DropReferrer(rs.referrers, digest),
          backrefs := DropBackrefs(rs.backrefs, digest))
    case PutReferrer(_, subject, referrer, descriptor) =>
      rs.(referrers := AddReferrer(rs.referrers, subject, referrer, descriptor))
    case PutChecksum(_, digest, checksum) =>
      rs.(checksums := rs.checksums[digest := checksum])
    case DeleteBlob(_, digest) =>
      rs.(checksums := rs.checksums - {digest})
  }

  function Apply(m: Meta, op: MetaOp): Meta {
    m[op.repo := ApplyRepo(RepoOf(m, op.repo), op)]
  }

  // ---- what the storage layer asks of the index ----

  function Backrefs(m: Meta, k: Key): set<Digest> {
    Edges(RepoOf(m, k.repo).backrefs, k.digest)
  }

  predicate IsManifest(m: Meta, k: Key) {
    k.digest in RepoOf(m, k.repo).mediaTypes
  }

  function ManifestsOf(m: Meta, repo: Repo): set<Digest> {
    RepoOf(m, repo).mediaTypes.Keys
  }

  // Every tag names a manifest the index knows. No operation breaks this.
  predicate TagsKnown(rs: RepoState) {
    forall t | t in rs.tags :: rs.tags[t].digest in rs.mediaTypes
  }

  lemma TagsStayKnown(rs: RepoState, op: MetaOp)
    requires TagsKnown(rs)
    ensures TagsKnown(ApplyRepo(rs, op))
  {
  }

  // The edges of every blob after an operation, in terms of the edges before it.
  lemma BackrefsAfter(m: Meta, op: MetaOp, k: Key)
    ensures op.PutManifest? ==>
              Backrefs(Apply(m, op), k) == Backrefs(m, k) +
                (if k.repo == op.repo && k.digest in op.references then {op.digest} else {})
    ensures op.PutBackrefs? ==>
              Backrefs(Apply(m, op), k) == Backrefs(m, k) +
                (if k.repo == op.repo && k.digest in op.blobs then {op.manifest} else {})
    ensures op.DeleteManifest? ==>
              Backrefs(Apply(m, op), k) == Backrefs(m, k) - (if k.repo == op.repo then {op.digest} else {})
    ensures op.PutReferrer? || op.PutChecksum? || op.DeleteBlob? ==> Backrefs(Apply(m, op), k) == Backrefs(m, k)
  {
  }

  lemma ManifestsAfter(m: Meta, op: MetaOp, k: Key)
    ensures op.PutManifest? ==> (IsManifest(Apply(m, op), k) <==> IsManifest(m, k) || k == Key(op.repo, op.digest))
    ensures op.DeleteManifest? ==> (IsManifest(Apply(m, op), k) <==> IsManifest(m, k) && k != Key(op.repo, op.digest))
    ensures !op.PutManifest? && !op.DeleteManifest? ==> (IsManifest(Apply(m, op), k) <==> IsManifest(m, k))
  {
  }

  // The media type of every manifest after an operation.
  lemma MediaTypesAfter(m: Meta, op: MetaOp, repo: Repo, d: Digest)
    ensures var before, after := RepoOf(m, repo).mediaTypes, RepoOf(Apply(m, op), repo).mediaTypes;
            if repo == op.repo && op.PutManifest? && d == op.digest then d in after && after[d] == op.mediaType
            else if repo == op.repo && op.DeleteManifest? && d == op.digest then d !in after
            else (d in after <==> d in before) && (d in before ==> after[d] == before[d])
  {
  }

  // Where every tag points after an operation: a push may set or move one tag, a delete
  // takes all tags of its manifest, and nothing else touches any.
  lemma TagsAfter(m: Meta, op: MetaOp, repo: Repo, t: Tag)
    ensures var before, after := RepoOf(m, repo).tags, RepoOf(Apply(m, op), repo).tags;
            if repo == op.repo && op.PutManifest? && op.tag == Some(t)
            then t in after && after[t].digest == op.digest && after[t].mediaType == op.mediaType
            else if repo == op.repo && op.DeleteManifest? && t in before && before[t].digest == op.digest
            then t !in after
            else (t in after <==> t in before) && (t in before ==> after[t] == before[t])
  {
  }

  // `r` is recorded as a referrer of `s`, with descriptor `d`.
  predicate Refers(m: Meta, repo: Repo, s: Digest, r: Digest, d: Descriptor) {
    repo in m && s in m[repo].referrers && r in m[repo].referrers[s] && m[repo].referrers[s][r] == d
  }

  // Which referrers are recorded after an operation: a push with a subject or an explicit
  // record adds or replaces one, a delete drops its manifest under every subject, and
  // nothing else touches any.
  lemma ReferrersAfter(m: Meta, op: MetaOp, repo: Repo, s: Digest, r: Digest, d: Descriptor)
    ensures Refers(Apply(m, op), repo, s, r, d) <==>
              if repo == op.repo && op.PutManifest? && op.refersTo.Some? && s == op.refersTo.value.0 && r == op.digest
              then d == op.refersTo.value.1
              else if repo == op.repo && op.PutReferrer? && s == op.subject && r == op.referrer
              then d == op.descriptor
              else if repo == op.repo && op.DeleteManifest? && r == op.digest then false
              else Refers(m, repo, s, r, d)
  {
    hide AddBackrefs, DropBackrefs;
    var rs := RepoOf(m, op.repo);
    if op.DeleteManifest? && repo == op.repo && s in rs.referrers && r in rs.referrers[s] && r != op.digest {
      assert r in rs.referrers[s] - {op.digest};
    }
  }

  // The recorded checksum of every blob after an operation.
  lemma ChecksumsAfter(m: Meta, op: MetaOp, repo: Repo, d: Digest)
    ensures var before, after := RepoOf(m, repo).checksums, RepoOf(Apply(m, op), repo).checksums;
            if repo == op.repo && op.PutChecksum? && d == op.digest then d in after && after[d] == op.checksum
            else if repo == op.repo && (op.DeleteManifest? || op.DeleteBlob?) && d == op.digest then d !in after
            else (d in after <==> d in before) && (d in before ==> after[d] == before[d])
  {
  }
}
