// index.json derived from the metadata index, merged over the file already on disk.

module Layout {
  import opened Core
  import opened Json
  import opened Metadata

  // What a rebuild draws on besides the metadata's content: the size of a stored blob,
  // and the order in which the subjects of referrers happen to be walked.
  datatype Via = Via(size: Digest -> Option<nat>, walk: seq<Digest>)

  const MEDIA_TYPE_INDEX := "application/vnd.oci.image.index.v1+json"
  const MEDIA_TYPE_MANIFEST := "application/vnd.oci.image.manifest.v1+json"

  // ---- descriptors ----

  function EntryDigest(e: Json): Option<Digest> {
    AsText(Get(e, FDigest))
  }

  function EntryTag(e: Json): Option<Tag> {
    var ann := Get(e, FAnnotations);
    if ann.Some? then AsText(Get(ann.value, FRefName)) else None
  }

  function Entries(index: Json): seq<Json> {
    AsItems(Get(index, FManifests))
  }

  function ExistingEntries(existing: Option<Json>): seq<Json> {
    if existing.Some? then Entries(existing.value) else []
  }

  // ---- one descriptor: what the metadata puts over what the file had ----

  // A descriptor without its tag; annotations left empty disappear.
  function Strip(o: Object): Object {
    if FAnnotations in o && o[FAnnotations].Obj? then
      var ann := o[FAnnotations].fields - {FRefName};
      if ann == map[] then o - {FAnnotations} else o[FAnnotations := Obj(ann)]
    else o
  }

  function Named(d: Digest): Object {
    map[FDigest := Text(d)]
  }

  // A manifest the metadata knows: its media type, and a size if none was recorded.
  function WithFacts(rs: RepoState, via: Via, d: Digest, o: Object): Object
    requires d in rs.mediaTypes
  {
    var o1 := o[FMediaType := Text(rs.mediaTypes[d])];
    if FSize !in o1 && via.size(d).Some? then o1[FSize := Number(via.size(d).value)] else o1
  }

  // Annotations of a referrer go under those already there; a tag never travels.
  function MergeAnnotations(cur: Option<Json>, new_: Json): Json {
    var base := if cur.Some? then cur.value else Obj(map[]);
    if base.Obj? && new_.Obj?
    then Obj((new_.fields - {FRefName}) + base.fields)
    else base
  }

  function Merged(o: Object, r: Object): Object {
    map f | f in o.Keys + (r.Keys - {FDigest}) ::
      if f == FDigest then o[f]
      else if f == FAnnotations && f in r then MergeAnnotations(if f in o then Some(o[f]) else None, r[f])
      else if f in r && !(f in {FMediaType, FSize} && f in o) then r[f]
      else o[f]
  }

  function SubjectOf(subject: Digest): Json {
    Obj(map[FDigest := Text(subject)])
  }

  function WithReferrer(o: Object, subject: Digest, d: Descriptor): Object {
    if d.None? then o else Merged(o, d.value)[FSubject := SubjectOf(subject)]
  }

  // A descriptor listed under a tag. Annotations that are not an object stay as they
  // are, and the tag is lost.
  function WithTag(o: Object, t: Tag): Object {
    if FAnnotations !in o then o[FAnnotations := Obj(map[FRefName := Text(t)])]
    else if o[FAnnotations].Obj? then o[FAnnotations := Obj(o[FAnnotations].fields[FRefName := Text(t)])]
    else o
  }

  // ---- the merged descriptors of a repository ----

  // The first entry that names `d`.
  function Find(entries: seq<Json>, d: Digest): Option<Object> {
    if entries == [] then None
    else if entries[0].Obj? && EntryDigest(entries[0]) == Some(d) then Some(entries[0].fields)
    else Find(entries[1..], d)
  }

  function Seeded(entries: seq<Json>, d: Digest): Object {
    var o := Find(entries, d);
    if o.Some? then Strip(o.value) else Named(d)
  }

  function Referrers(rs: RepoState): set<Digest> {
    set s, d | s in rs.referrers && d in rs.referrers[s] :: d
  }

  // The records of `d`, subject after subject: each one over what is there so far.
  function MergedBy(rs: RepoState, walk: seq<Digest>, d: Digest, o: Object): Object {
    if walk == [] then o
    else
      var s := walk[|walk| - 1];
      var o1 := MergedBy(rs, walk[..|walk| - 1], d, o);
      if s in rs.referrers && d in rs.referrers[s] then WithReferrer(o1, s, rs.referrers[s][d]) else o1
  }

  // The walk visits every subject once, in any order.
  predicate Walks(rs: RepoState, via: Via) {
    Lists(via.walk, rs.referrers.Keys)
  }

  // What the metadata makes of a descriptor for `d`.
  function Completed(rs: RepoState, via: Via, d: Digest, o: Object): Object {
    MergedBy(rs, via.walk, d, if d in rs.mediaTypes then WithFacts(rs, via, d, o) else o)
  }

  function Described(rs: RepoState): set<Digest> {
    rs.mediaTypes.Keys + Referrers(rs)
  }

  // The descriptor of `d` after a rebuild over `entries`.
  function Base(rs: RepoState, via: Via, entries: seq<Json>, d: Digest): Object {
    Completed(rs, via, d, if d in rs.mediaTypes then Seeded(entries, d) else Named(d))
  }

  // Entries other tools wrote: kept as they are.
  predicate IsForeign(rs: RepoState, e: Json) {
    !e.Obj? || ((EntryDigest(e).None? || EntryDigest(e).value !in rs.mediaTypes)
                && EntryTag(e).None? && Get(e, FSubject).None?)
  }

  function Foreign(rs: RepoState, entries: seq<Json>): seq<Json> {
    if entries == [] then []
    else (if IsForeign(rs, entries[0]) then [entries[0]] else []) + Foreign(rs, entries[1..])
  }

  function TaggedEntries(rs: RepoState, via: Via, entries: seq<Json>, tags: seq<Tag>): seq<Json>
    requires forall t | t in tags :: t in rs.tags
  {
    if tags == [] then []
    else
      var d := rs.tags[tags[0]].digest;
      (if d in Described(rs) then [Obj(WithTag(Base(rs, via, entries, d), tags[0]))] else [])
      + TaggedEntries(rs, via, entries, tags[1..])
  }

  function PlainEntries(rs: RepoState, via: Via, entries: seq<Json>, ds: seq<Digest>): seq<Json> {
    if ds == [] then []
    else [Obj(Base(rs, via, entries, ds[0]))] + PlainEntries(rs, via, entries, ds[1..])
  }

  function TaggedDigests(rs: RepoState): set<Digest> {
    set t | t in rs.tags :: rs.tags[t].digest
  }

  // `l` lists the set `s`, each element once.
  predicate Lists<T(==)>(l: seq<T>, s: set<T>) {
    Elements(l) == s && |l| == |s|
  }

  function Top(existing: Option<Json>): Object {
    if existing.Some? && existing.value.Obj? then existing.value.fields else map[]
  }

  // `tags` and `plain` list the tags and the untagged digests, each once, in any order.
  predicate InOrder(rs: RepoState, tags: seq<Tag>, plain: seq<Digest>) {
    Lists(tags, rs.tags.Keys) && Lists(plain, Described(rs) - TaggedDigests(rs))
  }

  function Items(rs: RepoState, via: Via, entries: seq<Json>, tags: seq<Tag>, plain: seq<Digest>): seq<Json>
    requires InOrder(rs, tags, plain)
  {
    assert forall t | t in tags :: t in Elements(tags);
    TaggedEntries(rs, via, entries, tags) + PlainEntries(rs, via, entries, plain) + Foreign(rs, entries)
  }

  // The rebuilt file, with tags and untagged digests in the given orders.
  function Rebuilt(rs: RepoState, via: Via, existing: Option<Json>, tags: seq<Tag>, plain: seq<Digest>): Json
    requires InOrder(rs, tags, plain)
  {
    Obj(Top(existing)[FSchemaVersion := Number(2)][FMediaType := Text(MEDIA_TYPE_INDEX)]
        [FManifests := Array(Items(rs, via, ExistingEntries(existing), tags, plain))])
  }

  lemma RebuiltEntries(rs: RepoState, via: Via, existing: Option<Json>, tags: seq<Tag>, plain: seq<Digest>)
    requires InOrder(rs, tags, plain)
    ensures Entries(Rebuilt(rs, via, existing, tags, plain)) == Items(rs, via, ExistingEntries(existing), tags, plain)
  {
  }

  // ---- descriptors survive a rebuild over themselves ----

  predicate Untagged(o: Object) {
    FAnnotations in o && o[FAnnotations].Obj? ==> FRefName !in o[FAnnotations].fields
  }

  // Untagged, and annotations, when they are an object, hold something.
  predicate Tidy(o: Object) {
    Untagged(o) && (FAnnotations in o && o[FAnnotations].Obj? ==> o[FAnnotations].fields != map[])
  }

  lemma StripTidies(o: Object)
    ensures Tidy(Strip(o))
    ensures FAnnotations !in o || !o[FAnnotations].Obj? ==> Strip(o) == o
    ensures forall f | f != FAnnotations :: (f in Strip(o) <==> f in o) && (f in o ==> Strip(o)[f] == o[f])
  {
  }

  lemma StripWithTag(o: Object, t: Tag)
    requires Untagged(o)
    ensures Strip(WithTag(o, t)) == Strip(o)
  {
    if FAnnotations in o && o[FAnnotations].Obj? {
      var m := o[FAnnotations].fields;
      assert m[FRefName := Text(t)] - {FRefName} == m;
      assert m - {FRefName} == m;
      var tagged := WithTag(o, t);
      assert tagged[FAnnotations := Obj(m)] == o[FAnnotations := Obj(m)];
      assert tagged - {FAnnotations} == o - {FAnnotations};
    } else if FAnnotations !in o {
      var one: map<Field, Json> := map[FRefName := Text(t)];
      assert one - {FRefName} == map[];
      assert WithTag(o, t) - {FAnnotations} == o;
    }
  }

  // One record leaves a descriptor untagged, and its digest and media type alone.
  lemma ReferrerShape(o: Object, s: Digest, r: Descriptor)
    ensures Untagged(o) ==> Untagged(WithReferrer(o, s, r))
    ensures FDigest in o ==> FDigest in WithReferrer(o, s, r) && WithReferrer(o, s, r)[FDigest] == o[FDigest]
    ensures FMediaType in o ==>
              FMediaType in WithReferrer(o, s, r) && WithReferrer(o, s, r)[FMediaType] == o[FMediaType]
  {
  }

  lemma {:induction false} MergedShape(rs: RepoState, walk: seq<Digest>, d: Digest, o: Object)
    ensures Untagged(o) ==> Untagged(MergedBy(rs, walk, d, o))
    ensures FDigest in o ==> FDigest in MergedBy(rs, walk, d, o) && MergedBy(rs, walk, d, o)[FDigest] == o[FDigest]
    ensures FMediaType in o ==>
              FMediaType in MergedBy(rs, walk, d, o) && MergedBy(rs, walk, d, o)[FMediaType] == o[FMediaType]
  {
    hide WithReferrer, Untagged;
    if walk != [] {
      var n := |walk| - 1;
      MergedShape(rs, walk[..n], d, o);
      var s := walk[n];
      if s in rs.referrers && d in rs.referrers[s] {
        ReferrerShape(MergedBy(rs, walk[..n], d, o), s, rs.referrers[s][d]);
      }
    }
  }

  lemma CompletedUntagged(rs: RepoState, via: Via, d: Digest, o: Object)
    requires Untagged(o)
    ensures Untagged(Completed(rs, via, d, o))
  {
    MergedShape(rs, via.walk, d, if d in rs.mediaTypes then WithFacts(rs, via, d, o) else o);
  }

  lemma CompletedKeepsDigest(rs: RepoState, via: Via, d: Digest, o: Object)
    requires FDigest in o
    ensures FDigest in Completed(rs, via, d, o) && Completed(rs, via, d, o)[FDigest] == o[FDigest]
  {
    MergedShape(rs, via.walk, d, if d in rs.mediaTypes then WithFacts(rs, via, d, o) else o);
  }

  // ---- which record decides ----

  // The subjects whose record of `d` can be read.
  function Labels(rs: RepoState, d: Digest): set<Digest> {
    set s | s in rs.referrers && d in rs.referrers[s] && rs.referrers[s][d].Some?
  }

  // No referrer is recorded, readably, under two subjects.
  ghost predicate OneLabel(rs: RepoState) {
    forall d, s, s' | s in Labels(rs, d) && s' in Labels(rs, d) :: s == s'
  }

  // The last readable record of the walk sets the subject.
  function LastLabel(rs: RepoState, walk: seq<Digest>, d: Digest): Option<Digest> {
    if walk == [] then None
    else if walk[|walk| - 1] in Labels(rs, d) then Some(walk[|walk| - 1])
    else LastLabel(rs, walk[..|walk| - 1], d)
  }

  lemma {:induction false} LastLabelSets(rs: RepoState, walk: seq<Digest>, d: Digest, o: Object)
    ensures LastLabel(rs, walk, d).None? ==> MergedBy(rs, walk, d, o) == o
    ensures LastLabel(rs, walk, d).Some? ==>
              FSubject in MergedBy(rs, walk, d, o) &&
                MergedBy(rs, walk, d, o)[FSubject] == SubjectOf(LastLabel(rs, walk, d).value)
  {
    hide Merged;
    if walk != [] { LastLabelSets(rs, walk[..|walk| - 1], d, o); }
  }

  lemma {:induction false} LastLabelFound(rs: RepoState, walk: seq<Digest>, d: Digest)
    ensures LastLabel(rs, walk, d).Some? ==>
            LastLabel(rs, walk, d).value in Labels(rs, d) && LastLabel(rs, walk, d).value in walk
    ensures LastLabel(rs, walk, d).None? ==> forall s | s in walk :: s !in Labels(rs, d)
  {
    hide Labels;
    if walk != [] {
      LastLabelFound(rs, walk[..|walk| - 1], d);
      assert walk == walk[..|walk| - 1] + [walk[|walk| - 1]];
    }
  }

  // A walk over all subjects finds a label iff there is one.
  lemma LabelsWalked(rs: RepoState, via: Via, d: Digest)
    requires Walks(rs, via)
    ensures LastLabel(rs, via.walk, d).None? <==> Labels(rs, d) == {}
    ensures LastLabel(rs, via.walk, d).Some? ==> LastLabel(rs, via.walk, d).value in Labels(rs, d)
  {
    LastLabelFound(rs, via.walk, d);
    forall s | s in Labels(rs, d) ensures s in via.walk { assert s in Elements(via.walk); }
  }

  // What the one readable record makes of a descriptor.
  function Labelled(rs: RepoState, subject: Option<Digest>, d: Digest, o: Object): Object
    requires subject.Some? ==> subject.value in Labels(rs, d)
  {
    if subject.None? then o else Merged(o, rs.referrers[subject.value][d].value)[FSubject := SubjectOf(subject.value)]
  }

  // With at most one readable record the walk does not matter.
  lemma {:induction false} OneMerge(rs: RepoState, walk: seq<Digest>, d: Digest, o: Object)
    requires OneLabel(rs) && forall i, j | 0 <= i < j < |walk| :: walk[i] != walk[j]
    ensures LastLabel(rs, walk, d).Some? ==> LastLabel(rs, walk, d).value in Labels(rs, d)
    ensures MergedBy(rs, walk, d, o) == Labelled(rs, LastLabel(rs, walk, d), d, o)
  {
    hide Merged;
    LastLabelFound(rs, walk, d);
    if walk != [] {
      var n := |walk| - 1;
      LastLabelFound(rs, walk[..n], d);
      OneMerge(rs, walk[..n], d, o);
    }
  }

  // Merging the same referrer again changes nothing.
  lemma MergeTwice(o: Object, r: Object)
    requires Tidy(o) && FDigest in o
    ensures Merged(Strip(Merged(o, r)), r) == Merged(o, r)
  {
    var m := Merged(o, r);
    StripTidies(m);
    var again := Merged(Strip(m), r);
    assert again.Keys == m.Keys;
    forall f | f in m ensures again[f] == m[f] {
      if f == FAnnotations {
        AnnotationsTwice(o, r);
      }
    }
  }

  lemma AnnotationsTwice(o: Object, r: Object)
    requires Tidy(o) && FAnnotations in Merged(o, r)
    ensures FAnnotations in Merged(Strip(Merged(o, r)), r)
    ensures Merged(Strip(Merged(o, r)), r)[FAnnotations] == Merged(o, r)[FAnnotations]
  {
    var a := Merged(o, r)[FAnnotations];
    if FAnnotations in r && r[FAnnotations].Obj? && a.Obj? {
      var n := r[FAnnotations].fields - {FRefName};
      var base := if FAnnotations in o then o[FAnnotations].fields else map[];
      assert a.fields == n + base;
      assert a.fields - {FRefName} == a.fields;
      assert n + (n + base) == n + base;
      if a.fields == map[] {
        assert n + map[] == map[] by { assert n == map[]; }
      }
    } else if a.Obj? {
      assert a.fields - {FRefName} == a.fields;
    }
  }

  lemma FactsTwice(rs: RepoState, via: Via, d: Digest, o: Object)
    requires d in rs.mediaTypes && Tidy(o)
    ensures Tidy(WithFacts(rs, via, d, o))
    ensures WithFacts(rs, via, d, Strip(WithFacts(rs, via, d, o))) == WithFacts(rs, via, d, o)
  {
    var b := WithFacts(rs, via, d, o);
    assert Strip(b) == b by { TidyStrips(b); }
  }

  lemma TidyStrips(o: Object)
    requires Tidy(o)
    ensures Strip(o) == o
  {
    if FAnnotations in o && o[FAnnotations].Obj? {
      assert o[FAnnotations].fields - {FRefName} == o[FAnnotations].fields;
    }
  }

  lemma MergedFacts(rs: RepoState, via: Via, d: Digest, o: Object, r: Object)
    requires d in rs.mediaTypes
    ensures WithFacts(rs, via, d, Strip(Merged(WithFacts(rs, via, d, o), r))) ==
            Strip(Merged(WithFacts(rs, via, d, o), r))
  {
    hide MergeAnnotations, Strip, Tidy;
    var o1 := WithFacts(rs, via, d, o);
    StripTidies(Merged(o1, r));
  }

  // The subject is set last, so it commutes with everything before it.
  lemma SubjectCommutes(rs: RepoState, via: Via, d: Digest, m: Object, r: Object, s: Json)
    requires d in rs.mediaTypes
    ensures Strip(m[FSubject := s]) == Strip(m)[FSubject := s]
    ensures WithFacts(rs, via, d, m[FSubject := s]) == WithFacts(rs, via, d, m)[FSubject := s]
    ensures Merged(m[FSubject := s], r)[FSubject := s] == Merged(m, r)[FSubject := s]
  {
    MergedSubject(m, r, s);
    hide Merged, MergeAnnotations;
  }

  lemma MergedSubject(m: Object, r: Object, s: Json)
    ensures Merged(m[FSubject := s], r)[FSubject := s] == Merged(m, r)[FSubject := s]
  {
    hide MergeAnnotations;
  }

  lemma {:induction false} ListsDistinct<T>(l: seq<T>, s: set<T>, i: nat, j: nat)
    requires Lists(l, s) && i < j < |l|
    ensures l[i] != l[j]
  {
    if l[i] == l[j] {
      var shorter := l[..j] + l[j + 1..];
      forall x | x in Elements(l) ensures x in Elements(shorter) {
        var k :| 0 <= k < |l| && l[k] == x;
        assert shorter[if k < j then k else if k == j then i else k - 1] == x;
      }
      assert Elements(shorter) == Elements(l);
      FewElements(shorter);
    }
  }

  lemma {:induction false} FewElements<T>(l: seq<T>)
    ensures |Elements(l)| <= |l|
  {
    if l != [] {
      FewElements(l[1..]);
      assert l == [l[0]] + l[1..];
      assert Elements(l) == {l[0]} + Elements(l[1..]);
    }
  }

  // Over all subjects, and with at most one readable record each, a walk is one merge.
  lemma WalkIsMerge(rs: RepoState, via: Via, d: Digest, o: Object) returns (subject: Option<Digest>)
    requires OneLabel(rs) && Walks(rs, via)
    ensures subject.None? <==> Labels(rs, d) == {}
    ensures subject.Some? ==> subject.value in Labels(rs, d)
    ensures MergedBy(rs, via.walk, d, o) == Labelled(rs, subject, d, o)
  {
    hide Labelled, MergedBy, Labels;
    forall i, j | 0 <= i < j < |via.walk| ensures via.walk[i] != via.walk[j] {
      ListsDistinct(via.walk, rs.referrers.Keys, i, j);
    }
    OneMerge(rs, via.walk, d, o);
    LabelsWalked(rs, via, d);
    subject := LastLabel(rs, via.walk, d);
  }

  // With at most one readable record per referrer, completing a completed descriptor
  // changes nothing, whatever the two walks.
  lemma CompletedTwice(rs: RepoState, via: Via, via': Via, d: Digest, o: Object)
    requires OneLabel(rs) && Walks(rs, via) && Walks(rs, via') && via'.size == via.size
    requires d in rs.mediaTypes && Tidy(o) && FDigest in o
    ensures Completed(rs, via', d, Strip(Completed(rs, via, d, o))) == Completed(rs, via, d, o)
  {
    hide Strip, Merged, WithFacts, Walks, MergedBy;
    var o1 := WithFacts(rs, via, d, o);
    FactsTwice(rs, via, d, o);
    var s := WalkIsMerge(rs, via, d, o1);
    SameFacts(rs, via, via', d, Strip(Completed(rs, via, d, o)));
    var s' := WalkIsMerge(rs, via', d, WithFacts(rs, via', d, Strip(Completed(rs, via, d, o))));
    assert s' == s by { if s.Some? { assert s.value in Labels(rs, d) && s'.value in Labels(rs, d); } }
    if s.Some? {
      var r, m := rs.referrers[s.value][d].value, Merged(o1, rs.referrers[s.value][d].value);
      assert FDigest in o1 by { KeepsDigest(rs, via, d, o); }
      MergeTwice(o1, r);
      MergedFacts(rs, via, d, o, r);
      SubjectCommutes(rs, via, d, m, r, SubjectOf(s.value));
      SubjectCommutes(rs, via, d, Strip(m), r, SubjectOf(s.value));
    }
  }

  lemma SameFacts(rs: RepoState, via: Via, via': Via, d: Digest, o: Object)
    requires d in rs.mediaTypes && via'.size == via.size
    ensures WithFacts(rs, via', d, o) == WithFacts(rs, via, d, o)
  {
  }

  lemma SameWalk(rs: RepoState, via: Via, via': Via, d: Digest, o: Object)
    requires OneLabel(rs) && Walks(rs, via) && Walks(rs, via')
    ensures MergedBy(rs, via'.walk, d, o) == MergedBy(rs, via.walk, d, o)
  {
    hide Merged, Walks, Labels, MergedBy;
    var s := WalkIsMerge(rs, via, d, o);
    var s' := WalkIsMerge(rs, via', d, o);
    assert s' == s by { if s.Some? { assert s.value in Labels(rs, d) && s'.value in Labels(rs, d); } }
  }

  lemma KeepsDigest(rs: RepoState, via: Via, d: Digest, o: Object)
    requires d in rs.mediaTypes && FDigest in o
    ensures FDigest in WithFacts(rs, via, d, o)
  {
  }

  // ---- finding a manifest in a rebuilt file ----

  lemma {:induction false} FindAppend(a: seq<Json>, b: seq<Json>, d: Digest)
    ensures Find(a + b, d) == if Find(a, d).Some? then Find(a, d) else Find(b, d)
  {
    if a == [] {
      assert a + b == b;
    } else {
      assert (a + b)[1..] == a[1..] + b;
      FindAppend(a[1..], b, d);
    }
  }

  lemma {:induction false} FindDigest(entries: seq<Json>, d: Digest)
    requires Find(entries, d).Some?
    ensures FDigest in Find(entries, d).value && Find(entries, d).value[FDigest] == Text(d)
  {
    if !(entries[0].Obj? && EntryDigest(entries[0]) == Some(d)) { FindDigest(entries[1..], d); }
  }

  lemma BaseShape(rs: RepoState, via: Via, entries: seq<Json>, d: Digest)
    ensures Untagged(Base(rs, via, entries, d))
    ensures FDigest in Base(rs, via, entries, d) && Base(rs, via, entries, d)[FDigest] == Text(d)
    ensures Tidy(Seeded(entries, d)) && FDigest in Seeded(entries, d)
  {
    hide Completed;
    var o := if d in rs.mediaTypes then Seeded(entries, d) else Named(d);
    if Find(entries, d).Some? {
      StripTidies(Find(entries, d).value);
      FindDigest(entries, d);
    }
    CompletedUntagged(rs, via, d, o);
    CompletedKeepsDigest(rs, via, d, o);
  }

  // The tagged entries name exactly the tagged digests, each with its rebuilt descriptor.
  lemma {:induction false} FindTagged(rs: RepoState, via: Via, entries: seq<Json>, tags: seq<Tag>, d: Digest)
    requires TagsKnown(rs) && forall t | t in tags :: t in rs.tags
    ensures var found := Find(TaggedEntries(rs, via, entries, tags), d);
            && (found.Some? <==> exists t :: t in tags && rs.tags[t].digest == d)
            && (found.Some? ==> Strip(found.value) == Strip(Base(rs, via, entries, d)))
  {
    hide Base, Strip, Described;
    if tags != [] {
      var t, d0 := tags[0], rs.tags[tags[0]].digest;
      assert d0 in Described(rs) by { KnownDescribed(rs, d0); }
      var first := Obj(WithTag(Base(rs, via, entries, d0), t));
      var rest := TaggedEntries(rs, via, entries, tags[1..]);
      FindTagged(rs, via, entries, tags[1..], d);
      BaseShape(rs, via, entries, d0);
      assert EntryDigest(first) == Some(d0);
      StripWithTag(Base(rs, via, entries, d0), t);
      assert ([first] + rest)[1..] == rest;
    }
  }

  lemma KnownDescribed(rs: RepoState, d: Digest)
    requires d in rs.mediaTypes
    ensures d in Described(rs)
  {
  }

  lemma {:induction false} FindPlain(rs: RepoState, via: Via, entries: seq<Json>, ds: seq<Digest>, d: Digest)
    ensures Find(PlainEntries(rs, via, entries, ds), d) == if d in ds then Some(Base(rs, via, entries, d)) else None
  {
    hide Base;
    if ds != [] {
      FindPlain(rs, via, entries, ds[1..], d);
      BaseShape(rs, via, entries, ds[0]);
      var rest := PlainEntries(rs, via, entries, ds[1..]);
      assert ([Obj(Base(rs, via, entries, ds[0]))] + rest)[1..] == rest;
    }
  }

  lemma FindItems(rs: RepoState, via: Via, entries: seq<Json>, tags: seq<Tag>, plain: seq<Digest>, d: Digest)
    requires TagsKnown(rs) && InOrder(rs, tags, plain) && d in Described(rs)
    ensures var found := Find(Items(rs, via, entries, tags, plain), d);
            found.Some? && Strip(found.value) == Strip(Base(rs, via, entries, d))
  {
    hide Base, Strip, Foreign, Described;
    var tagged, rest := TaggedEntries(rs, via, entries, tags), PlainEntries(rs, via, entries, plain);
    FindTagged(rs, via, entries, tags, d);
    FindPlain(rs, via, entries, plain, d);
    FindAppend(tagged, rest, d);
    FindAppend(tagged + rest, Foreign(rs, entries), d);
    if d in TaggedDigests(rs) {
      var t :| t in rs.tags && rs.tags[t].digest == d;
      assert t in Elements(tags);
    } else {
      assert d in Elements(plain);
    }
  }

  // Rebuilding over a rebuilt file gives every manifest the same descriptor again.
  lemma BaseAgain(rs: RepoState, via: Via, via': Via, entries: seq<Json>, tags: seq<Tag>, plain: seq<Digest>, d: Digest)
    requires OneLabel(rs) && Walks(rs, via) && Walks(rs, via') && via'.size == via.size
    requires TagsKnown(rs) && InOrder(rs, tags, plain)
    ensures Base(rs, via', Items(rs, via, entries, tags, plain), d) == Base(rs, via, entries, d)
  {
    if d in rs.mediaTypes {
      hide Completed, Strip, Foreign, Items, Walks, OneLabel;
      KnownDescribed(rs, d);
      FindItems(rs, via, entries, tags, plain, d);
      BaseShape(rs, via, entries, d);
      CompletedTwice(rs, via, via', d, Seeded(entries, d));
    } else {
      hide MergedBy, Items, Walks, OneLabel;
      SameWalk(rs, via, via', d, Named(d));
    }
  }

  lemma {:induction false} TaggedAgain(rs: RepoState, via: Via, via': Via, a: seq<Json>, b: seq<Json>, tags: seq<Tag>)
    requires forall t | t in tags :: t in rs.tags
    requires forall d :: Base(rs, via, a, d) == Base(rs, via', b, d)
    ensures TaggedEntries(rs, via, a, tags) == TaggedEntries(rs, via', b, tags)
  {
    hide Base;
    if tags != [] { TaggedAgain(rs, via, via', a, b, tags[1..]); }
  }

  lemma {:induction false} PlainAgain(rs: RepoState, via: Via, via': Via, a: seq<Json>, b: seq<Json>, ds: seq<Digest>)
    requires forall d :: Base(rs, via, a, d) == Base(rs, via', b, d)
    ensures PlainEntries(rs, via, a, ds) == PlainEntries(rs, via', b, ds)
  {
    hide Base;
    if ds != [] { PlainAgain(rs, via, via', a, b, ds[1..]); }
  }

  // ---- what a rebuild takes for another tool's entry ----

  // A referrer the metadata does not know as a manifest and none of whose recorded
  // descriptors can be parsed: its entry carries neither tag nor subject.
  predicate Unlabelled(rs: RepoState, d: Digest) {
    d in Referrers(rs) && d !in rs.mediaTypes && Labels(rs, d) == {}
  }

  function UnlabelledIn(rs: RepoState, ds: seq<Digest>): seq<Digest> {
    if ds == [] then []
    else (if Unlabelled(rs, ds[0]) then [ds[0]] else []) + UnlabelledIn(rs, ds[1..])
  }

  lemma {:induction false} ForeignAppend(rs: RepoState, a: seq<Json>, b: seq<Json>)
    ensures Foreign(rs, a + b) == Foreign(rs, a) + Foreign(rs, b)
  {
    hide IsForeign;
    if a == [] {
      assert a + b == b;
    } else {
      assert (a + b)[1..] == a[1..] + b;
      ForeignAppend(rs, a[1..], b);
    }
  }

  lemma {:induction false} ForeignTwice(rs: RepoState, entries: seq<Json>)
    ensures Foreign(rs, Foreign(rs, entries)) == Foreign(rs, entries)
  {
    hide IsForeign;
    if entries != [] {
      ForeignTwice(rs, entries[1..]);
      var rest := Foreign(rs, entries[1..]);
      if IsForeign(rs, entries[0]) {
        assert ([entries[0]] + rest)[1..] == rest;
      } else {
        assert Foreign(rs, entries) == rest;
      }
    }
  }

  lemma {:induction false} TaggedNotForeign(rs: RepoState, via: Via, entries: seq<Json>, tags: seq<Tag>)
    requires TagsKnown(rs) && forall t | t in tags :: t in rs.tags
    ensures Foreign(rs, TaggedEntries(rs, via, entries, tags)) == []
  {
    hide Base, Described;
    if tags != [] {
      var d := rs.tags[tags[0]].digest;
      KnownDescribed(rs, d);
      BaseShape(rs, via, entries, d);
      TaggedNotForeign(rs, via, entries, tags[1..]);
      var first, rest := Obj(WithTag(Base(rs, via, entries, d), tags[0])), TaggedEntries(rs, via, entries, tags[1..]);
      assert EntryDigest(first) == Some(d);
      assert ([first] + rest)[1..] == rest;
    }
  }

  lemma PlainIsForeign(rs: RepoState, via: Via, entries: seq<Json>, d: Digest)
    requires d in Described(rs) && Walks(rs, via)
    ensures IsForeign(rs, Obj(Base(rs, via, entries, d))) <==> Unlabelled(rs, d)
  {
    hide MergedBy, Labels, Walks;
    BaseShape(rs, via, entries, d);
    if d !in rs.mediaTypes {
      LabelsWalked(rs, via, d);
      LastLabelSets(rs, via.walk, d, Named(d));
    } else {
      assert EntryDigest(Obj(Base(rs, via, entries, d))) == Some(d);
    }
  }

  lemma {:induction false} PlainForeign(rs: RepoState, via: Via, entries: seq<Json>, ds: seq<Digest>)
    requires Walks(rs, via) && forall d | d in ds :: d in Described(rs)
    ensures Foreign(rs, PlainEntries(rs, via, entries, ds)) == PlainEntries(rs, via, entries, UnlabelledIn(rs, ds))
  {
    hide Base, Described, IsForeign, Unlabelled, Walks;
    if ds != [] {
      PlainIsForeign(rs, via, entries, ds[0]);
      PlainForeign(rs, via, entries, ds[1..]);
      var first, rest := Obj(Base(rs, via, entries, ds[0])), PlainEntries(rs, via, entries, ds[1..]);
      assert ([first] + rest)[1..] == rest;
      if Unlabelled(rs, ds[0]) {
        assert UnlabelledIn(rs, ds)[1..] == UnlabelledIn(rs, ds[1..]);
      } else {
        assert UnlabelledIn(rs, ds) == UnlabelledIn(rs, ds[1..]);
        assert Foreign(rs, [first] + rest) == Foreign(rs, rest);
      }
    }
  }

  lemma ForeignOfItems(rs: RepoState, via: Via, entries: seq<Json>, tags: seq<Tag>, plain: seq<Digest>)
    requires TagsKnown(rs) && Walks(rs, via) && InOrder(rs, tags, plain)
    ensures Foreign(rs, Items(rs, via, entries, tags, plain)) ==
            PlainEntries(rs, via, entries, UnlabelledIn(rs, plain)) + Foreign(rs, entries)
  {
    hide Foreign, Described, Base, TaggedEntries, PlainEntries, UnlabelledIn;
    var a, b, c := TaggedEntries(rs, via, entries, tags), PlainEntries(rs, via, entries, plain), Foreign(rs, entries);
    ForeignAppend(rs, a, b);
    ForeignAppend(rs, a + b, c);
    ForeignTwice(rs, entries);
    TaggedNotForeign(rs, via, entries, tags);
    forall d | d in plain ensures d in Described(rs) { assert d in Elements(plain); }
    PlainForeign(rs, via, entries, plain);
  }

  // ---- order does not matter ----

  lemma {:induction false} ListsMultiset<T>(l: seq<T>, s: set<T>)
    requires Lists(l, s)
    ensures multiset(l) == multiset(s)
  {
    if l != [] {
      var x, rest := l[0], l[1..];
      assert l == [x] + rest;
      if x in rest {
        assert Elements(rest) == s;
        FewElements(rest);
        assert false;
      }
      assert Elements(rest) == s - {x};
      ListsMultiset(rest, s - {x});
    }
  }

  // Two lists with the same elements: the head of one can be taken out of the other.
  lemma TakeOut<T>(a: seq<T>, b: seq<T>) returns (i: nat)
    requires a != [] && multiset(a) == multiset(b)
    ensures i < |b| && b[i] == a[0] && b == b[..i] + ([a[0]] + b[i + 1..])
    ensures multiset(a[1..]) == multiset(b[..i] + b[i + 1..])
  {
    assert a[0] in multiset(b);
    i :| 0 <= i < |b| && b[i] == a[0];
    var head, tail := b[..i], b[i + 1..];
    assert a == [a[0]] + a[1..];
    assert b == head + ([a[0]] + tail);
    assert multiset(b) == multiset(head) + (multiset{a[0]} + multiset(tail));
    assert multiset(a) == multiset{a[0]} + multiset(a[1..]);
    assert multiset(head + tail) == multiset(head) + multiset(tail);
    assert multiset(a[1..]) == multiset(a) - multiset{a[0]};
    assert multiset(head + tail) == multiset(b) - multiset{a[0]};
  }

  lemma {:induction false} TaggedPermutes(rs: RepoState, via: Via, entries: seq<Json>, a: seq<Tag>, b: seq<Tag>)
    requires (forall t | t in a :: t in rs.tags) && (forall t | t in b :: t in rs.tags) && multiset(a) == multiset(b)
    ensures multiset(TaggedEntries(rs, via, entries, a)) == multiset(TaggedEntries(rs, via, entries, b))
    decreases |a|
  {
    hide Base, Described;
    if a == [] {
      assert |multiset(b)| == 0;
    } else {
      var i := TakeOut(a, b);
      var head, tail := b[..i], b[i + 1..];
      TaggedPermutes(rs, via, entries, a[1..], head + tail);
      TaggedAppend(rs, via, entries, head, tail);
      TaggedAppend(rs, via, entries, head, [a[0]] + tail);
      assert ([a[0]] + tail)[1..] == tail;
    }
  }

  lemma {:induction false} TaggedAppend(rs: RepoState, via: Via, entries: seq<Json>, a: seq<Tag>, b: seq<Tag>)
    requires (forall t | t in a :: t in rs.tags) && (forall t | t in b :: t in rs.tags)
    ensures TaggedEntries(rs, via, entries, a + b) ==
            TaggedEntries(rs, via, entries, a) + TaggedEntries(rs, via, entries, b)
  {
    hide Base, Described;
    if a == [] {
      assert a + b == b;
    } else {
      assert (a + b)[1..] == a[1..] + b;
      TaggedAppend(rs, via, entries, a[1..], b);
    }
  }

  lemma {:induction false} PlainAppend(rs: RepoState, via: Via, entries: seq<Json>, a: seq<Digest>, b: seq<Digest>)
    ensures PlainEntries(rs, via, entries, a + b) ==
            PlainEntries(rs, via, entries, a) + PlainEntries(rs, via, entries, b)
  {
    hide Base;
    if a == [] {
      assert a + b == b;
    } else {
      assert (a + b)[1..] == a[1..] + b;
      PlainAppend(rs, via, entries, a[1..], b);
    }
  }

  lemma {:induction false} PlainPermutes(rs: RepoState, via: Via, entries: seq<Json>, a: seq<Digest>, b: seq<Digest>)
    requires multiset(a) == multiset(b)
    ensures multiset(PlainEntries(rs, via, entries, a)) == multiset(PlainEntries(rs, via, entries, b))
    decreases |a|
  {
    hide Base;
    if a == [] {
      assert |multiset(b)| == 0;
    } else {
      var i := TakeOut(a, b);
      var head, tail := b[..i], b[i + 1..];
      PlainPermutes(rs, via, entries, a[1..], head + tail);
      PlainAppend(rs, via, entries, head, tail);
      PlainAppend(rs, via, entries, head, [a[0]] + tail);
      assert ([a[0]] + tail)[1..] == tail;
    }
  }

  // ---- main results ----

  lemma {:induction false} UnlabelledNone(rs: RepoState, ds: seq<Digest>)
    ensures UnlabelledIn(rs, ds) == [] <==> forall d | d in ds :: !Unlabelled(rs, d)
  {
    hide Unlabelled;
    if ds != [] { UnlabelledNone(rs, ds[1..]); }
  }

  lemma {:induction false} PlainLength(rs: RepoState, via: Via, entries: seq<Json>, ds: seq<Digest>)
    ensures |PlainEntries(rs, via, entries, ds)| == |ds|
  {
    hide Base;
    if ds != [] { PlainLength(rs, via, entries, ds[1..]); }
  }

  // Two rebuilt files list the same descriptors, whatever their order.
  ghost predicate SameManifestSet(a: Json, b: Json) {
    multiset(Entries(a)) == multiset(Entries(b))
  }

  lemma SameOrderless(rs: RepoState, via: Via, entries: seq<Json>, tags: seq<Tag>, plain: seq<Digest>,
                      tags': seq<Tag>, plain': seq<Digest>)
    requires InOrder(rs, tags, plain) && InOrder(rs, tags', plain')
    requires (forall t | t in tags :: t in rs.tags) && (forall t | t in tags' :: t in rs.tags)
    ensures multiset(TaggedEntries(rs, via, entries, tags)) == multiset(TaggedEntries(rs, via, entries, tags'))
    ensures multiset(PlainEntries(rs, via, entries, plain)) == multiset(PlainEntries(rs, via, entries, plain'))
  {
    hide Base, TaggedEntries, PlainEntries, Described, Lists;
    ListsMultiset(tags, rs.tags.Keys);
    ListsMultiset(tags', rs.tags.Keys);
    ListsMultiset(plain, Described(rs) - TaggedDigests(rs));
    ListsMultiset(plain', Described(rs) - TaggedDigests(rs));
    TaggedPermutes(rs, via, entries, tags, tags');
    PlainPermutes(rs, via, entries, plain, plain');
  }

  lemma TagsListed(rs: RepoState, tags: seq<Tag>, plain: seq<Digest>)
    requires InOrder(rs, tags, plain)
    ensures forall t | t in tags :: t in rs.tags
  {
    assert forall t | t in tags :: t in Elements(tags);
  }

  // With at most one readable record per referrer: rebuilding over a rebuilt file, in any
  // orders and walks, lists the old descriptors again plus one more copy of every
  // unlabelled one.
  lemma RebuildTwice(rs: RepoState, via: Via, via': Via, existing: Option<Json>, tags: seq<Tag>, plain: seq<Digest>,
                     tags': seq<Tag>, plain': seq<Digest>)
    requires OneLabel(rs) && Walks(rs, via) && Walks(rs, via') && via'.size == via.size
    requires TagsKnown(rs) && InOrder(rs, tags, plain) && InOrder(rs, tags', plain')
    ensures var once := Rebuilt(rs, via, existing, tags, plain);
            var twice := Rebuilt(rs, via', Some(once), tags', plain');
            multiset(Entries(twice)) == multiset(Entries(once))
              + multiset(PlainEntries(rs, via, ExistingEntries(existing), UnlabelledIn(rs, plain)))
  {
    hide Base, Foreign, TaggedEntries, PlainEntries, InOrder, TagsKnown, Rebuilt, OneLabel, Walks;
    var entries := ExistingEntries(existing);
    var once := Rebuilt(rs, via, existing, tags, plain);
    RebuiltEntries(rs, via, existing, tags, plain);
    RebuiltEntries(rs, via', Some(once), tags', plain');
    TagsListed(rs, tags, plain);
    TagsListed(rs, tags', plain');
    var items := Items(rs, via, entries, tags, plain);
    forall d ensures Base(rs, via', items, d) == Base(rs, via, entries, d) {
      BaseAgain(rs, via, via', entries, tags, plain, d);
    }
    TaggedAgain(rs, via', via, items, entries, tags');
    PlainAgain(rs, via', via, items, entries, plain');
    ForeignOfItems(rs, via, entries, tags, plain);
    SameOrderless(rs, via, entries, tags, plain, tags', plain');
  }

  // ---- two readable records ----

  lemma {:induction false} ForeignKeeps(rs: RepoState, entries: seq<Json>, e: Json)
    ensures e in Foreign(rs, entries) <==> e in entries && IsForeign(rs, e)
  {
    hide IsForeign;
    if entries != [] { ForeignKeeps(rs, entries[1..], e); }
  }

  lemma {:induction false} FindIn(entries: seq<Json>, d: Digest)
    requires Find(entries, d).Some?
    ensures Obj(Find(entries, d).value) in entries
  {
    if !(entries[0].Obj? && EntryDigest(entries[0]) == Some(d)) { FindIn(entries[1..], d); }
  }

  lemma {:induction false} TaggedSubject(rs: RepoState, via: Via, entries: seq<Json>, tags: seq<Tag>, e: Json,
                                         d: Digest)
    requires (forall t | t in tags :: t in rs.tags) && e in TaggedEntries(rs, via, entries, tags) &&
             EntryDigest(e) == Some(d)
    ensures Get(e, FSubject) == Get(Obj(Base(rs, via, entries, d)), FSubject)
  {
    hide Base, Described;
    var d0 := rs.tags[tags[0]].digest;
    BaseShape(rs, via, entries, d0);
    if e in TaggedEntries(rs, via, entries, tags[1..]) { TaggedSubject(rs, via, entries, tags[1..], e, d); }
  }

  lemma {:induction false} PlainSubject(rs: RepoState, via: Via, entries: seq<Json>, ds: seq<Digest>, e: Json,
                                        d: Digest)
    requires e in PlainEntries(rs, via, entries, ds) && EntryDigest(e) == Some(d)
    ensures Get(e, FSubject) == Get(Obj(Base(rs, via, entries, d)), FSubject)
  {
    hide Base;
    BaseShape(rs, via, entries, ds[0]);
    if e in PlainEntries(rs, via, entries, ds[1..]) { PlainSubject(rs, via, entries, ds[1..], e, d); }
  }

  // Every entry of a rebuilt file with a subject has the subject of its rebuilt descriptor.
  lemma ItemSubject(rs: RepoState, via: Via, entries: seq<Json>, tags: seq<Tag>, plain: seq<Digest>, e: Json, d: Digest)
    requires InOrder(rs, tags, plain) && e in Items(rs, via, entries, tags, plain)
    requires e.Obj? && EntryDigest(e) == Some(d) && Get(e, FSubject).Some?
    ensures Get(e, FSubject) == Get(Obj(Base(rs, via, entries, d)), FSubject)
  {
    hide Base, TaggedEntries, PlainEntries, Foreign, InOrder;
    TagsListed(rs, tags, plain);
    ForeignKeeps(rs, entries, e);
    if e in TaggedEntries(rs, via, entries, tags) {
      TaggedSubject(rs, via, entries, tags, e, d);
    } else if e in PlainEntries(rs, via, entries, plain) {
      PlainSubject(rs, via, entries, plain, e, d);
    }
  }

  lemma BaseSubject(rs: RepoState, via: Via, entries: seq<Json>, d: Digest)
    requires LastLabel(rs, via.walk, d).Some?
    ensures Get(Obj(Base(rs, via, entries, d)), FSubject) == Some(SubjectOf(LastLabel(rs, via.walk, d).value))
  {
    hide MergedBy, LastLabel, Seeded, WithFacts;
    var o := if d in rs.mediaTypes then Seeded(entries, d) else Named(d);
    LastLabelSets(rs, via.walk, d, if d in rs.mediaTypes then WithFacts(rs, via, d, o) else o);
  }

  lemma SubjectInjective(a: Digest, b: Digest)
    requires SubjectOf(a) == SubjectOf(b)
    ensures a == b
  {
    assert SubjectOf(a).fields[FDigest] == SubjectOf(b).fields[FDigest];
  }

  /** Two walks that end on different readable records of one referrer leave different
      files: the second rebuild is not the first again. */
  lemma FlippedWalkDiffers(rs: RepoState, via: Via, via': Via, existing: Option<Json>, tags: seq<Tag>,
                           plain: seq<Digest>, tags': seq<Tag>, plain': seq<Digest>, d: Digest)
    requires TagsKnown(rs) && InOrder(rs, tags, plain) && InOrder(rs, tags', plain') && d in Referrers(rs)
    requires var s, s' := LastLabel(rs, via.walk, d), LastLabel(rs, via'.walk, d); s.Some? && s'.Some? && s != s'
    ensures var once := Rebuilt(rs, via, existing, tags, plain);
            !SameManifestSet(once, Rebuilt(rs, via', Some(once), tags', plain'))
  {
    hide Base, Items, Rebuilt, InOrder, TagsKnown, Strip, LastLabel, Referrers;
    var entries := ExistingEntries(existing);
    var once := Rebuilt(rs, via, existing, tags, plain);
    var twice := Rebuilt(rs, via', Some(once), tags', plain');
    RebuiltEntries(rs, via, existing, tags, plain);
    RebuiltEntries(rs, via', Some(once), tags', plain');
    var items := Items(rs, via, entries, tags, plain);
    FindItems(rs, via, entries, tags, plain, d);
    var o := Find(items, d).value;
    FindIn(items, d);
    FindDigest(items, d);
    StripTidies(o);
    StripTidies(Base(rs, via, entries, d));
    BaseSubject(rs, via, entries, d);
    BaseSubject(rs, via', items, d);
    assert Get(Obj(o), FSubject) == Some(SubjectOf(LastLabel(rs, via.walk, d).value));
    if SameManifestSet(once, twice) {
      assert Obj(o) in multiset(Entries(once));
      assert Obj(o) in Entries(twice);
      ItemSubject(rs, via', items, tags', plain', Obj(o), d);
      SubjectInjective(LastLabel(rs, via.walk, d).value, LastLabel(rs, via'.walk, d).value);
    }
  }

  // ---- when a file settles ----

  lemma {:induction false} SomeOrder<T>(s: set<T>) returns (l: seq<T>)
    ensures Lists(l, s)
    decreases |s|
  {
    if s == {} {
      l := [];
    } else {
      var x :| x in s;
      l := SomeOrder(s - {x});
      ElementsSnoc(l, x);
      l := l + [x];
    }
  }

  // A walk that ends on a given readable record.
  lemma WalkEndingOn(rs: RepoState, d: Digest, s: Digest) returns (walk: seq<Digest>)
    requires s in Labels(rs, d)
    ensures Lists(walk, rs.referrers.Keys) && LastLabel(rs, walk, d) == Some(s)
  {
    var rest := SomeOrder(rs.referrers.Keys - {s});
    walk := rest + [s];
    ElementsSnoc(rest, s);
  }

  // Whatever the walks of the two rebuilds, the second finds the file up to date.
  ghost predicate Settles(rs: RepoState, size: Digest -> Option<nat>, existing: Option<Json>, tags: seq<Tag>,
                          plain: seq<Digest>, tags': seq<Tag>, plain': seq<Digest>)
    requires InOrder(rs, tags, plain) && InOrder(rs, tags', plain')
  {
    forall via, via' | Walks(rs, via) && Walks(rs, via') && via.size == size && via'.size == size ::
      var once := Rebuilt(rs, via, existing, tags, plain);
      SameManifestSet(once, Rebuilt(rs, via', Some(once), tags', plain'))
  }

  // One rebuild is the fixpoint of all walks exactly when no referrer is recorded,
  // readably, under two subjects, and none is recorded unreadably only.
  ghost predicate Settling(rs: RepoState) {
    OneLabel(rs) && forall d | d in Referrers(rs) :: !Unlabelled(rs, d)
  }

  lemma SettlesIf(rs: RepoState, via: Via, via': Via, existing: Option<Json>, tags: seq<Tag>, plain: seq<Digest>,
                  tags': seq<Tag>, plain': seq<Digest>)
    requires OneLabel(rs) && Walks(rs, via) && Walks(rs, via') && via'.size == via.size
    requires TagsKnown(rs) && InOrder(rs, tags, plain) && InOrder(rs, tags', plain')
    ensures var once := Rebuilt(rs, via, existing, tags, plain);
            SameManifestSet(once, Rebuilt(rs, via', Some(once), tags', plain')) <==>
              forall d | d in Referrers(rs) :: !Unlabelled(rs, d)
  {
    hide Base, Foreign, TaggedEntries, PlainEntries, TagsKnown, OneLabel, Walks, Referrers;
    var once := Rebuilt(rs, via, existing, tags, plain);
    var extra := UnlabelledIn(rs, plain);
    RebuildTwice(rs, via, via', existing, tags, plain, tags', plain');
    PlainLength(rs, via, ExistingEntries(existing), extra);
    UnlabelledNone(rs, plain);
    forall d | Unlabelled(rs, d) ensures d in plain {
      UnlabelledIsPlain(rs, d);
      assert d in Elements(plain);
    }
    if extra == [] {
      assert PlainEntries(rs, via, ExistingEntries(existing), extra) == [];
    } else {
      assert |multiset(Entries(Rebuilt(rs, via', Some(once), tags', plain')))| == |multiset(Entries(once))| + |extra|;
    }
  }

  /** Idempotence: over all walks of both rebuilds, one rebuild is a fixpoint if and only
      if no referrer is recorded readably under two subjects and none unreadably only. */
  lemma RebuildIsIdempotent(rs: RepoState, size: Digest -> Option<nat>, existing: Option<Json>, tags: seq<Tag>,
                            plain: seq<Digest>, tags': seq<Tag>, plain': seq<Digest>)
    requires TagsKnown(rs) && InOrder(rs, tags, plain) && InOrder(rs, tags', plain')
    ensures Settles(rs, size, existing, tags, plain, tags', plain') <==> Settling(rs)
  {
    hide Rebuilt, SameManifestSet, InOrder, TagsKnown, Unlabelled, Labels;
    if OneLabel(rs) {
      hide OneLabel;
      forall via, via' | Walks(rs, via) && Walks(rs, via') && via.size == size && via'.size == size
        ensures var once := Rebuilt(rs, via, existing, tags, plain);
                SameManifestSet(once, Rebuilt(rs, via', Some(once), tags', plain')) <==> Settling(rs)
      {
        SettlesIf(rs, via, via', existing, tags, plain, tags', plain');
      }
      var walk := SomeOrder(rs.referrers.Keys);
      assert Walks(rs, Via(size, walk));
    } else {
      var d, s, s' :| s in Labels(rs, d) && s' in Labels(rs, d) && s != s';
      NotSettled(rs, size, existing, tags, plain, tags', plain', d, s, s');
    }
  }

  lemma NotSettled(rs: RepoState, size: Digest -> Option<nat>, existing: Option<Json>, tags: seq<Tag>,
                   plain: seq<Digest>, tags': seq<Tag>, plain': seq<Digest>, d: Digest, s: Digest, s': Digest)
    requires TagsKnown(rs) && InOrder(rs, tags, plain) && InOrder(rs, tags', plain')
    requires s in Labels(rs, d) && s' in Labels(rs, d) && s != s'
    ensures !Settles(rs, size, existing, tags, plain, tags', plain')
  {
    hide Rebuilt, SameManifestSet, InOrder, TagsKnown;
    var walk := WalkEndingOn(rs, d, s);
    var walk' := WalkEndingOn(rs, d, s');
    assert d in Referrers(rs);
    FlippedWalkDiffers(rs, Via(size, walk), Via(size, walk'), existing, tags, plain, tags', plain', d);
    assert Walks(rs, Via(size, walk)) && Walks(rs, Via(size, walk'));
  }

  lemma UnlabelledIsPlain(rs: RepoState, d: Digest)
    requires TagsKnown(rs) && Unlabelled(rs, d)
    ensures d in Described(rs) - TaggedDigests(rs)
  {
  }
}
