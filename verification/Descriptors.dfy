// What a descriptor of the rebuilt index.json holds, field by field: the metadata's facts,
// the file's own fields, and the records of referrers in the order they are walked.

module Descriptors {
  import opened Core
  import opened Json
  import opened Metadata
  import opened Layout

  // ---- first and last ----

  function Or<T>(a: Option<T>, b: Option<T>): Option<T> {
    if a.Some? then a else b
  }

  // The first or the last that is there.
  function First<T>(l: seq<Option<T>>): Option<T> {
    if l == [] then None else Or(First(l[..|l| - 1]), l[|l| - 1])
  }

  function Last<T>(l: seq<Option<T>>): Option<T> {
    if l == [] then None else Or(l[|l| - 1], Last(l[..|l| - 1]))
  }

  // Position `i` holds the first, or the last, that is there.
  predicate FirstAt<T>(l: seq<Option<T>>, i: nat) {
    i < |l| && l[i].Some? && forall j | 0 <= j < i :: l[j].None?
  }

  predicate LastAt<T>(l: seq<Option<T>>, i: nat) {
    i < |l| && l[i].Some? && forall j | i < j < |l| :: l[j].None?
  }

  lemma {:induction false} FirstMeans<T>(l: seq<Option<T>>, i: nat)
    requires FirstAt(l, i)
    ensures First(l) == l[i]
  {
    var n := |l| - 1;
    if i < n {
      FirstMeans(l[..n], i);
    } else {
      FirstNone(l[..n]);
    }
  }

  lemma {:induction false} FirstNone<T>(l: seq<Option<T>>)
    requires forall i | 0 <= i < |l| :: l[i].None?
    ensures First(l) == None && Last(l) == None
  {
    if l != [] { FirstNone(l[..|l| - 1]); }
  }

  lemma {:induction false} LastMeans<T>(l: seq<Option<T>>, i: nat)
    requires LastAt(l, i)
    ensures Last(l) == l[i]
  {
    var n := |l| - 1;
    if i < n { LastMeans(l[..n], i); }
  }

  // ---- the records of a digest along the walk ----

  function Lookup(o: Object, f: Field): Option<Json> {
    if f in o then Some(o[f]) else None
  }

  // The annotation `k` of a descriptor.
  function Note(o: Object, k: Field): Option<Json> {
    if FAnnotations in o && o[FAnnotations].Obj? && k in o[FAnnotations].fields
    then Some(o[FAnnotations].fields[k]) else None
  }

  // The readable record of `d` under subject `s`.
  function RecordOf(rs: RepoState, s: Digest, d: Digest): Option<Object> {
    if s in rs.referrers && d in rs.referrers[s] then rs.referrers[s][d] else None
  }

  // What the records along the walk say: a field, an annotation, their subjects.
  function FieldOf(r: Option<Object>, f: Field): Option<Json> {
    if r.Some? then Lookup(r.value, f) else None
  }

  function NoteOf(r: Option<Object>, k: Field): Option<Json> {
    if r.Some? then Note(r.value, k) else None
  }

  function Fields(rs: RepoState, walk: seq<Digest>, d: Digest, f: Field): seq<Option<Json>> {
    seq(|walk|, i requires 0 <= i < |walk| => FieldOf(RecordOf(rs, walk[i], d), f))
  }

  function NotesOn(rs: RepoState, walk: seq<Digest>, d: Digest, k: Field): seq<Option<Json>> {
    seq(|walk|, i requires 0 <= i < |walk| => NoteOf(RecordOf(rs, walk[i], d), k))
  }

  function Subjects(rs: RepoState, walk: seq<Digest>, d: Digest): seq<Option<Digest>> {
    seq(|walk|, i requires 0 <= i < |walk| => if RecordOf(rs, walk[i], d).Some? then Some(walk[i]) else None)
  }

  // ---- one record ----

  predicate Plain(f: Field) {
    f !in {FDigest, FMediaType, FSize, FAnnotations, FSubject}
  }

  lemma MergedFields(o: Object, r: Object, f: Field)
    ensures Plain(f) ==> Lookup(Merged(o, r), f) == Or(Lookup(r, f), Lookup(o, f))
    ensures f in {FMediaType, FSize} ==> Lookup(Merged(o, r), f) == Or(Lookup(o, f), Lookup(r, f))
    ensures f == FDigest ==> Lookup(Merged(o, r), f) == Lookup(o, f)
    ensures FAnnotations in Merged(o, r) <==> FAnnotations in o || FAnnotations in r
  {
    hide MergeAnnotations;
  }

  predicate Odd(o: Object) {
    FAnnotations in o && !o[FAnnotations].Obj?
  }

  lemma MergedNotes(o: Object, r: Object, k: Field)
    ensures Odd(Merged(o, r)) <==> Odd(o)
    ensures Odd(o) ==> Lookup(Merged(o, r), FAnnotations) == Lookup(o, FAnnotations)
    ensures !Odd(o) ==> Note(Merged(o, r), k) == if k == FRefName then Note(o, k) else Or(Note(o, k), Note(r, k))
  {
  }

  // ---- all records of a walk ----

  lemma OneMore(rs: RepoState, walk: seq<Digest>, d: Digest, o: Object)
    requires walk != []
    ensures var n := |walk| - 1;
            var o1, r := MergedBy(rs, walk[..n], d, o), RecordOf(rs, walk[n], d);
            MergedBy(rs, walk, d, o) == if r.Some? then Merged(o1, r.value)[FSubject := SubjectOf(walk[n])] else o1
  {
    hide Merged;
  }

  lemma NoWalk(rs: RepoState, d: Digest, o: Object)
    ensures MergedBy(rs, [], d, o) == o
  {
  }

  lemma FieldsSplit(rs: RepoState, walk: seq<Digest>, d: Digest, f: Field)
    requires walk != []
    ensures var n := |walk| - 1;
            Fields(rs, walk, d, f)[..n] == Fields(rs, walk[..n], d, f)
            && Fields(rs, walk, d, f)[n] == FieldOf(RecordOf(rs, walk[n], d), f)
  {
  }

  lemma NotesSplit(rs: RepoState, walk: seq<Digest>, d: Digest, k: Field)
    requires walk != []
    ensures var n := |walk| - 1;
            NotesOn(rs, walk, d, k)[..n] == NotesOn(rs, walk[..n], d, k)
            && NotesOn(rs, walk, d, k)[n] == NoteOf(RecordOf(rs, walk[n], d), k)
  {
  }

  lemma {:induction false} WalkedFields(rs: RepoState, walk: seq<Digest>, d: Digest, o: Object, f: Field)
    ensures var b, l := MergedBy(rs, walk, d, o), Fields(rs, walk, d, f);
            && (Plain(f) ==> Lookup(b, f) == Or(Last(l), Lookup(o, f)))
            && (f in {FMediaType, FSize} ==> Lookup(b, f) == Or(Lookup(o, f), First(l)))
            && (f == FDigest ==> Lookup(b, f) == Lookup(o, f))
  {
    hide MergedBy, Merged, Fields, RecordOf;
    if walk == [] {
      NoWalk(rs, d, o);
      assert Fields(rs, walk, d, f) == [] by { NoFields(rs, d, f); }
    } else {
      var n := |walk| - 1;
      WalkedFields(rs, walk[..n], d, o, f);
      OneMore(rs, walk, d, o);
      FieldsSplit(rs, walk, d, f);
      assert |Fields(rs, walk, d, f)| == n + 1 by { FieldsLength(rs, walk, d, f); }
      var r := RecordOf(rs, walk[n], d);
      if r.Some? { MergedFields(MergedBy(rs, walk[..n], d, o), r.value, f); }
    }
  }

  lemma FieldsLength(rs: RepoState, walk: seq<Digest>, d: Digest, f: Field)
    ensures |Fields(rs, walk, d, f)| == |NotesOn(rs, walk, d, f)| == |Subjects(rs, walk, d)| == |walk|
  {
  }

  lemma NoFields(rs: RepoState, d: Digest, f: Field)
    ensures Fields(rs, [], d, f) == [] && NotesOn(rs, [], d, f) == [] && Subjects(rs, [], d) == []
  {
  }

  function SubjectField(s: Option<Digest>): Option<Json> {
    if s.Some? then Some(Obj(map[FDigest := Text(s.value)])) else None
  }

  lemma {:induction false} WalkedSubject(rs: RepoState, walk: seq<Digest>, d: Digest, o: Object)
    ensures Lookup(MergedBy(rs, walk, d, o), FSubject) ==
            Or(SubjectField(Last(Subjects(rs, walk, d))), Lookup(o, FSubject))
  {
    hide MergedBy, Merged, RecordOf;
    if walk == [] {
      NoWalk(rs, d, o);
    } else {
      var n := |walk| - 1;
      WalkedSubject(rs, walk[..n], d, o);
      OneMore(rs, walk, d, o);
      assert Subjects(rs, walk, d)[..n] == Subjects(rs, walk[..n], d);
    }
  }

  // Some record of the walk has annotations.
  function Annotated(rs: RepoState, walk: seq<Digest>, d: Digest): bool {
    First(Fields(rs, walk, d, FAnnotations)).Some?
  }

  lemma {:induction false} WalkedNotes(rs: RepoState, walk: seq<Digest>, d: Digest, o: Object, k: Field)
    ensures var b := MergedBy(rs, walk, d, o);
            && (FAnnotations in b <==> FAnnotations in o || Annotated(rs, walk, d))
            && (Odd(b) <==> Odd(o))
            && (Odd(o) ==> Lookup(b, FAnnotations) == Lookup(o, FAnnotations))
            && (!Odd(o) ==>
                  Note(b, k) == if k == FRefName then Note(o, k) else Or(Note(o, k), First(NotesOn(rs, walk, d, k))))
  {
    hide MergedBy, Merged, Fields, NotesOn, RecordOf, Note, Odd;
    NoFields(rs, d, FAnnotations);
    NoFields(rs, d, k);
    FieldsLength(rs, walk, d, FAnnotations);
    FieldsLength(rs, walk, d, k);
    if walk == [] {
      NoWalk(rs, d, o);
    } else {
      var n := |walk| - 1;
      WalkedNotes(rs, walk[..n], d, o, k);
      OneMore(rs, walk, d, o);
      FieldsSplit(rs, walk, d, FAnnotations);
      NotesSplit(rs, walk, d, k);
      var r := RecordOf(rs, walk[n], d);
      if r.Some? {
        var o1 := MergedBy(rs, walk[..n], d, o);
        MergedFields(o1, r.value, FAnnotations);
        MergedNotes(o1, r.value, k);
        SubjectKeeps(Merged(o1, r.value), SubjectOf(walk[n]), k);
      }
    }
  }

  lemma SubjectKeeps(o: Object, v: Json, k: Field)
    ensures Odd(o[FSubject := v]) <==> Odd(o)
    ensures Note(o[FSubject := v], k) == Note(o, k) && Lookup(o[FSubject := v], FAnnotations) == Lookup(o, FAnnotations)
  {
  }

  // ---- a descriptor of the rebuilt file ----

  predicate NamesIt(e: Json, d: Digest) {
    e.Obj? && FDigest in e.fields && e.fields[FDigest] == Text(d)
  }

  // The first entry of a file that names `d`, if any does.
  ghost predicate FirstEntry(entries: seq<Json>, d: Digest, file: Option<Object>) {
    if file.None? then forall i | 0 <= i < |entries| :: !NamesIt(entries[i], d)
    else
      exists i | 0 <= i < |entries| ::
        entries[i] == Obj(file.value) && NamesIt(entries[i], d) && forall j | 0 <= j < i :: !NamesIt(entries[j], d)
  }

  lemma {:induction false} FindIsFirst(entries: seq<Json>, d: Digest)
    ensures FirstEntry(entries, d, Find(entries, d))
  {
    if entries != [] {
      var rest := entries[1..];
      FindIsFirst(rest, d);
      assert forall i | 0 < i < |entries| :: entries[i] == rest[i - 1];
      if NamesIt(entries[0], d) {
        assert entries[0] == Obj(entries[0].fields);
      } else if Find(rest, d).Some? {
        var i :| 0 <= i < |rest| && rest[i] == Obj(Find(rest, d).value) && NamesIt(rest[i], d)
                 && forall j | 0 <= j < i :: !NamesIt(rest[j], d);
        assert entries[i + 1] == rest[i];
      }
    }
  }

  /* The descriptor of `d`, over the file's own fields: its digest; the metadata's media type;
     the file's size, or else the store's; every other field from the last record that has
     it, or else from the file; the subject of the last record; annotations of the file first
     and then of the records, the earliest winning, and never a tag. Where neither metadata
     nor file has a media type or a size, the first record that has one gives it. Annotations
     of the file that are not an object stay as they are. */
  ghost predicate Exact(rs: RepoState, size: Digest -> Option<nat>, walk: seq<Digest>, file: Object, d: Digest,
                        b: Object) {
    var known := d in rs.mediaTypes;
    var stored := if known && size(d).Some? then Some(Number(size(d).value)) else None;
    && Lookup(b, FDigest) == Some(Text(d))
    && Lookup(b, FMediaType) == (if known then Some(Text(rs.mediaTypes[d])) else First(Fields(rs, walk, d, FMediaType)))
    && Lookup(b, FSize) == Or(Lookup(file, FSize), Or(stored, First(Fields(rs, walk, d, FSize))))
    && (forall f | Plain(f) :: Lookup(b, f) == Or(Last(Fields(rs, walk, d, f)), Lookup(file, f)))
    && Lookup(b, FSubject) == Or(SubjectField(Last(Subjects(rs, walk, d))), Lookup(file, FSubject))
    && ExactNotes(rs, walk, file, d, b)
  }

  ghost predicate ExactNotes(rs: RepoState, walk: seq<Digest>, file: Object, d: Digest, b: Object) {
    if Odd(file) then Lookup(b, FAnnotations) == Lookup(file, FAnnotations)
    else
      && !Odd(b)
      && (FAnnotations in b <==> Annotated(rs, walk, d) || exists k :: k != FRefName && Note(file, k).Some?)
      && forall k :: Note(b, k) == if k == FRefName then None else Or(Note(file, k), First(NotesOn(rs, walk, d, k)))
  }

  // What the file has of a manifest the metadata knows.
  function OwnFields(rs: RepoState, entries: seq<Json>, d: Digest): Object {
    if d in rs.mediaTypes && Find(entries, d).Some? then Find(entries, d).value else map[]
  }

  function StartOf(rs: RepoState, via: Via, entries: seq<Json>, d: Digest): Object {
    if d in rs.mediaTypes then WithFacts(rs, via, d, Seeded(entries, d)) else Named(d)
  }

  lemma {:induction false} FindNames(entries: seq<Json>, d: Digest)
    ensures Find(entries, d).Some? ==> Lookup(Find(entries, d).value, FDigest) == Some(Text(d))
  {
    if entries != [] { FindNames(entries[1..], d); }
  }

  lemma StripFields(o: Object, f: Field, k: Field)
    ensures f != FAnnotations ==> Lookup(Strip(o), f) == Lookup(o, f)
    ensures Odd(Strip(o)) <==> Odd(o)
    ensures Odd(o) ==> Lookup(Strip(o), FAnnotations) == Lookup(o, FAnnotations)
    ensures !Odd(o) ==> Note(Strip(o), k) == if k == FRefName then None else Note(o, k)
    ensures !Odd(o) ==> (FAnnotations in Strip(o) <==> exists x :: x != FRefName && Note(o, x).Some?)
  {
    if FAnnotations in o && o[FAnnotations].Obj? {
      var ann := o[FAnnotations].fields - {FRefName};
      forall x | x != FRefName && x in o[FAnnotations].fields ensures x in ann {}
      if ann == map[] {
        assert k !in ann;
      } else {
        var x :| x in ann;
        assert x != FRefName && Note(o, x).Some?;
      }
    }
  }

  lemma StartFields(rs: RepoState, via: Via, entries: seq<Json>, d: Digest, f: Field)
    ensures var o, file := StartOf(rs, via, entries, d), OwnFields(rs, entries, d);
            && (f == FDigest ==> Lookup(o, f) == Some(Text(d)))
            && (f == FMediaType ==> Lookup(o, f) == if d in rs.mediaTypes then Some(Text(rs.mediaTypes[d])) else None)
            && (f == FSize ==> Lookup(o, f) == Or(Lookup(file, f), if d in rs.mediaTypes && via.size(d).Some?
                                                                   then Some(Number(via.size(d).value)) else None))
            && (Plain(f) || f == FSubject ==> Lookup(o, f) == Lookup(file, f))
  {
    FindNames(entries, d);
    if d in rs.mediaTypes && Find(entries, d).Some? {
      StripFields(Find(entries, d).value, f, f);
      StripFields(Find(entries, d).value, FSize, f);
    }
    hide Strip, Find;
  }

  lemma StartNotes(rs: RepoState, via: Via, entries: seq<Json>, d: Digest, k: Field)
    ensures var o, file := StartOf(rs, via, entries, d), OwnFields(rs, entries, d);
            && (Odd(o) <==> Odd(file))
            && (Odd(file) ==> Lookup(o, FAnnotations) == Lookup(file, FAnnotations))
            && (!Odd(file) ==> Note(o, k) == if k == FRefName then None else Note(file, k))
            && (!Odd(file) ==> (FAnnotations in o <==> exists x :: x != FRefName && Note(file, x).Some?))
  {
    if d in rs.mediaTypes && Find(entries, d).Some? { StripFields(Find(entries, d).value, k, k); }
    hide Strip, Find;
  }

  /** Every descriptor of a rebuild is exact. */
  lemma BaseIsExact(rs: RepoState, via: Via, entries: seq<Json>, d: Digest)
    ensures Exact(rs, via.size, via.walk, OwnFields(rs, entries, d), d, Base(rs, via, entries, d))
  {
    hide MergedBy, Fields, Subjects, NotesOn, Strip, Find, WithFacts, Note, Odd, OwnFields, Seeded;
    var o, file, b := StartOf(rs, via, entries, d), OwnFields(rs, entries, d), Base(rs, via, entries, d);
    assert b == MergedBy(rs, via.walk, d, o);
    StartFields(rs, via, entries, d, FDigest);
    StartFields(rs, via, entries, d, FMediaType);
    StartFields(rs, via, entries, d, FSize);
    StartFields(rs, via, entries, d, FSubject);
    WalkedFields(rs, via.walk, d, o, FDigest);
    WalkedFields(rs, via.walk, d, o, FMediaType);
    WalkedFields(rs, via.walk, d, o, FSize);
    WalkedSubject(rs, via.walk, d, o);
    forall f | Plain(f) ensures Lookup(b, f) == Or(Last(Fields(rs, via.walk, d, f)), Lookup(file, f)) {
      StartFields(rs, via, entries, d, f);
      WalkedFields(rs, via.walk, d, o, f);
    }
    NotesAreExact(rs, via, entries, d);
  }

  lemma NotesAreExact(rs: RepoState, via: Via, entries: seq<Json>, d: Digest)
    ensures ExactNotes(rs, via.walk, OwnFields(rs, entries, d), d, Base(rs, via, entries, d))
  {
    hide MergedBy, Fields, NotesOn, Strip, Find, WithFacts, Note, Odd, OwnFields, Seeded, Annotated;
    var o, file, b := StartOf(rs, via, entries, d), OwnFields(rs, entries, d), Base(rs, via, entries, d);
    assert b == MergedBy(rs, via.walk, d, o);
    StartNotes(rs, via, entries, d, FRefName);
    WalkedNotes(rs, via.walk, d, o, FRefName);
    forall k
      ensures !Odd(file) ==>
                Note(b, k) == if k == FRefName then None else Or(Note(file, k), First(NotesOn(rs, via.walk, d, k)))
    {
      StartNotes(rs, via, entries, d, k);
      WalkedNotes(rs, via.walk, d, o, k);
    }
  }

  // ---- the file as a whole ----

  // `b` is the descriptor of `d` over the first entry that names it in a file.
  ghost predicate DescriptorOf(rs: RepoState, size: Digest -> Option<nat>, walk: seq<Digest>, entries: seq<Json>,
                               d: Digest, b: Object) {
    exists file: Option<Object> ::
      && (if d in rs.mediaTypes then FirstEntry(entries, d, file) else file == None)
      && Exact(rs, size, walk, if file.Some? then file.value else map[], d, b)
  }

  lemma BaseIsDescriptor(rs: RepoState, via: Via, entries: seq<Json>, d: Digest)
    ensures DescriptorOf(rs, via.size, via.walk, entries, d, Base(rs, via, entries, d))
  {
    hide Exact, Base, FirstEntry, Find;
    BaseIsExact(rs, via, entries, d);
    FindIsFirst(entries, d);
    var file := if d in rs.mediaTypes then Find(entries, d) else None;
    assert (if file.Some? then file.value else map[]) == OwnFields(rs, entries, d);
  }

  // The same descriptor with tag `t` among its annotations, if they can hold it.
  ghost predicate UnderTag(b: Object, t: Tag, e: Json) {
    && e.Obj? && (forall f | f != FAnnotations :: Lookup(e.fields, f) == Lookup(b, f))
    && (if Odd(b) then Lookup(e.fields, FAnnotations) == Lookup(b, FAnnotations)
        else !Odd(e.fields) && forall k :: Note(e.fields, k) == if k == FRefName then Some(Text(t)) else Note(b, k))
  }

  lemma WithTagIsUnder(b: Object, t: Tag)
    ensures UnderTag(b, t, Obj(WithTag(b, t)))
  {
  }

  // The metadata knows `d` or records it as a referrer.
  predicate Known(rs: RepoState, d: Digest) {
    d in rs.mediaTypes || exists s :: s in rs.referrers && d in rs.referrers[s]
  }

  // An entry that is none of the registry's business.
  predicate Foreigner(rs: RepoState, e: Json) {
    || !e.Obj?
    || (&& (FDigest !in e.fields || !e.fields[FDigest].Text? || e.fields[FDigest].text !in rs.mediaTypes)
        && FSubject !in e.fields
        && !(Note(e.fields, FRefName).Some? && Note(e.fields, FRefName).value.Text?))
  }

  ghost predicate TagEntry(rs: RepoState, size: Digest -> Option<nat>, walk: seq<Digest>, entries: seq<Json>,
                           t: Tag, e: Json) {
    && t in rs.tags && Known(rs, rs.tags[t].digest)
    && exists b :: DescriptorOf(rs, size, walk, entries, rs.tags[t].digest, b) && UnderTag(b, t, e)
  }

  ghost predicate PlainEntry(rs: RepoState, size: Digest -> Option<nat>, walk: seq<Digest>, entries: seq<Json>,
                             d: Digest, e: Json) {
    && Known(rs, d) && (forall t | t in rs.tags :: rs.tags[t].digest != d)
    && e.Obj? && DescriptorOf(rs, size, walk, entries, d, e.fields)
  }

  // One entry for every tag, one for every other digest the metadata knows or records, the
  // entries of others as they were, and nothing else.
  ghost predicate FileHolds(rs: RepoState, size: Digest -> Option<nat>, walk: seq<Digest>, entries: seq<Json>,
                            items: seq<Json>) {
    && (forall t | t in rs.tags && Known(rs, rs.tags[t].digest) ::
          exists e :: e in items && TagEntry(rs, size, walk, entries, t, e))
    && (forall d | Known(rs, d) && (forall t | t in rs.tags :: rs.tags[t].digest != d) ::
          exists e :: e in items && PlainEntry(rs, size, walk, entries, d, e))
    && (forall e | e in entries && Foreigner(rs, e) :: e in items)
    && (forall e | e in items ::
          || (exists t :: TagEntry(rs, size, walk, entries, t, e))
          || (exists d :: PlainEntry(rs, size, walk, entries, d, e))
          || (e in entries && Foreigner(rs, e)))
  }

  lemma KnownIff(rs: RepoState, d: Digest)
    ensures Known(rs, d) <==> d in Described(rs)
  {
  }

  lemma ForeignerIff(rs: RepoState, e: Json)
    ensures Foreigner(rs, e) <==> IsForeign(rs, e)
  {
  }

  lemma {:induction false} InForeign(rs: RepoState, entries: seq<Json>, e: Json)
    ensures e in Foreign(rs, entries) <==> e in entries && IsForeign(rs, e)
  {
    hide IsForeign;
    if entries != [] {
      InForeign(rs, entries[1..], e);
      assert entries == [entries[0]] + entries[1..];
    }
  }

  lemma {:induction false} InTagged(rs: RepoState, via: Via, entries: seq<Json>, tags: seq<Tag>, e: Json)
    requires forall t | t in tags :: t in rs.tags
    ensures e in TaggedEntries(rs, via, entries, tags) <==>
            exists t :: t in tags && rs.tags[t].digest in Described(rs) &&
                        e == Obj(WithTag(Base(rs, via, entries, rs.tags[t].digest), t))
  {
    hide Base, WithTag, Described;
    if tags != [] {
      InTagged(rs, via, entries, tags[1..], e);
      assert tags == [tags[0]] + tags[1..];
    }
  }

  lemma {:induction false} InPlain(rs: RepoState, via: Via, entries: seq<Json>, ds: seq<Digest>, e: Json)
    ensures e in PlainEntries(rs, via, entries, ds) <==> exists d :: d in ds && e == Obj(Base(rs, via, entries, d))
  {
    hide Base;
    if ds != [] {
      InPlain(rs, via, entries, ds[1..], e);
      assert ds == [ds[0]] + ds[1..];
    }
  }

  lemma TagIsListed(rs: RepoState, via: Via, entries: seq<Json>, t: Tag)
    requires t in rs.tags && rs.tags[t].digest in Described(rs)
    ensures TagEntry(rs, via.size, via.walk, entries, t, Obj(WithTag(Base(rs, via, entries, rs.tags[t].digest), t)))
  {
    hide Base, WithTag, DescriptorOf, UnderTag, Described;
    var d := rs.tags[t].digest;
    KnownIff(rs, d);
    BaseIsDescriptor(rs, via, entries, d);
    WithTagIsUnder(Base(rs, via, entries, d), t);
  }

  lemma DigestIsListed(rs: RepoState, via: Via, entries: seq<Json>, d: Digest)
    requires d in Described(rs) - TaggedDigests(rs)
    ensures PlainEntry(rs, via.size, via.walk, entries, d, Obj(Base(rs, via, entries, d)))
  {
    hide Base, DescriptorOf, Described;
    KnownIff(rs, d);
    BaseIsDescriptor(rs, via, entries, d);
  }

  lemma RebuiltHolds(rs: RepoState, via: Via, entries: seq<Json>, tags: seq<Tag>, plain: seq<Digest>)
    requires InOrder(rs, tags, plain)
    ensures FileHolds(rs, via.size, via.walk, entries, Items(rs, via, entries, tags, plain))
  {
    hide Base, WithTag, TagEntry, PlainEntry, Described, Known, Foreigner, IsForeign, TaggedEntries, PlainEntries,
         Foreign;
    var items := Items(rs, via, entries, tags, plain);
    assert forall t :: t in tags <==> t in rs.tags by { assert forall t :: t in Elements(tags) <==> t in rs.tags.Keys; }
    assert forall d :: d in plain <==> d in Described(rs) - TaggedDigests(rs) by {
      assert forall d :: d in Elements(plain) <==> d in Described(rs) - TaggedDigests(rs);
    }
    forall t | t in rs.tags && Known(rs, rs.tags[t].digest)
      ensures exists e :: e in items && TagEntry(rs, via.size, via.walk, entries, t, e)
    {
      KnownIff(rs, rs.tags[t].digest);
      var e := Obj(WithTag(Base(rs, via, entries, rs.tags[t].digest), t));
      InTagged(rs, via, entries, tags, e);
      TagIsListed(rs, via, entries, t);
      assert e in items;
    }
    forall d | Known(rs, d) && (forall t | t in rs.tags :: rs.tags[t].digest != d)
      ensures exists e :: e in items && PlainEntry(rs, via.size, via.walk, entries, d, e)
    {
      KnownIff(rs, d);
      var e := Obj(Base(rs, via, entries, d));
      InPlain(rs, via, entries, plain, e);
      DigestIsListed(rs, via, entries, d);
      assert e in items;
    }
    forall e | e in entries && Foreigner(rs, e) ensures e in items {
      ForeignerIff(rs, e);
      InForeign(rs, entries, e);
    }
    forall e | e in items
      ensures (exists t :: TagEntry(rs, via.size, via.walk, entries, t, e))
              || (exists d :: PlainEntry(rs, via.size, via.walk, entries, d, e)) || (e in entries && Foreigner(rs, e))
    {
      NothingElse(rs, via, entries, tags, plain, e);
    }
  }

  lemma NothingElse(rs: RepoState, via: Via, entries: seq<Json>, tags: seq<Tag>, plain: seq<Digest>, e: Json)
    requires InOrder(rs, tags, plain) && e in Items(rs, via, entries, tags, plain)
    ensures (exists t :: TagEntry(rs, via.size, via.walk, entries, t, e))
            || (exists d :: PlainEntry(rs, via.size, via.walk, entries, d, e)) || (e in entries && Foreigner(rs, e))
  {
    hide Base, WithTag, TagEntry, PlainEntry, Described, Foreigner, IsForeign, TaggedEntries, PlainEntries, Foreign;
    assert forall t :: t in tags ==> t in rs.tags by { assert forall t :: t in Elements(tags) <==> t in rs.tags.Keys; }
    InTagged(rs, via, entries, tags, e);
    InPlain(rs, via, entries, plain, e);
    InForeign(rs, entries, e);
    if e in TaggedEntries(rs, via, entries, tags) {
      var t :| t in tags && rs.tags[t].digest in Described(rs) &&
               e == Obj(WithTag(Base(rs, via, entries, rs.tags[t].digest), t));
      TagIsListed(rs, via, entries, t);
    } else if e in PlainEntries(rs, via, entries, plain) {
      var d :| d in plain && e == Obj(Base(rs, via, entries, d));
      assert d in Elements(plain);
      DigestIsListed(rs, via, entries, d);
    } else {
      ForeignerIff(rs, e);
    }
  }

  // The file as it is: the registry's own fields, the entries, and whatever else another
  // tool had put at its top.
  ghost predicate IndexHolds(rs: RepoState, size: Digest -> Option<nat>, walk: seq<Digest>, existing: Option<Json>,
                             index: Json) {
    var top := if existing.Some? && existing.value.Obj? then existing.value.fields else map[];
    var listed := if FManifests in top && top[FManifests].Array? then top[FManifests].items else [];
    && index.Obj? && FManifests in index.fields && index.fields[FManifests].Array?
    && FileHolds(rs, size, walk, listed, index.fields[FManifests].items)
    && Lookup(index.fields, FSchemaVersion) == Some(Number(2))
    && Lookup(index.fields, FMediaType) == Some(Text("application/vnd.oci.image.index.v1+json"))
    && forall f | f !in {FSchemaVersion, FMediaType, FManifests} :: Lookup(index.fields, f) == Lookup(top, f)
  }

  /** The rebuilt file holds exactly what it should. */
  lemma RebuiltIndexHolds(rs: RepoState, via: Via, existing: Option<Json>, tags: seq<Tag>, plain: seq<Digest>)
    requires InOrder(rs, tags, plain)
    ensures IndexHolds(rs, via.size, via.walk, existing, Rebuilt(rs, via, existing, tags, plain))
  {
    hide FileHolds, InOrder, Items;
    RebuiltHolds(rs, via, ExistingEntries(existing), tags, plain);
  }
}
