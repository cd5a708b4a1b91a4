// Writing, reading back and reconciling index.json.

module IndexFile {
  import opened Core
  import opened Json
  import opened Metadata
  import opened Layout
  import Descriptors
  import Digests

  // ---- the rebuild, step by step ----

  lemma {:induction false} FindSnoc(entries: seq<Json>, e: Json, d: Digest)
    ensures Find(entries + [e], d) ==
            if Find(entries, d).Some? then Find(entries, d)
            else if e.Obj? && EntryDigest(e) == Some(d) then Some(e.fields) else None
  {
    FindAppend(entries, [e], d);
    assert [e][1..] == [];
  }

  // The manifests the file already describes, and the entries of other tools.
  method ReadExisting(rs: RepoState, entries: seq<Json>) returns (base: map<Digest, Object>, foreign: seq<Json>)
    ensures foreign == Foreign(rs, entries)
    ensures forall d :: d in base <==> d in rs.mediaTypes && Find(entries, d).Some?
    ensures forall d | d in base :: base[d] == Strip(Find(entries, d).value)
  {
    hide Strip;
    base, foreign := map[], [];
    for i := 0 to |entries|
      invariant foreign == Foreign(rs, entries[..i])
      invariant forall d :: d in base <==> d in rs.mediaTypes && Find(entries[..i], d).Some?
      invariant forall d | d in base :: base[d] == Strip(Find(entries[..i], d).value)
    {
      var e := entries[i];
      assert entries[..i + 1] == entries[..i] + [e];
      ForeignAppend(rs, entries[..i], [e]);
      assert [e][1..] == [];
      forall d { FindSnoc(entries[..i], e, d); }
      var digest := EntryDigest(e);
      if e.Obj? && digest.Some? && digest.value in rs.mediaTypes {
        if digest.value !in base { base := base[digest.value := Strip(e.fields)]; }
      } else if !e.Obj? || (EntryTag(e).None? && Get(e, FSubject).None?) {
        foreign := foreign + [e];
      }
    }
    assert entries[..|entries|] == entries;
  }

  // What the metadata knows about its manifests, over what the file said.
  method AddFacts(rs: RepoState, via: Via, entries: seq<Json>, base: map<Digest, Object>, known: seq<Digest>)
    returns (base': map<Digest, Object>)
    requires Lists(known, rs.mediaTypes.Keys)
    requires forall d :: d in base <==> d in rs.mediaTypes && Find(entries, d).Some?
    requires forall d | d in base :: base[d] == Strip(Find(entries, d).value)
    ensures base'.Keys == rs.mediaTypes.Keys
    ensures forall d | d in base' :: base'[d] == WithFacts(rs, via, d, Seeded(entries, d))
  {
    hide Strip, WithFacts, Find, Lists, Elements;
    base' := base;
    ghost var done: set<Digest> := {};
    assert Elements(known[..0]) == {} by { ElementsEmpty<Digest>(); }
    for i := 0 to |known|
      invariant done == Elements(known[..i]) && done <= rs.mediaTypes.Keys
      invariant base'.Keys == base.Keys + done
      invariant forall d | d in done :: base'[d] == WithFacts(rs, via, d, Seeded(entries, d))
      invariant forall d | d in base && d !in done :: base'[d] == base[d]
    {
      var d := known[i];
      ListsFresh(known, rs.mediaTypes.Keys, i);
      var o := if d in base' then base'[d] else Named(d);
      base' := base'[d := WithFacts(rs, via, d, o)];
      done := done + {d};
    }
    ListsAll(known, rs.mediaTypes.Keys);
  }

  lemma ListsFresh<T>(l: seq<T>, s: set<T>, i: nat)
    requires Lists(l, s) && i < |l|
    ensures l[i] in s && l[i] !in Elements(l[..i]) && Elements(l[..i + 1]) == Elements(l[..i]) + {l[i]}
  {
    assert l[..i + 1] == l[..i] + [l[i]];
    assert l[i] in Elements(l);
    forall j | 0 <= j < i ensures l[j] != l[i] { ListsDistinct(l, s, j, i); }
  }

  lemma ListsAll<T>(l: seq<T>, s: set<T>)
    requires Lists(l, s)
    ensures Elements(l[..|l|]) == s
  {
    assert l[..|l|] == l;
  }

  // Each subject's referrers: every record goes over what is known of its digest so far.
  // `inner` is the order in which each subject lists its referrers.
  method AddReferrers(rs: RepoState, base: map<Digest, Object>, walk: seq<Digest>, inner: map<Digest, seq<Digest>>)
    returns (base': map<Digest, Object>)
    requires Lists(walk, rs.referrers.Keys) && inner.Keys == rs.referrers.Keys
    requires forall s | s in inner :: Lists(inner[s], rs.referrers[s].Keys)
    ensures base'.Keys == base.Keys + Referrers(rs)
    ensures forall d | d in base' :: base'[d] == MergedBy(rs, walk, d, if d in base then base[d] else Named(d))
  {
    hide WithReferrer, Lists, Referrers, MergedBy, ReferrersOf;
    assert ReferrersOf(rs, []) == {} && forall d, o :: MergedBy(rs, [], d, o) == o by { NothingWalked(rs); }
    base' := base;
    ghost var done: set<Digest> := {};
    for i := 0 to |walk|
      invariant base'.Keys == base.Keys + done && done == ReferrersOf(rs, walk[..i])
      invariant forall d | d in base' :: base'[d] == MergedBy(rs, walk[..i], d, if d in base then base[d] else Named(d))
    {
      var s := walk[i];
      assert s in rs.referrers by { ListsFresh(walk, rs.referrers.Keys, i); }
      ghost var before := base';
      base' := AddRecords(rs, base', s, inner[s]);
      WalkOn(rs, walk, i);
      done := done + rs.referrers[s].Keys;
      forall d | d in base'
        ensures base'[d] == MergedBy(rs, walk[..i + 1], d, if d in base then base[d] else Named(d))
      {
        if d !in before { NotYet(rs, walk[..i], d); }
        MergedOn(rs, walk, i, d, if d in base then base[d] else Named(d));
      }
    }
    assert walk[..|walk|] == walk;
    AllReferrers(rs, walk);
  }

  lemma NothingWalked(rs: RepoState)
    ensures ReferrersOf(rs, []) == {} && forall d, o :: MergedBy(rs, [], d, o) == o
  {
  }

  lemma MergedOn(rs: RepoState, walk: seq<Digest>, i: nat, d: Digest, o: Object)
    requires i < |walk| && walk[i] in rs.referrers
    ensures var s, o1 := walk[i], MergedBy(rs, walk[..i], d, o);
            MergedBy(rs, walk[..i + 1], d, o) == if d in rs.referrers[s] then WithReferrer(o1, s, rs.referrers[s][d])
              else o1
  {
    assert walk[..i + 1][..i] == walk[..i];
  }

  // The referrers of the subjects walked so far.
  function ReferrersOf(rs: RepoState, walk: seq<Digest>): set<Digest> {
    set s, d | s in walk && s in rs.referrers && d in rs.referrers[s] :: d
  }

  lemma WalkOn(rs: RepoState, walk: seq<Digest>, i: nat)
    requires i < |walk| && walk[i] in rs.referrers
    ensures ReferrersOf(rs, walk[..i + 1]) == ReferrersOf(rs, walk[..i]) + rs.referrers[walk[i]].Keys
  {
    assert walk[..i + 1] == walk[..i] + [walk[i]];
  }

  lemma {:induction false} NotYet(rs: RepoState, walk: seq<Digest>, d: Digest)
    requires d !in ReferrersOf(rs, walk)
    ensures MergedBy(rs, walk, d, Named(d)) == Named(d)
  {
    if walk != [] {
      var n := |walk| - 1;
      assert walk == walk[..n] + [walk[n]];
      NotYet(rs, walk[..n], d);
    }
  }

  lemma AllReferrers(rs: RepoState, walk: seq<Digest>)
    requires Lists(walk, rs.referrers.Keys)
    ensures ReferrersOf(rs, walk) == Referrers(rs)
  {
    forall s ensures s in walk <==> s in rs.referrers { assert s in Elements(walk) <==> s in rs.referrers.Keys; }
  }

  method AddRecords(rs: RepoState, base: map<Digest, Object>, s: Digest, digests: seq<Digest>)
    returns (base': map<Digest, Object>)
    requires s in rs.referrers && Lists(digests, rs.referrers[s].Keys)
    ensures base'.Keys == base.Keys + rs.referrers[s].Keys
    ensures forall d | d in base' ::
              var o := if d in base then base[d] else Named(d);
              base'[d] == if d in rs.referrers[s] then WithReferrer(o, s, rs.referrers[s][d]) else o
  {
    hide WithReferrer, Lists;
    base' := base;
    ghost var done: set<Digest> := {};
    assert Elements(digests[..0]) == {} by { ElementsEmpty<Digest>(); }
    for i := 0 to |digests|
      invariant done == Elements(digests[..i]) && done <= rs.referrers[s].Keys && base'.Keys == base.Keys + done
      invariant forall d | d in base' ::
        var o := if d in base then base[d] else Named(d);
        base'[d] == if d in done then WithReferrer(o, s, rs.referrers[s][d]) else o
    {
      var d := digests[i];
      ListsFresh(digests, rs.referrers[s].Keys, i);
      var o := if d in base' then base'[d] else Named(d);
      base' := base'[d := WithReferrer(o, s, rs.referrers[s][d])];
      done := done + {d};
    }
    ListsAll(digests, rs.referrers[s].Keys);
  }

  // One descriptor per tag, in tag order.
  method EmitTagged(rs: RepoState, via: Via, entries: seq<Json>, base: map<Digest, Object>, tags: seq<Tag>)
    returns (manifests: seq<Json>, tagged: set<Digest>)
    requires Lists(tags, rs.tags.Keys)
    requires base.Keys == Described(rs) && forall d | d in base :: base[d] == Base(rs, via, entries, d)
    ensures manifests == TaggedEntries(rs, via, entries, tags)
    ensures tagged == TaggedDigests(rs) * Described(rs)
  {
    hide Base, WithTag, Described;
    manifests, tagged := [], {};
    for i := 0 to |tags|
      invariant manifests == TaggedEntries(rs, via, entries, tags[..i])
      invariant tagged == (set t | t in tags[..i] :: rs.tags[t].digest) * Described(rs)
    {
      var t := tags[i];
      assert t in Elements(tags);
      assert tags[..i + 1] == tags[..i] + [t];
      TaggedAppend(rs, via, entries, tags[..i], [t]);
      assert [t][1..] == [];
      var d := rs.tags[t].digest;
      if d in base {
        manifests, tagged := manifests + [Obj(WithTag(base[d], t))], tagged + {d};
      }
    }
    assert tags[..|tags|] == tags;
    assert TaggedDigests(rs) == (set t | t in tags :: rs.tags[t].digest) by {
      forall t ensures t in rs.tags <==> t in tags { assert t in rs.tags.Keys <==> t in Elements(tags); }
    }
  }

  // Then the untagged ones. The file sorts them; any order serves.
  method EmitPlain(rs: RepoState, via: Via, entries: seq<Json>, base: map<Digest, Object>, untagged: set<Digest>)
    returns (manifests: seq<Json>, plain: seq<Digest>)
    requires untagged <= base.Keys && forall d | d in base :: base[d] == Base(rs, via, entries, d)
    ensures Lists(plain, untagged) && manifests == PlainEntries(rs, via, entries, plain)
  {
    hide Base, Lists, PlainEntries;
    manifests, plain := [], [];
    NoPlain(rs, via, entries);
    var rest := untagged;
    ghost var done: set<Digest> := {};
    ListsNothing<Digest>();
    while rest != {}
      invariant done + rest == untagged && done !! rest && Lists(plain, done)
      invariant manifests == PlainEntries(rs, via, entries, plain)
    {
      var d :| d in rest;
      PlainSnoc(rs, via, entries, plain, d);
      ListsSnoc(plain, done, d);
      manifests, plain, rest, done := manifests + [Obj(base[d])], plain + [d], rest - {d}, done + {d};
    }
    assert done == untagged;
  }

  lemma PlainSnoc(rs: RepoState, via: Via, entries: seq<Json>, ds: seq<Digest>, d: Digest)
    ensures PlainEntries(rs, via, entries, ds + [d]) ==
            PlainEntries(rs, via, entries, ds) + [Obj(Base(rs, via, entries, d))]
  {
    hide Base;
    PlainAppend(rs, via, entries, ds, [d]);
    assert [d][1..] == [];
  }

  lemma NoPlain(rs: RepoState, via: Via, entries: seq<Json>)
    ensures PlainEntries(rs, via, entries, []) == []
  {
  }

  lemma ListsNothing<T>()
    ensures Lists<T>([], {})
  {
    ElementsEmpty<T>();
  }

  lemma ListsSnoc<T>(l: seq<T>, s: set<T>, x: T)
    requires Lists(l, s) && x !in s
    ensures Lists(l + [x], s + {x})
  {
    ElementsSnoc(l, x);
  }

  // The whole rebuild. `known`, `walk` with `inner`, and `tags` are the orders in which the
  // metadata lists manifests, subjects with their referrers, and tags.
  method IndexFromMeta(rs: RepoState, size: Digest -> Option<nat>, existing: Option<Json>, known: seq<Digest>,
                       walk: seq<Digest>, inner: map<Digest, seq<Digest>>, tags: seq<Tag>)
    returns (index: Json, plain: seq<Digest>)
    requires Lists(walk, rs.referrers.Keys) && inner.Keys == rs.referrers.Keys
    requires forall s | s in inner :: Lists(inner[s], rs.referrers[s].Keys)
    requires Lists(known, rs.mediaTypes.Keys) && Lists(tags, rs.tags.Keys)
    ensures InOrder(rs, tags, plain) && index == Rebuilt(rs, Via(size, walk), existing, tags, plain)
    ensures Descriptors.IndexHolds(rs, size, walk, existing, index)
  {
    hide Lists;
    var via := Via(size, walk);
    var entries := ExistingEntries(existing);
    var base, foreign := ReadExisting(rs, entries);
    base := AddFacts(rs, via, entries, base, known);
    base := AddReferrers(rs, base, walk, inner);
    forall d | d in base ensures base[d] == Base(rs, via, entries, d) {
      hide Seeded, WithFacts, MergedBy;
    }
    hide Base;
    var manifests, tagged := EmitTagged(rs, via, entries, base, tags);
    var rest;
    rest, plain := EmitPlain(rs, via, entries, base, base.Keys - tagged);
    assert base.Keys - tagged == Described(rs) - TaggedDigests(rs);
    index := Obj(Top(existing)[FSchemaVersion := Number(2)][FMediaType := Text(MEDIA_TYPE_INDEX)]
                 [FManifests := Array(manifests + rest + foreign)]);
    hide Descriptors.IndexHolds;
    Descriptors.RebuiltIndexHolds(rs, via, existing, tags, plain);
  }

  // ---- reading tags back ----

  // The first entry listed under tag `t`.
  function Resolve(entries: seq<Json>, t: Tag): Option<Json> {
    if entries == [] then None
    else if EntryTag(entries[0]) == Some(t) then Some(entries[0])
    else Resolve(entries[1..], t)
  }

  predicate OddAnnotations(o: Object) {
    FAnnotations in o && !o[FAnnotations].Obj?
  }

  // The file's first entry for `d` carries annotations that are not an object.
  predicate Unlistable(entries: seq<Json>, d: Digest) {
    Find(entries, d).Some? && OddAnnotations(Find(entries, d).value)
  }

  lemma ReferrerAnnotations(o: Object, s: Digest, r: Descriptor)
    ensures OddAnnotations(WithReferrer(o, s, r)) <==> OddAnnotations(o)
  {
  }

  lemma {:induction false} MergedAnnotations(rs: RepoState, walk: seq<Digest>, d: Digest, o: Object)
    ensures OddAnnotations(MergedBy(rs, walk, d, o)) <==> OddAnnotations(o)
  {
    hide WithReferrer, OddAnnotations;
    if walk != [] {
      var n := |walk| - 1;
      MergedAnnotations(rs, walk[..n], d, o);
      var s := walk[n];
      if s in rs.referrers && d in rs.referrers[s] {
        ReferrerAnnotations(MergedBy(rs, walk[..n], d, o), s, rs.referrers[s][d]);
      }
    }
  }

  lemma CompletedAnnotations(rs: RepoState, via: Via, d: Digest, o: Object)
    ensures OddAnnotations(Completed(rs, via, d, o)) <==> OddAnnotations(o)
  {
    MergedAnnotations(rs, via.walk, d, if d in rs.mediaTypes then WithFacts(rs, via, d, o) else o);
  }

  lemma BaseListable(rs: RepoState, via: Via, entries: seq<Json>, d: Digest)
    requires d in rs.mediaTypes
    ensures OddAnnotations(Base(rs, via, entries, d)) <==> Unlistable(entries, d)
  {
    hide Completed;
    CompletedAnnotations(rs, via, d, Seeded(entries, d));
    if Find(entries, d).Some? { StripTidies(Find(entries, d).value); }
  }

  lemma TagOf(o: Object, t: Tag)
    requires Untagged(o)
    ensures EntryTag(Obj(WithTag(o, t))) == if OddAnnotations(o) then None else Some(t)
    ensures EntryTag(Obj(o)) == None
    ensures FDigest in o ==> EntryDigest(Obj(WithTag(o, t))) == EntryDigest(Obj(o))
    ensures Get(Obj(WithTag(o, t)), FMediaType) == Get(Obj(o), FMediaType)
  {
  }

  lemma {:induction false} ResolveAppend(a: seq<Json>, b: seq<Json>, t: Tag)
    ensures Resolve(a + b, t) == if Resolve(a, t).Some? then Resolve(a, t) else Resolve(b, t)
  {
    hide EntryTag;
    if a == [] {
      assert a + b == b;
    } else {
      assert (a + b)[1..] == a[1..] + b;
      ResolveAppend(a[1..], b, t);
    }
  }

  lemma {:induction false} ResolveTagged(rs: RepoState, via: Via, entries: seq<Json>, tags: seq<Tag>, t: Tag)
    requires TagsKnown(rs) && forall x | x in tags :: x in rs.tags
    ensures Resolve(TaggedEntries(rs, via, entries, tags), t) ==
            if t in tags && !Unlistable(entries, rs.tags[t].digest)
            then Some(Obj(WithTag(Base(rs, via, entries, rs.tags[t].digest), t))) else None
  {
    hide Base, Described, EntryTag, Unlistable, WithTag;
    if tags != [] {
      var d := rs.tags[tags[0]].digest;
      KnownDescribed(rs, d);
      BaseShape(rs, via, entries, d);
      BaseListable(rs, via, entries, d);
      TagOf(Base(rs, via, entries, d), tags[0]);
      ResolveTagged(rs, via, entries, tags[1..], t);
      var first, rest := Obj(WithTag(Base(rs, via, entries, d), tags[0])), TaggedEntries(rs, via, entries, tags[1..]);
      assert ([first] + rest)[1..] == rest;
    }
  }

  lemma {:induction false} ResolvePlain(rs: RepoState, via: Via, entries: seq<Json>, ds: seq<Digest>, t: Tag)
    ensures Resolve(PlainEntries(rs, via, entries, ds), t) == None
  {
    hide Base, EntryTag;
    if ds != [] {
      BaseShape(rs, via, entries, ds[0]);
      TagOf(Base(rs, via, entries, ds[0]), t);
      ResolvePlain(rs, via, entries, ds[1..], t);
      var first, rest := Obj(Base(rs, via, entries, ds[0])), PlainEntries(rs, via, entries, ds[1..]);
      assert ([first] + rest)[1..] == rest;
    }
  }

  lemma {:induction false} ResolveForeign(rs: RepoState, entries: seq<Json>, t: Tag)
    ensures Resolve(Foreign(rs, entries), t) == None
  {
    if entries != [] {
      ResolveForeign(rs, entries[1..], t);
      var rest := Foreign(rs, entries[1..]);
      if IsForeign(rs, entries[0]) {
        assert EntryTag(entries[0]).None?;
        assert ([entries[0]] + rest)[1..] == rest;
      } else {
        assert Foreign(rs, entries) == rest;
      }
    }
  }

  lemma ItemsResolve(rs: RepoState, via: Via, entries: seq<Json>, tags: seq<Tag>, plain: seq<Digest>, t: Tag)
    requires TagsKnown(rs) && InOrder(rs, tags, plain)
    ensures Resolve(Items(rs, via, entries, tags, plain), t) ==
            if t in rs.tags && !Unlistable(entries, rs.tags[t].digest)
            then Some(Obj(WithTag(Base(rs, via, entries, rs.tags[t].digest), t))) else None
  {
    hide Base, TaggedEntries, PlainEntries, Foreign, EntryTag, Unlistable, Described, WithTag;
    forall x ensures x in tags <==> x in rs.tags { assert x in Elements(tags) <==> x in rs.tags.Keys; }
    var a, b, c := TaggedEntries(rs, via, entries, tags), PlainEntries(rs, via, entries, plain), Foreign(rs, entries);
    ResolveTagged(rs, via, entries, tags, t);
    ResolvePlain(rs, via, entries, plain, t);
    ResolveForeign(rs, entries, t);
    ResolveAppend(a, b, t);
    ResolveAppend(a + b, c, t);
  }

  // The slow path: a rebuilt file resolves exactly the metadata's tags, to the
  // metadata's digest and media type, for every file it was rebuilt over. A tag the
  // metadata no longer has never comes back. The one exception are digests the old
  // file lists with annotations that are not an object: their tags are not listed.
  lemma FileResolvesTags(rs: RepoState, via: Via, existing: Option<Json>, tags: seq<Tag>, plain: seq<Digest>, t: Tag)
    requires TagsKnown(rs) && InOrder(rs, tags, plain)
    ensures var found := Resolve(Entries(Rebuilt(rs, via, existing, tags, plain)), t);
            && (found.Some? <==> t in rs.tags && !Unlistable(ExistingEntries(existing), rs.tags[t].digest))
            && (found.Some? ==> EntryDigest(found.value) == Some(rs.tags[t].digest)
                                && Get(found.value, FMediaType) == Some(Text(rs.mediaTypes[rs.tags[t].digest])))
  {
    hide Base, Items, Rebuilt, Unlistable, WithTag, InOrder;
    var entries := ExistingEntries(existing);
    RebuiltEntries(rs, via, existing, tags, plain);
    ItemsResolve(rs, via, entries, tags, plain, t);
    if t in rs.tags {
      var d := rs.tags[t].digest;
      BaseShape(rs, via, entries, d);
      BaseMediaType(rs, via, entries, d);
      TagOf(Base(rs, via, entries, d), t);
    }
  }

  lemma BaseMediaType(rs: RepoState, via: Via, entries: seq<Json>, d: Digest)
    requires d in rs.mediaTypes
    ensures Get(Obj(Base(rs, via, entries, d)), FMediaType) == Some(Text(rs.mediaTypes[d]))
  {
    hide MergedBy, Seeded;
    MergedShape(rs, via.walk, d, WithFacts(rs, via, d, Seeded(entries, d)));
  }

  // A tag's answer from the metadata, and from a file: digest and media type.
  function FastResolve(rs: RepoState, t: Tag): Option<(Digest, MediaType)> {
    if t in rs.tags then Some((rs.tags[t].digest, rs.tags[t].mediaType)) else None
  }

  function SlowResolve(entries: seq<Json>, t: Tag): Option<(Digest, MediaType)> {
    var e := Resolve(entries, t);
    if e.None? || EntryDigest(e.value).None? then None
    else
      var mt := AsText(Get(e.value, FMediaType));
      Some((EntryDigest(e.value).value, if mt.Some? then mt.value else MEDIA_TYPE_MANIFEST))
  }

  lemma SlowAnswer(rs: RepoState, via: Via, existing: Option<Json>, tags: seq<Tag>, plain: seq<Digest>, t: Tag)
    requires TagsKnown(rs) && InOrder(rs, tags, plain)
    ensures SlowResolve(Entries(Rebuilt(rs, via, existing, tags, plain)), t) ==
            if t in rs.tags && !Unlistable(ExistingEntries(existing), rs.tags[t].digest)
            then Some((rs.tags[t].digest, rs.mediaTypes[rs.tags[t].digest])) else None
  {
    hide Rebuilt, Unlistable, InOrder, Resolve, EntryDigest;
    FileResolvesTags(rs, via, existing, tags, plain, t);
  }

  /** File and metadata give the same answer for every tag exactly when no tagged digest is
      so listed and every tag was recorded with its digest's media type; and they agree on
      which tags there are and what digests they have exactly under the first half. */
  lemma SlowPathAgrees(rs: RepoState, via: Via, existing: Option<Json>, tags: seq<Tag>, plain: seq<Digest>)
    requires TagsKnown(rs) && InOrder(rs, tags, plain)
    ensures (forall t :: SlowResolve(Entries(Rebuilt(rs, via, existing, tags, plain)), t) == FastResolve(rs, t)) <==>
            (forall t | t in rs.tags ::
               !Unlistable(ExistingEntries(existing), rs.tags[t].digest) &&
                 rs.tags[t].mediaType == rs.mediaTypes[rs.tags[t].digest])
    ensures (forall t :: Resolve(Entries(Rebuilt(rs, via, existing, tags, plain)), t).Some? <==> t in rs.tags) <==>
            (forall t | t in rs.tags :: !Unlistable(ExistingEntries(existing), rs.tags[t].digest))
  {
    hide Rebuilt, Unlistable, InOrder, SlowResolve, Resolve;
    var index := Entries(Rebuilt(rs, via, existing, tags, plain));
    forall t
      ensures Resolve(index, t).Some? <==> t in rs.tags && !Unlistable(ExistingEntries(existing), rs.tags[t].digest)
      ensures SlowResolve(index, t) == FastResolve(rs, t) <==>
              (t in rs.tags ==> !Unlistable(ExistingEntries(existing), rs.tags[t].digest)
                                && rs.tags[t].mediaType == rs.mediaTypes[rs.tags[t].digest])
    {
      FileResolvesTags(rs, via, existing, tags, plain, t);
      SlowAnswer(rs, via, existing, tags, plain, t);
    }
  }

  // ---- files with the same descriptors in another order ----

  lemma {:induction false} TaggedOnce(rs: RepoState, via: Via, entries: seq<Json>, tags: seq<Tag>, e: Json, t: Tag)
    requires TagsKnown(rs) && (forall x | x in tags :: x in rs.tags)
    requires e in TaggedEntries(rs, via, entries, tags) && EntryTag(e) == Some(t)
    ensures t in tags && e == Obj(WithTag(Base(rs, via, entries, rs.tags[t].digest), t))
  {
    hide Base, Described, WithTag;
    var d := rs.tags[tags[0]].digest;
    KnownDescribed(rs, d);
    BaseShape(rs, via, entries, d);
    TagOf(Base(rs, via, entries, d), tags[0]);
    if e in TaggedEntries(rs, via, entries, tags[1..]) { TaggedOnce(rs, via, entries, tags[1..], e, t); }
  }

  lemma {:induction false} PlainUntagged(rs: RepoState, via: Via, entries: seq<Json>, ds: seq<Digest>, e: Json)
    requires e in PlainEntries(rs, via, entries, ds)
    ensures EntryTag(e) == None
  {
    hide Base, EntryTag;
    BaseShape(rs, via, entries, ds[0]);
    TagOf(Base(rs, via, entries, ds[0]), "");
    if e in PlainEntries(rs, via, entries, ds[1..]) { PlainUntagged(rs, via, entries, ds[1..], e); }
  }

  // A rebuilt file lists each tag at most once, with its digest.
  lemma ItemTagged(rs: RepoState, via: Via, entries: seq<Json>, tags: seq<Tag>, plain: seq<Digest>, e: Json, t: Tag)
    requires TagsKnown(rs) && InOrder(rs, tags, plain) && e in Items(rs, via, entries, tags, plain) &&
             EntryTag(e) == Some(t)
    ensures t in rs.tags && EntryDigest(e) == Some(rs.tags[t].digest)
  {
    hide Base, TaggedEntries, PlainEntries, Foreign, EntryTag, WithTag, TagsKnown, InOrder;
    TagsListed(rs, tags, plain);
    ForeignKeeps(rs, entries, e);
    if e in TaggedEntries(rs, via, entries, tags) {
      TaggedOnce(rs, via, entries, tags, e, t);
      BaseShape(rs, via, entries, rs.tags[t].digest);
      TagOf(Base(rs, via, entries, rs.tags[t].digest), t);
    } else if e in PlainEntries(rs, via, entries, plain) {
      PlainUntagged(rs, via, entries, plain, e);
    } else {
      ForeignUntagged(rs, e);
    }
  }

  lemma ForeignUntagged(rs: RepoState, e: Json)
    requires IsForeign(rs, e)
    ensures EntryTag(e) == None
  {
  }

  lemma {:induction false} ResolveIn(entries: seq<Json>, t: Tag)
    requires Resolve(entries, t).Some?
    ensures Resolve(entries, t).value in entries && EntryTag(Resolve(entries, t).value) == Some(t)
  {
    if EntryTag(entries[0]) != Some(t) { ResolveIn(entries[1..], t); }
  }

  // Every entry of a known digest in a rebuilt file has odd annotations, or none has.
  lemma {:induction false} TaggedOdd(rs: RepoState, via: Via, entries: seq<Json>, tags: seq<Tag>, e: Json, d: Digest)
    requires (forall x | x in tags :: x in rs.tags) && e in TaggedEntries(rs, via, entries, tags) &&
             EntryDigest(e) == Some(d)
    ensures e.Obj? && (OddAnnotations(e.fields) <==> OddAnnotations(Base(rs, via, entries, d)))
  {
    hide Base, Described;
    BaseShape(rs, via, entries, rs.tags[tags[0]].digest);
    if e in TaggedEntries(rs, via, entries, tags[1..]) { TaggedOdd(rs, via, entries, tags[1..], e, d); }
  }

  lemma {:induction false} PlainOdd(rs: RepoState, via: Via, entries: seq<Json>, ds: seq<Digest>, e: Json, d: Digest)
    requires e in PlainEntries(rs, via, entries, ds) && EntryDigest(e) == Some(d)
    ensures e.Obj? && (OddAnnotations(e.fields) <==> OddAnnotations(Base(rs, via, entries, d)))
  {
    hide Base;
    BaseShape(rs, via, entries, ds[0]);
    if e in PlainEntries(rs, via, entries, ds[1..]) { PlainOdd(rs, via, entries, ds[1..], e, d); }
  }

  lemma ItemOdd(rs: RepoState, via: Via, entries: seq<Json>, tags: seq<Tag>, plain: seq<Digest>, e: Json, d: Digest)
    requires InOrder(rs, tags, plain) && d in rs.mediaTypes && e.Obj?
    requires e in Items(rs, via, entries, tags, plain) && EntryDigest(e) == Some(d)
    ensures OddAnnotations(e.fields) <==> Unlistable(entries, d)
  {
    hide Base, TaggedEntries, PlainEntries, Foreign, InOrder, OddAnnotations, Unlistable;
    TagsListed(rs, tags, plain);
    ForeignKeeps(rs, entries, e);
    BaseListable(rs, via, entries, d);
    if e in TaggedEntries(rs, via, entries, tags) {
      TaggedOdd(rs, via, entries, tags, e, d);
    } else if e in PlainEntries(rs, via, entries, plain) {
      PlainOdd(rs, via, entries, plain, e, d);
    }
  }

  /** A file with the descriptors of a rebuilt one, in whatever order, resolves exactly the
      metadata's tags, save those of digests it lists with odd annotations itself. */
  lemma SameSetResolves(rs: RepoState, via: Via, existing: Option<Json>, tags: seq<Tag>, plain: seq<Digest>,
                        index: Json, t: Tag)
    requires TagsKnown(rs) && InOrder(rs, tags, plain) &&
             SameManifestSet(Rebuilt(rs, via, existing, tags, plain), index)
    ensures var found := Resolve(Entries(index), t);
            && (found.Some? <==> t in rs.tags && !Unlistable(Entries(index), rs.tags[t].digest))
            && (found.Some? ==> EntryDigest(found.value) == Some(rs.tags[t].digest))
  {
    hide Rebuilt, InOrder, Items, EntryTag, EntryDigest, OddAnnotations, Resolve, Find;
    var entries, rebuilt := ExistingEntries(existing), Rebuilt(rs, via, existing, tags, plain);
    RebuiltEntries(rs, via, existing, tags, plain);
    FileResolvesTags(rs, via, existing, tags, plain, t);
    forall e ensures e in Entries(index) <==> e in Entries(rebuilt) {
      assert e in multiset(Entries(index)) <==> e in multiset(Entries(rebuilt));
    }
    var found := Resolve(Entries(index), t);
    if found.Some? {
      ResolveIn(Entries(index), t);
      ItemTagged(rs, via, entries, tags, plain, found.value, t);
      ListedResolves(Entries(rebuilt), found.value);
    } else if Resolve(Entries(rebuilt), t).Some? {
      ResolveIn(Entries(rebuilt), t);
      ListedResolves(Entries(index), Resolve(Entries(rebuilt), t).value);
    }
    if t in rs.tags { SameSetUnlistable(rs, via, existing, tags, plain, index, rs.tags[t].digest); }
  }

  lemma SameSetUnlistable(rs: RepoState, via: Via, existing: Option<Json>, tags: seq<Tag>, plain: seq<Digest>,
                          index: Json, d: Digest)
    requires TagsKnown(rs) && InOrder(rs, tags, plain) &&
             SameManifestSet(Rebuilt(rs, via, existing, tags, plain), index)
    requires d in rs.mediaTypes
    ensures Unlistable(Entries(index), d) <==> Unlistable(ExistingEntries(existing), d)
  {
    hide Rebuilt, InOrder, Items, EntryTag, OddAnnotations, TagsKnown, Base, Strip;
    var entries, items := ExistingEntries(existing), Items(rs, via, ExistingEntries(existing), tags, plain);
    RebuiltEntries(rs, via, existing, tags, plain);
    forall e ensures e in Entries(index) <==> e in items {
      assert e in multiset(Entries(index)) <==> e in multiset(items);
    }
    KnownDescribed(rs, d);
    FindItems(rs, via, entries, tags, plain, d);
    FindIn(items, d);
    FindDigest(items, d);
    FoundIn(Entries(index), Obj(Find(items, d).value), d);
    FindIn(Entries(index), d);
    FindDigest(Entries(index), d);
    ItemOdd(rs, via, entries, tags, plain, Obj(Find(Entries(index), d).value), d);
  }

  lemma {:induction false} FoundIn(entries: seq<Json>, e: Json, d: Digest)
    requires e in entries && e.Obj? && EntryDigest(e) == Some(d)
    ensures Find(entries, d).Some?
  {
    if entries[0] != e { FoundIn(entries[1..], e, d); }
  }

  // What another tool wrote survives: its entries in their order, and every field of
  // the file that the registry does not own.
  lemma ForeignSurvives(rs: RepoState, via: Via, existing: Json, tags: seq<Tag>, plain: seq<Digest>, e: Json)
    requires InOrder(rs, tags, plain) && existing.Obj?
    ensures e in Entries(existing) && IsForeign(rs, e) ==> e in Entries(Rebuilt(rs, via, Some(existing), tags, plain))
    ensures forall f | f !in {FSchemaVersion, FMediaType, FManifests} ::
              Get(Rebuilt(rs, via, Some(existing), tags, plain), f) == Get(existing, f)
  {
    hide TaggedEntries, PlainEntries;
    RebuiltEntries(rs, via, Some(existing), tags, plain);
    ForeignKeeps(rs, Entries(existing), e);
  }

  // ---- startup reconciliation ----

  // Adopt a tagged entry of a foreign file, unless the tag is taken already.
  function Adopt(rs: RepoState, e: Json): RepoState {
    var tag, digest := EntryTag(e), EntryDigest(e);
    if tag.None? || digest.None? || !Digests.Parses(digest.value) || tag.value in rs.tags then rs
    else
      var mt := AsText(Get(e, FMediaType));
      ApplyRepo(rs, PutManifest("", digest.value, if mt.Some? then mt.value else MEDIA_TYPE_MANIFEST, tag, [], None))
  }

  function AdoptAll(rs: RepoState, entries: seq<Json>): RepoState
    decreases |entries|
  {
    if entries == [] then rs else AdoptAll(Adopt(rs, entries[0]), entries[1..])
  }

  // An entry with a well-formed digest listed under `t`; without a media type of its own it
  // counts as an image manifest.
  predicate Offers(e: Json, t: Tag, x: Tagged) {
    && e.Obj? && FAnnotations in e.fields && e.fields[FAnnotations].Obj?
    && FRefName in e.fields[FAnnotations].fields && e.fields[FAnnotations].fields[FRefName] == Text(t)
    && FDigest in e.fields && e.fields[FDigest] == Text(x.digest) && Digests.Parses(x.digest)
    && x.mediaType == if FMediaType in e.fields && e.fields[FMediaType].Text? then e.fields[FMediaType].text
                      else MEDIA_TYPE_MANIFEST
  }

  ghost predicate FirstOffer(entries: seq<Json>, t: Tag, x: Option<Tagged>) {
    if x.None? then forall i, y | 0 <= i < |entries| :: !Offers(entries[i], t, y)
    else
      exists i | 0 <= i < |entries| ::
        Offers(entries[i], t, x.value) && forall j, y | 0 <= j < i :: !Offers(entries[j], t, y)
  }

  function TagIn(rs: RepoState, t: Tag): Option<Tagged> {
    if t in rs.tags then Some(rs.tags[t]) else None
  }

  // A tag the metadata has stays as it is; any other goes to the first entry that offers it.
  ghost predicate Imported(rs: RepoState, entries: seq<Json>, rs': RepoState, t: Tag) {
    if t in rs.tags then t in rs'.tags && rs'.tags[t] == rs.tags[t] else FirstOffer(entries, t, TagIn(rs', t))
  }

  lemma AdoptTakesOffer(rs: RepoState, e: Json, t: Tag)
    ensures t in rs.tags ==> TagIn(Adopt(rs, e), t) == TagIn(rs, t)
    ensures forall x | t !in rs.tags && Offers(e, t, x) :: TagIn(Adopt(rs, e), t) == Some(x)
    ensures t !in rs.tags && t in Adopt(rs, e).tags ==> Offers(e, t, Adopt(rs, e).tags[t])
  {
    hide Digests.Parses;
  }

  lemma {:induction false} ImportIsExact(rs: RepoState, entries: seq<Json>, t: Tag)
    ensures Imported(rs, entries, AdoptAll(rs, entries), t)
    decreases |entries|
  {
    hide Adopt, Offers;
    if entries != [] {
      var e, rest := entries[0], entries[1..];
      AdoptTakesOffer(rs, e, t);
      ImportIsExact(Adopt(rs, e), rest, t);
      assert forall i | 0 < i < |entries| :: entries[i] == rest[i - 1];
      if t !in rs.tags && t !in Adopt(rs, e).tags { OffersLater(e, rest, t, TagIn(AdoptAll(rs, entries), t)); }
    }
  }

  lemma OffersLater(e: Json, rest: seq<Json>, t: Tag, x: Option<Tagged>)
    requires (forall y :: !Offers(e, t, y)) && FirstOffer(rest, t, x)
    ensures FirstOffer([e] + rest, t, x)
  {
    hide Offers;
    if x.Some? {
      var i :| 0 <= i < |rest| && Offers(rest[i], t, x.value) && forall j, y | 0 <= j < i :: !Offers(rest[j], t, y);
      assert ([e] + rest)[i + 1] == rest[i];
    }
  }

  method ImportForeignTags(rs: RepoState, existing: Json) returns (rs': RepoState)
    ensures rs' == AdoptAll(rs, Entries(existing))
    ensures forall t :: Imported(rs, Entries(existing), rs', t)
  {
    hide Adopt, Imported;
    forall t ensures Imported(rs, Entries(existing), AdoptAll(rs, Entries(existing)), t) {
      ImportIsExact(rs, Entries(existing), t);
    }
    var entries := Entries(existing);
    rs' := rs;
    for i := 0 to |entries|
      invariant AdoptAll(rs', entries[i..]) == AdoptAll(rs, entries)
    {
      assert entries[i..][1..] == entries[i + 1..];
      rs' := Adopt(rs', entries[i]);
    }
  }

  // Existing tags win: importing never moves or drops a tag, and referrers stay.
  lemma {:induction false} ImportKeeps(rs: RepoState, entries: seq<Json>)
    requires TagsKnown(rs)
    ensures var rs' := AdoptAll(rs, entries);
            && TagsKnown(rs') && rs'.referrers == rs.referrers
            && (forall t | t in rs.tags :: t in rs'.tags && rs'.tags[t] == rs.tags[t])
    decreases |entries|
  {
    if entries != [] { ImportKeeps(Adopt(rs, entries[0]), entries[1..]); }
  }

  // Every well-formed tagged entry ends up with its tag in the metadata.
  lemma {:induction false} ImportTakes(rs: RepoState, entries: seq<Json>, i: nat)
    requires TagsKnown(rs) && i < |entries|
    requires EntryTag(entries[i]).Some? && EntryDigest(entries[i]).Some? &&
             Digests.Parses(EntryDigest(entries[i]).value)
    ensures EntryTag(entries[i]).value in AdoptAll(rs, entries).tags
    decreases |entries|
  {
    hide Digests.Parses;
    var rs1 := Adopt(rs, entries[0]);
    if i == 0 {
      assert EntryTag(entries[0]).value in rs1.tags;
      ImportKeeps(rs1, entries[1..]);
    } else {
      ImportTakes(rs1, entries[1..], i - 1);
    }
  }

  lemma {:induction false} ImportNothing(rs: RepoState, entries: seq<Json>)
    requires forall e | e in entries && EntryTag(e).Some? :: EntryTag(e).value in rs.tags
    ensures AdoptAll(rs, entries) == rs
  {
    if entries != [] {
      assert Adopt(rs, entries[0]) == rs;
      ImportNothing(rs, entries[1..]);
    }
  }

  lemma {:induction false} ListedResolves(entries: seq<Json>, e: Json)
    requires e in entries && EntryTag(e).Some?
    ensures Resolve(entries, EntryTag(e).value).Some?
  {
    if entries[0] != e { ListedResolves(entries[1..], e); }
  }

  // Reconciling a file, writing it, and reconciling again: the second pass imports
  // nothing, and finds the file up to date, whatever the walks, exactly when the
  // referrer records are settling.
  lemma ReconcileReachesFixpoint(rs: RepoState, via: Via, disk: Json, tags: seq<Tag>, plain: seq<Digest>,
                                 tags': seq<Tag>, plain': seq<Digest>)
    requires TagsKnown(rs)
    requires var rs' := AdoptAll(rs, Entries(disk)); InOrder(rs', tags, plain) && InOrder(rs', tags', plain')
    ensures var rs' := AdoptAll(rs, Entries(disk));
            && AdoptAll(rs', Entries(Rebuilt(rs', via, Some(disk), tags, plain))) == rs'
            && (Settles(rs', via.size, Some(disk), tags, plain, tags', plain') <==> Settling(rs'))
  {
    hide Rebuilt, InOrder, TagsKnown, AdoptAll, SameManifestSet, EntryTag, Resolve, Unlistable, Unlabelled, Settles,
         Settling;
    ImportKeeps(rs, Entries(disk));
    var rs' := AdoptAll(rs, Entries(disk));
    var written := Rebuilt(rs', via, Some(disk), tags, plain);
    RebuildIsIdempotent(rs', via.size, Some(disk), tags, plain, tags', plain');
    forall e | e in Entries(written) && EntryTag(e).Some? ensures EntryTag(e).value in rs'.tags {
      ListedResolves(Entries(written), e);
      FileResolvesTags(rs', via, Some(disk), tags, plain, EntryTag(e).value);
    }
    ImportNothing(rs', Entries(written));
  }

  // ---- the exceptions ----

  // One referrer recorded under two subjects, as the upgrade from a foreign file records
  // it when a file lists a digest with a subject the metadata does not have yet.
  function TwoSubjects(d: Digest, s: Digest, r: Object, s': Digest, r': Object): RepoState {
    var rs := ApplyRepo(EmptyRepo, PutReferrer("", s, d, Some(r)));
    ApplyRepo(rs, PutReferrer("", s', d, Some(r')))
  }

  lemma TwoSubjectsShape(d: Digest, s: Digest, r: Object, s': Digest, r': Object)
    requires s != s'
    ensures var rs := TwoSubjects(d, s, r, s', r');
            rs.referrers.Keys == {s, s'} && Labels(rs, d) == {s, s'} && d in Referrers(rs) && TagsKnown(rs)
  {
    var rs := TwoSubjects(d, s, r, s', r');
    var first: map<Digest, Descriptor>, second: map<Digest, Descriptor> := map[d := Some(r)], map[d := Some(r')];
    assert rs.referrers == map[s := first, s' := second];
  }

  lemma WalksBoth(rs: RepoState, d: Digest, s: Digest, s': Digest, size: Digest -> Option<nat>)
    requires s != s' && rs.referrers.Keys == {s, s'} && Labels(rs, d) == {s, s'}
    ensures Walks(rs, Via(size, [s, s'])) && LastLabel(rs, [s, s'], d) == Some(s')
  {
    assert Elements([s, s']) == {s, s'};
  }

  /** Its file flips with the walk: rebuilt over the subjects in one order and then in the
      other, it is never found up to date. */
  lemma TwoSubjectsFlip(d: Digest, s: Digest, r: Object, s': Digest, r': Object, size: Digest -> Option<nat>,
                        existing: Option<Json>, plain: seq<Digest>, plain': seq<Digest>)
    requires s != s' && InOrder(TwoSubjects(d, s, r, s', r'), [], plain) &&
             InOrder(TwoSubjects(d, s, r, s', r'), [], plain')
    ensures var rs, via, via' := TwoSubjects(d, s, r, s', r'), Via(size, [s, s']), Via(size, [s', s]);
            var once := Rebuilt(rs, via, existing, [], plain);
            Walks(rs, via) && Walks(rs, via') && !SameManifestSet(once, Rebuilt(rs, via', Some(once), [], plain'))
  {
    hide Rebuilt, SameManifestSet, InOrder, TwoSubjects, Referrers, Labels, Walks;
    var rs := TwoSubjects(d, s, r, s', r');
    TwoSubjectsShape(d, s, r, s', r');
    WalksBoth(rs, d, s, s', size);
    WalksBoth(rs, d, s', s, size);
    FlippedWalkDiffers(rs, Via(size, [s, s']), Via(size, [s', s]), existing, [], plain, [], plain', d);
  }

  // A referrer record that is not a JSON object, of a digest the metadata does not know:
  // no rebuild of any file is ever up to date. The registry's own writers record objects,
  // so this is an input of the rebuild itself, not a state its calls reach.
  lemma UnparsedReferrerNeverSettles(via: Via, via': Via, existing: Option<Json>, d: Digest, s: Digest,
                                     plain: seq<Digest>, plain': seq<Digest>)
    requires via'.size == via.size
    requires var rs := EmptyRepo.(referrers := map[s := map[d := None]]);
             Walks(rs, via) && Walks(rs, via') && InOrder(rs, [], plain) && InOrder(rs, [], plain')
    ensures var rs := EmptyRepo.(referrers := map[s := map[d := None]]);
            var once := Rebuilt(rs, via, existing, [], plain);
            !SameManifestSet(once, Rebuilt(rs, via', Some(once), [], plain'))
  {
    hide Rebuilt, SameManifestSet, InOrder, Walks;
    var rs := EmptyRepo.(referrers := map[s := map[d := None]]);
    assert rs.referrers[s][d] == None;
    assert d in Referrers(rs);
    assert Unlabelled(rs, d);
    SettlesIf(rs, via, via', existing, [], plain, [], plain');
  }

  function OneTag(t: Tag, d: Digest): RepoState {
    EmptyRepo.(tags := map[t := Tagged(d, "")], mediaTypes := map[d := ""])
  }

  // A file whose only entry has a string for annotations.
  function OddFile(d: Digest): Json {
    Obj(map[FManifests := Array([Obj(map[FDigest := Text(d), FAnnotations := Text("")])])])
  }

  lemma OddIsUnlistable(d: Digest)
    ensures Unlistable(ExistingEntries(Some(OddFile(d))), d)
  {
    var e := Obj(map[FDigest := Text(d), FAnnotations := Text("")]);
    assert Entries(OddFile(d)) == [e];
    assert Find([e], d) == Some(e.fields);
  }

  // Its tag is lost on the next rebuild.
  lemma OddAnnotationsLoseTag(via: Via, d: Digest, t: Tag, plain: seq<Digest>)
    requires InOrder(OneTag(t, d), [t], plain)
    ensures Resolve(Entries(Rebuilt(OneTag(t, d), via, Some(OddFile(d)), [t], plain)), t).None?
  {
    hide Rebuilt, InOrder, OddFile, Unlistable, Resolve;
    OddIsUnlistable(d);
    FileResolvesTags(OneTag(t, d), via, Some(OddFile(d)), [t], plain, t);
  }
}
