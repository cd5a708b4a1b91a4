// JSON values as the registry sees them, and what a manifest document refers to.

module Json {
  import opened Core

  // An object key. The names the registry gives a meaning to have their own
  // constructor; every other name is `Other`.
  datatype Field =
    | FDigest | FMediaType | FSize | FAnnotations | FSubject | FManifests
    | FSchemaVersion | FRefName | FConfig | FLayers | FArtifactType
    | Other(name: string)

  type Object = map<Field, Json>

  datatype Json =
    | Null
    | Bool(b: bool)
    | Number(n: int)
    | Text(text: string)
    | Array(items: seq<Json>)
    | Obj(fields: Object)

  // `value.get(field)`: absent unless `value` is an object that has the field.
  function Get(v: Json, f: Field): Option<Json> {
    if v.Obj? && f in v.fields then Some(v.fields[f]) else None
  }

  function AsText(v: Option<Json>): Option<string> {
    if v.Some? && v.value.Text? then Some(v.value.text) else None
  }

  function AsItems(v: Option<Json>): seq<Json> {
    if v.Some? && v.value.Array? then v.value.items else []
  }
}

// Content digests: `sha256:<64 hex>` or `sha512:<128 hex>`. Stored digests are
// canonical, so a digest is modelled by its lower-case spelling.
module Digests {
  import opened Core

  predicate IsHex(c: char) {
    '0' <= c <= '9' || 'a' <= c <= 'f'
  }

  predicate Parses(s: string) {
    || (|s| == 71 && s[..7] == "sha256:" && forall i | 7 <= i < |s| :: IsHex(s[i]))
    || (|s| == 135 && s[..7] == "sha512:" && forall i | 7 <= i < |s| :: IsHex(s[i]))
  }

  /** A digest is an algorithm, a colon and as many lower-case hexadecimal digits as the
      algorithm yields. */
  lemma DigestGrammar(s: string)
    ensures Parses(s) <==>
              exists hex: string ::
                && ((s == "sha256:" + hex && |hex| == 64) || (s == "sha512:" + hex && |hex| == 128))
                && forall i | 0 <= i < |hex| :: hex[i] in "0123456789abcdef"
  {
    forall hex: string { HexDigits(hex); }
    if Parses(s) {
      var hex := s[7..];
      assert s == s[..7] + hex;
      assert forall i | 0 <= i < |hex| :: hex[i] == s[7 + i];
    }
  }

  lemma HexDigits(hex: string)
    ensures forall i | 0 <= i < |hex| :: hex[i] in "0123456789abcdef" <==> IsHex(hex[i])
  {
    forall i | 0 <= i < |hex| ensures hex[i] in "0123456789abcdef" <==> IsHex(hex[i]) {
      var c := hex[i];
      if IsHex(c) {
        var n := if c <= '9' then c as int - '0' as int else c as int - 'a' as int + 10;
        assert "0123456789abcdef"[n] == c;
      }
    }
  }
}

module Manifests {
  import opened Core
  import opened Json
  import Digests

  // The digest named by a descriptor, when the descriptor is an object with a
  // well-formed one.
  function DescriptorDigest(d: Json): Option<Digest> {
    var text := AsText(Get(d, FDigest));
    if text.Some? && Digests.Parses(text.value) then text else None
  }

  function DigestsOf(ds: seq<Json>): seq<Digest> {
    if ds == [] then []
    else
      var rest := DigestsOf(ds[1..]);
      var d := DescriptorDigest(ds[0]);
      if d.Some? then [d.value] + rest else rest
  }

  function OptionalField(doc: Json, f: Field): seq<Json> {
    if Get(doc, f).Some? then [Get(doc, f).value] else []
  }

  // Everything a manifest keeps alive: config, layers, index children, subject.
  function References(doc: Json): seq<Digest> {
    DigestsOf(OptionalField(doc, FConfig)
              + AsItems(Get(doc, FLayers))
              + AsItems(Get(doc, FManifests))
              + OptionalField(doc, FSubject))
  }

  // A descriptor that names `d`.
  predicate Names(v: Json, d: Digest) {
    v.Obj? && FDigest in v.fields && v.fields[FDigest] == Text(d) && Digests.Parses(d)
  }

  ghost predicate WellFormed(v: Json) {
    exists d :: Names(v, d)
  }

  // What must be present before the manifest may be stored: config and layers, in that
  // order. Unlike `References`, a malformed descriptor refuses the whole manifest, and so
  // do layers that are not an array.
  method RequiredBlobs(doc: Json) returns (r: Result<seq<Digest>, ()>)
    ensures r == Required(doc)
    ensures var config := if doc.Obj? && FConfig in doc.fields then [doc.fields[FConfig]] else [];
            var odd := doc.Obj? && FLayers in doc.fields && !doc.fields[FLayers].Array?;
            var layers := if doc.Obj? && FLayers in doc.fields && !odd then doc.fields[FLayers].items else [];
            && (r.Ok? <==> !odd && forall v | v in config + layers :: WellFormed(v))
            && (r.Ok? ==> |r.value| == |config| + |layers|
                          && forall i | 0 <= i < |r.value| :: Names((config + layers)[i], r.value[i]))
  {
    var referenced: seq<Digest> := [];
    var config := Get(doc, FConfig);
    RequiredMeans(doc);
    hide Names, WellFormed;
    if config.Some? {
      var d := DescriptorDigest(config.value);
      if d.None? { return Err(()); }
      referenced := referenced + [d.value];
      assert [config.value][1..] == [];
    }
    assert Strict(OptionalField(doc, FConfig)).Ok? && Strict(OptionalField(doc, FConfig)).value == referenced;
    assert referenced + [] == referenced;
    var layers := Get(doc, FLayers);
    if layers.Some? {
      if !layers.value.Array? { return Err(()); }
      var items := layers.value.items;
      ghost var head := referenced;
      for i := 0 to |items|
        invariant Strict(items).Ok? <==> Strict(items[i..]).Ok?
        invariant Strict(items).Ok? ==> referenced + Strict(items[i..]).value == head + Strict(items).value
      {
        var d := DescriptorDigest(items[i]);
        assert items[i..][1..] == items[i + 1..];
        if d.None? { return Err(()); }
        referenced := referenced + [d.value];
      }
      assert items[|items|..] == [];
      assert referenced == head + Strict(items).value;
    }
    return Ok(referenced);
  }

  lemma DigestNames(v: Json)
    ensures DescriptorDigest(v).Some? ==> Names(v, DescriptorDigest(v).value)
    ensures forall d | Names(v, d) :: DescriptorDigest(v) == Some(d)
    ensures DescriptorDigest(v).Some? <==> WellFormed(v)
  {
    if DescriptorDigest(v).Some? { assert Names(v, DescriptorDigest(v).value); }
  }

  lemma {:induction false} StrictMeans(ds: seq<Json>)
    ensures Strict(ds).Ok? <==> forall v | v in ds :: WellFormed(v)
    ensures Strict(ds).Ok? ==>
              |Strict(ds).value| == |ds| && forall i | 0 <= i < |ds| :: Names(ds[i], Strict(ds).value[i])
  {
    hide DescriptorDigest, Names, WellFormed;
    if ds != [] {
      StrictMeans(ds[1..]);
      DigestNames(ds[0]);
      assert ds == [ds[0]] + ds[1..];
      assert (forall v | v in ds :: WellFormed(v)) <==>
             WellFormed(ds[0]) && forall v | v in ds[1..] :: WellFormed(v);
    }
  }

  lemma RequiredMeans(doc: Json)
    ensures var config := if doc.Obj? && FConfig in doc.fields then [doc.fields[FConfig]] else [];
            var odd := doc.Obj? && FLayers in doc.fields && !doc.fields[FLayers].Array?;
            var layers := if doc.Obj? && FLayers in doc.fields && !odd then doc.fields[FLayers].items else [];
            && (Required(doc).Ok? <==> !odd && forall v | v in config + layers :: WellFormed(v))
            && (Required(doc).Ok? ==>
                  && |Required(doc).value| == |config| + |layers|
                  && forall i | 0 <= i < |Required(doc).value| :: Names((config + layers)[i], Required(doc).value[i]))
  {
    hide Names, Strict, WellFormed;
    var config, layers := OptionalField(doc, FConfig), AsItems(Get(doc, FLayers));
    StrictMeans(config);
    StrictMeans(layers);
  }

  lemma {:induction false} DigestsOfMeans(ds: seq<Json>, d: Digest)
    ensures d in DigestsOf(ds) <==> exists v :: v in ds && Names(v, d)
  {
    hide DescriptorDigest, Names;
    if ds != [] {
      DigestsOfMeans(ds[1..], d);
      DigestNames(ds[0]);
      assert ds == [ds[0]] + ds[1..];
    }
  }

  // The config or a layer of the manifest names `d`.
  ghost predicate Needs(doc: Json, d: Digest) {
    && doc.Obj?
    && (|| (FConfig in doc.fields && Names(doc.fields[FConfig], d))
        || (FLayers in doc.fields && doc.fields[FLayers].Array? &&
            exists v :: v in doc.fields[FLayers].items && Names(v, d)))
  }

  // Or one of its children, or its subject.
  ghost predicate Mentions(doc: Json, d: Digest) {
    || Needs(doc, d)
    || (&& doc.Obj?
        && (|| (FManifests in doc.fields && doc.fields[FManifests].Array? &&
                exists v :: v in doc.fields[FManifests].items && Names(v, d))
            || (FSubject in doc.fields && Names(doc.fields[FSubject], d))))
  }

  /** What an accepted manifest requires is what its config and layers name. */
  lemma RequiredIsNeeded(doc: Json, d: Digest)
    requires Required(doc).Ok?
    ensures d in Required(doc).value <==> Needs(doc, d)
  {
    hide Names, DigestsOf, Strict;
    var c, l := OptionalField(doc, FConfig), AsItems(Get(doc, FLayers));
    StrictIsDigestsOf(c);
    StrictIsDigestsOf(l);
    DigestsOfMeans(c, d);
    DigestsOfMeans(l, d);
  }

  /** A manifest refers to exactly what its config, its layers, its children and its subject
      name, as far as they do. */
  lemma ReferencesAreMentioned(doc: Json, d: Digest)
    ensures d in References(doc) <==> Mentions(doc, d)
  {
    hide Names, DigestsOf;
    var c, l := OptionalField(doc, FConfig), AsItems(Get(doc, FLayers));
    var m, s := AsItems(Get(doc, FManifests)), OptionalField(doc, FSubject);
    DigestsOfMeans(c + l + m + s, d);
    assert forall v :: v in c + l + m + s <==> v in c || v in l || v in m || v in s;
  }

  // All digests of a list of descriptors, or an error if any is malformed.
  function Strict(ds: seq<Json>): Result<seq<Digest>, ()> {
    if ds == [] then Ok([])
    else
      var d := DescriptorDigest(ds[0]);
      var rest := Strict(ds[1..]);
      if d.Some? && rest.Ok? then Ok([d.value] + rest.value) else Err(())
  }

  function Required(doc: Json): Result<seq<Digest>, ()> {
    var layers := Get(doc, FLayers);
    if layers.Some? && !layers.value.Array? then Err(())
    else
      var config := Strict(OptionalField(doc, FConfig));
      var rest := Strict(AsItems(layers));
      if config.Ok? && rest.Ok? then Ok(config.value + rest.value) else Err(())
  }

  lemma {:induction false} DigestsOfAppend(a: seq<Json>, b: seq<Json>)
    ensures DigestsOf(a + b) == DigestsOf(a) + DigestsOf(b)
  {
    if a == [] {
      assert a + b == b;
    } else {
      assert (a + b)[1..] == a[1..] + b;
      DigestsOfAppend(a[1..], b);
    }
  }

  lemma {:induction false} StrictIsDigestsOf(ds: seq<Json>)
    requires Strict(ds).Ok?
    ensures Strict(ds).value == DigestsOf(ds)
  {
    if ds != [] { StrictIsDigestsOf(ds[1..]); }
  }

  // A manifest that is accepted keeps a back reference to everything it requires:
  // the required digests open its list of references.
  lemma RequiredAreReferences(doc: Json)
    requires Required(doc).Ok?
    ensures Required(doc).value <= References(doc)
  {
    var c, l := OptionalField(doc, FConfig), AsItems(Get(doc, FLayers));
    var m, s := AsItems(Get(doc, FManifests)), OptionalField(doc, FSubject);
    StrictIsDigestsOf(c);
    StrictIsDigestsOf(l);
    DigestsOfAppend(c, l);
    DigestsOfAppend(c + l, m);
    DigestsOfAppend(c + l + m, s);
  }
}
