/** The manifest document that an adapter emits, built from its Info response. */
module Manifest {
  import opened Wire
  import opened Text
  import opened AdapterSpec

  datatype Platform = Platform(os: string, arch: string)

  datatype FieldDoc = FieldDoc(
    typ: string, required: bool, description: string, defaultValue: string, sensitive: bool)

  type SchemaDoc = map<string, FieldDoc>

  datatype SecretDoc = SecretDoc(name: string, description: string, required: bool)

  datatype Manifest = Manifest(
    schemaVersion: int, name: string, version: string, description: string, sourceUrl: string,
    capabilities: seq<string>, platforms: seq<Platform>, protocolVersion: int,
    config: SchemaDoc, input: SchemaDoc, output: SchemaDoc,
    secrets: seq<SecretDoc>, permissions: seq<string>, environments: seq<string>, image: Option<string>)

  const MANIFEST_SCHEMA_VERSION := 1
  const PROTOCOL_VERSION := 2

  function PlatformOf(p: string): Platform {
    Platform(Cut(p, '/').before, Cut(p, '/').after)
  }

  predicate PlatformsFor(ps: seq<string>, docs: seq<Platform>) {
    |docs| == |ps| && forall i :: 0 <= i < |ps| ==> docs[i] == PlatformOf(ps[i])
  }

  method PlatformsFromStrings(ps: seq<string>) returns (docs: seq<Platform>)
    ensures PlatformsFor(ps, docs)
  {
    docs := [];
    for i := 0 to |ps|
      invariant |docs| == i && forall j :: 0 <= j < i ==> docs[j] == PlatformOf(ps[j])
    {
      var cut := Cut(ps[i], '/');
      if !cut.found {
        docs := docs + [Platform(ps[i], "")];
      } else {
        docs := docs + [Platform(cut.before, cut.after)];
      }
    }
  }

  /** The document field carries all five attributes of the wire field. */
  predicate DocCarries(d: FieldDoc, p: FieldProto) {
    && d.typ == p.typ && d.required == p.required && d.description == p.description
    && d.defaultValue == p.defaultStr && d.sensitive == p.sensitive
  }

  /** The same fields under the same names; an unset schema has none. */
  predicate SchemaFor(proto: Option<SchemaProto>, doc: SchemaDoc) {
    match proto
    case None => doc == map[]
    case Some(m) => doc.Keys == m.Keys && forall n :: n in m ==> DocCarries(doc[n], m[n])
  }

  method SchemaFromProto(proto: Option<SchemaProto>) returns (fields: SchemaDoc)
    ensures SchemaFor(proto, fields)
  {
    fields := map[];
    if proto.None? {
      return;
    }
    var rest := proto.value.Keys;
    while rest != {}
      invariant rest <= proto.value.Keys && fields.Keys == proto.value.Keys - rest
      invariant forall n :: n in fields ==> DocCarries(fields[n], proto.value[n])
      decreases |rest|
    {
      var n :| n in rest;
      var f := proto.value[n];
      fields := fields[n := FieldDoc(f.typ, f.required, f.description, f.defaultStr, f.sensitive)];
      rest := rest - {n};
    }
  }

  /** One required entry per secret, in the arbitrary order of a map iteration. */
  ghost predicate SecretsFor(m: map<string, string>, docs: seq<SecretDoc>) {
    && |docs| == |m|
    && (forall i :: 0 <= i < |docs| ==>
         docs[i].name in m && docs[i] == SecretDoc(docs[i].name, m[docs[i].name], true))
    && (forall n :: n in m ==> exists i :: 0 <= i < |docs| && docs[i].name == n)
    && (forall i, j :: 0 <= i < j < |docs| ==> docs[i].name != docs[j].name)
  }

  method SecretsFromMap(m: map<string, string>) returns (docs: seq<SecretDoc>)
    ensures SecretsFor(m, docs)
    ensures forall i :: 0 <= i < |docs| ==> docs[i].required
  {
    docs := [];
    var rest := m.Keys;
    while rest != {}
      invariant rest <= m.Keys && |docs| + |rest| == |m|
      invariant forall i :: 0 <= i < |docs| ==>
        docs[i].name in m && docs[i].name !in rest && docs[i] == SecretDoc(docs[i].name, m[docs[i].name], true)
      invariant forall i, j :: 0 <= i < j < |docs| ==> docs[i].name != docs[j].name
      invariant forall n :: n in m ==> n in rest || exists i :: 0 <= i < |docs| && docs[i].name == n
      decreases |rest|
    {
      var n :| n in rest;
      var grown := docs + [SecretDoc(n, m[n], true)];
      assert grown[|docs|].name == n;
      assert forall i :: 0 <= i < |docs| ==> grown[i] == docs[i];
      docs := grown;
      rest := rest - {n};
    }
  }

  /** The document's integer version: the wire's string, trimmed and parsed, or 2 when it is no number. */
  function SdkProtocolVersion(s: string): int {
    match Atoi(TrimSpace(s))
    case Some(v) => v
    case None => 2
  }

  /** A version printed with white space around it is read as itself. */
  lemma ProtocolVersionRead(left: string, n: nat, right: string)
    requires All(left, IsSpace) && All(right, IsSpace) && n < INT64_LIMIT
    ensures SdkProtocolVersion(left + Print(n) + right) == n
  {
    AtoiTrimmed(left, n, right);
  }

  /** The version read is the number the string spells, and 2 exactly for those that spell 2 or no 64-bit number. */
  lemma ProtocolVersionIff(s: string, v: int)
    ensures SdkProtocolVersion(s) == v <==> Spells(s, v) || (v == 2 && forall w :: !Spells(s, w))
  {
    AtoiIff(s, v);
    forall w ensures Spells(s, w) <==> Atoi(TrimSpace(s)) == Some(w) {
      AtoiIff(s, w);
    }
    assert Atoi(TrimSpace(s)).Some? ==> Spells(s, Atoi(TrimSpace(s)).value);
  }

  ghost predicate ManifestFor(info: Info, doc: Manifest) {
    && doc.schemaVersion == MANIFEST_SCHEMA_VERSION
    && doc.protocolVersion == SdkProtocolVersion(info.protocolVersion)
    && doc.name == info.name && doc.version == info.version && doc.description == info.description
    && doc.sourceUrl == info.sourceUrl && doc.capabilities == info.capabilities
    && PlatformsFor(info.platforms, doc.platforms)
    && SchemaFor(info.config, doc.config) && SchemaFor(info.input, doc.input)
    && SchemaFor(info.output, doc.output) && SecretsFor(info.secrets, doc.secrets)
    && doc.permissions == info.permissions && doc.environments == info.environments
    && doc.image == if info.containerImage == "" then None else Some(info.containerImage)
  }

  method BuildManifest(info: Info) returns (doc: Manifest)
    ensures ManifestFor(info, doc)
  {
    var platforms := PlatformsFromStrings(info.platforms);
    var config := SchemaFromProto(info.config);
    var input := SchemaFromProto(info.input);
    var output := SchemaFromProto(info.output);
    var secrets := SecretsFromMap(info.secrets);
    var image := if info.containerImage != "" then Some(info.containerImage) else None;
    doc := Manifest(MANIFEST_SCHEMA_VERSION, info.name, info.version, info.description, info.sourceUrl,
                    info.capabilities, platforms, SdkProtocolVersion(info.protocolVersion), config, input,
                    output, secrets, info.permissions, info.environments, image);
  }
}
