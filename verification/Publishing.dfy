/** From spec to strict verdict: exactly which specs are publishable, and what a manifest tells about its spec. */
module Publishing {
  import opened Wire
  import opened Text
  import opened Patterns
  import opened AdapterSpec
  import opened Manifest
  import opened StrictManifest

  predicate FieldTypesKnown(fields: seq<SchemaField>) {
    forall i :: 0 <= i < |fields| ==> IsFieldType(fields[i].typ)
  }

  /** Splits at its first slash into a valid os and a valid arch. */
  predicate PlatformPublishable(p: string) {
    Cut(p, '/').found && IsOs(Cut(p, '/').before) && IsArch(Cut(p, '/').after)
  }

  predicate PlatformsPublishable(ps: seq<string>) {
    ps != [] && forall i :: 0 <= i < |ps| ==> PlatformPublishable(ps[i])
  }

  predicate SecretsNamed(secrets: seq<Secret>) {
    forall i :: 0 <= i < |secrets| ==> secrets[i].name != ""
  }

  predicate EnvironmentsKnown(environments: seq<string>) {
    forall i :: 0 <= i < |environments| ==> environments[i] == "*" || IsEnv(environments[i])
  }

  /** What an author can check on the spec before publishing. */
  predicate Publishable(spec: Spec) {
    && IsName(spec.name) && IsVersion(spec.version) && HasScheme(spec.sourceUrl)
    && PlatformsPublishable(spec.platforms)
    && FieldTypesKnown(spec.config) && FieldTypesKnown(spec.input) && FieldTypesKnown(spec.output)
    && SecretsNamed(spec.secrets) && EnvironmentsKnown(spec.environments)
  }

  lemma FieldsIff(fields: seq<SchemaField>, doc: SchemaDoc)
    requires DistinctFields(fields) && SchemaFor(SchemaInfo(fields), doc)
    ensures FieldsValid(doc) <==> FieldTypesKnown(fields)
  {
    SchemaMapLossless(fields);
    forall n | n in doc ensures exists i :: 0 <= i < |fields| && fields[i].name == n {
      SchemaMapKey(fields, n);
    }
    forall i | 0 <= i < |fields|
      ensures fields[i].name in doc
      ensures IsFieldType(fields[i].typ) <==> Matches(TYPE_RE, doc[fields[i].name].typ)
    {
      TypeDecided(fields[i].typ);
    }
  }

  lemma PlatformIff(p: string)
    ensures PlatformValid(PlatformOf(p)) <==> PlatformPublishable(p)
  {
    OsDecided(Cut(p, '/').before);
    ArchDecided(Cut(p, '/').after);
  }

  lemma SecretsIff(secrets: seq<Secret>, docs: seq<SecretDoc>)
    requires DistinctSecrets(secrets) && SecretsFor(SecretMap(secrets), docs)
    ensures (forall i :: 0 <= i < |docs| ==> docs[i].name != "") <==> SecretsNamed(secrets)
  {
    SecretMapLossless(secrets);
    forall i | 0 <= i < |docs| ensures exists j :: 0 <= j < |secrets| && secrets[j].name == docs[i].name {
      SecretMapKey(secrets, docs[i].name);
    }
    forall j | 0 <= j < |secrets| ensures exists i :: 0 <= i < |docs| && docs[i].name == secrets[j].name {
      assert secrets[j].name in SecretMap(secrets);
    }
  }

  lemma EnvironmentsIff(environments: seq<string>)
    ensures (forall i :: 0 <= i < |environments| ==> EnvironmentValid(environments[i])) <==>
      EnvironmentsKnown(environments)
  {
    forall i | 0 <= i < |environments|
      ensures EnvironmentValid(environments[i]) <==> environments[i] == "*" || IsEnv(environments[i])
    {
      EnvDecided(environments[i]);
    }
  }

  lemma PlatformsIff(ps: seq<string>, docs: seq<Platform>)
    requires PlatformsFor(ps, docs)
    ensures (docs != [] && forall i :: 0 <= i < |docs| ==> PlatformValid(docs[i])) <==> PlatformsPublishable(ps)
  {
    forall i | 0 <= i < |ps| ensures PlatformValid(docs[i]) <==> PlatformPublishable(ps[i]) {
      PlatformIff(ps[i]);
    }
  }

  lemma DeclaredVersion()
    ensures SdkProtocolVersion(WIRE_PROTOCOL_VERSION) == PROTOCOL_VERSION
  {
    ProtocolVersionRead("", 2, "");
    assert "" + Print(2) + "" == WIRE_PROTOCOL_VERSION;
  }

  /** A valid spec's manifest passes the strict validator exactly when the spec is publishable. */
  lemma PublishableIff(spec: Spec, files: Files, info: Info, doc: Manifest)
    requires SpecValid(spec) && InfoFor(spec, files, info) && ManifestFor(info, doc)
    ensures ManifestValid(doc) <==> Publishable(spec)
  {
    NameDecided(spec.name);
    VersionDecided(spec.version);
    SchemeDecided(spec.sourceUrl);
    DeclaredVersion();
    PlatformsIff(spec.platforms, doc.platforms);
    FieldsIff(spec.config, doc.config);
    FieldsIff(spec.input, doc.input);
    FieldsIff(spec.output, doc.output);
    SecretsIff(spec.secrets, doc.secrets);
    EnvironmentsIff(spec.environments);
  }

  /** The whole pipeline, run: spec to Info to manifest to strict verdict. */
  method EmitAndCheck(spec: Spec, files: Files) returns (ok: bool)
    ensures ok <==> SpecValid(spec) && Readable(spec.examples, files) && Publishable(spec)
  {
    var info := DeriveInfo(spec, files);
    if info.None? {
      return false;
    }
    var doc := BuildManifest(info.value);
    PublishableIff(spec, files, info.value, doc);
    var bad := ValidateManifest(doc);
    ok := bad.None?;
  }

  // ----- Field types

  /** The SDK's vocabulary of field types. */
  const SDK_TYPES := ["string", "number", "bool", "list_string", "object"]

  /** Two types of it are refused by the strict validator, in any schema of any spec. */
  lemma SdkTypesNotPublishable(spec: Spec, f: SchemaField)
    requires f in spec.config || f in spec.input || f in spec.output
    requires f.typ == "bool" || f.typ == "list_string"
    ensures !Publishable(spec)
  {
    SdkTypeIff(f.typ);
    assert !(f in spec.config && FieldTypesKnown(spec.config));
    assert !(f in spec.input && FieldTypesKnown(spec.input));
  }

  datatype Part = Config | Input | Output

  function SchemaOf(spec: Spec, part: Part): seq<SchemaField> {
    match part
    case Config => spec.config
    case Input => spec.input
    case Output => spec.output
  }

  function Retype(fields: seq<SchemaField>, k: nat, typ: string): seq<SchemaField>
    requires k < |fields|
  {
    fields[k := fields[k].(typ := typ)]
  }

  /** The spec with another type for one field of one of its schemas. */
  function Retyped(spec: Spec, part: Part, k: nat, typ: string): Spec
    requires k < |SchemaOf(spec, part)|
  {
    var fields := Retype(SchemaOf(spec, part), k, typ);
    match part
    case Config => spec.(config := fields)
    case Input => spec.(input := fields)
    case Output => spec.(output := fields)
  }

  lemma RetypedField(fields: seq<SchemaField>, k: nat, typ: string)
    requires SchemaValid(fields) && FieldTypesKnown(fields) && k < |fields|
    ensures typ != "" ==> SchemaValid(Retype(fields, k, typ))
    ensures FieldTypesKnown(Retype(fields, k, typ)) <==> IsFieldType(typ)
  {
    assert Retype(fields, k, typ)[k].typ == typ;
  }

  lemma SdkTypeIff(typ: string)
    requires typ in SDK_TYPES
    ensures typ != "" && (IsFieldType(typ) <==> typ != "bool" && typ != "list_string")
  {
  }

  lemma RetypedTo(spec: Spec, part: Part, k: nat, typ: string)
    requires SpecValid(spec) && Publishable(spec) && k < |SchemaOf(spec, part)| && typ != ""
    ensures SpecValid(Retyped(spec, part, k, typ))
    ensures Publishable(Retyped(spec, part, k, typ)) <==> IsFieldType(typ)
  {
    RetypedField(SchemaOf(spec, part), k, typ);
  }

  /**
   Giving a field of a publishable spec, in any of its schemas, another type of the SDK's vocabulary leaves the spec
   valid, and publishable exactly when the type is neither `bool` nor `list_string`.
   */
  lemma RetypedIff(spec: Spec, part: Part, k: nat, typ: string)
    requires SpecValid(spec) && Publishable(spec) && k < |SchemaOf(spec, part)| && typ in SDK_TYPES
    ensures SpecValid(Retyped(spec, part, k, typ))
    ensures Publishable(Retyped(spec, part, k, typ)) <==> typ != "bool" && typ != "list_string"
  {
    SdkTypeIff(typ);
    RetypedTo(spec, part, k, typ);
  }

  /** A spec with one flag in its configuration. */
  function FlagSpec(name: string, version: string, url: string, platform: string, typ: string): Spec {
    Spec(name, version, "", url, [], [platform], [], "",
         [SchemaField("flag", typ, false, "", "", false)], [], [], [], [], [], true,
         0, None, Lifecycle(false, false, false, false, false))
  }

  lemma OneFieldKnown(fields: seq<SchemaField>)
    requires |fields| == 1
    ensures FieldTypesKnown(fields) <==> IsFieldType(fields[0].typ)
  {
  }

  /** With everything else in order, only the type of the one field decides. */
  lemma OneFieldDecides(spec: Spec)
    requires IsName(spec.name) && IsVersion(spec.version) && HasScheme(spec.sourceUrl)
    requires PlatformsPublishable(spec.platforms) && |spec.config| == 1
    requires spec.input == [] && spec.output == [] && spec.secrets == [] && spec.environments == []
    ensures Publishable(spec) <==> IsFieldType(spec.config[0].typ)
  {
    OneFieldKnown(spec.config);
    assert SecretsNamed(spec.secrets) && EnvironmentsKnown(spec.environments);
  }

  lemma FlagSpecValid(name: string, version: string, url: string, platform: string, typ: string)
    requires name != "" && version != "" && typ != ""
    ensures SpecValid(FlagSpec(name, version, url, platform, typ))
  {
  }

  lemma JoinedPlatform(os: string, arch: string)
    requires IsOs(os) && IsArch(arch)
    ensures PlatformPublishable(os + "/" + arch)
  {
    assert forall i :: 1 <= i < |os| ==> os[i] == os[1..][i - 1];
    CutUnique(os, '/', arch);
  }

  lemma JoinedUrl(scheme: string, rest: string)
    requires |scheme| >= 2 && IsLower(scheme[0]) && All(scheme[1..], IsSchemeChar)
    ensures HasScheme(scheme + "://" + rest)
  {
    var url, k := scheme + "://" + rest, |scheme|;
    assert url[1..k] == scheme[1..] && url[k..k + 3] == "://";
    SchemeRun(url, k);
  }

  lemma PrintedVersion(major: nat, minor: nat, patch: nat)
    ensures IsVersion(PrintVersion(major, minor, patch))
  {
    VersionIsPrinted(PrintVersion(major, minor, patch));
    VersionDecided(PrintVersion(major, minor, patch));
  }

  /** Every lower-case word makes the header of a publishable spec. */
  lemma WordSpecPasses(word: string, typ: string) returns (spec: Spec)
    requires |word| >= 2 && All(word, IsLower) && typ != "" && IsFieldType(typ)
    ensures SpecValid(spec) && Publishable(spec) && |spec.config| == 1 && spec.examples == []
  {
    var version, url, platform := PrintVersion(0, 1, 0), word + "://" + word, word + "/" + word;
    assert All(word[1..], IsLower);
    PrintedVersion(0, 1, 0);
    JoinedUrl(word, word);
    JoinedPlatform(word, word);
    spec := FlagSpec(word, version, url, platform, typ);
    OneFieldDecides(spec);
    FlagSpecValid(word, version, url, platform, typ);
  }

  lemma RetypedAgain(base: Spec, typ: string, other: string)
    requires |base.config| == 1
    ensures Retyped(Retyped(base, Config, 0, typ), Config, 0, other) == Retyped(base, Config, 0, other)
  {
  }

  /** The type of one field can be all that keeps a valid spec from passing. */
  lemma OnlyTypeDecides(base: Spec, refused: string, accepted: string) returns (spec: Spec)
    requires SpecValid(base) && Publishable(base) && |base.config| == 1
    requires refused != "" && accepted != "" && !IsFieldType(refused) && IsFieldType(accepted)
    ensures |spec.config| == 1 && spec.config[0].typ == refused && spec.examples == base.examples
    ensures SpecValid(spec) && !Publishable(spec) && Publishable(Retyped(spec, Config, 0, accepted))
  {
    RetypedTo(base, Config, 0, refused);
    RetypedTo(base, Config, 0, accepted);
    spec := Retyped(base, Config, 0, refused);
    RetypedAgain(base, refused, accepted);
  }

  /** Declared with the SDK's `bool`, a flag is all that keeps a spec from passing; as `boolean` it passes. */
  lemma BoolFlagRefused(files: Files) returns (spec: Spec)
    ensures SpecValid(spec) && Readable(spec.examples, files) && !Publishable(spec)
    ensures |spec.config| == 1 && spec.config[0].typ == "bool"
    ensures Publishable(Retyped(spec, Config, 0, "boolean"))
  {
    var base := WordSpecPasses("go", "boolean");
    spec := OnlyTypeDecides(base, "bool", "boolean");
  }

  // ----- Reading a manifest back

  /** Some slash is followed by something. */
  ghost predicate HasArch(p: string) {
    exists i :: 0 <= i < |p| - 1 && p[i] == '/'
  }

  lemma HasArchIff(p: string)
    ensures HasArch(p) <==> PlatformOf(p).arch != ""
  {
    var cut := Cut(p, '/');
    if cut.found {
      var k := |cut.before|;
      assert p[k] == '/' && |p| == k + 1 + |cut.after|;
      assert forall i :: 0 <= i < k ==> p[i] == cut.before[i];
    }
  }

  /** Joining os and arch gives the platform string back exactly when it has a slash. */
  lemma PlatformRejoins(p: string)
    ensures p == PlatformOf(p).os + "/" + PlatformOf(p).arch <==> '/' in p
  {
    assert Cut(p, '/').found ==> p == Cut(p, '/').before + ['/'] + Cut(p, '/').after;
  }

  /** Without an arch there is always a second string with the same document: a trailing slash leaves no trace. */
  lemma EmptyArchAmbiguous(p: string) returns (q: string)
    requires !HasArch(p)
    ensures q != p && PlatformOf(q) == PlatformOf(p)
  {
    HasArchIff(p);
    if '/' in p {
      q := Cut(p, '/').before;
    } else {
      q := p + "/";
      CutUnique(p, '/', "");
      assert q == p + ['/'] + "";
    }
  }

  lemma SlashAmbiguous()
    ensures PlatformOf("js") == PlatformOf("js/")
  {
    CutUnique("js", '/', "");
    assert "js/" == "js" + ['/'] + "";
  }

  /** A platform string can be read back from its document exactly when it has an arch. */
  lemma PlatformReadBackIff(p: string)
    ensures (forall q :: PlatformOf(q) == PlatformOf(p) ==> q == p) <==> HasArch(p)
  {
    if HasArch(p) {
      forall q | PlatformOf(q) == PlatformOf(p) ensures q == p {
        ArchReadsBack(p, q);
      }
    } else {
      var q := EmptyArchAmbiguous(p);
    }
  }

  lemma ArchReadsBack(p: string, q: string)
    requires HasArch(p) && PlatformOf(q) == PlatformOf(p)
    ensures q == p
  {
    HasArchIff(p);
    HasArchIff(q);
    PlatformRejoins(p);
    PlatformRejoins(q);
  }

  ghost predicate EmittedAs(spec: Spec, files: Files, doc: Manifest) {
    exists info :: InfoFor(spec, files, info) && ManifestFor(info, doc)
  }

  // ----- What a manifest says

  /** One document field per declared field, under its name and with its five attributes. */
  predicate SchemaSays(fields: seq<SchemaField>, doc: SchemaDoc) {
    && |doc| == |fields|
    && forall i :: 0 <= i < |fields| ==>
         && fields[i].name in doc
         && doc[fields[i].name] == FieldDoc(fields[i].typ, fields[i].required, fields[i].description,
                                            fields[i].defaultStr, fields[i].sensitive)
  }

  /** One required entry per declared secret. */
  predicate SecretsSay(secrets: seq<Secret>, docs: seq<SecretDoc>) {
    && |docs| == |secrets|
    && forall i :: 0 <= i < |secrets| ==> SecretDoc(secrets[i].name, secrets[i].description, true) in docs
  }

  lemma SchemaIsSaid(fields: seq<SchemaField>, doc: SchemaDoc)
    requires DistinctFields(fields) && SchemaFor(SchemaInfo(fields), doc)
    ensures SchemaSays(fields, doc)
  {
    SchemaMapLossless(fields);
    var m := SchemaMap(fields);
    assert doc.Keys == m.Keys && |doc| == |doc.Keys| && |m| == |m.Keys|;
  }

  lemma SecretsAreSaid(secrets: seq<Secret>, docs: seq<SecretDoc>)
    requires DistinctSecrets(secrets) && SecretsFor(SecretMap(secrets), docs)
    ensures SecretsSay(secrets, docs)
  {
    SecretMapLossless(secrets);
    forall i | 0 <= i < |secrets| ensures SecretDoc(secrets[i].name, secrets[i].description, true) in docs {
      assert secrets[i].name in SecretMap(secrets);
      var j :| 0 <= j < |docs| && docs[j].name == secrets[i].name;
      assert docs[j] == SecretDoc(secrets[i].name, secrets[i].description, true);
    }
  }

  /** From one end to the other: every declaration of a valid spec is in its manifest, in its own place. */
  lemma EmittedSays(spec: Spec, files: Files, doc: Manifest)
    requires SpecValid(spec) && EmittedAs(spec, files, doc)
    ensures doc.schemaVersion == 1 && doc.protocolVersion == 2
    ensures doc.name == spec.name && doc.version == spec.version && doc.description == spec.description
    ensures doc.sourceUrl == spec.sourceUrl && doc.capabilities == spec.capabilities
    ensures doc.permissions == spec.permissions && doc.environments == spec.environments
    ensures doc.image == if spec.containerImage == "" then None else Some(spec.containerImage)
    ensures PlatformsFor(spec.platforms, doc.platforms) && SecretsSay(spec.secrets, doc.secrets)
    ensures SchemaSays(spec.config, doc.config) && SchemaSays(spec.input, doc.input)
    ensures SchemaSays(spec.output, doc.output)
  {
    var info :| InfoFor(spec, files, info) && ManifestFor(info, doc);
    DeclaredVersion();
    SchemaIsSaid(spec.config, doc.config);
    SchemaIsSaid(spec.input, doc.input);
    SchemaIsSaid(spec.output, doc.output);
    SecretsAreSaid(spec.secrets, doc.secrets);
  }

  // ----- Manifests and specs

  ghost predicate AllHaveArch(ps: seq<string>) {
    forall i :: 0 <= i < |ps| ==> HasArch(ps[i])
  }

  lemma PlatformsAgree(a: seq<string>, b: seq<string>, docs: seq<Platform>)
    requires PlatformsFor(a, docs) && PlatformsFor(b, docs) && AllHaveArch(a)
    ensures a == b
  {
    forall i | 0 <= i < |a| ensures a[i] == b[i] {
      ArchReadsBack(a[i], b[i]);
    }
  }

  lemma SecretsDetermineMap(m: map<string, string>, n: map<string, string>, docs: seq<SecretDoc>)
    requires SecretsFor(m, docs) && SecretsFor(n, docs)
    ensures m == n
  {
    forall k | k in m ensures k in n && n[k] == m[k] {
      var i :| 0 <= i < |docs| && docs[i].name == k;
    }
    forall k | k in n ensures k in m {
      var i :| 0 <= i < |docs| && docs[i].name == k;
    }
  }

  lemma SchemasAgree(a: seq<SchemaField>, b: seq<SchemaField>, doc: SchemaDoc)
    requires DistinctFields(a) && DistinctFields(b)
    requires SchemaFor(SchemaInfo(a), doc) && SchemaFor(SchemaInfo(b), doc)
    ensures multiset(a) == multiset(b)
  {
    var m, n := SchemaMap(a), SchemaMap(b);
    assert m.Keys == doc.Keys == n.Keys;
    forall k | k in m ensures m[k] == n[k] {
      assert DocCarries(doc[k], m[k]) && DocCarries(doc[k], n[k]);
    }
    SchemaMapInjective(a, b);
  }

  /** What the manifest carries can be read back: specs with equal manifests declare the same adapter. */
  lemma ManifestDeterminesSpec(a: Spec, b: Spec, aFiles: Files, bFiles: Files, doc: Manifest)
    requires SpecValid(a) && SpecValid(b)
    requires EmittedAs(a, aFiles, doc) && EmittedAs(b, bFiles, doc)
    ensures a.name == b.name && a.version == b.version && a.description == b.description
    ensures a.sourceUrl == b.sourceUrl && a.containerImage == b.containerImage
    ensures a.capabilities == b.capabilities && a.permissions == b.permissions && a.environments == b.environments
    ensures multiset(a.config) == multiset(b.config) && multiset(a.input) == multiset(b.input)
    ensures multiset(a.output) == multiset(b.output) && multiset(a.secrets) == multiset(b.secrets)
    ensures AllHaveArch(a.platforms) ==> a.platforms == b.platforms
  {
    var i :| InfoFor(a, aFiles, i) && ManifestFor(i, doc);
    var j :| InfoFor(b, bFiles, j) && ManifestFor(j, doc);
    SchemasAgree(a.config, b.config, doc.config);
    SchemasAgree(a.input, b.input, doc.input);
    SchemasAgree(a.output, b.output, doc.output);
    SecretsDetermineMap(i.secrets, j.secrets, doc.secrets);
    SecretMapInjective(a.secrets, b.secrets);
    if AllHaveArch(a.platforms) {
      PlatformsAgree(a.platforms, b.platforms, doc.platforms);
    }
  }

  lemma OtherStrings(ps: seq<string>, docs: seq<Platform>) returns (qs: seq<string>)
    requires PlatformsFor(ps, docs) && !AllHaveArch(ps)
    ensures PlatformsFor(qs, docs) && qs != ps
  {
    var k :| 0 <= k < |ps| && !HasArch(ps[k]);
    var q := EmptyArchAmbiguous(ps[k]);
    qs := ps[k := q];
    assert qs[k] != ps[k];
  }

  lemma SwapPlatforms(a: Spec, files: Files, info: Info, doc: Manifest, ps: seq<string>)
    requires InfoFor(a, files, info) && ManifestFor(info, doc) && PlatformsFor(ps, doc.platforms)
    ensures SpecValid(a) ==> SpecValid(a.(platforms := ps))
    ensures EmittedAs(a.(platforms := ps), files, doc)
  {
    var other := info.(platforms := ps);
    assert InfoFor(a.(platforms := ps), files, other) && ManifestFor(other, doc);
  }

  /** A valid spec with a platform without an arch shares its manifest with one that declares another platform. */
  lemma OtherPlatforms(a: Spec, files: Files, doc: Manifest) returns (b: Spec)
    requires SpecValid(a) && EmittedAs(a, files, doc) && !AllHaveArch(a.platforms)
    ensures SpecValid(b) && EmittedAs(b, files, doc) && b.platforms != a.platforms
  {
    var info :| InfoFor(a, files, info) && ManifestFor(info, doc);
    var ps := OtherStrings(a.platforms, doc.platforms);
    b := a.(platforms := ps);
    SwapPlatforms(a, files, info, doc, ps);
  }

  /** The declared platforms can be read back from a manifest exactly when they all have an arch. */
  lemma PlatformsReadBackIff(a: Spec, files: Files, doc: Manifest)
    requires SpecValid(a) && EmittedAs(a, files, doc)
    ensures (forall b :: SpecValid(b) && EmittedAs(b, files, doc) ==> b.platforms == a.platforms) <==>
      AllHaveArch(a.platforms)
  {
    if AllHaveArch(a.platforms) {
      forall b | SpecValid(b) && EmittedAs(b, files, doc) ensures b.platforms == a.platforms {
        ManifestDeterminesSpec(a, b, files, files, doc);
      }
    } else {
      var b := OtherPlatforms(a, files, doc);
    }
  }
}
