/** The declarative adapter spec: its validation, and its derivation into the keyed Info form. */
module AdapterSpec {
  import opened Wire
  import opened Sequences

  datatype SchemaField = SchemaField(
    name: string, typ: string, required: bool, description: string, defaultStr: string, sensitive: bool)

  datatype Secret = Secret(name: string, description: string)

  datatype Example = Example(name: string, description: string, hcl: string, file: string)

  /** Which lifecycle handlers are set. */
  datatype Lifecycle = Lifecycle(pause: bool, resume: bool, snapshot: bool, restore: bool, inspect: bool)

  datatype Spec = Spec(
    name: string, version: string, description: string, sourceUrl: string,
    capabilities: seq<string>, platforms: seq<string>, environments: seq<string>, containerImage: string,
    config: seq<SchemaField>, input: seq<SchemaField>, output: seq<SchemaField>,
    secrets: seq<Secret>, permissions: seq<string>, examples: seq<Example>, hasExecute: bool,
    maxChunkBytes: Uint32, features: Option<seq<string>>, lifecycle: Lifecycle)

  // ----- Validation

  predicate DistinctFields(fields: seq<SchemaField>) {
    forall i, j :: 0 <= i < j < |fields| ==> fields[i].name != fields[j].name
  }

  predicate SchemaValid(fields: seq<SchemaField>) {
    DistinctFields(fields) && forall i :: 0 <= i < |fields| ==> fields[i].typ != ""
  }

  predicate DistinctSecrets(secrets: seq<Secret>) {
    forall i, j :: 0 <= i < j < |secrets| ==> secrets[i].name != secrets[j].name
  }

  /** Named, and with exactly one of the two payload forms. */
  predicate ExampleValid(ex: Example) {
    ex.name != "" && (ex.hcl == "" <==> ex.file != "")
  }

  predicate SpecValid(spec: Spec) {
    && spec.name != "" && spec.version != "" && spec.hasExecute
    && SchemaValid(spec.config) && SchemaValid(spec.input) && SchemaValid(spec.output)
    && DistinctSecrets(spec.secrets)
    && forall i :: 0 <= i < |spec.examples| ==> ExampleValid(spec.examples[i])
  }

  datatype SpecError =
    | NameMissing | VersionMissing | ExecuteMissing
    | DuplicateField(name: string) | TypeMissing(name: string) | DuplicateSecret(name: string)
    | ExampleUnnamed(index: nat) | ExampleAmbiguous(name: string) | ExampleEmpty(name: string)

  ghost predicate SchemaDefect(fields: seq<SchemaField>, e: SpecError) {
    match e
    case DuplicateField(n) => exists i, j :: 0 <= i < j < |fields| && fields[i].name == fields[j].name == n
    case TypeMissing(n) => exists i :: 0 <= i < |fields| && fields[i].name == n && fields[i].typ == ""
    case _ => false
  }

  ghost predicate SecretTwice(secrets: seq<Secret>, n: string) {
    exists i, j :: 0 <= i < j < |secrets| && secrets[i].name == secrets[j].name == n
  }

  /** The problem an error names is really in the spec. */
  ghost predicate SpecDefect(spec: Spec, e: SpecError) {
    match e
    case NameMissing => spec.name == ""
    case VersionMissing => spec.version == ""
    case ExecuteMissing => !spec.hasExecute
    case DuplicateSecret(n) => SecretTwice(spec.secrets, n)
    case ExampleUnnamed(i) => i < |spec.examples| && spec.examples[i].name == ""
    case ExampleAmbiguous(n) =>
      exists ex :: ex in spec.examples && ex.name == n && ex.hcl != "" && ex.file != ""
    case ExampleEmpty(n) =>
      exists ex :: ex in spec.examples && ex.name == n && ex.hcl == "" && ex.file == ""
    case _ => SchemaDefect(spec.config, e) || SchemaDefect(spec.input, e) || SchemaDefect(spec.output, e)
  }

  /** A spec is valid exactly when it has none of the defects that an error can name. */
  lemma ValidIffNoDefect(spec: Spec)
    ensures SpecValid(spec) <==> forall e :: !SpecDefect(spec, e)
  {
    if forall e :: !SpecDefect(spec, e) {
      assert !SpecDefect(spec, NameMissing) && !SpecDefect(spec, VersionMissing) && !SpecDefect(spec, ExecuteMissing);
      forall f: seq<SchemaField> | f == spec.config || f == spec.input || f == spec.output ensures SchemaValid(f) {
        NoSchemaDefect(spec, f);
      }
      forall i, j | 0 <= i < j < |spec.secrets| ensures spec.secrets[i].name != spec.secrets[j].name {
        assert !SpecDefect(spec, DuplicateSecret(spec.secrets[i].name));
      }
      forall i | 0 <= i < |spec.examples| ensures ExampleValid(spec.examples[i]) {
        var n := spec.examples[i].name;
        assert !SpecDefect(spec, ExampleUnnamed(i));
        assert !SpecDefect(spec, ExampleAmbiguous(n)) && !SpecDefect(spec, ExampleEmpty(n));
      }
    }
  }

  lemma NoSchemaDefect(spec: Spec, fields: seq<SchemaField>)
    requires forall e :: !SpecDefect(spec, e)
    requires fields == spec.config || fields == spec.input || fields == spec.output
    ensures SchemaValid(fields)
  {
    forall i, j | 0 <= i < j < |fields| ensures fields[i].name != fields[j].name {
      assert !SpecDefect(spec, DuplicateField(fields[i].name));
    }
    forall i | 0 <= i < |fields| ensures fields[i].typ != "" {
      assert !SpecDefect(spec, TypeMissing(fields[i].name));
    }
  }

  method CheckSchema(fields: seq<SchemaField>) returns (err: Option<SpecError>)
    ensures err.None? <==> SchemaValid(fields)
    ensures err.Some? ==> SchemaDefect(fields, err.value)
  {
    var seen: set<string> := {};
    for i := 0 to |fields|
      invariant forall n :: n in seen <==> exists j :: 0 <= j < i && fields[j].name == n
      invariant forall j, k :: 0 <= j < k < i ==> fields[j].name != fields[k].name
      invariant forall j :: 0 <= j < i ==> fields[j].typ != ""
    {
      if fields[i].name in seen {
        return Some(DuplicateField(fields[i].name));
      }
      seen := seen + {fields[i].name};
      if fields[i].typ == "" {
        return Some(TypeMissing(fields[i].name));
      }
    }
    return None;
  }

  method CheckSecrets(secrets: seq<Secret>) returns (err: Option<SpecError>)
    ensures err.None? <==> DistinctSecrets(secrets)
    ensures err.Some? ==> err.value.DuplicateSecret? && SecretTwice(secrets, err.value.name)
  {
    var seen: set<string> := {};
    for i := 0 to |secrets|
      invariant forall n :: n in seen <==> exists j :: 0 <= j < i && secrets[j].name == n
      invariant forall j, k :: 0 <= j < k < i ==> secrets[j].name != secrets[k].name
    {
      if secrets[i].name in seen {
        return Some(DuplicateSecret(secrets[i].name));
      }
      seen := seen + {secrets[i].name};
    }
    return None;
  }

  method CheckExamples(spec: Spec) returns (err: Option<SpecError>)
    ensures err.None? <==> forall i :: 0 <= i < |spec.examples| ==> ExampleValid(spec.examples[i])
    ensures err.Some? ==> SpecDefect(spec, err.value)
  {
    for i := 0 to |spec.examples|
      invariant forall j :: 0 <= j < i ==> ExampleValid(spec.examples[j])
    {
      var ex := spec.examples[i];
      if ex.name == "" {
        return Some(ExampleUnnamed(i));
      }
      if ex.hcl != "" && ex.file != "" {
        return Some(ExampleAmbiguous(ex.name));
      }
      if ex.hcl == "" && ex.file == "" {
        return Some(ExampleEmpty(ex.name));
      }
    }
    return None;
  }

  /** `Spec.validate`. */
  method Validate(spec: Spec) returns (err: Option<SpecError>)
    ensures err.None? <==> SpecValid(spec)
    ensures err.Some? ==> SpecDefect(spec, err.value)
  {
    if spec.name == "" {
      return Some(NameMissing);
    }
    if spec.version == "" {
      return Some(VersionMissing);
    }
    if !spec.hasExecute {
      return Some(ExecuteMissing);
    }
    err := CheckSchema(spec.config);
    if err.None? {
      err := CheckSchema(spec.input);
    }
    if err.None? {
      err := CheckSchema(spec.output);
    }
    if err.None? {
      err := CheckSecrets(spec.secrets);
    }
    if err.None? {
      err := CheckExamples(spec);
    }
  }

  // ----- Derivation

  datatype FieldProto = FieldProto(
    typ: string, required: bool, description: string, defaultStr: string, sensitive: bool)

  type SchemaProto = map<string, FieldProto>

  datatype WireExample = WireExample(name: string, description: string, hcl: string)

  datatype Info = Info(
    name: string, version: string, description: string, sourceUrl: string,
    capabilities: seq<string>, platforms: seq<string>, environments: seq<string>, containerImage: string,
    config: Option<SchemaProto>, input: Option<SchemaProto>, output: Option<SchemaProto>,
    secrets: map<string, string>, permissions: seq<string>, examples: seq<WireExample>,
    protocolVersion: string, supportedFeatures: seq<string>, maxChunkBytes: Uint32)

  const WIRE_PROTOCOL_VERSION := "2"

  function ProtoOf(f: SchemaField): FieldProto {
    FieldProto(f.typ, f.required, f.description, f.defaultStr, f.sensitive)
  }

  /** The wire field carries all five attributes of the declared one. */
  predicate Carries(p: FieldProto, f: SchemaField) {
    && p.typ == f.typ && p.required == f.required && p.description == f.description
    && p.defaultStr == f.defaultStr && p.sensitive == f.sensitive
  }

  /** Keyed form of a schema; a later field of the same name would overwrite. */
  function SchemaMap(fields: seq<SchemaField>): SchemaProto {
    if fields == [] then map[]
    else SchemaMap(fields[..|fields| - 1])[fields[|fields| - 1].name := ProtoOf(fields[|fields| - 1])]
  }

  function SecretMap(secrets: seq<Secret>): map<string, string> {
    if secrets == [] then map[]
    else SecretMap(secrets[..|secrets| - 1])[secrets[|secrets| - 1].name := secrets[|secrets| - 1].description]
  }

  function SchemaInfo(fields: seq<SchemaField>): Option<SchemaProto> {
    if fields == [] then None else Some(SchemaMap(fields))
  }

  method AdapterSchemaProto(fields: seq<SchemaField>) returns (proto: Option<SchemaProto>)
    ensures proto == SchemaInfo(fields)
    ensures proto.None? <==> fields == []
  {
    if |fields| == 0 {
      return None;
    }
    var m: SchemaProto := map[];
    for i := 0 to |fields|
      invariant m == SchemaMap(fields[..i])
    {
      assert fields[..i + 1][..i] == fields[..i];
      m := m[fields[i].name := ProtoOf(fields[i])];
    }
    assert fields[..|fields|] == fields;
    return Some(m);
  }

  method BuildSecretMap(secrets: seq<Secret>) returns (m: map<string, string>)
    ensures m == SecretMap(secrets)
  {
    m := map[];
    for i := 0 to |secrets|
      invariant m == SecretMap(secrets[..i])
    {
      assert secrets[..i + 1][..i] == secrets[..i];
      m := m[secrets[i].name := secrets[i].description];
    }
    assert secrets[..|secrets|] == secrets;
  }

  datatype Feature = Feature(name: string, isSet: bool)

  /** The lifecycle verbs and whether their handlers are set. */
  function Features(l: Lifecycle): seq<Feature> {
    [Feature("pause", l.pause), Feature("resume", l.resume), Feature("snapshot", l.snapshot),
     Feature("restore", l.restore), Feature("inspect", l.inspect)]
  }

  function Advertised(f: Feature): Option<string> {
    if f.isSet then Some(f.name) else None
  }

  function FeaturesOf(spec: Spec): seq<string> {
    if spec.features.Some? then spec.features.value else Picked(Features(spec.lifecycle), Advertised)
  }

  /** `supportedFeaturesFromSpec`. */
  method SupportedFeatures(spec: Spec) returns (out: seq<string>)
    ensures out == FeaturesOf(spec)
    ensures spec.features.Some? ==> out == spec.features.value
  {
    if spec.features.Some? {
      return spec.features.value;
    }
    var table := Features(spec.lifecycle);
    out := [];
    for i := 0 to |table|
      invariant out == Picked(table[..i], Advertised)
    {
      assert table[..i + 1][..i] == table[..i];
      if table[i].isSet {
        out := out + [table[i].name];
      }
    }
    assert table[..|table|] == table;
  }

  /** Without an override the verbs come in the order of the table. */
  lemma FeaturesInOrder(spec: Spec) returns (pos: seq<nat>)
    requires spec.features.None?
    ensures |pos| == |FeaturesOf(spec)|
    ensures forall i :: 0 <= i < |pos| ==>
      pos[i] < 5 && FeaturesOf(spec)[i] == ["pause", "resume", "snapshot", "restore", "inspect"][pos[i]]
    ensures forall i, j :: 0 <= i < j < |pos| ==> pos[i] < pos[j]
  {
    pos := PickedKept(Features(spec.lifecycle), Advertised);
    var table := Features(spec.lifecycle);
    assert forall i :: 0 <= i < |pos| ==> Advertised(table[pos[i]]) == Some(FeaturesOf(spec)[i]);
  }

  /** A name of a table without repetitions is picked exactly when it is set. */
  lemma PickedIffSet(table: seq<Feature>, k: nat)
    requires k < |table| && forall i, j :: 0 <= i < j < |table| ==> table[i].name != table[j].name
    ensures table[k].name in Picked(table, Advertised) <==> table[k].isSet
  {
    PickedMember(table, Advertised, table[k].name);
  }

  /** Without an override, a verb is advertised exactly when its handler is set. */
  lemma AdvertisedIff(spec: Spec)
    requires spec.features.None?
    ensures "pause" in FeaturesOf(spec) <==> spec.lifecycle.pause
    ensures "resume" in FeaturesOf(spec) <==> spec.lifecycle.resume
    ensures "snapshot" in FeaturesOf(spec) <==> spec.lifecycle.snapshot
    ensures "restore" in FeaturesOf(spec) <==> spec.lifecycle.restore
    ensures "inspect" in FeaturesOf(spec) <==> spec.lifecycle.inspect
  {
    var table := Features(spec.lifecycle);
    PickedIffSet(table, 0);
    PickedIffSet(table, 1);
    PickedIffSet(table, 2);
    PickedIffSet(table, 3);
    PickedIffSet(table, 4);
  }

  /** So the list determines the handlers. */
  lemma FeaturesDetermineHandlers(a: Spec, b: Spec)
    requires a.features.None? && b.features.None? && FeaturesOf(a) == FeaturesOf(b)
    ensures a.lifecycle == b.lifecycle
  {
    AdvertisedIff(a);
    AdvertisedIff(b);
  }

  /** Example files that the process can read, by path. */
  type Files = map<string, string>

  predicate Readable(examples: seq<Example>, files: Files) {
    forall i :: 0 <= i < |examples| && examples[i].file != "" ==> examples[i].file in files
  }

  function Inlined(ex: Example, files: Files): WireExample {
    WireExample(ex.name, ex.description, if ex.file != "" && ex.file in files then files[ex.file] else ex.hcl)
  }

  predicate AllInlined(examples: seq<Example>, files: Files, out: seq<WireExample>) {
    |out| == |examples| && forall i :: 0 <= i < |examples| ==> out[i] == Inlined(examples[i], files)
  }

  /** `resolveExamples`: all examples travel inline, or none do. */
  method ResolveExamples(examples: seq<Example>, files: Files) returns (r: Option<seq<WireExample>>)
    ensures r.Some? <==> Readable(examples, files)
    ensures r.Some? ==> AllInlined(examples, files, r.value)
    ensures r.Some? ==> |r.value| == |examples| && forall i :: 0 <= i < |examples| ==>
      && r.value[i].name == examples[i].name && r.value[i].description == examples[i].description
      && (examples[i].file != "" ==> examples[i].file in files && r.value[i].hcl == files[examples[i].file])
      && (examples[i].file == "" ==> r.value[i].hcl == examples[i].hcl)
  {
    var out: seq<WireExample> := [];
    for i := 0 to |examples|
      invariant |out| == i
      invariant forall j :: 0 <= j < i ==> examples[j].file == "" || examples[j].file in files
      invariant forall j :: 0 <= j < i ==> out[j] == Inlined(examples[j], files)
    {
      var ex := examples[i];
      var hcl := ex.hcl;
      if ex.file != "" {
        if ex.file !in files {
          return None;
        }
        hcl := files[ex.file];
      }
      out := out + [WireExample(ex.name, ex.description, hcl)];
    }
    return Some(out);
  }

  /** The Info response says exactly what the spec declares, in keyed form. */
  predicate InfoFor(spec: Spec, files: Files, info: Info) {
    && AllInlined(spec.examples, files, info.examples)
    && info.name == spec.name && info.version == spec.version && info.description == spec.description
    && info.sourceUrl == spec.sourceUrl && info.capabilities == spec.capabilities
    && info.platforms == spec.platforms && info.environments == spec.environments
    && info.containerImage == spec.containerImage && info.permissions == spec.permissions
    && info.config == SchemaInfo(spec.config) && info.input == SchemaInfo(spec.input)
    && info.output == SchemaInfo(spec.output) && info.secrets == SecretMap(spec.secrets)
    && info.supportedFeatures == FeaturesOf(spec) && info.maxChunkBytes == spec.maxChunkBytes
    && info.protocolVersion == WIRE_PROTOCOL_VERSION
  }

  method DeriveInfo(spec: Spec, files: Files) returns (r: Option<Info>)
    ensures r.Some? <==> SpecValid(spec) && Readable(spec.examples, files)
    ensures r.Some? ==> InfoFor(spec, files, r.value)
  {
    var err := Validate(spec);
    if err.Some? {
      return None;
    }
    var examples := ResolveExamples(spec.examples, files);
    if examples.None? {
      return None;
    }
    var features := SupportedFeatures(spec);
    var config := AdapterSchemaProto(spec.config);
    var input := AdapterSchemaProto(spec.input);
    var output := AdapterSchemaProto(spec.output);
    var secrets := BuildSecretMap(spec.secrets);
    return Some(Info(spec.name, spec.version, spec.description, spec.sourceUrl, spec.capabilities,
                     spec.platforms, spec.environments, spec.containerImage, config, input, output,
                     secrets, spec.permissions, examples.value, WIRE_PROTOCOL_VERSION, features,
                     spec.maxChunkBytes));
  }

  // ----- Nothing is lost

  lemma {:induction false} SchemaMapKey(fields: seq<SchemaField>, n: string)
    ensures n in SchemaMap(fields) <==> exists i :: 0 <= i < |fields| && fields[i].name == n
  {
    if fields != [] {
      var front, last := fields[..|fields| - 1], fields[|fields| - 1];
      assert fields == front + [last];
      SchemaMapKey(front, n);
      if n == last.name {
        assert fields[|fields| - 1].name == n;
      }
      if exists i :: 0 <= i < |front| && front[i].name == n {
        var i :| 0 <= i < |front| && front[i].name == n;
        assert fields[i].name == n;
      }
    }
  }

  /** A schema with distinct names keeps every field, with all its attributes, under its own name. */
  lemma {:induction false} SchemaMapLossless(fields: seq<SchemaField>)
    requires DistinctFields(fields)
    ensures |SchemaMap(fields)| == |fields|
    ensures forall i :: 0 <= i < |fields| ==>
      fields[i].name in SchemaMap(fields) && Carries(SchemaMap(fields)[fields[i].name], fields[i])
  {
    if fields != [] {
      var front, last := fields[..|fields| - 1], fields[|fields| - 1];
      SchemaMapLossless(front);
      SchemaMapKey(front, last.name);
      assert forall i :: 0 <= i < |front| ==> front[i] == fields[i];
    }
  }

  lemma {:induction false} SecretMapKey(secrets: seq<Secret>, n: string)
    ensures n in SecretMap(secrets) <==> exists i :: 0 <= i < |secrets| && secrets[i].name == n
  {
    if secrets != [] {
      var front, last := secrets[..|secrets| - 1], secrets[|secrets| - 1];
      assert secrets == front + [last];
      SecretMapKey(front, n);
      if n == last.name {
        assert secrets[|secrets| - 1].name == n;
      }
      if exists i :: 0 <= i < |front| && front[i].name == n {
        var i :| 0 <= i < |front| && front[i].name == n;
        assert secrets[i].name == n;
      }
    }
  }

  lemma {:induction false} SecretMapLossless(secrets: seq<Secret>)
    requires DistinctSecrets(secrets)
    ensures |SecretMap(secrets)| == |secrets|
    ensures forall i :: 0 <= i < |secrets| ==>
      secrets[i].name in SecretMap(secrets) && SecretMap(secrets)[secrets[i].name] == secrets[i].description
  {
    if secrets != [] {
      var front, last := secrets[..|secrets| - 1], secrets[|secrets| - 1];
      SecretMapLossless(front);
      SecretMapKey(front, last.name);
      assert forall i :: 0 <= i < |front| ==> front[i] == secrets[i];
    }
  }

  lemma FieldInMap(fields: seq<SchemaField>, x: SchemaField)
    requires DistinctFields(fields)
    ensures x in fields <==> x.name in SchemaMap(fields) && Carries(SchemaMap(fields)[x.name], x)
  {
    SchemaMapLossless(fields);
    if x.name in SchemaMap(fields) && Carries(SchemaMap(fields)[x.name], x) {
      SchemaMapKey(fields, x.name);
      var i :| 0 <= i < |fields| && fields[i].name == x.name;
      assert fields[i] == x;
    }
  }

  /** The keyed form determines the declared fields, up to their order. */
  lemma SchemaMapInjective(a: seq<SchemaField>, b: seq<SchemaField>)
    requires DistinctFields(a) && DistinctFields(b) && SchemaMap(a) == SchemaMap(b)
    ensures multiset(a) == multiset(b)
  {
    forall x ensures x in a <==> x in b {
      FieldInMap(a, x);
      FieldInMap(b, x);
    }
    SameElements(a, b);
  }

  lemma SecretInMap(secrets: seq<Secret>, x: Secret)
    requires DistinctSecrets(secrets)
    ensures x in secrets <==> x.name in SecretMap(secrets) && SecretMap(secrets)[x.name] == x.description
  {
    SecretMapLossless(secrets);
    if x.name in SecretMap(secrets) && SecretMap(secrets)[x.name] == x.description {
      SecretMapKey(secrets, x.name);
      var i :| 0 <= i < |secrets| && secrets[i].name == x.name;
      assert secrets[i] == x;
    }
  }

  lemma SecretMapInjective(a: seq<Secret>, b: seq<Secret>)
    requires DistinctSecrets(a) && DistinctSecrets(b) && SecretMap(a) == SecretMap(b)
    ensures multiset(a) == multiset(b)
  {
    forall x ensures x in a <==> x in b {
      SecretInMap(a, x);
      SecretInMap(b, x);
    }
    SameElements(a, b);
  }
}
