/** The strict host validator: its rules, and which one it reports. */
module StrictManifest {
  import opened Wire
  import opened Text
  import opened Patterns
  import opened Manifest

  // ----- The rules

  ghost predicate PlatformValid(p: Platform) {
    Matches(OS_RE, p.os) && Matches(ARCH_RE, p.arch)
  }

  ghost predicate FieldsValid(fields: SchemaDoc) {
    forall n :: n in fields ==> Matches(TYPE_RE, fields[n].typ)
  }

  ghost predicate EnvironmentValid(env: string) {
    env == "*" || Matches(ENV_RE, env)
  }

  /** What `Manifest.Validate` asks for, in terms of what the regular expressions denote. */
  ghost predicate ManifestValid(m: Manifest) {
    && 1 <= m.schemaVersion <= MANIFEST_SCHEMA_VERSION
    && Matches(NAME_RE, m.name) && Matches(VERSION_RE, m.version)
    && m.sourceUrl != "" && MatchesPrefix(SCHEME_RE, m.sourceUrl)
    && m.protocolVersion == PROTOCOL_VERSION
    && m.platforms != [] && (forall i :: 0 <= i < |m.platforms| ==> PlatformValid(m.platforms[i]))
    && FieldsValid(m.config) && FieldsValid(m.input) && FieldsValid(m.output)
    && (forall i :: 0 <= i < |m.secrets| ==> m.secrets[i].name != "")
    && (forall i :: 0 <= i < |m.environments| ==> EnvironmentValid(m.environments[i]))
    && (m.image.Some? ==> m.image.value != "")
  }

  /** One rule at one place of the document: what a failure reports. */
  datatype Rule =
    | SchemaVersionRange
    | NamePattern
    | VersionPattern
    | UrlRequired
    | UrlScheme
    | ProtocolRange
    | PlatformRequired
    | OsPattern(index: nat)
    | ArchPattern(index: nat)
    | ConfigType(field: string)
    | InputType(field: string)
    | OutputType(field: string)
    | SecretName(index: nat)
    | EnvironmentPattern(index: nat)
    | ImageRef

  ghost predicate Broken(m: Manifest, r: Rule) {
    match r
    case SchemaVersionRange => !(1 <= m.schemaVersion <= MANIFEST_SCHEMA_VERSION)
    case NamePattern => !Matches(NAME_RE, m.name)
    case VersionPattern => !Matches(VERSION_RE, m.version)
    case UrlRequired => m.sourceUrl == ""
    case UrlScheme => !MatchesPrefix(SCHEME_RE, m.sourceUrl)
    case ProtocolRange => m.protocolVersion != PROTOCOL_VERSION
    case PlatformRequired => m.platforms == []
    case OsPattern(i) => i < |m.platforms| && !Matches(OS_RE, m.platforms[i].os)
    case ArchPattern(i) => i < |m.platforms| && !Matches(ARCH_RE, m.platforms[i].arch)
    case ConfigType(n) => n in m.config && !Matches(TYPE_RE, m.config[n].typ)
    case InputType(n) => n in m.input && !Matches(TYPE_RE, m.input[n].typ)
    case OutputType(n) => n in m.output && !Matches(TYPE_RE, m.output[n].typ)
    case SecretName(i) => i < |m.secrets| && m.secrets[i].name == ""
    case EnvironmentPattern(i) => i < |m.environments| && !EnvironmentValid(m.environments[i])
    case ImageRef => m.image == Some("")
  }

  const GROUPS: nat := 14

  /** The order of the checks; os and arch of one platform are checked together. */
  function Group(r: Rule): (g: nat)
    ensures g < GROUPS
  {
    match r
    case SchemaVersionRange => 0
    case NamePattern => 1
    case VersionPattern => 2
    case UrlRequired => 3
    case UrlScheme => 4
    case ProtocolRange => 5
    case PlatformRequired => 6
    case OsPattern(_) => 7
    case ArchPattern(_) => 7
    case ConfigType(_) => 8
    case InputType(_) => 9
    case OutputType(_) => 10
    case SecretName(_) => 11
    case EnvironmentPattern(_) => 12
    case ImageRef => 13
  }

  /** The order within one group; the fields of a schema come in the arbitrary order of a map iteration. */
  function Place(r: Rule): nat {
    match r
    case OsPattern(i) => 2 * i
    case ArchPattern(i) => 2 * i + 1
    case SecretName(i) => i
    case EnvironmentPattern(i) => i
    case _ => 0
  }

  predicate Precedes(q: Rule, r: Rule) {
    Group(q) < Group(r) || (Group(q) == Group(r) && Place(q) < Place(r))
  }

  /** The first broken rule from group `lo` on. */
  ghost predicate FirstFrom(m: Manifest, lo: nat, r: Rule) {
    && Broken(m, r) && lo <= Group(r)
    && forall q :: Broken(m, q) && lo <= Group(q) ==> !Precedes(q, r)
  }

  /** The verdict of the groups from `lo` up to `hi`: the first broken rule among them, or that there is none. */
  ghost predicate Reports(m: Manifest, lo: nat, hi: nat, bad: Option<Rule>) {
    match bad
    case None => forall q :: Broken(m, q) && lo <= Group(q) ==> hi <= Group(q)
    case Some(r) => FirstFrom(m, lo, r) && Group(r) < hi
  }

  lemma ReportsChain(m: Manifest, lo: nat, mid: nat, hi: nat, bad: Option<Rule>)
    requires lo <= mid <= hi && Reports(m, lo, mid, None) && Reports(m, mid, hi, bad)
    ensures Reports(m, lo, hi, bad)
  {
  }

  lemma ValidBreaksNone(m: Manifest, r: Rule)
    requires ManifestValid(m)
    ensures !Broken(m, r)
  {
    assert r.OsPattern? || r.ArchPattern? ==> r.index < |m.platforms| ==> PlatformValid(m.platforms[r.index]);
  }

  lemma PlatformsUnbroken(m: Manifest)
    requires forall r :: !Broken(m, r)
    ensures forall i :: 0 <= i < |m.platforms| ==> PlatformValid(m.platforms[i])
  {
    forall i | 0 <= i < |m.platforms| ensures PlatformValid(m.platforms[i]) {
      assert !Broken(m, OsPattern(i)) && !Broken(m, ArchPattern(i));
    }
  }

  lemma FieldsUnbroken(m: Manifest)
    requires forall r :: !Broken(m, r)
    ensures FieldsValid(m.config) && FieldsValid(m.input) && FieldsValid(m.output)
  {
    forall n | n in m.config ensures Matches(TYPE_RE, m.config[n].typ) {
      assert !Broken(m, ConfigType(n));
    }
    forall n | n in m.input ensures Matches(TYPE_RE, m.input[n].typ) {
      assert !Broken(m, InputType(n));
    }
    forall n | n in m.output ensures Matches(TYPE_RE, m.output[n].typ) {
      assert !Broken(m, OutputType(n));
    }
  }

  lemma ListsUnbroken(m: Manifest)
    requires forall r :: !Broken(m, r)
    ensures forall i :: 0 <= i < |m.secrets| ==> m.secrets[i].name != ""
    ensures forall i :: 0 <= i < |m.environments| ==> EnvironmentValid(m.environments[i])
  {
    forall i | 0 <= i < |m.secrets| ensures m.secrets[i].name != "" {
      assert !Broken(m, SecretName(i));
    }
    forall i | 0 <= i < |m.environments| ensures EnvironmentValid(m.environments[i]) {
      assert !Broken(m, EnvironmentPattern(i));
    }
  }

  lemma NoneBrokenValid(m: Manifest)
    requires forall r :: !Broken(m, r)
    ensures ManifestValid(m)
  {
    PlatformsUnbroken(m);
    FieldsUnbroken(m);
    ListsUnbroken(m);
    assert !Broken(m, SchemaVersionRange) && !Broken(m, NamePattern) && !Broken(m, VersionPattern);
    assert !Broken(m, UrlRequired) && !Broken(m, UrlScheme) && !Broken(m, ProtocolRange);
    assert !Broken(m, PlatformRequired) && !Broken(m, ImageRef);
  }

  lemma VersionRule(m: Manifest)
    ensures Broken(m, VersionPattern) <==> !IsVersion(m.version)
  {
    VersionDecided(m.version);
  }

  /** The verdict of a group that has one rule only. */
  lemma LoneRule(m: Manifest, r: Rule, bad: Option<Rule>)
    requires forall q :: Group(q) == Group(r) ==> q == r
    requires bad == (if Broken(m, r) then Some(r) else None)
    ensures Reports(m, Group(r), Group(r) + 1, bad)
  {
  }

  /** The document is valid exactly when no rule is broken anywhere. */
  lemma ValidIffNoneBroken(m: Manifest)
    ensures ManifestValid(m) <==> forall r :: !Broken(m, r)
  {
    if ManifestValid(m) {
      forall r ensures !Broken(m, r) {
        ValidBreaksNone(m, r);
      }
    }
    if forall r :: !Broken(m, r) {
      NoneBrokenValid(m);
    }
  }

  // ----- The validator

  method ValidateNaming(m: Manifest) returns (bad: Option<Rule>)
    ensures Reports(m, 0, 2, bad)
  {
    NameDecided(m.name);
    if m.schemaVersion < 1 || m.schemaVersion > MANIFEST_SCHEMA_VERSION {
      return Some(SchemaVersionRange);
    }
    if !IsName(m.name) {
      return Some(NamePattern);
    }
    return None;
  }

  method ValidateVersion(m: Manifest) returns (bad: Option<Rule>)
    ensures Reports(m, 2, 3, bad)
  {
    VersionRule(m);
    bad := if IsVersion(m.version) then None else Some(VersionPattern);
    LoneRule(m, VersionPattern, bad);
  }

  method ValidateSource(m: Manifest) returns (bad: Option<Rule>)
    ensures Reports(m, 3, 6, bad)
  {
    SchemeDecided(m.sourceUrl);
    if m.sourceUrl == "" {
      return Some(UrlRequired);
    }
    if !HasScheme(m.sourceUrl) {
      return Some(UrlScheme);
    }
    if m.protocolVersion != PROTOCOL_VERSION {
      return Some(ProtocolRange);
    }
    return None;
  }

  method ValidatePlatforms(m: Manifest) returns (bad: Option<Rule>)
    ensures Reports(m, 6, 8, bad)
  {
    if |m.platforms| == 0 {
      return Some(PlatformRequired);
    }
    for i := 0 to |m.platforms|
      invariant forall j :: 0 <= j < i ==> PlatformValid(m.platforms[j])
    {
      var p := m.platforms[i];
      OsDecided(p.os);
      ArchDecided(p.arch);
      if !IsOs(p.os) {
        return Some(OsPattern(i));
      }
      if !IsArch(p.arch) {
        return Some(ArchPattern(i));
      }
    }
    return None;
  }

  /** `validateSchema`: some field of a type that is not accepted, if there is one. */
  method ValidateFields(fields: SchemaDoc) returns (bad: Option<string>)
    ensures bad.None? <==> FieldsValid(fields)
    ensures bad.Some? ==> bad.value in fields && !Matches(TYPE_RE, fields[bad.value].typ)
  {
    var rest := fields.Keys;
    while rest != {}
      invariant rest <= fields.Keys
      invariant forall n :: n in fields && n !in rest ==> Matches(TYPE_RE, fields[n].typ)
      decreases |rest|
    {
      var n :| n in rest;
      TypeDecided(fields[n].typ);
      if !IsFieldType(fields[n].typ) {
        return Some(n);
      }
      rest := rest - {n};
    }
    return None;
  }

  method ValidateSchemas(m: Manifest) returns (bad: Option<Rule>)
    ensures Reports(m, 8, 11, bad)
  {
    var field := ValidateFields(m.config);
    if field.Some? {
      return Some(ConfigType(field.value));
    }
    field := ValidateFields(m.input);
    if field.Some? {
      return Some(InputType(field.value));
    }
    field := ValidateFields(m.output);
    if field.Some? {
      return Some(OutputType(field.value));
    }
    return None;
  }

  method ValidateSecrets(m: Manifest) returns (bad: Option<Rule>)
    ensures Reports(m, 11, 12, bad)
  {
    for i := 0 to |m.secrets|
      invariant forall j :: 0 <= j < i ==> m.secrets[j].name != ""
    {
      if m.secrets[i].name == "" {
        return Some(SecretName(i));
      }
    }
    return None;
  }

  method ValidateEnvironments(m: Manifest) returns (bad: Option<Rule>)
    ensures Reports(m, 12, 13, bad)
  {
    for i := 0 to |m.environments|
      invariant forall j :: 0 <= j < i ==> EnvironmentValid(m.environments[j])
    {
      EnvDecided(m.environments[i]);
      if m.environments[i] != "*" && !IsEnv(m.environments[i]) {
        return Some(EnvironmentPattern(i));
      }
    }
    return None;
  }

  /** `Manifest.Validate`: passes exactly the valid documents, and otherwise reports the first broken rule. */
  method ValidateManifest(m: Manifest) returns (bad: Option<Rule>)
    ensures bad.None? <==> ManifestValid(m)
    ensures bad.Some? ==> FirstFrom(m, 0, bad.value)
  {
    ValidIffNoneBroken(m);
    bad := ValidateNaming(m);
    if bad.Some? {
      return;
    }
    bad := ValidateVersion(m);
    ReportsChain(m, 0, 2, 3, bad);
    if bad.Some? {
      return;
    }
    bad := ValidateSource(m);
    ReportsChain(m, 0, 3, 6, bad);
    if bad.Some? {
      return;
    }
    bad := ValidatePlatforms(m);
    ReportsChain(m, 0, 6, 8, bad);
    if bad.Some? {
      return;
    }
    bad := ValidateSchemas(m);
    ReportsChain(m, 0, 8, 11, bad);
    if bad.Some? {
      return;
    }
    bad := ValidateSecrets(m);
    ReportsChain(m, 0, 11, 12, bad);
    if bad.Some? {
      return;
    }
    bad := ValidateEnvironments(m);
    ReportsChain(m, 0, 12, 13, bad);
    if bad.Some? {
      return;
    }
    bad := if m.image.Some? && m.image.value == "" then Some(ImageRef) else None;
    assert Reports(m, 13, GROUPS, bad);
    ReportsChain(m, 0, 13, GROUPS, bad);
  }
}
