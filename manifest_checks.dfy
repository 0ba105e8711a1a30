/** The manifest checks `Plugin.load` runs before it commits anything, in
    their fixed order, and the reason each failure reports. */
module ManifestChecks {
  import opened Host

  /** Why a plugin is rejected; one constructor per check, in check order. */
  datatype LoadError =
    | ManifestNotFound
    | MissingName
    | MissingVersion
    | MissingRequiredVersion
    | InvalidName
    | InvalidVersion
    | Incompatible(hostVersion: string)

  /** The reason string handed to `stopLoad` for each failure. */
  function Reason(e: LoadError): (r: string)
    ensures r != ""
    ensures e.Incompatible? ==>
      |r| == |IncompatiblePrefix| + |e.hostVersion| + 1
      && r[|IncompatiblePrefix|..|r| - 1] == e.hostVersion
  {
    match e
    case ManifestNotFound => "plugin.json not found"
    case MissingName => "Missing name in plugin.json"
    case MissingVersion => "Missing version in plugin.json"
    case MissingRequiredVersion => "Missing tscordRequiredVersion in plugin.json"
    case InvalidName => "Invalid name in plugin.json"
    case InvalidVersion => "Invalid version in plugin.json"
    case Incompatible(v) => IncompatiblePrefix + v + ")"
  }

  const IncompatiblePrefix := "Incompatible with the current version of Tscord (v"

  function ManifestPath(path: string): string
  {
    path + "/plugin.json"
  }

  /** JavaScript's `!field` for a manifest field that is a string or absent:
      both the missing key and the empty string are falsy. */
  predicate Falsy(field: Option<string>): (r: bool)
    ensures field.None? ==> r
    ensures field == Some("") ==> r
    ensures !r ==> field.Some? && |field.value| >= 1
  {
    field.None? || field.value == ""
  }

  /** One character of the class `[a-zA-Z0-9-_]`; the `-` after the range
      `0-9` is a literal dash. */
  predicate IsNameChar(ch: char)
  {
    ('a' <= ch <= 'z') || ('A' <= ch <= 'Z') || ('0' <= ch <= '9') || ch == '-' || ch == '_'
  }

  /** The regular expression `/^[a-zA-Z0-9-_]+$/` as a matcher: one character
      of the class, then either the end of the input or another match. A
      matched name is non-empty and made of class characters only;
      NamePatternIff adds the converse. */
  predicate MatchesNamePattern(s: string): (r: bool)
    ensures r ==> |s| >= 1 && forall i :: 0 <= i < |s| ==> IsNameChar(s[i])
  {
    |s| >= 1 && IsNameChar(s[0]) && (|s| == 1 || MatchesNamePattern(s[1..]))
  }

  /** The first failing check of `load` for the plugin at `path`, or `None`
      when every check passes. A reported failure is one whose check fails
      on its own; a missing manifest is always what is reported first. */
  function Validate(path: string, env: Environment): (r: Option<LoadError>)
    ensures r.Some? ==> Fails(r.value, path, env)
    ensures ManifestPath(path) !in env.existing <==> r == Some(ManifestNotFound)
    ensures r.Some? && r.value.Incompatible? ==> r.value.hostVersion == env.templateVersion
  {
    if ManifestPath(path) !in env.existing then Some(ManifestNotFound)
    else
      var m := env.readManifest(ManifestPath(path));
      if Falsy(m.name) then Some(MissingName)
      else if Falsy(m.version) then Some(MissingVersion)
      else if Falsy(m.tscordRequiredVersion) then Some(MissingRequiredVersion)
      else if !MatchesNamePattern(m.name.value) then Some(InvalidName)
      else if !env.semverValid(m.version.value) then Some(InvalidVersion)
      else if !env.semverSatisfies(env.templateVersion, m.tscordRequiredVersion.value) then
        Some(Incompatible(env.templateVersion))
      else None
  }

  /** The position of each check in the sequence. */
  function Rank(e: LoadError): nat
  {
    match e
    case ManifestNotFound => 0
    case MissingName => 1
    case MissingVersion => 2
    case MissingRequiredVersion => 3
    case InvalidName => 4
    case InvalidVersion => 5
    case Incompatible(_) => 6
  }

  /** Each check on its own, independently of the others: does the check
      that reports `e` object to this plugin? */
  predicate Fails(e: LoadError, path: string, env: Environment)
  {
    var m := env.readManifest(ManifestPath(path));
    match e
    case ManifestNotFound => ManifestPath(path) !in env.existing
    case MissingName => Falsy(m.name)
    case MissingVersion => Falsy(m.version)
    case MissingRequiredVersion => Falsy(m.tscordRequiredVersion)
    case InvalidName => !Falsy(m.name) && !MatchesNamePattern(m.name.value)
    case InvalidVersion => !Falsy(m.version) && !env.semverValid(m.version.value)
    case Incompatible(v) =>
      v == env.templateVersion && !Falsy(m.tscordRequiredVersion)
      && !env.semverSatisfies(v, m.tscordRequiredVersion.value)
  }

  /** The name check accepts exactly the non-empty strings made of ASCII
      letters, digits, `-` and `_`. */
  lemma {:induction false} NamePatternIff(s: string)
    ensures MatchesNamePattern(s) <==> |s| >= 1 && forall i :: 0 <= i < |s| ==> IsNameChar(s[i])
  {
    if |s| > 1 {
      NamePatternIff(s[1..]);
      if forall i :: 0 <= i < |s| ==> IsNameChar(s[i]) {
        assert forall i :: 0 <= i < |s[1..]| ==> IsNameChar(s[1..][i]) by {
          forall i | 0 <= i < |s[1..]| ensures IsNameChar(s[1..][i]) {
            assert s[1..][i] == s[i + 1];
          }
        }
      }
      if MatchesNamePattern(s) {
        forall i | 0 <= i < |s| ensures IsNameChar(s[i]) {
          if i > 0 { assert s[i] == s[1..][i - 1]; }
        }
      }
    }
  }

  /** The reported failure is the first check, in order, that fails: it
      fails itself and every earlier check passes, and conversely such a
      check is the one reported. */
  lemma ValidateReportsFirstFailure(path: string, env: Environment, e: LoadError)
    ensures Validate(path, env) == Some(e) <==>
      Fails(e, path, env) && forall e' :: Rank(e') < Rank(e) ==> !Fails(e', path, env)
  {
  }

  /** A plugin passes `load`'s checks exactly when no check fails. */
  lemma ValidateAcceptsIffNoCheckFails(path: string, env: Environment)
    ensures Validate(path, env).None? <==> forall e :: !Fails(e, path, env)
  {
  }

  /** A field that is present but empty is reported as missing, not as
      invalid, because the check is JavaScript falsiness. */
  lemma PresentButEmptyIsMissing(path: string, env: Environment)
    requires ManifestPath(path) in env.existing
    ensures var m := env.readManifest(ManifestPath(path));
      && (m.name == Some("") ==> Validate(path, env) == Some(MissingName))
      && (!Falsy(m.name) && m.version == Some("") ==> Validate(path, env) == Some(MissingVersion))
      && (!Falsy(m.name) && !Falsy(m.version) && m.tscordRequiredVersion == Some("") ==>
            Validate(path, env) == Some(MissingRequiredVersion))
  {
  }

  /** What acceptance guarantees about the manifest: non-empty fields, an
      identifier-shaped name, a valid semantic version and a satisfied host
      range. */
  lemma AcceptedManifest(path: string, env: Environment)
    requires Validate(path, env).None?
    ensures ManifestPath(path) in env.existing
    ensures var m := env.readManifest(ManifestPath(path));
      && m.name.Some? && m.version.Some? && m.tscordRequiredVersion.Some?
      && m.version.value != "" && m.tscordRequiredVersion.value != ""
      && (forall i :: 0 <= i < |m.name.value| ==> IsNameChar(m.name.value[i]))
      && m.name.value != ""
      && env.semverValid(m.version.value)
      && env.semverSatisfies(env.templateVersion, m.tscordRequiredVersion.value)
  {
  }

  /** Each reason names its failure: no two failures share a reason, and
      the incompatibility reason carries the host version. */
  lemma ReasonIdentifiesFailure(e1: LoadError, e2: LoadError)
    ensures Reason(e1) == Reason(e2) ==> e1 == e2
  {
  }

  /** Only the manifest file's presence matters to the checks: adding or
      removing other paths leaves the outcome as it was. */
  lemma ValidateIgnoresOtherPaths(path: string, env: Environment, other: set<string>)
    requires ManifestPath(path) !in other
    ensures Validate(path, env.(existing := env.existing + other)) == Validate(path, env)
    ensures Validate(path, env.(existing := env.existing - other)) == Validate(path, env)
  {
  }
}
