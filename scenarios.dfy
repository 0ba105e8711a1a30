/** Clients of `Plugin` that rely only on its contracts: a compatible
    plugin, a missing manifest, an incompatible host, a manifest missing both
    name and version, and a reload after a failure. */
module PluginScenarios {
  import opened Host
  import opened ManifestChecks
  import opened Plugins

  /** A host at version `host` whose `semver` accepts exactly `version` and
      whose range check accepts exactly (`host`, `range`). */
  function SemverEnvironment(existing: set<string>, manifest: Manifest, host: string,
                             version: string, range: string): Environment
  {
    Environment(
      existing,
      _ => manifest,
      dir => if dir == "/plugins/foo/entities" then map["Image" := Resource(1)] else map[],
      _ => [],
      _ => Resource(0),
      host,
      v => v == version,
      (h, r) => h == host && r == range)
  }

  /** The paths the loader derives for the plugin at `/plugins/foo`. */
  lemma FooPaths()
    ensures ManifestPath("/plugins/foo") == "/plugins/foo/plugin.json"
    ensures "/plugins/foo" + "/entities" == "/plugins/foo/entities"
    ensures "/plugins/foo" + "/api/controllers" == "/plugins/foo/api/controllers"
    ensures "/plugins/foo" + "/services" == "/plugins/foo/services"
  {
  }

  /** A valid manifest, host 1.2.0 within ^1.0.0, and only `entities/`. */
  method CompatiblePlugin()
  {
    var manifest := Manifest(Some("foo"), Some("1.0.0"), Some("^1.0.0"));
    var env := SemverEnvironment({"/plugins/foo/plugin.json", "/plugins/foo/entities"},
                                 manifest, "1.2.0", "1.0.0", "^1.0.0");
    var p := new Plugin("/plugins/foo");
    FooPaths();
    assert MatchesNamePattern("foo") by {
      assert "foo"[1..] == "oo" && "oo"[1..] == "o";
    }
    p.Load(env);
    assert p.IsValid();
    assert p.name == Some("foo") && p.version == Some("1.0.0");
    assert p.entities == Some(map["Image" := Resource(1)]);
    assert p.controllers == Some(map[]) && p.services == Some(map[]);
    assert p.translations == Some(map[]);
    assert p.errors == [];
  }

  /** No `plugin.json`: invalid, and nothing is committed. */
  method MissingManifest()
  {
    var manifest := Manifest(Some("foo"), Some("1.0.0"), Some("^1.0.0"));
    var env := SemverEnvironment({"/plugins/foo/entities"}, manifest, "1.2.0", "1.0.0", "^1.0.0");
    var p := new Plugin("/plugins/foo");
    FooPaths();
    p.Load(env);
    assert !p.IsValid();
    assert p.name == None && p.entities == None;
    assert p.errors == ["plugin.json not found"];
  }

  /** Host 2.1.0 outside ^3.0.0: the reason names the host version. */
  method IncompatibleHost()
  {
    var manifest := Manifest(Some("foo"), Some("1.0.0"), Some("^3.0.0"));
    var env := SemverEnvironment({"/plugins/foo/plugin.json"}, manifest, "2.1.0", "1.0.0", "^2.0.0");
    var p := new Plugin("/plugins/foo");
    FooPaths();
    assert MatchesNamePattern("foo") by {
      assert "foo"[1..] == "oo" && "oo"[1..] == "o";
    }
    p.Load(env);
    assert !p.IsValid() && p.name == None;
    assert Reason(Incompatible("2.1.0"))
      == "Incompatible with the current version of Tscord (v2.1.0)";
    assert p.errors == ["Incompatible with the current version of Tscord (v2.1.0)"];
  }

  /** Name and version both missing: the name check comes first. */
  method MissingNameAndVersion()
  {
    var manifest := Manifest(None, Some(""), Some("^1.0.0"));
    var env := SemverEnvironment({"/plugins/foo/plugin.json"}, manifest, "1.2.0", "1.0.0", "^1.0.0");
    var p := new Plugin("/plugins/foo");
    FooPaths();
    p.Load(env);
    assert !p.IsValid();
    assert p.errors == ["Missing name in plugin.json"];
  }

  /** Once invalid, a later successful load leaves the plugin invalid. */
  method InvalidIsAbsorbing()
  {
    var manifest := Manifest(Some("foo"), Some("1.0.0"), Some("^1.0.0"));
    var missing := SemverEnvironment({}, manifest, "1.2.0", "1.0.0", "^1.0.0");
    var present := SemverEnvironment({"/plugins/foo/plugin.json"}, manifest, "1.2.0", "1.0.0", "^1.0.0");
    var p := new Plugin("/plugins/foo");
    FooPaths();
    p.Load(missing);
    assert MatchesNamePattern("foo") by {
      assert "foo"[1..] == "oo" && "oo"[1..] == "o";
    }
    p.Load(present);
    assert !p.IsValid() && p.name == Some("foo");
  }
}
