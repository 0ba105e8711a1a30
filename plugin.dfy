/** The `Plugin` class: one instance per plugin directory. `Load` validates
    the manifest and, only when every check passes, commits the plugin's
    name, version and resource tables. */
module Plugins {
  import opened Host
  import opened ManifestChecks
  import opened Locales

  class Plugin {
    const path: string
    /** `None` until a load succeeds (the TypeScript field is `undefined`). */
    var name: Option<string>
    var version: Option<string>
    var valid: bool
    var entities: Option<map<string, Resource>>
    var controllers: Option<map<string, Resource>>
    var services: Option<map<string, Resource>>
    var translations: Option<map<string, Resource>>
    /** The reasons passed to `stopLoad`, oldest first; stands for what is
        written to the error console. */
    var errors: seq<string>

    /** Fields are committed together, and a committed name is one the name
        check accepts. */
    ghost predicate Coherent()
      reads this
    {
      && (name.Some? <==> version.Some?)
      && (name.Some? <==> entities.Some?)
      && (name.Some? <==> controllers.Some?)
      && (name.Some? <==> services.Some?)
      && (name.Some? <==> translations.Some?)
      && (name.Some? ==> MatchesNamePattern(name.value) && version.value != "")
    }

    constructor (path: string)
      ensures this.path == path
      ensures valid && errors == []
      ensures name == None && version == None
      ensures entities == None && controllers == None && services == None && translations == None
      ensures Coherent()
    {
      this.path := path;
      valid := true;
      errors := [];
      name, version := None, None;
      entities, controllers, services, translations := None, None, None, None;
    }

    function LocalesGlob(): string
    {
      path + "/i18n/*.{ts,js}"
    }

    /** `import(dir)` when `dir` exists, the empty table otherwise. The three
        getters below: a table that is not empty comes from an existing
        directory, and an existing directory yields its import. */
    static function ImportIfPresent(env: Environment, dir: string): map<string, Resource>
    {
      if dir in env.existing then env.importExports(dir) else map[]
    }

    function GetEntities(env: Environment): (table: map<string, Resource>)
      ensures table != map[] ==> path + "/entities" in env.existing
      ensures path + "/entities" in env.existing ==> table == env.importExports(path + "/entities")
    {
      ImportIfPresent(env, path + "/entities")
    }

    function GetControllers(env: Environment): (table: map<string, Resource>)
      ensures table != map[] ==> path + "/api/controllers" in env.existing
      ensures path + "/api/controllers" in env.existing ==> table == env.importExports(path + "/api/controllers")
    {
      ImportIfPresent(env, path + "/api/controllers")
    }

    function GetServices(env: Environment): (table: map<string, Resource>)
      ensures table != map[] ==> path + "/services" in env.existing
      ensures path + "/services" in env.existing ==> table == env.importExports(path + "/services")
    {
      ImportIfPresent(env, path + "/services")
    }

    /** The directories whose presence enables a resource table. */
    function ResourceDirectories(): set<string>
    {
      {path + "/entities", path + "/api/controllers", path + "/services"}
    }

    /** Marks the plugin invalid and records why. */
    method StopLoad(reason: string)
      modifies this`valid, this`errors
      ensures !valid
      ensures errors == old(errors) + [reason]
    {
      valid := false;
      errors := errors + [reason];
    }

    /** Reads the locale files that the glob LocalesGlob() matches and
        stores each default export under the file's locale key. */
    method GetTranslations(env: Environment) returns (table: map<string, Resource>)
      ensures table == TranslationsOf(env.resolveGlob(LocalesGlob()), env.importDefault)
      ensures forall key :: key in table <==>
        exists i :: 0 <= i < |env.resolveGlob(LocalesGlob())|
          && LocaleKey(env.resolveGlob(LocalesGlob())[i]) == key
    {
      table := map[];
      var localesPath := env.resolveGlob(LocalesGlob());
      for i := 0 to |localesPath|
        invariant table == TranslationsOf(localesPath[..i], env.importDefault)
      {
        var localeFile := localesPath[i];
        var locale := LocaleKey(localeFile);
        assert localesPath[..i + 1][..i] == localesPath[..i];
        table := table[locale := env.importDefault(localeFile)];
      }
      assert localesPath[..|localesPath|] == localesPath;
      forall key ensures key in table <==>
        exists i :: 0 <= i < |localesPath| && LocaleKey(localesPath[i]) == key
      {
        TranslationKeys(localesPath, env.importDefault, key);
      }
    }

    /** Runs the manifest checks in order and stops at the first failure;
        when all pass, commits the manifest's name and version and then the
        four resource tables. */
    method Load(env: Environment)
      modifies this
      ensures valid == (old(valid) && Validate(path, env).None?)
      ensures Validate(path, env).Some? ==>
        && errors == old(errors) + [Reason(Validate(path, env).value)]
        && name == old(name) && version == old(version)
        && entities == old(entities) && controllers == old(controllers)
        && services == old(services) && translations == old(translations)
      ensures Validate(path, env).None? ==>
        && errors == old(errors)
        && name == env.readManifest(ManifestPath(path)).name
        && version == env.readManifest(ManifestPath(path)).version
        && entities == Some(GetEntities(env))
        && controllers == Some(GetControllers(env))
        && services == Some(GetServices(env))
        && translations == Some(TranslationsOf(env.resolveGlob(LocalesGlob()), env.importDefault))
      ensures old(Coherent()) ==> Coherent()
    {
      if ManifestPath(path) !in env.existing {
        StopLoad(Reason(ManifestNotFound));
        return;
      }
      var pluginConfig := env.readManifest(ManifestPath(path));
      if Falsy(pluginConfig.name) {
        StopLoad(Reason(MissingName));
        return;
      }
      if Falsy(pluginConfig.version) {
        StopLoad(Reason(MissingVersion));
        return;
      }
      if Falsy(pluginConfig.tscordRequiredVersion) {
        StopLoad(Reason(MissingRequiredVersion));
        return;
      }
      if !MatchesNamePattern(pluginConfig.name.value) {
        StopLoad(Reason(InvalidName));
        return;
      }
      if !env.semverValid(pluginConfig.version.value) {
        StopLoad(Reason(InvalidVersion));
        return;
      }
      if !env.semverSatisfies(env.templateVersion, pluginConfig.tscordRequiredVersion.value) {
        StopLoad(Reason(Incompatible(env.templateVersion)));
        return;
      }
      name := pluginConfig.name;
      version := pluginConfig.version;
      entities := Some(GetEntities(env));
      controllers := Some(GetControllers(env));
      services := Some(GetServices(env));
      var table := GetTranslations(env);
      translations := Some(table);
    }

    /** `isValid()`: the flag. */
    function IsValid(): bool
      reads this
    {
      valid
    }
  }

  /** A missing resource directory yields an empty table and has no say in
      whether the plugin is valid. */
  lemma ResourceDirectoriesDoNotAffectValidity(p: Plugin, env: Environment)
    ensures forall dir :: dir in p.ResourceDirectories() && dir !in env.existing ==>
      Plugin.ImportIfPresent(env, dir) == map[]
    ensures Validate(p.path, env.(existing := env.existing - p.ResourceDirectories())) == Validate(p.path, env)
    ensures Validate(p.path, env.(existing := env.existing + p.ResourceDirectories())) == Validate(p.path, env)
  {
  }
}
