# Plugin loader of tscord, modelled in Dafny

tscord is a bootstrap harness for a Discord bot. Its one piece of local
logic is the `Plugin` class (`src/utils/classes/Plugin.ts`): given a plugin
directory it checks the manifest `plugin.json` with a fixed, short-circuiting
sequence of checks, and only when every check passes does it commit the
plugin's name and version and its four resource tables (entities,
controllers, services and translations).

The model:

- `Host` (host.dfy): what the outside world supplies. The file system is the
  set of paths `fs.existsSync` accepts. Dynamic `import()`, glob resolution
  (`resolve`), the host version (`generalConfig.__templateVersion`) and the
  predicates `semver.valid` and `semver.satisfies` are fields of an
  `Environment` value. They are uninterpreted: nothing about semantic-version
  ranges is assumed. A manifest field is `Option<string>`: `None` is a
  missing key.
- `JsStrings` (js_strings.dfy): JavaScript's `split` with a one-character
  separator, its inverse `Join`, and `IndexOf` / `LastIndexOf`, with the
  round trips and the position characterisations of the first and last
  piece.
- `ManifestChecks` (manifest_checks.dfy): the seven checks of `load`, the
  reason each reports, and `Validate`, the first failing check. An
  independent per-check predicate `Fails` with an order `Rank` is
  the reference: `Validate` reports exactly the first check in
  order that fails.
- `Locales` (locales.dfy): the locale key derived from a file path, and
  `TranslationsOf`, the table `getTranslations` builds.
- `Plugins` (plugin.dfy): the `Plugin` class with the source's fields,
  `Load`, `StopLoad`, `GetTranslations` (a loop over the resolved locale
  files), the existence-gated `GetEntities` / `GetControllers` /
  `GetServices`, and `IsValid`.
- `PluginScenarios` (scenarios.dfy): client methods proved from the
  contracts alone: a compatible plugin, a missing manifest, an incompatible
  host, a manifest missing both name and version, and a second successful
  load that leaves an invalid plugin invalid.

The model keeps the code's own spelling of the fallback locale key, the
literal `"unknow"` (not `"unknown"`).

## Model

| member | source | states |
|---|---|---|
| JsStrings.Split | src/utils/classes/Plugin.ts:83 | `split` always returns at least one piece, and no piece contains the separator |
| JsStrings.JoinSplit | src/utils/classes/Plugin.ts:83 | joining the pieces of a split with the separator gives the original string back |
| JsStrings.SplitJoin | src/utils/classes/Plugin.ts:83 | splitting a join of separator-free pieces gives those pieces back |
| JsStrings.SplitWithoutSeparator | src/utils/classes/Plugin.ts:83 | a string without the separator splits into itself alone |
| JsStrings.SplitAfterFirstSeparator | src/utils/classes/Plugin.ts:83 | the piece before the first separator comes first, then the pieces of the rest |
| JsStrings.IndexOf | src/utils/classes/Plugin.ts:83 | the position of the first occurrence of a character, or the length when there is none |
| JsStrings.LastIndexOf | src/utils/classes/Plugin.ts:83 | the position of the last occurrence of a character, or -1 when there is none |
| JsStrings.FirstPieceIsBeforeFirst | src/utils/classes/Plugin.ts:83 | `split(".")[0]` is the text before the first `.`, or the whole string |
| JsStrings.LastPieceIsAfterLast | src/utils/classes/Plugin.ts:83 | `split("/").at(-1)` is the text after the last `/`, or the whole string |
| ManifestChecks.Reason | src/utils/classes/Plugin.ts:30-45 | the reason literals passed to `stopLoad`; none is empty, and the incompatibility reason holds the host version between its prefix and the closing `)` |
| ManifestChecks.Falsy | src/utils/classes/Plugin.ts:36-38 | `!field`: a missing key and an empty string are both falsy, and a truthy field is a present, non-empty string |
| ManifestChecks.MatchesNamePattern | src/utils/classes/Plugin.ts:41 | the name regex as a matcher; an accepted name is non-empty and made of class characters only (the converse is NamePatternIff) |
| ManifestChecks.Validate | src/utils/classes/Plugin.ts:30-45 | the short-circuit check sequence; a reported failure is one whose check fails on its own, a missing manifest is reported exactly when `plugin.json` is absent, and an incompatibility names the running host version |
| ManifestChecks.NamePatternIff | src/utils/classes/Plugin.ts:41 | `/^[a-zA-Z0-9-_]+$/` accepts a name iff it is non-empty and every character is an ASCII letter, digit, `-` or `_` |
| ManifestChecks.ValidateReportsFirstFailure | src/utils/classes/Plugin.ts:30-45 | `load` reports failure `e` iff the check for `e` fails and every check before it passes |
| ManifestChecks.ValidateAcceptsIffNoCheckFails | src/utils/classes/Plugin.ts:30-45 | the checks pass iff none of the seven fails |
| ManifestChecks.PresentButEmptyIsMissing | src/utils/classes/Plugin.ts:36-38 | an empty `name`, `version` or `tscordRequiredVersion` is reported as missing, in field order |
| ManifestChecks.AcceptedManifest | src/utils/classes/Plugin.ts:30-45 | acceptance means the manifest exists, its three fields are non-empty, the name is identifier-shaped, `semver.valid(version)` holds and the host version satisfies the required range |
| ManifestChecks.ReasonIdentifiesFailure | src/utils/classes/Plugin.ts:30-45 | distinct failures report distinct reasons; the incompatibility reason determines the host version it embeds |
| ManifestChecks.ValidateIgnoresOtherPaths | src/utils/classes/Plugin.ts:30 | of the file system, the checks depend only on whether `plugin.json` exists |
| Locales.LocaleKey | src/utils/classes/Plugin.ts:83 | the locale key of a file path is never empty and never contains `/` or `.` |
| Locales.TranslationsOf | src/utils/classes/Plugin.ts:79-87 | the table the loop builds, file by file with overwriting; nothing is stored under the empty key |
| Locales.LocaleKeyByPosition | src/utils/classes/Plugin.ts:83 | the locale key is the text between the last `/` and the next `.`, or `"unknow"` when that text is empty; it never contains `/` or `.` |
| Locales.TranslationKeys | src/utils/classes/Plugin.ts:81-85 | the translation table has a key iff some locale file has that key |
| Locales.LastFileWins | src/utils/classes/Plugin.ts:82-85 | a key holds the table of the last file with that key, later files overwriting earlier ones |
| Plugins.Plugin.constructor | src/utils/classes/Plugin.ts:13-26 | a new plugin stores its path, is valid, and has no name, version or resource table |
| Plugins.Plugin.GetEntities | src/utils/classes/Plugin.ts:68-71 | a non-empty entity table comes from an existing `entities/`, and an existing one yields its import |
| Plugins.Plugin.GetControllers | src/utils/classes/Plugin.ts:63-66 | a non-empty controller table comes from an existing `api/controllers/`, and an existing one yields its import |
| Plugins.Plugin.GetServices | src/utils/classes/Plugin.ts:73-76 | a non-empty service table comes from an existing `services/`, and an existing one yields its import |
| Plugins.Plugin.StopLoad | src/utils/classes/Plugin.ts:58-61 | sets the flag to false and records the reason; writes nothing else |
| Plugins.Plugin.GetTranslations | src/utils/classes/Plugin.ts:78-88 | the loop over the resolved locale files builds exactly `TranslationsOf` of them, whose keys are the files' locale keys |
| Plugins.Plugin.Load | src/utils/classes/Plugin.ts:28-56 | the flag becomes `old(valid) && checks pass`, so it never goes from false to true; on failure only the flag and the first failure's reason change; on success name and version equal the manifest's, the three directory tables are the imports or empty, and the translations are `TranslationsOf`; fields stay committed together |
| Plugins.ResourceDirectoriesDoNotAffectValidity | src/utils/classes/Plugin.ts:52-76 | an absent `entities/`, `api/controllers/` or `services/` directory yields the empty table, and adding or removing those directories never changes the outcome of the checks |

## Left out

- Dynamic `import()` of the manifest, directory modules, locale files and `main.ts`: their results are opaque functions of the path in `Environment`.
- `fs.existsSync`: modelled as membership in a set of existing paths.
- `resolve` glob expansion: a function from the glob to the list of matched paths.
- `semver.valid` and `semver.satisfies`: uninterpreted predicates; the range semantics belong to the `semver` library.
- The async structure: `Load` is one sequential method. In the source, other code may observe the plugin between awaits (for example with `name` set but `entities` not yet); `Coherent` holds only for the sequential model.
- `stopLoad`'s message formatting (`Plugin <name or path> v<version> is not valid: …`): only the reason string is recorded, in `errors`.
- Manifest fields that are JSON values other than strings: a truthy non-string `name` makes `.match` throw in the source, and other non-strings go to `semver` unchecked; the model only has strings or absent keys.
- Errors that propagate from `load` (malformed JSON, a module that fails to import): not modelled.
- `loadEnv` (lines 90-93): its only effect is `dotenv.config`, which mutates the process environment. Its gate tests `services/`, not `.env`.
- `execMain`, `importCommands`, `importEvents` (lines 95-106): they only import modules for their side effects.
- `isValid` (line 108) and the getters for `path`, `name`, `version` and the four tables (lines 110-117): each returns a field. `IsValid` is a function with no contract of its own. What matters about the flag is stated by the constructor (it starts true), `StopLoad` (it only clears it) and `Load` (`valid == old(valid) && checks pass`, so it never goes from false to true). The other fields of `Plugin` are read directly.
- TranslationsOf: the table is a Dafny map, whereas the source fills a plain JavaScript object (`const translations = {}`, line 79, then `translations[locale] = …`, line 84). For a locale file whose key is `__proto__`, the source's assignment runs the `Object.prototype.__proto__` setter instead of storing an entry. That setter re-parents the object to the imported table, or does nothing when the default export is not an object. The model stores an ordinary entry under `"__proto__"`, so `TranslationKeys`, `LastFileWins` and `GetTranslations` describe the map, not the object, for that one key.
- `src/main.ts` (bootstrap orchestration) and `src/entities/Image.ts` (an ORM entity declaration): no logic of their own.
