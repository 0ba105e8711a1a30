/** What the world outside a plugin supplies to the loader: which paths
    exist, what dynamic `import()` and glob resolution produce, the host's
    own version, and the two semantic-versioning predicates of the `semver`
    library. All of them are inputs here; none is computed. */
module Host {

  /** An opaque value produced by the module system: an exported class,
      a service object or a default-exported translation table. */
  datatype Resource = Resource(handle: nat)

  /** The fields of `plugin.json` the loader reads. `None` is a key that is
      absent from the file. */
  datatype Manifest = Manifest(
    name: Option<string>,
    version: Option<string>,
    tscordRequiredVersion: Option<string>)

  datatype Option<+T> = None | Some(value: T)

  datatype Environment = Environment(
    /** the paths for which `fs.existsSync` answers true */
    existing: set<string>,
    /** `import(<path>/plugin.json)`, the parsed manifest */
    readManifest: string -> Manifest,
    /** `import(<dir>)` of a directory module: export name to export */
    importExports: string -> map<string, Resource>,
    /** `resolve(<glob>)`: the file paths a glob pattern matches, in order */
    resolveGlob: string -> seq<string>,
    /** `(await import(<file>)).default` */
    importDefault: string -> Resource,
    /** `generalConfig.__templateVersion`, the running host's version */
    templateVersion: string,
    /** `semver.valid(v)` is truthy */
    semverValid: string -> bool,
    /** `semver.satisfies(version, range)` */
    semverSatisfies: (string, string) -> bool)
}
