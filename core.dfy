/**
 * The identity and manifest data model shared by the registry source and the
 * package entity: source ids, package ids, checksums, dependency requirements,
 * summaries, manifests with their targets and tool metadata, paths, and the
 * errors the modelled operations report.
 */
module Core {
  import opened Wrappers

  type PackageName = string
  /** A semantic version, kept as its text: its ordering is never consulted here. */
  type Version = string
  /** The text of a semantic version requirement (`^1.0.0`, `~2.1`, ...). */
  type VersionReq = string

  /** The kinds of package source (`SourceKind`); only `Registry` is used by this model. */
  datatype SourceKind = Path | Git | Registry | Std

  /** A parsed URL, reduced to what the registry source reads from it. */
  datatype Url = Url(scheme: string, rest: string)

  /** Where packages come from: a source kind and the URL of the source. */
  datatype SourceId = SourceId(kind: SourceKind, url: Url) {
    predicate IsRegistry() { kind == Registry }
  }

  /** The globally unique identity of a package: name, version and source. */
  datatype PackageId = PackageId(name: PackageName, version: Version, sourceId: SourceId)

  /** A content hash over the raw bytes of a package archive. */
  datatype Checksum = Checksum(digest: string)

  /**
   * The version requirement of a dependency. Constructed by `From<VersionReq>`;
   * whether a version satisfies it (`matches`) is left to a caller-supplied
   * predicate everywhere in the model.
   */
  datatype DependencyVersionReq = Req(req: VersionReq)

  /** A dependency as declared by a manifest or translated from an index record. */
  datatype ManifestDependency = ManifestDependency(
    name: PackageName,
    versionReq: DependencyVersionReq,
    sourceId: SourceId)

  /** The resolvable description of one package version. */
  datatype Summary = Summary(
    packageId: PackageId,
    dependencies: seq<ManifestDependency>,
    noCore: bool,
    checksum: Option<Checksum>)

  /** `Summary::set_checksum`: records the checksum and leaves everything else alone. */
  function SetChecksum(s: Summary, c: Checksum): (r: Summary)
    ensures r.checksum == Some(c)
    ensures r.packageId == s.packageId && r.dependencies == s.dependencies && r.noCore == s.noCore
  {
    s.(checksum := Some(c))
  }

  /** A UTF-8 path: absolute or relative, and its components in order. */
  datatype Utf8Path = Utf8Path(absolute: bool, components: seq<string>)

  /** `Path::join` with one more component. */
  function Join(p: Utf8Path, name: string): (r: Utf8Path)
    ensures r.absolute == p.absolute && |r.components| == |p.components| + 1
    ensures r.components[..|p.components|] == p.components && r.components[|p.components|] == name
  {
    Utf8Path(p.absolute, p.components + [name])
  }

  /** `Path::parent`: `None` for the root `/` and for the empty relative path. */
  function Parent(p: Utf8Path): (r: Option<Utf8Path>)
    ensures r.None? <==> p.components == []
    ensures r.Some? ==> Join(r.value, p.components[|p.components| - 1]) == p
  {
    if p.components == [] then None
    else Some(Utf8Path(p.absolute, p.components[..|p.components| - 1]))
  }

  /** Taking the parent undoes joining one component. */
  lemma ParentOfJoin(p: Utf8Path, name: string)
    ensures Parent(Join(p, name)) == Some(p)
  {
    assert (p.components + [name])[..|p.components|] == p.components;
  }

  /** The kind of a compilation target (`TargetKind`), a name such as `lib`. */
  datatype TargetKind = TargetKind(name: string)

  const LIB := TargetKind("lib")
  const CAIRO_PLUGIN := TargetKind("cairo-plugin")

  /** A compilation target of a package. */
  datatype Target = Target(kind: TargetKind, name: string)

  predicate IsLibTarget(t: Target) { t.kind == LIB }
  predicate IsCairoPluginTarget(t: Target) { t.kind == CAIRO_PLUGIN }

  /** A TOML value, as found in `[tool.*]` sections of a manifest. */
  datatype TomlValue =
    | TomlString(s: string)
    | TomlInteger(i: int)
    | TomlBoolean(b: bool)
    | TomlArray(items: seq<TomlValue>)
    | TomlTable(entries: map<string, TomlValue>)

  /** The parts of a manifest's metadata that the package queries read. */
  datatype ManifestMetadata = ManifestMetadata(toolMetadata: Option<map<string, TomlValue>>)

  /** A loaded manifest, reduced to the fields the modelled operations read or write. */
  datatype Manifest = Manifest(
    summary: Summary,
    targets: seq<Target>,
    publish: bool,
    metadata: ManifestMetadata)

  /** The errors of the modelled operations, with the context anyhow attaches. */
  datatype Error =
    /** A failure of code outside the model (I/O, network, manifest loading). */
    | External(detail: string)
    /** `url is not a valid path`: a `file` URL that names no local path. */
    | InvalidPath(url: Url)
    /** `unsupported registry protocol`: a registry URL with another scheme. */
    | UnsupportedProtocol(sourceId: SourceId)
    /** `package ... has no target ...` */
    | NoTarget(packageId: PackageId, kind: TargetKind)
    /** `package manifest ... has no [tool.<name>] section` */
    | NoToolMetadata(packageId: PackageId, toolName: string)
    /** `failed to lookup for ... in registry`, wrapping the cause. */
    | LookupFailed(dependency: ManifestDependency, sourceId: SourceId, cause: Error)
    /** `failed to download package`, wrapping the cause. */
    | DownloadFailed(packageId: PackageId, cause: Error)
}
