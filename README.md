# Scarb registry source and package entity, in Dafny

This project models two pieces of Scarb, the Cairo package manager: the registry-backed package
source and the package entity. Both are pure logic, plus the in-place copy-on-write update of a
package's manifest (`manifest_mut`, and `load_package`, which uses it).

- **Registry source** (`scarb/src/sources/registry.rs`):
  - `create_client` chooses the registry client from the URL scheme: `file` gives a local client,
    `http`/`https` give an HTTP client, and any other scheme is refused.
  - `RegistrySource::new` builds the source from that client and a copy of the yanked whitelist.
  - `query` turns the index records fetched for a dependency into `Summary` values. It keeps only
    records whose version matches the requirement. It drops yanked records unless their package id
    is whitelisted.
  - `download` / `load_package` stamp the verified checksum into the loaded package's manifest.
- **Package entity** (`scarb/src/core/package/mod.rs`):
  - the target queries `is_lib`, `is_cairo_plugin`, `classify`, `target` and `fetch_target`;
  - the tool-metadata lookups;
  - `root`, `manifest_path` and `is_publishable`;
  - the shared handle `Package(Arc<PackageInner>)` with its clone and its copy-on-write
    `manifest_mut`.

Files:

- `wrappers.dfy` (module `Wrappers`): `Option`, `Result`, and `OkOr` (`Option::ok_or_else`).
- `core.dfy` (module `Core`): the data model shared by both parts. It has source ids, package ids,
  checksums, dependency requirements, summaries, manifests, targets, TOML values, paths and the
  error kinds.
- `iter.dfy` (module `Iter`): `Iterator::any` and `Iterator::find` over sequences.
- `packages.dfy` (module `Packages`): `PackageInner` and its read-only queries, which the handle
  reaches through `Deref`. The two classes `Shared` and `Package` model the `Arc` allocation and the
  handles that point at it. `Shared` keeps the strong count and a ghost set of holders.
- `registry.dfy` (module `Registry`): index records, client selection, `new`, `query` and its
  selection lemmas, `load_package` and `download`.

Everything the source obtains by I/O, the client constructors' failures and semantic-version
matching enter as parameters holding their outcomes. This covers:

- the fetched index records;
- the verified checksum of a download;
- the result of extracting the archive and of loading the extracted directory;
- `Url::to_file_path`;
- the failure reports of the client constructors and of the client cache constructor.

`DependencyVersionReq::matches` is the parameter `matches`. It is uninterpreted, so every property
holds for any semantic-version rules.

Two details of the code that the model keeps:

- On the download path, only a failure of `download_and_verify_with_cache` gets context
  (`failed to download package: {id}`). Failures of `extract` and of loading the extracted
  directory propagate unchanged, in `Registry.LoadPackage` and `Registry.Download` as in the code.
- `create_client` asserts `source_id.is_registry()`, so `Registry.CreateClient` and `Registry.New`
  require it.

## Model

| member | source | states |
|---|---|---|
| `Iter.Any` | scarb/src/core/package/mod.rs:68-74 | `any` is true exactly when some element satisfies the predicate |
| `Iter.Find` | scarb/src/core/package/mod.rs:90-92 | `find` returns `None` exactly when no element satisfies the predicate, otherwise an element that satisfies it and is preceded only by elements that do not |
| `Packages.Package.Inner` | scarb/src/core/package/mod.rs:34-40 | the value of the allocation this handle points at, which every holder of that allocation sees |
| `Packages.Package.constructor` | scarb/src/core/package/mod.rs:50-56 | `Package::new` creates a fresh allocation held by the new handle alone, storing id, manifest path and manifest unchanged |
| `Packages.Root` | scarb/src/core/package/mod.rs:58-62 | the root joined with the manifest's file name is the manifest path; callers must ensure a parent exists (the source panics otherwise) |
| `Packages.RootOfManifestIn` | scarb/src/core/package/mod.rs:58-62 | a package whose manifest is file `f` in directory `d` has a root, and that root is `d` |
| `Packages.ManifestPath` | scarb/src/core/package/mod.rs:64-66 | the manifest path is the one stored at construction |
| `Packages.IsLib` | scarb/src/core/package/mod.rs:68-70 | true iff some target has kind `lib` |
| `Packages.IsCairoPlugin` | scarb/src/core/package/mod.rs:72-74 | true iff some target has kind `cairo-plugin` |
| `Packages.IsPublishable` | scarb/src/core/package/mod.rs:76-78 | equals the manifest's `publish` flag |
| `Packages.Classify` | scarb/src/core/package/mod.rs:80-88 | CairoPlugin iff some target is a plugin; Library iff no plugin target and some lib target; Other iff neither |
| `Packages.PluginBeatsLibrary` | scarb/src/core/package/mod.rs:80-88 | a package with both a plugin and a lib target is classified CairoPlugin (while still being a lib) |
| `Packages.ClassifyAgreesWithQueries` | scarb/src/core/package/mod.rs:80-88 | the class is determined by `is_cairo_plugin` first and `is_lib` second |
| `Packages.TargetOfKind` | scarb/src/core/package/mod.rs:90-92 | `None` iff no target has the kind; otherwise the first target in order with that kind |
| `Packages.FetchTarget` | scarb/src/core/package/mod.rs:94-97 | fails with "no target" for this package and kind exactly when `target` is `None`, otherwise returns that same target |
| `Packages.HasToolMetadata` | scarb/src/core/package/mod.rs:99-101 | true iff the manifest has a tool-metadata map and it has the tool's entry; agrees with `tool_metadata` |
| `Packages.ToolMetadata` | scarb/src/core/package/mod.rs:103-109 | `None` when the tool-metadata map is absent or lacks the name, otherwise the map's entry |
| `Packages.FetchToolMetadata` | scarb/src/core/package/mod.rs:131-134 | fails with "no [tool.<name>] section" exactly when `has_tool_metadata` is false, otherwise returns the `tool_metadata` value |
| `Packages.Shared.constructor` | scarb/src/core/package/mod.rs:51-55 | a new `Arc` allocation holds the given inner value and no handle yet |
| `Packages.Package.Sharing` | scarb/src/core/package/mod.rs:23-24 | a new handle joins the holders of an existing allocation, whose value is unchanged |
| `Packages.Package.Clone` | scarb/src/core/package/mod.rs:23-24 | cloning gives a fresh handle to the same allocation; both handles see the same inner value as before |
| `Packages.Package.MakeMut` | scarb/src/core/package/mod.rs:151-153 | afterwards this handle is the sole holder and sees the same value; if it shared the allocation, it gets a fresh copy and the others keep the old allocation, value unchanged |
| `Packages.Package.ManifestMut` | scarb/src/core/package/mod.rs:151-153 | the handle's manifest becomes the edited manifest and its id and manifest path stay; every other holder still sees its old value |
| `Registry.Construct` | scarb/src/sources/registry.rs:64-68 | a client constructor yields the client, or its reported failure |
| `Registry.CreateClient` | scarb/src/sources/registry.rs:52-74 | local client iff scheme `file` and the URL converts to a path (that path); HTTP client iff scheme `http` or `https`; a failing client constructor's own error is returned; "not a valid path" iff `file` and conversion fails; "unsupported protocol" iff any other scheme |
| `Registry.UnsupportedSchemeFailsFirst` | scarb/src/sources/registry.rs:70-72 | for an unsupported scheme the outcome does not depend on path conversion or client construction |
| `Registry.New` | scarb/src/sources/registry.rs:33-50 | succeeds iff the client and the client cache are created; then holds the source id, that client and the given whitelist; a client failure, or else a client-cache failure, is passed on unchanged |
| `Registry.IdFor` | scarb/src/sources/registry.rs:93-97 | the package id is the dependency's name, the record's version and this source's id |
| `Registry.TranslateDependency` | scarb/src/sources/registry.rs:105-111 | an index dependency becomes a manifest dependency with the same name and requirement, bound to this source |
| `Registry.SummaryOf` | scarb/src/sources/registry.rs:102-121 | the summary has the synthesized id; its dependency list has the record's length and order, the same names and requirements, and this source id; its checksum is `Some(record.checksum)` and its `no_core` is the record's |
| `Registry.BuildSummary` | scarb/src/sources/registry.rs:92-122 | `None` iff the record is yanked and its id is not whitelisted, otherwise that record's summary |
| `Registry.Summaries` | scarb/src/sources/registry.rs:123-136 | no more summaries than records; every summary has the dependency's name, this source id and a version that satisfies the requirement |
| `Registry.Query` | scarb/src/sources/registry.rs:80-137 | fails iff fetching the records fails, with the dependency and source id as context; otherwise the records' summaries |
| `Registry.SummariesOfOne` | scarb/src/sources/registry.rs:129-134 | a single record contributes its summary iff it matches and is not yanked or is whitelisted, and nothing otherwise |
| `Registry.SummariesAppend` | scarb/src/sources/registry.rs:123-136 | the summaries of two concatenated record lists are the concatenated summaries |
| `Registry.RecordContribution` | scarb/src/sources/registry.rs:99-101 | each record contributes at its own position: its summary when kept; nothing when its version does not match or it is yanked and not whitelisted |
| `Registry.SummariesSelect` | scarb/src/sources/registry.rs:123-136 | the summaries are exactly one per kept record, in record order: strictly increasing positions of kept records, covering every kept record |
| `Registry.SummariesEmptyIff` | scarb/src/sources/registry.rs:123-136 | the result is empty (not an error) exactly when no record is kept, including an empty record list |
| `Registry.SummariesMembership` | scarb/src/sources/registry.rs:92-136 | a summary is returned iff it is the summary of some kept record |
| `Registry.YankedScenario` | scarb/src/sources/registry.rs:99-101 | with `1.2.0` live and `1.3.0` yanked, both matching: an empty whitelist gives only `1.2.0`; whitelisting `1.3.0` gives both, in index order |
| `Registry.StampChecksum` | scarb/src/sources/registry.rs:172 | the manifest's summary gets the checksum; every other manifest and summary field is unchanged |
| `Registry.LoadPackage` | scarb/src/sources/registry.rs:156-175 | fails exactly when extraction or loading fails, returning that error unchanged with the package untouched; otherwise the same handle is returned, stamped with the verified checksum, with id and path unchanged, the handle then sole holder of its allocation, and other holders keep the old manifest |
| `Registry.Download` | scarb/src/sources/registry.rs:140-148 | fails exactly when download-and-verify, extraction or loading fails; a download-and-verify failure gets the package id as context; on any failure the handle and its allocation are untouched; otherwise it behaves as `load_package` with the verified checksum, leaving the handle sole holder of its allocation |

## Left out

- Network and filesystem I/O are parameters holding their outcomes. This covers
  `get_records_with_cache`, `download_and_verify_with_cache` with its checksum comparison,
  `PackageSourceStore::extract`, and `PathSource::recursive_at(...).download`. The archive handle and
  its file lock do not appear.
- Caching and single-flight coalescing, async suspension, file locking and cancellation are not
  modelled. Their code is not part of these two files.
- The property that a summary's checksum equals the checksum a later download returns depends on
  the client cache's verification, which is not modelled.
- Semantic-version matching (`DependencyVersionReq::matches`) is the uninterpreted parameter
  `matches`. `DependencyVersionReq` keeps only the variant built by `From<VersionReq>`.
- URL parsing is left out: a URL is its scheme plus the rest. `Url::to_file_path` is a parameter
  that may fail.
- The bodies of `LocalRegistryClient::new`, `HttpRegistryClient::new` and
  `RegistryClientCache::new` are not part of the model. Only their possible failure is modelled, as
  a caller-given error detail. `Config` and `PackageSourceStore::new` hold nothing the model reads.
- `Package::include` is not modelled: it canonicalizes paths on the filesystem.
- `fmt_config` is not modelled: it merges TOML into the formatter's configuration.
- `fetch_tool_metadata_as` and `scarb_tool_metadata` are not modelled: they deserialize TOML.
- Tracing, the "Unpacking" status line, and the `Debug`/`Display` impls are left out. The error
  values carry the ids that the messages print.
- Dropping a handle and weak references of `Arc` are not modelled. The strong count only changes on
  clone and when `make_mut` moves a handle to a fresh copy.
- The manifest keeps only the fields these operations read or write: summary, targets, publish flag
  and tool metadata. A target is its kind and name. The kind names `lib` and `cairo-plugin` are the
  constants of `TargetKind`, whose file is not part of this model.
- `Target::is_lib`/`is_cairo_plugin`, `Summary::set_checksum` and `Path::parent` live in files
  outside this model. The model defines them itself (`Core.IsLibTarget`, `Core.IsCairoPluginTarget`,
  `Core.SetChecksum`, `Core.Parent`): as a comparison of the target kind with `TargetKind::LIB` /
  `CAIRO_PLUGIN`, as setting the checksum field to `Some(c)`, and as dropping the last path
  component. `Packages.IsLib`, `Packages.Classify` and `Packages.Root` hold under these definitions.
- Registry.LoadPackage: the loaded package is a parameter, not a function of the extracted
  directory. The model therefore promises nothing about its id beyond keeping it unchanged.
