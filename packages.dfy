/**
 * The package entity: `PackageInner` is the value behind the shared handle
 * (id, manifest, manifest path) and the read-only queries are functions of it;
 * `Package` is the shared-ownership handle (`Arc<PackageInner>`), modelled as a
 * reference to a `Shared` cell that counts its holders, so that copy-on-write
 * through `ManifestMut` can be stated and proved.
 */
module Packages {
  import opened Wrappers
  import opened Core
  import Iter

  /** The fields behind the handle (`PackageInner`). */
  datatype PackageInner = PackageInner(id: PackageId, manifest: Manifest, manifestPath: Utf8Path)

  /** The class of a package, by its targets. */
  datatype PackageClass = Library | CairoPlugin | Other

  // ---------------------------------------------------------------------------
  // Read-only queries (reached through `Deref` on the handle)
  // ---------------------------------------------------------------------------

  /** `Package::root`: the directory holding the manifest; callers rely on it existing. */
  function Root(p: PackageInner): (r: Utf8Path)
    requires Parent(p.manifestPath).Some?
    ensures Join(r, p.manifestPath.components[|p.manifestPath.components| - 1]) == p.manifestPath
  {
    Parent(p.manifestPath).value
  }

  /** A package whose manifest is the file `fileName` in `dir` has `dir` as its root. */
  lemma RootOfManifestIn(id: PackageId, manifest: Manifest, dir: Utf8Path, fileName: string)
    ensures Parent(Join(dir, fileName)).Some?
    ensures Root(PackageInner(id, manifest, Join(dir, fileName))) == dir
  {
    ParentOfJoin(dir, fileName);
  }

  /** `Package::manifest_path`. */
  function ManifestPath(p: PackageInner): (r: Utf8Path)
    ensures r == p.manifestPath
  {
    p.manifestPath
  }

  /** `Package::is_lib`: some target is a library. */
  function IsLib(p: PackageInner): (r: bool)
    ensures r <==> exists i :: 0 <= i < |p.manifest.targets| && p.manifest.targets[i].kind == LIB
  {
    Iter.Any(p.manifest.targets, IsLibTarget)
  }

  /** `Package::is_cairo_plugin`: some target is a Cairo plugin. */
  function IsCairoPlugin(p: PackageInner): (r: bool)
    ensures r <==> exists i :: 0 <= i < |p.manifest.targets| && p.manifest.targets[i].kind == CAIRO_PLUGIN
  {
    Iter.Any(p.manifest.targets, IsCairoPluginTarget)
  }

  /** `Package::is_publishable`: the manifest's `publish` flag. */
  function IsPublishable(p: PackageInner): (r: bool)
    ensures r == p.manifest.publish
  {
    p.manifest.publish
  }

  /** `Package::classify`: a plugin target wins over a library target, which wins over neither. */
  function Classify(p: PackageInner): (r: PackageClass)
    ensures r == CairoPlugin <==> exists i :: 0 <= i < |p.manifest.targets| && p.manifest.targets[i].kind == CAIRO_PLUGIN
    ensures r == Library <==>
      (forall i :: 0 <= i < |p.manifest.targets| ==> p.manifest.targets[i].kind != CAIRO_PLUGIN) &&
      (exists i :: 0 <= i < |p.manifest.targets| && p.manifest.targets[i].kind == LIB)
    ensures r == Other <==> forall i :: 0 <= i < |p.manifest.targets| ==>
      p.manifest.targets[i].kind != CAIRO_PLUGIN && p.manifest.targets[i].kind != LIB
  {
    if IsCairoPlugin(p) then CairoPlugin
    else if IsLib(p) then Library
    else Other
  }

  /** `Package::target`: the first target of the given kind, if any. */
  function TargetOfKind(p: PackageInner, kind: TargetKind): (r: Option<Target>)
    ensures r.None? <==> forall i :: 0 <= i < |p.manifest.targets| ==> p.manifest.targets[i].kind != kind
    ensures r.Some? ==> r.value.kind == kind && exists i ::
      && 0 <= i < |p.manifest.targets| && p.manifest.targets[i] == r.value
      && forall j :: 0 <= j < i ==> p.manifest.targets[j].kind != kind
  {
    Iter.Find(p.manifest.targets, (t: Target) => t.kind == kind)
  }

  /** `Package::fetch_target`: `target`, with a missing target reported as an error. */
  function FetchTarget(p: PackageInner, kind: TargetKind): (r: Result<Target, Error>)
    ensures r.Failure? <==> TargetOfKind(p, kind).None?
    ensures r.Failure? ==> r.error == NoTarget(p.id, kind)
    ensures r.Success? ==> TargetOfKind(p, kind) == Some(r.value)
  {
    OkOr(TargetOfKind(p, kind), NoTarget(p.id, kind))
  }

  /** `Package::tool_metadata`: the `[tool.<name>]` section, when the manifest has tool metadata and that entry. */
  function ToolMetadata(p: PackageInner, toolName: string): (r: Option<TomlValue>)
    ensures r.None? <==> p.manifest.metadata.toolMetadata.None? || toolName !in p.manifest.metadata.toolMetadata.value
    ensures r.Some? ==> r.value == p.manifest.metadata.toolMetadata.value[toolName]
  {
    match p.manifest.metadata.toolMetadata
    case None => None
    case Some(tools) => if toolName in tools then Some(tools[toolName]) else None
  }

  /** `Package::has_tool_metadata`. */
  function HasToolMetadata(p: PackageInner, toolName: string): (r: bool)
    ensures r <==> p.manifest.metadata.toolMetadata.Some? && toolName in p.manifest.metadata.toolMetadata.value
    ensures r <==> ToolMetadata(p, toolName).Some?
  {
    ToolMetadata(p, toolName).Some?
  }

  /** `Package::fetch_tool_metadata`: `tool_metadata`, with a missing section reported as an error. */
  function FetchToolMetadata(p: PackageInner, toolName: string): (r: Result<TomlValue, Error>)
    ensures r.Failure? <==> !HasToolMetadata(p, toolName)
    ensures r.Failure? ==> r.error == NoToolMetadata(p.id, toolName)
    ensures r.Success? ==> ToolMetadata(p, toolName) == Some(r.value)
  {
    OkOr(ToolMetadata(p, toolName), NoToolMetadata(p.id, toolName))
  }

  /** A package with both a plugin and a library target is a plugin. */
  lemma PluginBeatsLibrary(p: PackageInner, i: nat, j: nat)
    requires i < |p.manifest.targets| && j < |p.manifest.targets|
    requires p.manifest.targets[i].kind == CAIRO_PLUGIN && p.manifest.targets[j].kind == LIB
    ensures Classify(p) == CairoPlugin && IsLib(p)
  {
  }

  /** The classes partition packages by `is_cairo_plugin` and `is_lib`. */
  lemma ClassifyAgreesWithQueries(p: PackageInner)
    ensures Classify(p) == CairoPlugin <==> IsCairoPlugin(p)
    ensures Classify(p) == Library <==> !IsCairoPlugin(p) && IsLib(p)
    ensures Classify(p) == Other <==> !IsCairoPlugin(p) && !IsLib(p)
  {
  }

  // ---------------------------------------------------------------------------
  // The shared handle (`Arc<PackageInner>`)
  // ---------------------------------------------------------------------------

  /** One `Arc` allocation: the inner value, its strong count and (ghost) the handles holding it. */
  class Shared {
    var inner: PackageInner
    var strong: nat
    ghost var holders: set<Package>

    /** The count is the number of holders, and every holder points here. */
    ghost predicate Valid()
      reads this, holders
    {
      && strong == |holders|
      && forall h :: h in holders ==> h.shared == this
    }

    /** A fresh allocation with no holders yet. */
    constructor (inner: PackageInner)
      ensures this.inner == inner && strong == 0 && holders == {}
    {
      this.inner := inner;
      strong := 0;
      holders := {};
    }
  }

  /** `Package`: a handle to a shared `PackageInner`. */
  class Package {
    var shared: Shared

    ghost predicate Valid()
      reads this, shared, shared.holders
    {
      this in shared.holders && shared.Valid()
    }

    /** `Deref`: the value of the allocation this handle points at, which every holder of it sees. */
    function Inner(): (r: PackageInner)
      reads this, shared, shared.holders
      ensures Valid() ==> forall h :: h in shared.holders ==> h.shared.inner == r
    {
      shared.inner
    }

    /** `Package::new`: a fresh allocation held by this handle alone, storing the arguments unchanged. */
    constructor (id: PackageId, manifestPath: Utf8Path, manifest: Manifest)
      ensures Valid() && fresh(shared)
      ensures shared.holders == {this}
      ensures Inner() == PackageInner(id, manifest, manifestPath)
    {
      shared := new Shared(PackageInner(id, manifest, manifestPath));
      new;
      shared.holders := {this};
      shared.strong := 1;
    }

    /** A second handle to the allocation `s` (the work of `Arc::clone`). */
    constructor Sharing(s: Shared)
      requires s.Valid()
      modifies s
      ensures shared == s && Valid()
      ensures s.holders == old(s.holders) + {this} && s.inner == old(s.inner)
    {
      shared := s;
      new;
      s.holders := s.holders + {this};
      s.strong := s.strong + 1;
    }

    /** `Package::clone`: a new handle to the same allocation; every handle keeps its view. */
    method Clone() returns (p: Package)
      requires Valid()
      modifies shared
      ensures fresh(p) && p.shared == shared && p.Valid() && Valid()
      ensures shared.holders == old(shared.holders) + {p}
      ensures p.Inner() == Inner() == old(Inner())
    {
      p := new Package.Sharing(shared);
    }

    /**
     * `Arc::make_mut`: afterwards this handle is the only holder of its
     * allocation. When it was not, the value is copied into a fresh
     * allocation, and the other holders keep the old one.
     */
    method MakeMut()
      requires Valid()
      modifies this, shared
      ensures Valid() && shared.holders == {this} && shared.strong == 1
      ensures Inner() == old(Inner())
      ensures old(shared.strong) == 1 ==> shared == old(shared) && old(shared.holders) == {this}
      ensures old(shared.strong) != 1 ==> && fresh(shared)
                                          && old(shared).holders == old(shared.holders) - {this}
                                          && old(shared).Valid()
                                          && old(shared).inner == old(shared.inner)
    {
      if shared.strong == 1 {
        SingleHolder(shared.holders, this);
      } else {
        var previous := shared;
        var copy := new Shared(previous.inner);
        LargerThanSingleton(previous.holders, this);
        previous.holders := previous.holders - {this};
        previous.strong := previous.strong - 1;
        shared := copy;
        copy.holders := {this};
        copy.strong := 1;
      }
    }

    /**
     * `Package::manifest_mut`, together with the caller's change `edit` to the
     * manifest: the id and the manifest path stay, and every other holder of
     * the allocation still sees the old manifest.
     */
    method ManifestMut(edit: Manifest -> Manifest)
      requires Valid()
      modifies this, shared
      ensures Valid() && shared.holders == {this}
      ensures Inner() == old(Inner()).(manifest := edit(old(Inner()).manifest))
      ensures Inner().id == old(Inner()).id && Inner().manifestPath == old(Inner()).manifestPath
      ensures forall h :: h in old(shared.holders) && h != this ==> h.Valid() && h.Inner() == old(h.Inner())
    {
      ghost var others := old(shared.holders) - {this};
      MakeMut();
      shared.inner := shared.inner.(manifest := edit(shared.inner.manifest));
      assert forall h :: h in others ==> h.shared == old(shared) && h.shared != shared;
    }
  }

  /** A set with one element that contains `x` is `{x}`. */
  lemma SingleHolder(s: set<Package>, x: Package)
    requires x in s && |s| == 1
    ensures s == {x}
  {
    assert |s - {x}| == 0;
  }

  /** Removing a member of a set of more than one element leaves one element fewer, and at least one. */
  lemma LargerThanSingleton(s: set<Package>, x: Package)
    requires x in s && |s| != 1
    ensures |s - {x}| == |s| - 1 >= 1
  {
  }
}
