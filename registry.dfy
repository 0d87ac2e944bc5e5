/**
 * The registry-backed package source: choosing the registry client by URL
 * scheme, constructing the source, turning index records into summaries for a
 * dependency query, and stamping the verified checksum into a downloaded
 * package. Everything that performs I/O (fetching index records, downloading
 * and verifying archives, extracting them, loading a manifest from a
 * directory, constructing clients) enters as a parameter holding its outcome.
 */
module Registry {
  import opened Wrappers
  import opened Core
  import opened Packages

  /** One dependency listed by an index record. */
  datatype IndexDependency = IndexDependency(name: PackageName, req: VersionReq)

  /** The registry's entry for one published version of a package. */
  datatype IndexRecord = IndexRecord(
    version: Version,
    dependencies: seq<IndexDependency>,
    checksum: Checksum,
    noCore: bool,
    yanked: bool)

  /** The two registry client implementations. */
  datatype RegistryClient =
    | LocalRegistryClient(path: Utf8Path)
    | HttpRegistryClient(sourceId: SourceId)

  /**
   * A registry source: its id, its (cached) client and the ids of yanked
   * versions that may still be used. The configuration and the package
   * source store hold no state this model reads.
   */
  datatype RegistrySource = RegistrySource(
    sourceId: SourceId,
    client: RegistryClient,
    yankedWhitelist: set<PackageId>)

  /** `DependencyVersionReq::matches`, whose semantic-version rules are not part of this model. */
  type VersionMatcher = (DependencyVersionReq, Version) -> bool

  // ---------------------------------------------------------------------------
  // Client selection and construction
  // ---------------------------------------------------------------------------

  /** A client constructor's outcome: `initFailure` is the error it reports, if any. */
  function Construct(client: RegistryClient, initFailure: RegistryClient -> Option<string>): (r: Result<RegistryClient, Error>)
    ensures r.Success? <==> initFailure(client).None?
    ensures r.Success? ==> r.value == client
    ensures r.Failure? ==> r.error == External(initFailure(client).value)
  {
    match initFailure(client)
    case None => Success(client)
    case Some(detail) => Failure(External(detail))
  }

  /**
   * `RegistrySource::create_client`: `file` URLs give a local client at the
   * URL's path, `http` and `https` URLs an HTTP client, and any other scheme
   * is refused. `toFilePath` is `Url::to_file_path`; `initFailure` is what the
   * client constructors report.
   */
  function CreateClient(sourceId: SourceId, toFilePath: Url -> Option<Utf8Path>, initFailure: RegistryClient -> Option<string>): (r: Result<RegistryClient, Error>)
    requires sourceId.IsRegistry()
    ensures r.Success? && r.value.LocalRegistryClient? <==>
      sourceId.url.scheme == "file" && toFilePath(sourceId.url).Some? && initFailure(LocalRegistryClient(toFilePath(sourceId.url).value)).None?
    ensures r.Success? && r.value.LocalRegistryClient? ==> r.value.path == toFilePath(sourceId.url).value
    ensures r.Success? && r.value.HttpRegistryClient? <==>
      (sourceId.url.scheme == "http" || sourceId.url.scheme == "https") && initFailure(HttpRegistryClient(sourceId)).None?
    ensures r.Success? && r.value.HttpRegistryClient? ==> r.value.sourceId == sourceId
    ensures sourceId.url.scheme == "file" && toFilePath(sourceId.url).Some? &&
            initFailure(LocalRegistryClient(toFilePath(sourceId.url).value)).Some? ==>
      r == Failure(External(initFailure(LocalRegistryClient(toFilePath(sourceId.url).value)).value))
    ensures (sourceId.url.scheme == "http" || sourceId.url.scheme == "https") &&
            initFailure(HttpRegistryClient(sourceId)).Some? ==>
      r == Failure(External(initFailure(HttpRegistryClient(sourceId)).value))
    ensures r == Failure(InvalidPath(sourceId.url)) <==> sourceId.url.scheme == "file" && toFilePath(sourceId.url).None?
    ensures r == Failure(UnsupportedProtocol(sourceId)) <==>
      sourceId.url.scheme != "file" && sourceId.url.scheme != "http" && sourceId.url.scheme != "https"
  {
    match sourceId.url.scheme
    case "file" =>
      (match toFilePath(sourceId.url)
       case None => Failure(InvalidPath(sourceId.url))
       case Some(path) => Construct(LocalRegistryClient(path), initFailure))
    case "http" => Construct(HttpRegistryClient(sourceId), initFailure)
    case "https" => Construct(HttpRegistryClient(sourceId), initFailure)
    case _ => Failure(UnsupportedProtocol(sourceId))
  }

  /** An unsupported scheme is refused before the URL is converted or any client is constructed. */
  lemma UnsupportedSchemeFailsFirst(
    sourceId: SourceId,
    toFilePath1: Url -> Option<Utf8Path>, initFailure1: RegistryClient -> Option<string>,
    toFilePath2: Url -> Option<Utf8Path>, initFailure2: RegistryClient -> Option<string>)
    requires sourceId.IsRegistry()
    requires sourceId.url.scheme != "file" && sourceId.url.scheme != "http" && sourceId.url.scheme != "https"
    ensures CreateClient(sourceId, toFilePath1, initFailure1) == CreateClient(sourceId, toFilePath2, initFailure2)
  {
  }

  /**
   * `RegistrySource::new`: creates the client, wraps it in the client cache
   * (whose construction may fail with `cacheFailure`) and keeps a copy of the
   * yanked whitelist.
   */
  function New(
    sourceId: SourceId, yankedWhitelist: set<PackageId>,
    toFilePath: Url -> Option<Utf8Path>, initFailure: RegistryClient -> Option<string>,
    cacheFailure: Option<string>): (r: Result<RegistrySource, Error>)
    requires sourceId.IsRegistry()
    ensures r.Success? <==> CreateClient(sourceId, toFilePath, initFailure).Success? && cacheFailure.None?
    ensures r.Success? ==> && r.value.sourceId == sourceId
                           && r.value.client == CreateClient(sourceId, toFilePath, initFailure).value
                           && r.value.yankedWhitelist == yankedWhitelist
    ensures CreateClient(sourceId, toFilePath, initFailure).Failure? ==>
      r == CreateClient(sourceId, toFilePath, initFailure).PropagateFailure()
    ensures CreateClient(sourceId, toFilePath, initFailure).Success? && cacheFailure.Some? ==>
      r == Failure(External(cacheFailure.value))
  {
    var client :- CreateClient(sourceId, toFilePath, initFailure);
    match cacheFailure
    case Some(detail) => Failure(External(detail))
    case None => Success(RegistrySource(sourceId, client, yankedWhitelist))
  }

  // ---------------------------------------------------------------------------
  // Query: index records to summaries
  // ---------------------------------------------------------------------------

  /** The package id a record of the queried name stands for in this source. */
  function IdFor(src: RegistrySource, dependency: ManifestDependency, record: IndexRecord): (r: PackageId)
    ensures r.name == dependency.name && r.version == record.version && r.sourceId == src.sourceId
  {
    PackageId(dependency.name, record.version, src.sourceId)
  }

  /** A record's dependency as a manifest dependency bound to this source. */
  function TranslateDependency(src: RegistrySource, d: IndexDependency): (r: ManifestDependency)
    ensures r.name == d.name && r.versionReq == Req(d.req) && r.sourceId == src.sourceId
  {
    ManifestDependency(d.name, Req(d.req), src.sourceId)
  }

  /** The summary built from a record, once it is known not to be dropped. */
  function SummaryOf(src: RegistrySource, dependency: ManifestDependency, record: IndexRecord): (r: Summary)
    ensures r.packageId == PackageId(dependency.name, record.version, src.sourceId)
    ensures |r.dependencies| == |record.dependencies|
    ensures forall i :: 0 <= i < |record.dependencies| ==>
      && r.dependencies[i].name == record.dependencies[i].name
      && r.dependencies[i].versionReq == Req(record.dependencies[i].req)
      && r.dependencies[i].sourceId == src.sourceId
    ensures r.checksum == Some(record.checksum) && r.noCore == record.noCore
  {
    Summary(
      IdFor(src, dependency, record),
      seq(|record.dependencies|, i requires 0 <= i < |record.dependencies| => TranslateDependency(src, record.dependencies[i])),
      record.noCore,
      Some(record.checksum))
  }

  /** The `build_summary_from_index_record` closure: a yanked record yields nothing unless whitelisted. */
  function BuildSummary(src: RegistrySource, dependency: ManifestDependency, record: IndexRecord): (r: Option<Summary>)
    ensures r.None? <==> record.yanked && IdFor(src, dependency, record) !in src.yankedWhitelist
    ensures r.Some? ==> r.value == SummaryOf(src, dependency, record)
  {
    var packageId := IdFor(src, dependency, record);
    if record.yanked && packageId !in src.yankedWhitelist then None
    else Some(SummaryOf(src, dependency, record))
  }

  /** Whether a record yields a summary: its version matches, and it is not yanked or is whitelisted. */
  predicate Kept(src: RegistrySource, dependency: ManifestDependency, matches: VersionMatcher, record: IndexRecord)
  {
    matches(dependency.versionReq, record.version) &&
    (!record.yanked || IdFor(src, dependency, record) in src.yankedWhitelist)
  }

  /** The `filter_map` over the records. */
  function Summaries(src: RegistrySource, dependency: ManifestDependency, matches: VersionMatcher, records: seq<IndexRecord>): (r: seq<Summary>)
    ensures |r| <= |records|
    ensures forall k :: 0 <= k < |r| ==>
      && r[k].packageId.name == dependency.name
      && r[k].packageId.sourceId == src.sourceId
      && matches(dependency.versionReq, r[k].packageId.version)
  {
    if records == [] then []
    else
      var head := if matches(dependency.versionReq, records[0].version) then BuildSummary(src, dependency, records[0]) else None;
      (if head.Some? then [head.value] else []) + Summaries(src, dependency, matches, records[1..])
  }

  /** `Source::query` for a registry source: the fetched records' summaries, or the lookup failure with context. */
  function Query(src: RegistrySource, dependency: ManifestDependency, matches: VersionMatcher, fetched: Result<seq<IndexRecord>, Error>): (r: Result<seq<Summary>, Error>)
    ensures r.Failure? <==> fetched.Failure?
    ensures fetched.Failure? ==> r.error == LookupFailed(dependency, src.sourceId, fetched.error)
    ensures fetched.Success? ==> r.value == Summaries(src, dependency, matches, fetched.value)
  {
    match fetched
    case Failure(e) => Failure(LookupFailed(dependency, src.sourceId, e))
    case Success(records) => Success(Summaries(src, dependency, matches, records))
  }

  /** `idx` lists positions of kept records, and `r[k]` is the summary of the record at `idx[k]`. */
  ghost predicate FromKept(
    src: RegistrySource, dependency: ManifestDependency, matches: VersionMatcher,
    records: seq<IndexRecord>, r: seq<Summary>, idx: seq<nat>)
  {
    && |idx| == |r|
    && forall k :: 0 <= k < |idx| ==>
         && idx[k] < |records|
         && Kept(src, dependency, matches, records[idx[k]])
         && r[k] == SummaryOf(src, dependency, records[idx[k]])
  }

  /** Positions listed in strictly increasing order. */
  ghost predicate Increasing(idx: seq<nat>)
  {
    forall k, l :: 0 <= k < l < |idx| ==> idx[k] < idx[l]
  }

  /** Every position of a kept record is listed. */
  ghost predicate CoversKept(
    src: RegistrySource, dependency: ManifestDependency, matches: VersionMatcher,
    records: seq<IndexRecord>, idx: seq<nat>)
  {
    forall i :: 0 <= i < |records| && Kept(src, dependency, matches, records[i]) ==> i in idx
  }

  /**
   * `r` is exactly the summaries of the kept records, in record order:
   * `idx` lists, strictly increasing, the positions of the records the
   * summaries come from, and every kept position is listed.
   */
  ghost predicate Selects(
    src: RegistrySource, dependency: ManifestDependency, matches: VersionMatcher,
    records: seq<IndexRecord>, r: seq<Summary>, idx: seq<nat>)
  {
    && FromKept(src, dependency, matches, records, r, idx)
    && Increasing(idx)
    && CoversKept(src, dependency, matches, records, idx)
  }

  /** One record on its own contributes its summary exactly when it is kept. */
  lemma SummariesOfOne(src: RegistrySource, dependency: ManifestDependency, matches: VersionMatcher, record: IndexRecord)
    ensures Summaries(src, dependency, matches, [record]) ==
      if Kept(src, dependency, matches, record) then [SummaryOf(src, dependency, record)] else []
  {
    assert [record][1..] == [];
  }

  /** The filter-map distributes over concatenation of record lists. */
  lemma {:induction false} SummariesAppend(
    src: RegistrySource, dependency: ManifestDependency, matches: VersionMatcher, a: seq<IndexRecord>, b: seq<IndexRecord>)
    ensures Summaries(src, dependency, matches, a + b) ==
      Summaries(src, dependency, matches, a) + Summaries(src, dependency, matches, b)
  {
    if a == [] {
      assert a + b == b;
    } else {
      assert (a + b)[1..] == a[1..] + b;
      SummariesAppend(src, dependency, matches, a[1..], b);
    }
  }

  /**
   * Each record contributes at its own position: its summary when it is
   * kept, and nothing when its version does not match or it is yanked and
   * not whitelisted.
   */
  lemma RecordContribution(
    src: RegistrySource, dependency: ManifestDependency, matches: VersionMatcher, records: seq<IndexRecord>, i: nat)
    requires i < |records|
    ensures Summaries(src, dependency, matches, records) ==
      Summaries(src, dependency, matches, records[..i]) +
      (if Kept(src, dependency, matches, records[i]) then [SummaryOf(src, dependency, records[i])] else []) +
      Summaries(src, dependency, matches, records[i + 1..])
  {
    assert records == records[..i] + [records[i]] + records[i + 1..];
    SummariesAppend(src, dependency, matches, records[..i] + [records[i]], records[i + 1..]);
    SummariesAppend(src, dependency, matches, records[..i], [records[i]]);
    SummariesOfOne(src, dependency, matches, records[i]);
  }

  /** Positions in a tail, as positions in the whole list. */
  function Shift(idx: seq<nat>): (r: seq<nat>)
    ensures |r| == |idx|
    ensures forall k :: 0 <= k < |idx| ==> r[k] == idx[k] + 1
  {
    seq(|idx|, k requires 0 <= k < |idx| => idx[k] + 1)
  }

  /** Positions in the tail, shifted, still point at the kept records the summaries come from. */
  lemma FromKeptShift(
    src: RegistrySource, dependency: ManifestDependency, matches: VersionMatcher,
    records: seq<IndexRecord>, rest: seq<Summary>, idx': seq<nat>)
    requires records != []
    requires FromKept(src, dependency, matches, records[1..], rest, idx')
    ensures FromKept(src, dependency, matches, records, rest, Shift(idx'))
  {
    var idx := Shift(idx');
    forall k | 0 <= k < |idx|
      ensures idx[k] < |records|
      ensures Kept(src, dependency, matches, records[idx[k]]) && rest[k] == SummaryOf(src, dependency, records[idx[k]])
    {
      assert records[idx[k]] == records[1..][idx'[k]];
    }
  }

  /** A kept head record, in front of shifted tail positions, keeps `FromKept`. */
  lemma FromKeptCons(
    src: RegistrySource, dependency: ManifestDependency, matches: VersionMatcher,
    records: seq<IndexRecord>, rest: seq<Summary>, idx: seq<nat>)
    requires records != [] && Kept(src, dependency, matches, records[0])
    requires FromKept(src, dependency, matches, records, rest, idx)
    ensures FromKept(src, dependency, matches, records, [SummaryOf(src, dependency, records[0])] + rest, [0] + idx)
  {
    var r := [SummaryOf(src, dependency, records[0])] + rest;
    forall k | 1 <= k < |idx| + 1
      ensures ([0] + idx)[k] == idx[k - 1] && r[k] == rest[k - 1]
    {
    }
  }

  /** Shifting keeps the order, and a leading 0 goes before shifted positions. */
  lemma IncreasingShift(idx: seq<nat>)
    requires Increasing(idx)
    ensures Increasing(Shift(idx)) && Increasing([0] + Shift(idx))
  {
    var t := [0] + Shift(idx);
    forall k, l | 0 <= k < l < |t| ensures t[k] < t[l] {
      assert t[l] == idx[l - 1] + 1;
      if k > 0 {
        assert t[k] == idx[k - 1] + 1;
      }
    }
  }

  /** The kept positions of the whole list are the head (when kept) and the shifted kept positions of the tail. */
  lemma CoversKeptCons(
    src: RegistrySource, dependency: ManifestDependency, matches: VersionMatcher,
    records: seq<IndexRecord>, idx': seq<nat>)
    requires records != []
    requires CoversKept(src, dependency, matches, records[1..], idx')
    ensures CoversKept(src, dependency, matches, records,
                       if Kept(src, dependency, matches, records[0]) then [0] + Shift(idx') else Shift(idx'))
  {
    var idx := if Kept(src, dependency, matches, records[0]) then [0] + Shift(idx') else Shift(idx');
    forall i | 0 <= i < |records| && Kept(src, dependency, matches, records[i])
      ensures i in idx
    {
      if i > 0 {
        assert records[i] == records[1..][i - 1];
        var k :| 0 <= k < |idx'| && idx'[k] == i - 1;
        assert Shift(idx')[k] == i;
        assert Shift(idx')[k] in idx;
      }
    }
  }

  /** The summaries are exactly those of the kept records, one each, in record order. */
  lemma {:induction false} SummariesSelect(
    src: RegistrySource, dependency: ManifestDependency, matches: VersionMatcher, records: seq<IndexRecord>)
    ensures exists idx :: Selects(src, dependency, matches, records, Summaries(src, dependency, matches, records), idx)
  {
    var r := Summaries(src, dependency, matches, records);
    if records == [] {
      assert Selects(src, dependency, matches, records, r, []);
    } else {
      SummariesSelect(src, dependency, matches, records[1..]);
      var rest := Summaries(src, dependency, matches, records[1..]);
      var idx' :| Selects(src, dependency, matches, records[1..], rest, idx');
      FromKeptShift(src, dependency, matches, records, rest, idx');
      IncreasingShift(idx');
      CoversKeptCons(src, dependency, matches, records, idx');
      if Kept(src, dependency, matches, records[0]) {
        assert r == [SummaryOf(src, dependency, records[0])] + rest;
        FromKeptCons(src, dependency, matches, records, rest, Shift(idx'));
        assert Selects(src, dependency, matches, records, r, [0] + Shift(idx'));
      } else {
        assert r == rest;
        assert Selects(src, dependency, matches, records, r, Shift(idx'));
      }
    }
  }

  /** A query yields no summaries exactly when no record is kept; an empty record list is not an error. */
  lemma {:induction false} SummariesEmptyIff(
    src: RegistrySource, dependency: ManifestDependency, matches: VersionMatcher, records: seq<IndexRecord>)
    ensures Summaries(src, dependency, matches, records) == [] <==>
      forall i :: 0 <= i < |records| ==> !Kept(src, dependency, matches, records[i])
  {
    SummariesSelect(src, dependency, matches, records);
    var idx :| Selects(src, dependency, matches, records, Summaries(src, dependency, matches, records), idx);
    if Summaries(src, dependency, matches, records) == [] {
      forall i | 0 <= i < |records| ensures !Kept(src, dependency, matches, records[i]) {
        assert i !in idx;
      }
    } else {
      assert Kept(src, dependency, matches, records[idx[0]]);
    }
  }

  /** Every summary comes from a kept record, and every kept record's summary is returned. */
  lemma {:induction false} SummariesMembership(
    src: RegistrySource, dependency: ManifestDependency, matches: VersionMatcher, records: seq<IndexRecord>, s: Summary)
    ensures s in Summaries(src, dependency, matches, records) <==>
      exists i :: 0 <= i < |records| && Kept(src, dependency, matches, records[i]) && s == SummaryOf(src, dependency, records[i])
  {
    var r := Summaries(src, dependency, matches, records);
    SummariesSelect(src, dependency, matches, records);
    var idx :| Selects(src, dependency, matches, records, r, idx);
    if s in r {
      var k :| 0 <= k < |r| && r[k] == s;
      assert Kept(src, dependency, matches, records[idx[k]]) && s == SummaryOf(src, dependency, records[idx[k]]);
    }
    if exists i :: 0 <= i < |records| && Kept(src, dependency, matches, records[i]) && s == SummaryOf(src, dependency, records[i]) {
      var i :| 0 <= i < |records| && Kept(src, dependency, matches, records[i]) && s == SummaryOf(src, dependency, records[i]);
      assert i in idx;
      var k :| 0 <= k < |idx| && idx[k] == i;
      assert r[k] == s;
    }
  }

  /**
   * The two-version scenario: `1.2.0` is live and `1.3.0` is yanked, and the
   * requirement matches both. Without a whitelist only `1.2.0` is returned;
   * with `1.3.0` whitelisted both are, in index order.
   */
  lemma YankedScenario(src: RegistrySource, matches: VersionMatcher, req: DependencyVersionReq)
    requires matches(req, "1.2.0") && matches(req, "1.3.0")
    ensures
      var dependency := ManifestDependency("alpha", req, src.sourceId);
      var live := IndexRecord("1.2.0", [], Checksum("abc123"), false, false);
      var yanked := IndexRecord("1.3.0", [], Checksum("def456"), false, true);
      var yankedId := PackageId("alpha", "1.3.0", src.sourceId);
      && Summaries(src.(yankedWhitelist := {}), dependency, matches, [live, yanked]) ==
           [Summary(PackageId("alpha", "1.2.0", src.sourceId), [], false, Some(Checksum("abc123")))]
      && Summaries(src.(yankedWhitelist := {yankedId}), dependency, matches, [live, yanked]) ==
           [Summary(PackageId("alpha", "1.2.0", src.sourceId), [], false, Some(Checksum("abc123"))),
            Summary(yankedId, [], false, Some(Checksum("def456")))]
  {
    var dependency := ManifestDependency("alpha", req, src.sourceId);
    var live := IndexRecord("1.2.0", [], Checksum("abc123"), false, false);
    var yanked := IndexRecord("1.3.0", [], Checksum("def456"), false, true);
    var yankedId := PackageId("alpha", "1.3.0", src.sourceId);
    assert [live, yanked] == [live] + [yanked];
    var plain := src.(yankedWhitelist := {});
    var listed := src.(yankedWhitelist := {yankedId});
    assert Kept(plain, dependency, matches, live) && !Kept(plain, dependency, matches, yanked);
    assert Kept(listed, dependency, matches, live) && Kept(listed, dependency, matches, yanked);
    SummariesAppend(plain, dependency, matches, [live], [yanked]);
    SummariesAppend(listed, dependency, matches, [live], [yanked]);
    SummariesOfOne(plain, dependency, matches, live);
    SummariesOfOne(plain, dependency, matches, yanked);
    SummariesOfOne(listed, dependency, matches, live);
    SummariesOfOne(listed, dependency, matches, yanked);
    assert SummaryOf(plain, dependency, live) == SummaryOf(listed, dependency, live)
      == Summary(PackageId("alpha", "1.2.0", src.sourceId), [], false, Some(Checksum("abc123")));
    assert SummaryOf(listed, dependency, yanked) == Summary(yankedId, [], false, Some(Checksum("def456")));
  }

  // ---------------------------------------------------------------------------
  // Download: stamping the verified checksum
  // ---------------------------------------------------------------------------

  /** The change `load_package` makes through `manifest_mut`: the summary's checksum becomes `c`. */
  function StampChecksum(m: Manifest, c: Checksum): (r: Manifest)
    ensures r.summary.checksum == Some(c)
    ensures r.summary.packageId == m.summary.packageId
    ensures r.summary.dependencies == m.summary.dependencies && r.summary.noCore == m.summary.noCore
    ensures r.targets == m.targets && r.publish == m.publish && r.metadata == m.metadata
  {
    m.(summary := SetChecksum(m.summary, c))
  }

  /**
   * `RegistrySource::load_package`: `extracted` is the outcome of extracting
   * the archive, `loadFailure` the error of loading the extracted directory,
   * if any, and `package` the package it loads. On success the package's
   * manifest carries the verified checksum, its id and manifest path are
   * unchanged, and other holders of its allocation keep the old manifest.
   * `src` and `id` are kept to match the source's signature; they are read
   * only by the extraction and loading, which enter here as outcomes.
   */
  method LoadPackage(
    src: RegistrySource, id: PackageId, checksum: Checksum,
    extracted: Result<Utf8Path, Error>, loadFailure: Option<Error>, package: Package)
    returns (r: Result<Package, Error>)
    requires package.Valid()
    modifies package, package.shared
    ensures r.Failure? <==> extracted.Failure? || loadFailure.Some?
    ensures extracted.Failure? ==> r == Failure(extracted.error)
    ensures extracted.Success? && loadFailure.Some? ==> r == Failure(loadFailure.value)
    ensures r.Failure? ==> package.shared == old(package.shared) && package.Inner() == old(package.Inner())
    ensures r.Failure? ==> unchanged(package, package.shared)
    ensures r.Success? ==> && extracted.Success? && loadFailure.None?
                           && r.value == package && package.Valid()
                           && package.Inner() == old(package.Inner()).(manifest := StampChecksum(old(package.Inner()).manifest, checksum))
                           && package.Inner().manifest.summary.checksum == Some(checksum)
                           && package.Inner().id == old(package.Inner()).id
                           && package.shared.holders == {package}
    ensures forall h :: h in old(package.shared.holders) && h != package ==> h.Valid() && h.Inner() == old(h.Inner())
  {
    if extracted.Failure? {
      return Failure(extracted.error);
    }
    if loadFailure.Some? {
      return Failure(loadFailure.value);
    }
    package.ManifestMut(m => StampChecksum(m, checksum));
    r := Success(package);
  }

  /**
   * `Source::download` for a registry source: `verified` is the checksum the
   * client cache reports after downloading and verifying the archive, or its
   * failure, which gets the package id as context.
   */
  method Download(
    src: RegistrySource, id: PackageId, verified: Result<Checksum, Error>,
    extracted: Result<Utf8Path, Error>, loadFailure: Option<Error>, package: Package)
    returns (r: Result<Package, Error>)
    requires package.Valid()
    modifies package, package.shared
    ensures r.Failure? <==> verified.Failure? || extracted.Failure? || loadFailure.Some?
    ensures verified.Failure? ==> r == Failure(DownloadFailed(id, verified.error))
    ensures verified.Success? && extracted.Failure? ==> r == Failure(extracted.error)
    ensures verified.Success? && extracted.Success? && loadFailure.Some? ==> r == Failure(loadFailure.value)
    ensures r.Failure? ==> package.shared == old(package.shared) && package.Inner() == old(package.Inner())
    ensures r.Failure? ==> unchanged(package, package.shared)
    ensures r.Success? ==> && verified.Success? && r.value == package && package.Valid()
                           && package.Inner() == old(package.Inner()).(manifest := StampChecksum(old(package.Inner()).manifest, verified.value))
                           && package.shared.holders == {package}
    ensures forall h :: h in old(package.shared.holders) && h != package ==> h.Valid() && h.Inner() == old(h.Inner())
  {
    if verified.Failure? {
      return Failure(DownloadFailed(id, verified.error));
    }
    r := LoadPackage(src, id, verified.value, extracted, loadFailure, package);
  }
}
