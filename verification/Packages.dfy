/**
 The packages of the configured catalogs: listing them, the versions advertised for one, and
 resolving a version to install.

 Downloaded indexes and pulled charts do not change between calls.
 */
module Packages {
  import opened Common
  import opened VersionFilter
  import opened CatalogConfig

  /** A chart version in a Helm index, or nil. */
  datatype Chart = Nil | Chart(version: string, description: string, home: string, icon: string)

  type Index = map<string, seq<Chart>>

  datatype Package = Package(catalogId: string, name: string, description: string, home: string, icon: string)

  datatype PackageRef = PackageRef(package: Package, versions: seq<string>)

  datatype PackageVersion = PackageVersion(catalogId: string, name: string, version: string, repoUrl: string)

  /** `Panic` is a nil dereference or a slice out of range. */
  datatype Error = UnknownCatalog | UnknownPackage | UnknownVersion | NoIndex | Unsupported | Cancelled | Panic

  /** The index each catalog's download gives, if any. */
  type Indexes = string -> Option<Index>

  datatype Metadata = Metadata(description: string, home: string, icon: string)

  /** What pulling a chart from a registry gives, if it succeeds; a chart may have no metadata. */
  datatype Pull = PullFailed | Pulled(metadata: Option<Metadata>)

  /** By the catalog, the reference and the version of the chart. */
  type Registry = (Config, string, string) -> Pull

  // ---------------------------------------------------------------------------
  // Helm catalogs
  // ---------------------------------------------------------------------------

  function Offered(charts: seq<Chart>): seq<string> {
    if |charts| == 0 then []
    else Offered(charts[..|charts|-1]) +
         if charts[|charts|-1].Chart? && charts[|charts|-1].version != "" then [charts[|charts|-1].version] else []
  }

  lemma {:induction false} OfferedExactly(charts: seq<Chart>, v: string)
    ensures v in Offered(charts) <==>
            v != "" && exists i :: 0 <= i < |charts| && charts[i].Chart? && charts[i].version == v
  {
    if |charts| > 0 {
      var init, last := charts[..|charts|-1], charts[|charts|-1];
      OfferedExactly(init, v);
      if exists i :: 0 <= i < |charts| && charts[i].Chart? && charts[i].version == v && v != "" {
        var i :| 0 <= i < |charts| && charts[i].Chart? && charts[i].version == v && v != "";
        assert i < |init| ==> init[i] == charts[i];
      }
      if v in Offered(init) {
        var i :| 0 <= i < |init| && init[i].Chart? && init[i].version == v;
        assert charts[i] == init[i];
      }
    }
  }

  method ExtractVersions(charts: seq<Chart>) returns (out: seq<string>)
    ensures out == Offered(charts)
  {
    out := [];
    for i := 0 to |charts|
      invariant out == Offered(charts[..i])
    {
      assert charts[..i+1][..i] == charts[..i];
      if charts[i].Chart? && charts[i].version != "" {
        out := out + [charts[i].version];
      }
    }
    assert charts[..|charts|] == charts;
  }

  predicate Described(p: Package, id: string, name: string, latest: Chart) {
    latest.Chart? && p == Package(id, name, latest.description, latest.home, latest.icon)
  }

  /** The charts an index lists for a catalog that excludes some. */
  predicate Shown(index: Index, excluded: seq<string>, name: string) {
    name in index && |index[name]| > 0 && name !in excluded
  }

  predicate NoNil(index: Index) {
    forall name | name in index :: forall i | 0 <= i < |index[name]| :: index[name][i].Chart?
  }

  /** Each shown chart once, described by its latest version, in whatever order the index is iterated. */
  ghost predicate HelmListing(c: Config, index: Index, pkgs: seq<Package>) {
    && (forall k | 0 <= k < |pkgs| ::
          Shown(index, c.excluded, pkgs[k].name) && Described(pkgs[k], c.id, pkgs[k].name, index[pkgs[k].name][0]))
    && (forall k, l | 0 <= k < l < |pkgs| :: pkgs[k].name != pkgs[l].name)
    && (forall name :: Shown(index, c.excluded, name) ==> exists k :: 0 <= k < |pkgs| && pkgs[k].name == name)
  }

  // ---------------------------------------------------------------------------
  // OCI catalogs
  // ---------------------------------------------------------------------------

  function FirstPackage(packages: seq<OciPackage>, name: string): Option<OciPackage> {
    if |packages| == 0 then None
    else if packages[0].name == name then Some(packages[0])
    else FirstPackage(packages[1..], name)
  }

  lemma {:induction false} FirstPackageExactly(packages: seq<OciPackage>, name: string)
    ensures FirstPackage(packages, name).Some? <==> exists i :: 0 <= i < |packages| && packages[i].name == name
    ensures FirstPackage(packages, name).Some? ==> FirstPackage(packages, name).value.name == name
  {
    if |packages| > 0 && packages[0].name != name {
      FirstPackageExactly(packages[1..], name);
      assert forall i | 0 < i < |packages| :: packages[i] == packages[1..][i-1];
    }
  }

  function OciListing(c: Config, packages: seq<OciPackage>): seq<Package> {
    if |packages| == 0 then []
    else
      var last := packages[|packages|-1];
      OciListing(c, packages[..|packages|-1]) + if last.name in c.excluded then [] else [Package(c.id, last.name, "", "", "")]
  }

  lemma {:induction false} OciListingExactly(c: Config, packages: seq<OciPackage>)
    ensures forall p :: p in OciListing(c, packages) <==>
              exists i :: 0 <= i < |packages| && packages[i].name !in c.excluded && p == Package(c.id, packages[i].name, "", "", "")
  {
    if |packages| > 0 {
      var init, last := packages[..|packages|-1], packages[|packages|-1];
      OciListingExactly(c, init);
      forall p ensures p in OciListing(c, packages) <==>
              exists i :: 0 <= i < |packages| && packages[i].name !in c.excluded && p == Package(c.id, packages[i].name, "", "", "")
      {
        if i :| 0 <= i < |init| && init[i].name !in c.excluded && p == Package(c.id, init[i].name, "", "", "") {
          assert packages[i] == init[i];
        }
        if i :| 0 <= i < |packages| && packages[i].name !in c.excluded && p == Package(c.id, packages[i].name, "", "", "") {
          assert i < |init| ==> packages[i] == init[i];
        }
      }
    }
  }

  /** Where the charts of a package are: its name under the catalog's location, with one slash between. */
  function Reference(location: string, name: string): string {
    (if |location| > 0 && location[|location|-1] == '/' then location[..|location|-1] else location) + "/" +
    (if |name| > 0 && name[0] == '/' then name[1..] else name)
  }

  /** One slash at the seam is as good as none or two. */
  lemma ReferenceExactly(location: string, name: string)
    requires location == "" || location[|location|-1] != '/'
    requires name == "" || name[0] != '/'
    ensures Reference(location, name) == location + "/" + name
    ensures Reference(location + "/", name) == location + "/" + name
    ensures Reference(location, "/" + name) == location + "/" + name
    ensures Reference(location + "/", "/" + name) == location + "/" + name
  {
    assert (location + "/")[..|location|] == location && ("/" + name)[1..] == name;
  }

  /** The chart of a version can be pulled and has a description. */
  predicate HasDescription(registry: Registry, c: Config, name: string, version: string) {
    var pull := registry(c, Reference(c.location, name), version);
    pull.Pulled? && pull.metadata.Some? && pull.metadata.value.description != ""
  }

  /** The last of the described charts describes the package. */
  function Enriched(registry: Registry, c: Config, name: string, versions: seq<string>): Package {
    if |versions| == 0 then Package(c.id, name, "", "", "")
    else
      var last := versions[|versions|-1];
      if HasDescription(registry, c, name, last) then
        var m := registry(c, Reference(c.location, name), last).metadata.value;
        Package(c.id, name, m.description, m.home, m.icon)
      else Enriched(registry, c, name, versions[..|versions|-1])
  }

  /** Pulled charts change nothing but the description, home and icon, and those exactly when one has a description. */
  lemma {:induction false} EnrichedExactly(registry: Registry, c: Config, name: string, versions: seq<string>)
    ensures var p := Enriched(registry, c, name, versions);
            && p.catalogId == c.id && p.name == name
            && (p == Package(c.id, name, "", "", "") <==>
                  forall v | v in versions :: !HasDescription(registry, c, name, v))
            && (p.description == "" <==> p == Package(c.id, name, "", "", ""))
  {
    if |versions| > 0 {
      var init, last := versions[..|versions|-1], versions[|versions|-1];
      EnrichedExactly(registry, c, name, init);
      assert versions == init + [last];
    }
  }

  // ---------------------------------------------------------------------------
  // Listing, getting, resolving
  // ---------------------------------------------------------------------------

  /** What listing a catalog's packages results in. Going through an index can be cancelled at any chart. */
  ghost predicate Listed(c: Config, index: Option<Index>, r: Result<seq<Package>, Error>) {
    match c.typ
    case OtherType => r == Failure(Unsupported)
    case Oci => r == Success(OciListing(c, PackagesOf(c)))
    case Helm =>
      if index.None? then r == Failure(NoIndex)
      else match r
        case Success(pkgs) => HelmListing(c, index.value, pkgs)
        case Failure(error) =>
          || (error == Cancelled && index.value != map[])
          || (error == Panic && exists name :: Shown(index.value, c.excluded, name) && index.value[name][0].Nil?)
  }

  /** What getting a package by name results in. */
  ghost predicate Gets(c: Config, index: Option<Index>, registry: Registry, name: string, r: Result<PackageRef, Error>) {
    match c.typ
    case OtherType => r == Failure(Unsupported)
    case Oci =>
      match FirstPackage(PackagesOf(c), name) {
        case None => r == Failure(UnknownPackage)
        case Some(p) => r == Success(PackageRef(Enriched(registry, c, name, p.versions), p.versions))
      }
    case Helm =>
      if index.None? then r == Failure(NoIndex)
      else if name !in index.value || |index.value[name]| == 0 then r == Failure(UnknownPackage)
      else
        var f, charts := FilterFrom(c.mode, c.maxNumber), index.value[name];
        if charts[0].Nil? || f.None? || (f.value.AtMost? && f.value.n < 0) then r == Failure(Panic)
        else
          KeptIncreasing(f.value, Offered(charts));
          && r.Success? && Described(r.value.package, c.id, name, charts[0])
          && r.value.versions == Pick(Offered(charts), Kept(f.value, Offered(charts)))
  }

  /** Scanning for a version, a nil chart before it panics. */
  function Scanned(charts: seq<Chart>, version: string): Result<(), Error> {
    if |charts| == 0 then Failure(UnknownVersion)
    else if charts[0].Nil? then Failure(Panic)
    else if charts[0].version == version then Success(())
    else Scanned(charts[1..], version)
  }

  lemma {:induction false} ScannedExactly(charts: seq<Chart>, version: string)
    requires forall i | 0 <= i < |charts| :: charts[i].Chart?
    ensures Scanned(charts, version).Success? <==> exists i :: 0 <= i < |charts| && charts[i].version == version
  {
    if |charts| > 0 && charts[0].version != version {
      ScannedExactly(charts[1..], version);
      assert forall i | 0 < i < |charts| :: charts[i] == charts[1..][i-1];
    }
  }

  /** What resolving a version results in; `repo` is the location of the catalog's chart repository, if it has one. */
  function Resolved(c: Config, repo: Option<string>, index: Option<Index>, name: string, version: string)
    : Result<PackageVersion, Error>
  {
    if c.typ.Oci? then
      match FirstPackage(PackagesOf(c), name)
      case None => Failure(UnknownPackage)
      case Some(p) =>
        if version in p.versions then Success(PackageVersion(c.id, name, version, c.location)) else Failure(UnknownVersion)
    else if repo.None? then Failure(UnknownCatalog)
    else if index.None? then Failure(NoIndex)
    else if name !in index.value then Failure(UnknownPackage)
    else match Scanned(index.value[name], version)
      case Success(_) => Success(PackageVersion(c.id, name, version, repo.value))
      case Failure(e) => Failure(e)
  }

  // ---------------------------------------------------------------------------
  // Soundness
  // ---------------------------------------------------------------------------

  predicate IndexSound(index: Option<Index>) {
    index.Some? ==> NoNil(index.value)
  }

  /** A package is listed exactly when it can be got and is not excluded. Getting it gives its id and name as listed,
      and all as listed in a Helm catalog; in an OCI catalog exactly if no chart that can be pulled has a description. */
  lemma ListedExactly(c: Config, index: Option<Index>, registry: Registry, l: Result<seq<Package>, Error>, name: string,
                      g: Result<PackageRef, Error>)
    requires ModeValid(c) && IndexSound(index)
    requires Listed(c, index, l) && Gets(c, index, registry, name, g) && l.Success?
    ensures (exists p :: p in l.value && p.name == name) <==> g.Success? && name !in c.excluded
    ensures forall p | p in l.value && p.name == name ::
              && g.value.package.catalogId == p.catalogId == c.id && g.value.package.name == p.name
              && (g.value.package == p <==>
                    c.typ.Helm? || forall v | v in g.value.versions :: !HasDescription(registry, c, name, v))
  {
    if c.typ.Oci? {
      FirstPackageExactly(PackagesOf(c), name);
      OciListingExactly(c, PackagesOf(c));
      if g.Success? {
        EnrichedExactly(registry, c, name, g.value.versions);
      }
      var p := Package(c.id, name, "", "", "");
      assert p in l.value <==> g.Success? && name !in c.excluded;
    } else {
      var pkgs := l.value;
      if Shown(index.value, c.excluded, name) {
        var k :| 0 <= k < |pkgs| && pkgs[k].name == name;
        assert pkgs[k] in pkgs;
      }
      if p :| p in pkgs && p.name == name {
        var k :| 0 <= k < |pkgs| && pkgs[k] == p;
        assert Shown(index.value, c.excluded, pkgs[k].name);
      }
    }
  }

  function SmallCatalog(excluded: seq<string>): Config {
    Config(Oci, "c", map["en" := "C"], map[], Prod, [], "oci://r", All, None, excluded, [],
           Some([OciPackage("p", ["1.0"])]))
  }

  /** An OCI catalog with nil packages lists none, and none can be got. */
  lemma NilListsNothing(c: Config, index: Option<Index>, registry: Registry, l: Result<seq<Package>, Error>,
                        name: string, g: Result<PackageRef, Error>)
    requires c.typ.Oci? && c.packages.None?
    requires Listed(c, index, l) && Gets(c, index, registry, name, g)
    ensures l == Success([]) && g == Failure(UnknownPackage)
  {
  }

  /** An excluded package that can be got all the same. */
  lemma ExcludedButGot(registry: Registry)
    ensures var c := SmallCatalog(["p"]);
            && Listed(c, None, Success([]))
            && Gets(c, None, registry, "p", Success(PackageRef(Enriched(registry, c, "p", ["1.0"]), ["1.0"])))
  {
    var packages := PackagesOf(SmallCatalog(["p"]));
    assert packages[..0] == [];
    assert OciListing(SmallCatalog(["p"]), packages) == [];
  }

  /** A package that is got with a description it is not listed with. */
  lemma ListedWithoutDescription()
    ensures var c := SmallCatalog([]);
            var registry := (c: Config, ref: string, version: string) => Pulled(Some(Metadata("d", "", "")));
            && Listed(c, None, Success([Package("c", "p", "", "", "")]))
            && Gets(c, None, registry, "p", Success(PackageRef(Package("c", "p", "d", "", ""), ["1.0"])))
  {
    var c := SmallCatalog([]);
    var packages := PackagesOf(c);
    assert packages[..0] == [] && c.excluded == [];
    assert OciListing(c, packages) == [Package("c", "p", "", "", "")];
    var registry := (c: Config, ref: string, version: string) => Pulled(Some(Metadata("d", "", "")));
    assert "d"[0] == 'd';
    assert HasDescription(registry, c, "p", "1.0");
    assert Enriched(registry, c, "p", ["1.0"]) == Package("c", "p", "d", "", "");
  }

  /** The versions of a package that can be resolved. */
  predicate Installable(c: Config, index: Option<Index>, name: string, version: string) {
    match c.typ
    case OtherType => false
    case Oci => FirstPackage(PackagesOf(c), name).Some? && version in FirstPackage(PackagesOf(c), name).value.versions
    case Helm => index.Some? && name in index.value &&
                 exists i :: 0 <= i < |index.value[name]| && index.value[name][i].Chart? && index.value[name][i].version == version
  }

  /** A version resolves exactly when the catalog has it, to the name, version and location asked for. */
  lemma ResolvesExactly(c: Config, repo: Option<string>, index: Option<Index>, name: string, version: string)
    requires !c.typ.OtherType? && IndexSound(index) && (c.typ.Helm? ==> repo == Some(c.location))
    ensures Resolved(c, repo, index, name, version).Success? <==> Installable(c, index, name, version)
    ensures Resolved(c, repo, index, name, version).Success? ==>
              Resolved(c, repo, index, name, version).value == PackageVersion(c.id, name, version, c.location)
  {
    if c.typ.Helm? && index.Some? && name in index.value {
      ScannedExactly(index.value[name], version);
    }
  }

  /** Every advertised version resolves, under every filter; with all versions offered, every named version that
      resolves is advertised. */
  lemma AdvertisedResolves(c: Config, repo: Option<string>, index: Option<Index>, registry: Registry, name: string,
                           version: string, g: Result<PackageRef, Error>)
    requires ModeValid(c) && IndexSound(index) && (c.typ.Helm? ==> repo == Some(c.location))
    requires Gets(c, index, registry, name, g) && g.Success?
    ensures version in g.value.versions ==>
              Resolved(c, repo, index, name, version) == Success(PackageVersion(c.id, name, version, c.location))
    ensures (c.typ.Oci? || c.mode.All?) && version != "" && Resolved(c, repo, index, name, version).Success?
            ==> version in g.value.versions
  {
    ResolvesExactly(c, repo, index, name, version);
    if c.typ.Helm? {
      var charts := index.value[name];
      var f := FilterFrom(c.mode, c.maxNumber).value;
      KeptIncreasing(f, Offered(charts));
      OfferedExactly(charts, version);
      if version in g.value.versions {
        var k :| 0 <= k < |g.value.versions| && g.value.versions[k] == version;
        assert Offered(charts)[Kept(f, Offered(charts))[k]] == version;
      }
      if c.mode.All? && version in Offered(charts) {
        var i :| 0 <= i < |Offered(charts)| && Offered(charts)[i] == version;
        assert g.value.versions[i] == version;
      }
    }
  }

  /** What a Helm catalog advertises of the versions its index offers: all, the first, the first of each minor version,
      or as many as configured. */
  lemma AdvertisedByMode(c: Config, index: Index, registry: Registry, name: string, g: Result<PackageRef, Error>)
    requires c.typ.Helm? && ModeValid(c) && Gets(c, Some(index), registry, name, g) && g.Success?
    ensures name in index
    ensures var offered := Offered(index[name]);
            g.value.versions == match c.mode
                                case All => offered
                                case Latest => if offered == [] then [] else [offered[0]]
                                case SkipPatch => Skipped(offered)
                                case MaxNumber =>
                                  if c.maxNumber.value < |offered| then offered[..c.maxNumber.value] else offered
                                case OtherMode => []
  {
    KeptIncreasing(FilterFrom(c.mode, c.maxNumber).value, Offered(index[name]));
  }

  // ---------------------------------------------------------------------------
  // The repository
  // ---------------------------------------------------------------------------

  method IsExcluded(excluded: seq<string>, name: string) returns (r: bool)
    ensures r <==> name in excluded
  {
    for i := 0 to |excluded|
      invariant name !in excluded[..i]
    {
      if excluded[i] == name { return true; }
    }
    return false;
  }

  /** The location of the last Helm catalog of each id. */
  function RepoUrls(configs: seq<Config>): map<string, string> {
    if |configs| == 0 then map[]
    else
      var init, last := RepoUrls(configs[..|configs|-1]), configs[|configs|-1];
      if last.typ.Helm? then init[last.id := last.location] else init
  }

  lemma {:induction false} HelmHasRepo(configs: seq<Config>)
    ensures forall id | id in ById(configs) :: ById(configs)[id].id == id
    ensures forall id | id in ById(configs) && ById(configs)[id].typ.Helm? ::
              id in RepoUrls(configs) && RepoUrls(configs)[id] == ById(configs)[id].location
  {
    if |configs| > 0 {
      HelmHasRepo(configs[..|configs|-1]);
    }
  }

  predicate Filtered(c: Config) {
    c.typ.Helm? ==> FilterFrom(c.mode, c.maxNumber).Some?
  }

  /** `usable` says of which locations a chart repository can be made. */
  method NewPackageRepository(configs: seq<Config>, usable: string -> bool, indexes: Indexes, registry: Registry)
    returns (r: Option<Repository>)
    ensures r.Some? <==> forall i | 0 <= i < |configs| ::
                           Filtered(configs[i]) && (configs[i].typ.Helm? ==> usable(configs[i].location))
    ensures r.Some? ==> && r.value.catalogs == ById(configs) && r.value.repos == RepoUrls(configs)
                        && r.value.indexes == indexes && r.value.registry == registry
  {
    var repos: map<string, string> := map[];
    var catalogMap: map<string, Config> := map[];
    for i := 0 to |configs|
      invariant catalogMap == ById(configs[..i]) && repos == RepoUrls(configs[..i])
      invariant forall j | 0 <= j < i :: Filtered(configs[j]) && (configs[j].typ.Helm? ==> usable(configs[j].location))
    {
      assert configs[..i+1][..i] == configs[..i];
      var cfg := configs[i];
      catalogMap := catalogMap[cfg.id := cfg];
      if cfg.typ.Helm? {
        if FilterFrom(cfg.mode, cfg.maxNumber).None? { return None; }
        if !usable(cfg.location) { return None; }
        repos := repos[cfg.id := cfg.location];
      }
    }
    assert configs[..|configs|] == configs;
    var repository := new Repository(repos, catalogMap, indexes, registry);
    return Some(repository);
  }

  class Repository {
    const repos: map<string, string>
    const catalogs: map<string, Config>
    const indexes: Indexes
    const registry: Registry

    constructor (repos: map<string, string>, catalogs: map<string, Config>, indexes: Indexes, registry: Registry)
      ensures this.repos == repos && this.catalogs == catalogs
      ensures this.indexes == indexes && this.registry == registry
    {
      this.repos, this.catalogs, this.indexes, this.registry := repos, catalogs, indexes, registry;
    }

    /** Each Helm catalog has its chart repository. */
    ghost predicate Valid() {
      && (forall id | id in catalogs :: catalogs[id].id == id)
      && (forall id | id in catalogs && catalogs[id].typ.Helm? :: id in repos && repos[id] == catalogs[id].location)
    }

    function RepoOf(id: string): Option<string> {
      if id in repos then Some(repos[id]) else None
    }

    method LoadHelmIndex(id: string) returns (r: Result<(string, Index), Error>)
      ensures r == if id !in repos then Failure(UnknownCatalog)
                   else if indexes(id).None? then Failure(NoIndex)
                   else Success((repos[id], indexes(id).value))
    {
      if id !in repos { return Failure(UnknownCatalog); }
      var index := indexes(id);
      return if index.None? then Failure(NoIndex) else Success((repos[id], index.value));
    }

    method ListPackages(id: string) returns (r: Result<seq<Package>, Error>)
      requires Valid()
      ensures if id in catalogs then Listed(catalogs[id], indexes(id), r) else r == Failure(UnknownCatalog)
    {
      if id !in catalogs { return Failure(UnknownCatalog); }
      match catalogs[id].typ {
        case Helm => r := ListHelmPackages(catalogs[id]);
        case Oci => r := ListOciPackages(catalogs[id]);
        case OtherType => r := Failure(Unsupported);
      }
    }

    method ListHelmPackages(c: Config) returns (r: Result<seq<Package>, Error>)
      requires Valid() && c.typ.Helm? && c.id in catalogs && catalogs[c.id] == c
      ensures Listed(c, indexes(c.id), r)
    {
      var loaded := LoadHelmIndex(c.id);
      if loaded.Failure? { return Failure(loaded.error); }
      var index: Index := loaded.value.1;
      var pkgs: seq<Package> := [];
      var todo := index.Keys;
      while todo != {}
        invariant todo <= index.Keys
        invariant forall k | 0 <= k < |pkgs| :: pkgs[k].name !in todo && Shown(index, c.excluded, pkgs[k].name)
                                                && Described(pkgs[k], c.id, pkgs[k].name, index[pkgs[k].name][0])
        invariant forall k, l | 0 <= k < l < |pkgs| :: pkgs[k].name != pkgs[l].name
        invariant forall name :: Shown(index, c.excluded, name) ==>
                                 name in todo || exists k :: 0 <= k < |pkgs| && pkgs[k].name == name
      {
        var name :| name in todo;
        todo := todo - {name};
        var cancelled: bool := *;
        if cancelled { return Failure(Cancelled); }
        var excluded := IsExcluded(c.excluded, name);
        if |index[name]| > 0 && !excluded {
          var latest: Chart := index[name][0];
          if latest.Nil? { return Failure(Panic); }
          ghost var before := pkgs;
          pkgs := pkgs + [Package(c.id, name, latest.description, latest.home, latest.icon)];
          assert pkgs[|before|].name == name;
          assert forall k | 0 <= k < |before| :: pkgs[k] == before[k];
        }
      }
      return Success(pkgs);
    }

    method ListOciPackages(c: Config) returns (r: Result<seq<Package>, Error>)
      ensures r == Success(OciListing(c, PackagesOf(c)))
    {
      var packages := PackagesOf(c);
      var pkgs: seq<Package> := [];
      for i := 0 to |packages|
        invariant pkgs == OciListing(c, packages[..i])
      {
        assert packages[..i+1][..i] == packages[..i];
        var excluded := IsExcluded(c.excluded, packages[i].name);
        if !excluded {
          pkgs := pkgs + [Package(c.id, packages[i].name, "", "", "")];
        }
      }
      assert packages[..|packages|] == packages;
      return Success(pkgs);
    }

    method GetPackage(id: string, name: string) returns (r: Result<PackageRef, Error>)
      requires Valid()
      ensures if id in catalogs then Gets(catalogs[id], indexes(id), registry, name, r) else r == Failure(UnknownCatalog)
    {
      if id !in catalogs { return Failure(UnknownCatalog); }
      match catalogs[id].typ {
        case Helm => r := GetHelmPackage(catalogs[id], name);
        case Oci => r := GetOciPackage(catalogs[id], name);
        case OtherType => r := Failure(Unsupported);
      }
    }

    method GetHelmPackage(c: Config, name: string) returns (r: Result<PackageRef, Error>)
      requires Valid() && c.typ.Helm? && c.id in catalogs && catalogs[c.id] == c
      ensures Gets(c, indexes(c.id), registry, name, r)
    {
      var loaded := LoadHelmIndex(c.id);
      if loaded.Failure? { return Failure(loaded.error); }
      var index: Index := loaded.value.1;
      if name !in index || |index[name]| == 0 { return Failure(UnknownPackage); }
      var latest: Chart := index[name][0];
      if latest.Nil? { return Failure(Panic); }
      var filter := FilterFrom(c.mode, c.maxNumber);
      if filter.None? { return Failure(Panic); }
      var all := ExtractVersions(index[name]);
      var versions := Apply(filter.value, all);
      if versions.None? { return Failure(Panic); }
      return Success(PackageRef(Package(c.id, name, latest.description, latest.home, latest.icon), versions.value));
    }

    method GetOciPackage(c: Config, name: string) returns (r: Result<PackageRef, Error>)
      requires c.typ.Oci?
      ensures Gets(c, None, registry, name, r)
    {
      var packages := PackagesOf(c);
      for i := 0 to |packages|
        invariant FirstPackage(packages, name) == FirstPackage(packages[i..], name)
      {
        if packages[i].name == name {
          var p := DescribePackage(c, name, packages[i].versions);
          return Success(PackageRef(p, packages[i].versions));
        }
      }
      return Failure(UnknownPackage);
    }

    /** Pulls the chart of every version, passing over those that fail. */
    method DescribePackage(c: Config, name: string, versions: seq<string>) returns (p: Package)
      ensures p == Enriched(registry, c, name, versions)
    {
      p := Package(c.id, name, "", "", "");
      for i := 0 to |versions|
        invariant p == Enriched(registry, c, name, versions[..i])
      {
        assert versions[..i+1][..i] == versions[..i];
        var pull := registry(c, Reference(c.location, name), versions[i]);
        if pull.Pulled? && pull.metadata.Some? && pull.metadata.value.description != "" {
          var m := pull.metadata.value;
          p := p.(description := m.description, home := m.home, icon := m.icon);
        }
        EnrichedExactly(registry, c, name, versions[..i]);
      }
      assert versions[..|versions|] == versions;
    }

    method ResolvePackage(id: string, name: string, version: string) returns (r: Result<PackageVersion, Error>)
      requires Valid()
      ensures r == if id in catalogs then Resolved(catalogs[id], RepoOf(id), indexes(id), name, version)
                   else Failure(UnknownCatalog)
    {
      if id !in catalogs { return Failure(UnknownCatalog); }
      if catalogs[id].typ.Oci? {
        r := ResolveOciPackage(catalogs[id], name, version);
        return;
      }
      var loaded := LoadHelmIndex(id);
      if loaded.Failure? { return Failure(loaded.error); }
      var (url, index) := loaded.value;
      if name !in index { return Failure(UnknownPackage); }
      var charts := index[name];
      for i := 0 to |charts|
        invariant Scanned(charts, version) == Scanned(charts[i..], version)
      {
        if charts[i].Nil? { return Failure(Panic); }
        if charts[i].version == version { return Success(PackageVersion(id, name, version, url)); }
      }
      return Failure(UnknownVersion);
    }

    method ResolveOciPackage(c: Config, name: string, version: string) returns (r: Result<PackageVersion, Error>)
      requires c.typ.Oci?
      ensures r == Resolved(c, None, None, name, version)
    {
      var packages := PackagesOf(c);
      for i := 0 to |packages|
        invariant FirstPackage(packages, name) == FirstPackage(packages[i..], name)
      {
        if packages[i].name == name {
          for j := 0 to |packages[i].versions|
            invariant version !in packages[i].versions[..j]
          {
            if packages[i].versions[j] == version {
              return Success(PackageVersion(c.id, name, version, c.location));
            }
          }
          return Failure(UnknownVersion);
        }
      }
      return Failure(UnknownPackage);
    }
  }
}
