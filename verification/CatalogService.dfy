/** The catalogs shown to users: from the configuration, over the repository, to what can be installed. */
module CatalogService {
  import opened Common
  import opened VersionFilter
  import opened CatalogConfig
  import opened Packages

  /** A text in several languages; unset where none are configured. */
  datatype Localized = Unset | Multi(texts: map<string, string>)

  function LocalizedFrom(texts: map<string, string>): Localized {
    if texts == map[] then Unset else Multi(texts)
  }

  datatype Catalog = Catalog(id: string, name: Localized, description: Localized, status: Status,
                             highlighted: seq<string>, packages: seq<Package>)

  /** The configurations to show, in order. */
  function Included(configs: seq<Config>, show: Config -> bool): seq<Config> {
    if |configs| == 0 then []
    else
      var last := configs[|configs|-1];
      Included(configs[..|configs|-1], show) + if show(last) then [last] else []
  }

  lemma {:induction false} IncludedExactly(configs: seq<Config>, show: Config -> bool)
    ensures forall c :: c in Included(configs, show) <==> c in configs && show(c)
  {
    if |configs| > 0 {
      IncludedExactly(configs[..|configs|-1], show);
      assert configs == configs[..|configs|-1] + [configs[|configs|-1]];
    }
  }

  /** A catalog shows its configuration, and the packages listed for the configuration of its id. */
  ghost predicate Shows(shown: Catalog, c: Config, catalogs: map<string, Config>, indexes: Indexes) {
    && shown.id == c.id && shown.status == c.status && shown.highlighted == c.highlighted
    && shown.name == LocalizedFrom(c.name) && shown.description == LocalizedFrom(c.description)
    && c.id in catalogs && Listed(catalogs[c.id], indexes(c.id), Success(shown.packages))
  }

  lemma InById(configs: seq<Config>, c: Config)
    requires c in configs
    ensures c.id in ById(configs)
    ensures DistinctIds(configs) ==> ById(configs)[c.id] == c
  {
    ByIdExactly(configs, c.id);
  }

  method NewLocalizedString(texts: map<string, string>) returns (r: Localized)
    ensures r == LocalizedFrom(texts)
  {
    return if |texts| == 0 then Unset else Multi(texts);
  }

  class Service {
    const configs: seq<Config>
    const repo: Repository

    constructor (configs: seq<Config>, repo: Repository)
      requires repo.catalogs == ById(configs) && repo.repos == RepoUrls(configs)
      ensures Valid() && this.configs == configs && this.repo == repo
    {
      this.configs, this.repo := configs, repo;
      HelmHasRepo(configs);
    }

    ghost predicate Valid() {
      repo.Valid() && repo.catalogs == ById(configs)
    }

    method GetPackage(id: string, name: string) returns (r: Result<PackageRef, Error>)
      requires Valid()
      ensures if id in ById(configs) then Gets(ById(configs)[id], repo.indexes(id), repo.registry, name, r)
              else r == Failure(UnknownCatalog)
    {
      ByIdExactly(configs, id);
      FirstByIdExactly(configs, id);
      var found := FindCatalog(configs, id);
      if found.None? { return Failure(UnknownCatalog); }
      r := repo.GetPackage(id, name);
    }

    /** One failing listing fails the whole. */
    method BuildCatalogs(show: Config -> bool) returns (r: Result<seq<Catalog>, Error>)
      requires Valid()
      ensures r.Success? ==>
                && |r.value| == |Included(configs, show)|
                && forall k | 0 <= k < |r.value| :: Shows(r.value[k], Included(configs, show)[k], ById(configs), repo.indexes)
      ensures r.Failure? ==>
                exists c :: c in configs && show(c) && c.id in ById(configs)
                            && Listed(ById(configs)[c.id], repo.indexes(c.id), Failure(r.error))
    {
      var out: seq<Catalog> := [];
      for i := 0 to |configs|
        invariant |out| == |Included(configs[..i], show)|
        invariant forall k | 0 <= k < |out| :: Shows(out[k], Included(configs[..i], show)[k], ById(configs), repo.indexes)
      {
        assert configs[..i+1][..i] == configs[..i];
        var cfg := configs[i];
        if show(cfg) {
          InById(configs, cfg);
          var pkgs := repo.ListPackages(cfg.id);
          if pkgs.Failure? { return Failure(pkgs.error); }
          var name := NewLocalizedString(cfg.name);
          var description := NewLocalizedString(cfg.description);
          out := out + [Catalog(cfg.id, name, description, cfg.status, cfg.highlighted, pkgs.value)];
        }
      }
      assert configs[..|configs|] == configs;
      return Success(out);
    }
  }

  /** Under a valid configuration and an index without nil charts, nothing panics: the filter exists and its slice is
      in range. */
  lemma ValidNeverPanics(c: Config, lib: Library, index: Option<Index>, registry: Registry, name: string,
                         g: Result<PackageRef, Error>, l: Result<seq<Package>, Error>)
    requires Valid(c, lib) && IndexSound(index)
    requires Gets(c, index, registry, name, g) && Listed(c, index, l)
    ensures Filtered(c) && g != Failure(Panic) && l != Failure(Panic)
  {
  }

  function RepoOf(configs: seq<Config>, id: string): Option<string> {
    if id in RepoUrls(configs) then Some(RepoUrls(configs)[id]) else None
  }

  /** From the catalog shown to the release installed: under a valid configuration, each package of a shown catalog
      can be got by its id and name and resolves in each version advertised for it. What is got is the package shown,
      unless the catalog is an OCI one and a chart that can be pulled has a description. */
  lemma ShownIsInstallable(configs: seq<Config>, lib: Library, indexes: Indexes, registry: Registry,
                           shown: Catalog, c: Config, p: Package, g: Result<PackageRef, Error>, version: string)
    requires AllValid(configs, lib) && c in configs && IndexSound(indexes(c.id))
    requires Shows(shown, c, ById(configs), indexes) && p in shown.packages
    requires Gets(c, indexes(c.id), registry, p.name, g)
    ensures ById(configs)[c.id] == c && p.catalogId == shown.id == c.id
    ensures g.Success? && g.value.package.catalogId == p.catalogId && g.value.package.name == p.name
    ensures g.value.package == p <==>
              c.typ.Helm? || forall v | v in g.value.versions :: !HasDescription(registry, c, p.name, v)
    ensures version in g.value.versions ==>
              Resolved(c, RepoOf(configs, c.id), indexes(c.id), p.name, version)
              == Success(PackageVersion(shown.id, p.name, version, c.location))
  {
    InById(configs, c);
    HelmHasRepo(configs);
    if c.typ.Oci? {
      OciListingExactly(c, PackagesOf(c));
    } else {
      var l :| 0 <= l < |shown.packages| && shown.packages[l] == p;
    }
    ListedExactly(c, indexes(c.id), registry, Success(shown.packages), p.name, g);
    AdvertisedResolves(c, RepoOf(configs, c.id), indexes(c.id), registry, p.name, version, g);
  }
}
