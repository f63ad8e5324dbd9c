/** The configured catalogs: which configurations are accepted, and how a catalog is found by its id. */
module CatalogConfig {
  import opened Common
  import opened VersionFilter

  datatype Type = Helm | Oci | OtherType

  datatype Status = Prod | Test | OtherStatus

  datatype Restriction = Restriction(key: string, match_: string)

  datatype OciPackage = OciPackage(name: string, versions: seq<string>)

  /** `packages` is None for a nil slice. */
  datatype Config = Config(typ: Type, id: string, name: map<string, string>, description: map<string, string>,
                           status: Status, highlighted: seq<string>, location: string, mode: Mode,
                           maxNumber: Option<int>, excluded: seq<string>, restrictions: seq<Restriction>,
                           packages: Option<seq<OciPackage>>)

  /** Trimming space and compiling regular expressions are not part of this model. */
  datatype Library = Library(blank: string -> bool, compiles: string -> bool)

  function PackagesOf(c: Config): seq<OciPackage> {
    if c.packages.Some? then c.packages.value else []
  }

  // ---------------------------------------------------------------------------
  // Validation
  // ---------------------------------------------------------------------------

  /** A positive number of versions is given in the mode that needs one, and none in the other modes. */
  predicate ModeValid(c: Config) {
    c.mode != OtherMode && (c.mode == MaxNumber <==> c.maxNumber.Some?) && (c.mode == MaxNumber ==> c.maxNumber.value > 0)
  }

  predicate RestrictionsValid(c: Config, lib: Library) {
    forall i | 0 <= i < |c.restrictions| :: !lib.blank(c.restrictions[i].key) && lib.compiles(c.restrictions[i].match_)
  }

  /** A Helm catalog lists no packages; an OCI catalog lists some, all named. */
  predicate PackagesValid(c: Config) {
    match c.typ
    case Helm => c.packages.None?
    case Oci => |PackagesOf(c)| > 0 && forall i | 0 <= i < |PackagesOf(c)| :: PackagesOf(c)[i].name != ""
    case OtherType => false
  }

  predicate Valid(c: Config, lib: Library) {
    && c.status != OtherStatus && c.id != "" && c.name != map[]
    && ModeValid(c) && RestrictionsValid(c, lib) && PackagesValid(c)
  }

  predicate DistinctIds(configs: seq<Config>) {
    forall i, j | 0 <= i < j < |configs| :: configs[i].id != configs[j].id
  }

  predicate AllValid(configs: seq<Config>, lib: Library) {
    DistinctIds(configs) && forall i | 0 <= i < |configs| :: Valid(configs[i], lib)
  }

  method ValidateCommon(c: Config, lib: Library) returns (ok: bool)
    ensures ok <==> c.status != OtherStatus && ModeValid(c) && c.id != "" && c.name != map[] && RestrictionsValid(c, lib)
  {
    match c.status {
      case Prod =>
      case Test =>
      case OtherStatus => return false;
    }
    match c.mode {
      case MaxNumber =>
        if c.maxNumber.None? || c.maxNumber.value <= 0 { return false; }
      case OtherMode => return false;
      case _ =>
        if c.maxNumber.Some? { return false; }
    }
    if c.id == "" { return false; }
    if |c.name| == 0 { return false; }
    for i := 0 to |c.restrictions|
      invariant forall j | 0 <= j < i :: !lib.blank(c.restrictions[j].key) && lib.compiles(c.restrictions[j].match_)
    {
      if lib.blank(c.restrictions[i].key) { return false; }
      if !lib.compiles(c.restrictions[i].match_) { return false; }
    }
    return true;
  }

  method ValidateOci(c: Config) returns (ok: bool)
    ensures ok <==> |PackagesOf(c)| > 0 && forall i | 0 <= i < |PackagesOf(c)| :: PackagesOf(c)[i].name != ""
  {
    if |PackagesOf(c)| == 0 { return false; }
    for i := 0 to |PackagesOf(c)|
      invariant forall j | 0 <= j < i :: PackagesOf(c)[j].name != ""
    {
      if PackagesOf(c)[i].name == "" { return false; }
    }
    return true;
  }

  method ValidateCatalogConfig(c: Config, lib: Library) returns (ok: bool)
    ensures ok <==> Valid(c, lib)
  {
    ok := ValidateCommon(c, lib);
    if !ok { return; }
    match c.typ {
      case Helm => ok := c.packages.None?;
      case Oci => ok := ValidateOci(c);
      case OtherType => ok := false;
    }
  }

  datatype Invalid = InvalidCatalog(at: nat) | DuplicateId(at: nat)

  predicate Repeated(configs: seq<Config>, i: nat)
    requires i < |configs|
  {
    exists j :: 0 <= j < i && configs[j].id == configs[i].id
  }

  lemma AllValidOneMore(configs: seq<Config>, i: nat, lib: Library)
    requires i < |configs|
    ensures AllValid(configs[..i+1], lib) <==> AllValid(configs[..i], lib) && Valid(configs[i], lib) && !Repeated(configs, i)
    ensures AllValid(configs, lib) ==> AllValid(configs[..i+1], lib)
  {
    var now, next := configs[..i], configs[..i+1];
    assert next == now + [configs[i]];
    if AllValid(next, lib) {
      assert forall j | 0 <= j < i :: now[j] == next[j];
      assert next[i] == configs[i];
    }
  }

  /** The catalogs are accepted exactly when each is valid and their ids are distinct; otherwise the first at fault is
      reported. */
  method ValidateCatalogsConfig(configs: seq<Config>, lib: Library) returns (r: Result<(), Invalid>)
    ensures r.Success? <==> AllValid(configs, lib)
    ensures r.Failure? ==> r.error.at < |configs| && AllValid(configs[..r.error.at], lib)
                           && (if r.error.InvalidCatalog? then !Valid(configs[r.error.at], lib)
                               else Valid(configs[r.error.at], lib) && Repeated(configs, r.error.at))
  {
    var seen: set<string> := {};
    for i := 0 to |configs|
      invariant AllValid(configs[..i], lib)
      invariant forall id :: id in seen <==> exists j :: 0 <= j < i && configs[j].id == id
    {
      AllValidOneMore(configs, i, lib);
      var ok := ValidateCatalogConfig(configs[i], lib);
      if !ok { return Failure(InvalidCatalog(i)); }
      if configs[i].id in seen { return Failure(DuplicateId(i)); }
      seen := seen + {configs[i].id};
    }
    assert configs[..|configs|] == configs;
    return Success(());
  }

  // ---------------------------------------------------------------------------
  // Finding a catalog
  // ---------------------------------------------------------------------------

  /** The configuration with this id that comes first. */
  function FirstById(configs: seq<Config>, id: string): Option<Config> {
    if |configs| == 0 then None
    else if configs[0].id == id then Some(configs[0])
    else FirstById(configs[1..], id)
  }

  /** The configurations by id, the last of those that share one. */
  function ById(configs: seq<Config>): map<string, Config> {
    if |configs| == 0 then map[]
    else ById(configs[..|configs|-1])[configs[|configs|-1].id := configs[|configs|-1]]
  }

  predicate IsLast(configs: seq<Config>, i: nat, id: string) {
    i < |configs| && configs[i].id == id && forall j | i < j < |configs| :: configs[j].id != id
  }

  lemma {:induction false} LastIsById(configs: seq<Config>, i: nat, id: string)
    requires IsLast(configs, i, id)
    ensures id in ById(configs) && ById(configs)[id] == configs[i]
  {
    if i < |configs| - 1 {
      var init := configs[..|configs|-1];
      assert forall j | i <= j < |init| :: init[j] == configs[j];
      LastIsById(init, i, id);
    }
  }

  lemma {:induction false} HasLast(configs: seq<Config>, id: string)
    ensures id in ById(configs) ==> exists i: nat :: IsLast(configs, i, id)
  {
    if |configs| > 0 {
      var init, last := configs[..|configs|-1], configs[|configs|-1];
      HasLast(init, id);
      if last.id == id {
        assert IsLast(configs, |configs| - 1, id);
      } else if id in ById(init) {
        var i: nat :| IsLast(init, i, id);
        assert forall j | i <= j < |init| :: init[j] == configs[j];
        assert IsLast(configs, i, id);
      }
    }
  }

  lemma {:induction false} OccursById(configs: seq<Config>, i: nat)
    requires i < |configs|
    ensures configs[i].id in ById(configs)
  {
    if i < |configs| - 1 {
      assert configs[i] == configs[..|configs|-1][i];
      OccursById(configs[..|configs|-1], i);
    }
  }

  /** The map has the ids of the configurations, each with the last configuration of that id. */
  lemma ByIdExactly(configs: seq<Config>, id: string)
    ensures id in ById(configs) <==> exists i :: 0 <= i < |configs| && configs[i].id == id
    ensures forall i: nat | IsLast(configs, i, id) :: id in ById(configs) && ById(configs)[id] == configs[i]
    ensures id in ById(configs) ==> exists i: nat :: IsLast(configs, i, id)
  {
    HasLast(configs, id);
    forall i: nat | IsLast(configs, i, id) ensures id in ById(configs) && ById(configs)[id] == configs[i] {
      LastIsById(configs, i, id);
    }
    if i :| 0 <= i < |configs| && configs[i].id == id {
      OccursById(configs, i);
    }
  }

  lemma {:induction false} FirstByIdExactly(configs: seq<Config>, id: string)
    ensures FirstById(configs, id).None? <==> forall i | 0 <= i < |configs| :: configs[i].id != id
    ensures FirstById(configs, id).Some? ==>
              exists i :: 0 <= i < |configs| && configs[i] == FirstById(configs, id).value && configs[i].id == id
                          && forall j | 0 <= j < i :: configs[j].id != id
  {
    if |configs| > 0 && configs[0].id != id {
      var rest := configs[1..];
      FirstByIdExactly(rest, id);
      assert forall i | 0 < i < |configs| :: configs[i] == rest[i-1];
      if FirstById(rest, id).Some? {
        var i :| 0 <= i < |rest| && rest[i] == FirstById(rest, id).value && rest[i].id == id
                 && forall j | 0 <= j < i :: rest[j].id != id;
        assert configs[i+1] == rest[i];
      }
    }
  }

  /** Among distinct ids, the first and the last configuration of an id are the same. */
  lemma SameById(configs: seq<Config>, id: string)
    requires DistinctIds(configs)
    ensures FirstById(configs, id) == if id in ById(configs) then Some(ById(configs)[id]) else None
  {
    ByIdExactly(configs, id);
    FirstByIdExactly(configs, id);
  }

  method FindCatalog(configs: seq<Config>, id: string) returns (r: Option<Config>)
    ensures r == FirstById(configs, id)
  {
    for i := 0 to |configs|
      invariant FirstById(configs, id) == FirstById(configs[i..], id)
    {
      if configs[i].id == id { return Some(configs[i]); }
    }
    return None;
  }
}
