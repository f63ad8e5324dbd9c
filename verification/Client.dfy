/**
 The URLs the generated client builds, against the router that has to take them apart.

 Each send function fills an array of path parts slot by slot; parameters pass through a path
 encoder first, and the parts are appended to the path of the server URL.
 */
module Client {
  import opened Common
  import opened Router

  function Concat(parts: seq<string>): string {
    if parts == [] then "" else parts[0] + Concat(parts[1..])
  }

  lemma {:induction false} ConcatAppend(a: seq<string>, b: seq<string>)
    ensures Concat(a + b) == Concat(a) + Concat(b)
  {
    if a == [] {
      assert a + b == b;
    } else {
      assert (a + b)[1..] == a[1..] + b;
      ConcatAppend(a[1..], b);
    }
  }

  lemma ConcatTwo(a: string, b: string)
    ensures Concat([a, b]) == a + b
  {
    assert [a, b][1..] == [b] && [b][1..] == [];
    assert Concat([b]) == b + Concat([]) == b;
  }

  /** The parts of an operation's path, as the client fills them in. */
  function Parts(op: Operation, p: seq<string>): seq<string>
    requires |p| == ParamCount(op)
  {
    match op
    case GetMyCatalogs => ["/api/services/catalogs"]
    case GetMyPackage => ["/api/services/catalogs/", p[0], "/packages/", p[1]]
    case GetPackageSchema => ["/api/services/schemas/", p[0], "/packageName/", p[1], "/versions/", p[2]]
    case InstallService => ["/api/services/", p[0], "/install"]
    case WatchRelease => ["/api/services/events/", p[0], "/watch-release"]
    case WatchResources => ["/api/services/events/", p[0], "/watch-resources"]
  }

  /** The parts spell the template with its parameters filled in. */
  lemma PartsSpellTemplate(op: Operation, p: seq<string>)
    requires |p| == ParamCount(op)
    ensures Concat(Parts(op, p)) == Print(op, p)
  {
    Filled(op, p);
    var parts := Parts(op, p);
    var own := Fill(Template(op), p).tail.tail.tail;
    JoinServices(own);
    match op {
      case GetMyCatalogs => SpellCatalogs();
      case GetMyPackage => SpellPackage(p[0], p[1]);
      case GetPackageSchema => SpellSchema(p[0], p[1], p[2]);
      case InstallService => SpellInstall(p[0]);
      case WatchRelease => SpellEvents(p[0], "watch-release", parts[2]);
      case WatchResources => SpellEvents(p[0], "watch-resources", parts[2]);
    }
  }

  lemma SpellCatalogs()
    ensures Concat(["/api/services/catalogs"]) == "/api/services/" + Join(Last("catalogs"))
  {
    assert Concat(["/api/services/catalogs"]) == "/api/services/catalogs" + Concat([]) == "/api/services/" + "catalogs";
  }

  lemma SpellInstall(releaseId: string)
    ensures Concat(["/api/services/", releaseId, "/install"]) == "/api/services/" + Join(More(releaseId, Last("install")))
  {
    SpellThree("/api/services/", releaseId, "/install");
    assert Join(More(releaseId, Last("install"))) == releaseId + "/" + "install" == releaseId + "/install";
  }

  lemma SpellThree(a: string, b: string, c: string)
    ensures Concat([a, b, c]) == a + b + c
  {
    assert [a, b, c] == [a, b] + [c];
    ConcatAppend([a, b], [c]);
    ConcatTwo(a, b);
    assert Concat([c]) == c + Concat([]) == c;
  }

  lemma SpellEvents(releaseId: string, what: string, last: string)
    requires last == "/" + what
    ensures Concat(["/api/services/events/", releaseId, last])
            == "/api/services/" + Join(More("events", More(releaseId, Last(what))))
  {
    SpellThree("/api/services/events/", releaseId, last);
    assert Join(More(releaseId, Last(what))) == releaseId + "/" + what;
    assert "/api/services/" + ("events" + "/") == "/api/services/events/";
  }

  /** A slash, a literal segment, and the rest of a path. */
  lemma SpellLiteral(literal: string, rest: Path<string>, text: string)
    requires text == "/" + literal + "/"
    ensures "/" + Join(More(literal, rest)) == text + Join(rest)
  {
  }

  lemma SpellPackage(catalogId: string, name: string)
    ensures Concat(["/api/services/catalogs/", catalogId, "/packages/", name])
            == "/api/services/" + Join(More("catalogs", More(catalogId, More("packages", Last(name)))))
  {
    var a, b := ["/api/services/catalogs/", catalogId], ["/packages/", name];
    assert a + b == ["/api/services/catalogs/", catalogId, "/packages/", name];
    ConcatAppend(a, b);
    ConcatTwo(a[0], a[1]);
    ConcatTwo(b[0], b[1]);
    var packages := More("packages", Last(name));
    SpellLiteral("packages", Last(name), "/packages/");
    assert Join(More(catalogId, packages)) == catalogId + ("/" + Join(packages));
    assert "/api/services/" + ("catalogs" + "/") == "/api/services/catalogs/";
  }

  lemma SpellSchema(catalogId: string, name: string, version: string)
    ensures Concat(["/api/services/schemas/", catalogId, "/packageName/", name, "/versions/", version])
            == "/api/services/"
               + Join(More("schemas", More(catalogId, More("packageName", More(name, More("versions", Last(version)))))))
  {
    var a, b, c := ["/api/services/schemas/", catalogId], ["/packageName/", name], ["/versions/", version];
    assert a + (b + c) == ["/api/services/schemas/", catalogId, "/packageName/", name, "/versions/", version];
    ConcatAppend(a, b + c);
    ConcatAppend(b, c);
    ConcatTwo(a[0], a[1]);
    ConcatTwo(b[0], b[1]);
    ConcatTwo(c[0], c[1]);
    var versions := More("versions", Last(version));
    var names := More("packageName", More(name, versions));
    SpellLiteral("versions", Last(version), "/versions/");
    SpellLiteral("packageName", More(name, versions), "/packageName/");
    assert Join(More(name, versions)) == name + ("/" + Join(versions));
    assert Join(More(catalogId, names)) == catalogId + ("/" + Join(names));
    assert "/api/services/" + ("schemas" + "/") == "/api/services/schemas/";
  }

  class ApiClient {
    const base: string               // the path of the server URL
    const encode: string -> string   // the path encoder

    constructor (base: string, encode: string -> string)
      ensures this.base == base && this.encode == encode
    {
      this.base, this.encode := base, encode;
    }

    method AddPathParts(parts: array<string>) returns (path: string)
      ensures path == base + Concat(parts[..])
    {
      path := base;
      for i := 0 to parts.Length
        invariant path == base + Concat(parts[..i])
      {
        assert parts[..i+1] == parts[..i] + [parts[i]];
        ConcatAppend(parts[..i], [parts[i]]);
        assert Concat([parts[i]]) == parts[i];
        path := path + parts[i];
      }
      assert parts[..parts.Length] == parts[..];
    }

    method SendGetMyCatalogs() returns (path: string)
      ensures path == base + Print(GetMyCatalogs, [])
    {
      var pathParts := new string[1];
      pathParts[0] := "/api/services/catalogs";
      assert pathParts[..] == Parts(GetMyCatalogs, []);
      PartsSpellTemplate(GetMyCatalogs, []);
      path := AddPathParts(pathParts);
    }

    method SendGetMyPackage(catalogId: string, packageName: string) returns (path: string)
      ensures path == base + Print(GetMyPackage, [encode(catalogId), encode(packageName)])
    {
      var pathParts := new string[4];
      pathParts[0] := "/api/services/catalogs/";
      pathParts[1] := encode(catalogId);
      pathParts[2] := "/packages/";
      pathParts[3] := encode(packageName);
      ghost var p := [encode(catalogId), encode(packageName)];
      assert pathParts[..] == Parts(GetMyPackage, p);
      PartsSpellTemplate(GetMyPackage, p);
      path := AddPathParts(pathParts);
    }

    method SendGetPackageSchema(catalogId: string, packageName: string, version: string) returns (path: string)
      ensures path == base + Print(GetPackageSchema, [encode(catalogId), encode(packageName), encode(version)])
    {
      var pathParts := new string[6];
      pathParts[0] := "/api/services/schemas/";
      pathParts[1] := encode(catalogId);
      pathParts[2] := "/packageName/";
      pathParts[3] := encode(packageName);
      pathParts[4] := "/versions/";
      pathParts[5] := encode(version);
      ghost var p := [encode(catalogId), encode(packageName), encode(version)];
      assert pathParts[..] == Parts(GetPackageSchema, p);
      PartsSpellTemplate(GetPackageSchema, p);
      path := AddPathParts(pathParts);
    }

    method SendInstallService(releaseId: string) returns (path: string)
      ensures path == base + Print(InstallService, [encode(releaseId)])
    {
      var pathParts := new string[3];
      pathParts[0] := "/api/services/";
      pathParts[1] := encode(releaseId);
      pathParts[2] := "/install";
      assert pathParts[..] == Parts(InstallService, [encode(releaseId)]);
      PartsSpellTemplate(InstallService, [encode(releaseId)]);
      path := AddPathParts(pathParts);
    }

    method SendWatchRelease(releaseId: string) returns (path: string)
      ensures path == base + Print(WatchRelease, [encode(releaseId)])
    {
      var pathParts := new string[3];
      pathParts[0] := "/api/services/events/";
      pathParts[1] := encode(releaseId);
      pathParts[2] := "/watch-release";
      assert pathParts[..] == Parts(WatchRelease, [encode(releaseId)]);
      PartsSpellTemplate(WatchRelease, [encode(releaseId)]);
      path := AddPathParts(pathParts);
    }

    method SendWatchResources(releaseId: string) returns (path: string)
      ensures path == base + Print(WatchResources, [encode(releaseId)])
    {
      var pathParts := new string[3];
      pathParts[0] := "/api/services/events/";
      pathParts[1] := encode(releaseId);
      pathParts[2] := "/watch-resources";
      assert pathParts[..] == Parts(WatchResources, [encode(releaseId)]);
      PartsSpellTemplate(WatchResources, [encode(releaseId)]);
      path := AddPathParts(pathParts);
    }
  }

  /** What a client prints, a server with the same base takes apart again. */
  lemma ClientThenServer(base: string, op: Operation, params: seq<string>, server: Server)
    requires server.prefix == base
    requires |params| == ParamCount(op) && forall p | p in params :: SlashFree(p)
    ensures server.CutPrefix(base + Print(op, params)) == Some(Print(op, params))
    ensures Routed(Print(op, params), if op.InstallService? then "PUT" else "GET") ==
            if op == InstallService && params[0] in {"events", "schemas"} then NotFound else Handle(op, params)
  {
    HasAtIsSlice(base + Print(op, params), 0, base);
    PrintThenRoute(op, params);
    PrintIsFound(op, params);
  }
}
