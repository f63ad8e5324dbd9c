/**
 The request router of the services API against its OpenAPI path templates.

 The templates, and matching a path against them segment by segment, are the specification.
 The router is generated code: a radix trie unrolled into nested switches, which consumes the
 path in `elem`, collects parameters in `args`, and falls back to the `{releaseId}` template by
 restoring `elem`. Two of its branches leave the switch before that restore.

 Every `elem` is a suffix of the path, so it is kept as the position `elem` where it starts:
 advancing the slice is adding to the position.
 */
module Router {
  import opened Common

  // ---------------------------------------------------------------------------
  // Templates
  // ---------------------------------------------------------------------------

  datatype Operation =
    | GetMyCatalogs | GetMyPackage | GetPackageSchema | InstallService | WatchRelease | WatchResources

  /** A path or a path template, cut at its slashes. */
  datatype Path<T> = Last(head: T) | More(head: T, tail: Path<T>)

  datatype Segment = Lit(text: string) | Param

  function Template(op: Operation): Path<Segment> {
    More(Lit(""), More(Lit("api"), More(Lit("services"), Own(op))))
  }

  /** The part of the template after the segments that all of them share. */
  function Own(op: Operation): Path<Segment> {
    match op
    case GetMyCatalogs => Last(Lit("catalogs"))
    case GetMyPackage => More(Lit("catalogs"), More(Param, More(Lit("packages"), Last(Param))))
    case GetPackageSchema =>
      More(Lit("schemas"), More(Param, More(Lit("packageName"), More(Param, More(Lit("versions"), Last(Param))))))
    case InstallService => More(Param, Last(Lit("install")))
    case WatchRelease => More(Lit("events"), More(Param, Last(Lit("watch-release"))))
    case WatchResources => More(Lit("events"), More(Param, Last(Lit("watch-resources"))))
  }

  function ParamCount(op: Operation): nat {
    match op
    case GetMyCatalogs => 0
    case GetMyPackage => 2
    case GetPackageSchema => 3
    case _ => 1
  }

  function MethodOf(op: Operation): string {
    if op.InstallService? then "PUT" else "GET"
  }

  predicate SlashFree(s: string) {
    '/' !in s
  }

  /** The first slash of `s` at or after position `at`, or the end of `s`. */
  function NextSlash(s: string, at: nat): (i: nat)
    requires at <= |s|
    ensures at <= i <= |s| && (i < |s| ==> s[i] == '/')
    decreases |s| - at
  {
    if at == |s| || s[at] == '/' then at else NextSlash(s, at + 1)
  }

  /** The segments of `s` from position `at` on. */
  function Split(s: string, at: nat): Path<string>
    requires at <= |s|
    decreases |s| - at
  {
    var i := NextSlash(s, at);
    if i == |s| then Last(s[at..i]) else More(s[at..i], Split(s, i + 1))
  }

  function Join(p: Path<string>): string {
    match p case Last(head) => head case More(head, tail) => head + "/" + Join(tail)
  }

  /** A parameter matches any segment, the empty one included. */
  predicate Matches(t: Path<Segment>, p: Path<string>) {
    && (t.head.Lit? ==> p.head == t.head.text)
    && t.Last? == p.Last?
    && (t.More? ==> Matches(t.tail, p.tail))
  }

  function Params(t: Path<Segment>, p: Path<string>): seq<string>
    requires Matches(t, p)
  {
    (if t.head.Param? then [p.head] else []) + if t.More? then Params(t.tail, p.tail) else []
  }

  /** The operation whose template the path matches, with its parameters. */
  ghost function Lookup(path: string): Option<(Operation, seq<string>)> {
    var p := Split(path, 0);
    if op :| Matches(Template(op), p) then Some((op, Params(Template(op), p))) else None
  }

  /** What the OpenAPI document asks for. */
  datatype Response = Handle(op: Operation, args: seq<string>) | NotAllowed(allowed: string) | NotFound

  ghost function Documented(path: string, httpMethod: string): Response {
    match Lookup(path)
    case None => NotFound
    case Some((op, params)) => if httpMethod == MethodOf(op) then Handle(op, params) else NotAllowed(MethodOf(op))
  }

  /** The paths on which the router departs from it: both match `{releaseId}/install`. */
  predicate Shadowed(path: string) {
    path == "/api/services/events/install" || path == "/api/services/schemas/install"
  }

  /** What the router answers to a path without the configured prefix. */
  ghost function Routed(path: string, httpMethod: string): Response {
    if Shadowed(path) then NotFound else Documented(path, httpMethod)
  }

  // ---------------------------------------------------------------------------
  // Positions in a path
  // ---------------------------------------------------------------------------

  /** `s` continues with `text` at position `at`. */
  predicate HasAt(s: string, at: nat, text: string) {
    at + |text| <= |s| && Agree(s, at, text, |text|)
  }

  predicate Agree(s: string, at: nat, text: string, k: nat)
    requires k <= |text| && at + |text| <= |s|
  {
    k == 0 || (s[at+k-1] == text[k-1] && Agree(s, at, text, k - 1))
  }

  /** ... and ends there. */
  predicate EndsAt(s: string, at: nat, text: string) {
    at + |text| == |s| && HasAt(s, at, text)
  }

  lemma {:induction false} AgreeIsPointwise(s: string, at: nat, text: string, k: nat)
    requires k <= |text| && at + |text| <= |s|
    ensures Agree(s, at, text, k) <==> forall j | 0 <= j < k :: s[at+j] == text[j]
  {
    if k > 0 {
      AgreeIsPointwise(s, at, text, k - 1);
    }
  }

  lemma HasAtIsSlice(s: string, at: nat, text: string)
    ensures HasAt(s, at, text) <==> at + |text| <= |s| && s[at..at+|text|] == text
    ensures EndsAt(s, at, text) <==> at <= |s| && s[at..] == text
  {
    if at + |text| <= |s| {
      AgreeIsPointwise(s, at, text, |text|);
      var t := s[at..at+|text|];
      assert t == text <==> forall j | 0 <= j < |text| :: t[j] == text[j];
      assert at + |text| == |s| ==> s[at..] == s[at..at+|text|];
    }
  }

  lemma HasAtConcat(s: string, at: nat, a: string, b: string)
    ensures HasAt(s, at, a + b) <==> HasAt(s, at, a) && HasAt(s, at + |a|, b)
  {
    HasAtIsSlice(s, at, a + b);
    HasAtIsSlice(s, at, a);
    HasAtIsSlice(s, at + |a|, b);
    if at + |a| + |b| <= |s| {
      var t := s[at..at+|a|+|b|];
      assert t[..|a|] == s[at..at+|a|] && t[|a|..] == s[at+|a|..at+|a|+|b|];
      assert t == a + b <==> t[..|a|] == a && t[|a|..] == b by {
        assert t == t[..|a|] + t[|a|..];
        assert (a + b)[..|a|] == a && (a + b)[|a|..] == b;
      }
    }
  }

  lemma HasSlashAt(s: string, at: nat)
    ensures HasAt(s, at, "/") <==> at < |s| && s[at] == '/'
  {
    assert at < |s| ==> Agree(s, at, "/", 0);
  }

  lemma {:induction false} NoSlashBefore(s: string, at: nat)
    requires at <= |s|
    ensures forall j | at <= j < NextSlash(s, at) :: s[j] != '/'
    decreases |s| - at
  {
    if at < |s| && s[at] != '/' {
      NoSlashBefore(s, at + 1);
    }
  }

  lemma NextSlashIs(s: string, at: nat, i: nat)
    requires at <= i <= |s| && (i < |s| ==> s[i] == '/') && forall j | at <= j < i :: s[j] != '/'
    ensures NextSlash(s, at) == i
  {
    NoSlashBefore(s, at);
  }

  lemma NextSlashAfter(s: string, at: nat, text: string)
    requires HasAt(s, at, text) && SlashFree(text) && (at + |text| < |s| ==> s[at+|text|] == '/')
    ensures NextSlash(s, at) == at + |text| && s[at..at+|text|] == text
  {
    HasAtIsSlice(s, at, text);
    forall j | at <= j < at + |text|
      ensures s[j] != '/'
    {
      assert s[j] == s[at..at+|text|][j-at];
    }
    NextSlashIs(s, at, at + |text|);
  }

  /** A literal and a slash stand at a position exactly when it is the segment there. */
  lemma SegmentIs(s: string, at: nat, text: string)
    requires at <= |s| && SlashFree(text)
    ensures HasAt(s, at, text + "/") <==> Split(s, at).More? && Split(s, at).head == text
    ensures HasAt(s, at, text + "/") ==> Split(s, at).tail == Split(s, at + |text| + 1)
  {
    HasAtConcat(s, at, text, "/");
    HasAtIsSlice(s, at, text);
    HasSlashAt(s, at + |text|);
    if HasAt(s, at, text + "/") {
      NextSlashAfter(s, at, text);
    }
  }

  /** A literal is all that is left exactly when it is the last segment. */
  lemma LastIs(s: string, at: nat, text: string)
    requires at <= |s| && SlashFree(text)
    ensures EndsAt(s, at, text) <==> Split(s, at) == Last(text)
  {
    HasAtIsSlice(s, at, text);
    assert s[at..] == s[at..|s|];
    if EndsAt(s, at, text) {
      NextSlashAfter(s, at, text);
    }
  }

  /** The same two after a slash. */
  lemma NextSegmentIs(s: string, at: nat, text: string)
    requires at <= |s| && SlashFree(text)
    ensures HasAt(s, at, "/" + (text + "/")) <==>
            Split(s, at).More? && Split(s, at).head == "" && Split(s, at).tail.More? && Split(s, at).tail.head == text
    ensures HasAt(s, at, "/" + (text + "/")) ==> Split(s, at).tail.tail == Split(s, at + |text| + 2)
  {
    HasAtConcat(s, at, "/", text + "/");
    HasSlashAt(s, at);
    if at < |s| && s[at] == '/' {
      SegmentIs(s, at + 1, text);
    }
  }

  lemma NextLastIs(s: string, at: nat, text: string)
    requires at <= |s| && SlashFree(text)
    ensures EndsAt(s, at, "/" + text) <==> Split(s, at) == More("", Last(text))
  {
    HasAtConcat(s, at, "/", text);
    HasSlashAt(s, at);
    if at < |s| {
      LastIs(s, at + 1, text);
      if s[at] == '/' {
        assert NextSlash(s, at) == at && s[at..at] == "";
      }
    }
  }

  // ---------------------------------------------------------------------------
  // Templates and paths
  // ---------------------------------------------------------------------------

  lemma Unfold(t: Path<Segment>, p: Path<string>)
    ensures Matches(t, p) <==> (t.head.Lit? ==> p.head == t.head.text) && t.Last? == p.Last?
                               && (t.More? ==> Matches(t.tail, p.tail))
    ensures Matches(t, p) ==>
              Params(t, p) == (if t.head.Param? then [p.head] else []) + if t.More? then Params(t.tail, p.tail) else []
  {
  }

  /** The parameters of `op` in the segments `q` after "/api/services/", if they match its template. */
  function Extract(op: Operation, q: Path<string>): Option<seq<string>> {
    match (op, q)
    case (GetMyCatalogs, Last("catalogs")) => Some([])
    case (GetMyPackage, More("catalogs", More(x, More("packages", Last(y))))) => Some([x, y])
    case (GetPackageSchema, More("schemas", More(x, More("packageName", More(y, More("versions", Last(z))))))) =>
      Some([x, y, z])
    case (InstallService, More(x, Last("install"))) => Some([x])
    case (WatchRelease, More("events", More(x, Last("watch-release")))) => Some([x])
    case (WatchResources, More("events", More(x, Last("watch-resources")))) => Some([x])
    case _ => None
  }

  lemma {:induction false} ExtractMatches(op: Operation, q: Path<string>)
    ensures Matches(Own(op), q) <==> Extract(op, q).Some?
    ensures Matches(Own(op), q) ==> Params(Own(op), q) == Extract(op, q).value
  {
    var t, p := Own(op), q;
    Unfold(t, p);
    if t.More? && p.More? {
      Unfold(t.tail, p.tail);
      t, p := t.tail, p.tail;
      if t.More? && p.More? {
        Unfold(t.tail, p.tail);
        t, p := t.tail, p.tail;
        if t.More? && p.More? {
          Unfold(t.tail, p.tail);
          t, p := t.tail, p.tail;
          if t.More? && p.More? {
            Unfold(t.tail, p.tail);
            t, p := t.tail, p.tail;
            if t.More? && p.More? {
              Unfold(t.tail, p.tail);
            }
          }
        }
      }
    }
  }

  lemma TemplateMatches(op: Operation, p: Path<string>)
    ensures Matches(Template(op), p) <==>
            && p.More? && p.head == "" && p.tail.More? && p.tail.head == "api"
            && p.tail.tail.More? && p.tail.tail.head == "services" && Matches(Own(op), p.tail.tail.tail)
    ensures Matches(Template(op), p) ==> Params(Template(op), p) == Params(Own(op), p.tail.tail.tail)
  {
    var t := Template(op);
    Unfold(t, p);
    if p.More? {
      Unfold(t.tail, p.tail);
      if p.tail.More? {
        Unfold(t.tail.tail, p.tail.tail);
      }
    }
  }

  /** At most one template matches a path, so that `Lookup` has no choice. */
  lemma AtMostOneTemplate(op: Operation, other: Operation, p: Path<string>)
    requires Matches(Template(op), p) && Matches(Template(other), p)
    ensures op == other
  {
    TemplateMatches(op, p);
    TemplateMatches(other, p);
    ExtractMatches(op, p.tail.tail.tail);
    ExtractMatches(other, p.tail.tail.tail);
  }

  /** Reading a path by its segments after "/api/services/". */
  lemma LookupAfterServices(path: string)
    ensures !HasAt(path, 0, "/api/services/") ==> Lookup(path) == None
    ensures HasAt(path, 0, "/api/services/") ==>
              forall op | Matches(Own(op), Split(path, 14)) :: Lookup(path) == Some((op, Params(Own(op), Split(path, 14))))
    ensures HasAt(path, 0, "/api/services/") && (forall op :: !Matches(Own(op), Split(path, 14))) ==> Lookup(path) == None
  {
    var p := Split(path, 0);
    Literals();
    HasAtConcat(path, 0, "/" + ("api" + "/"), "services" + "/");
    NextSegmentIs(path, 0, "api");
    if HasAt(path, 0, "/" + ("api" + "/")) {
      SegmentIs(path, 5, "services");
    }
    forall op: Operation
      ensures Matches(Template(op), p) <==> HasAt(path, 0, "/api/services/") && Matches(Own(op), Split(path, 14))
      ensures Matches(Template(op), p) ==> Params(Template(op), p) == Params(Own(op), Split(path, 14))
    {
      TemplateMatches(op, p);
    }
    forall op, other: Operation | Matches(Template(op), p) && Matches(Template(other), p)
      ensures op == other
    {
      AtMostOneTemplate(op, other, p);
    }
  }

  predicate Segmented(p: Path<string>) {
    SlashFree(p.head) && (p.More? ==> Segmented(p.tail))
  }

  lemma {:induction false} ShiftSplit(head: string, s: string, at: nat)
    requires at <= |s|
    ensures Split(head + s, |head| + at) == Split(s, at)
    decreases |s| - at
  {
    var i := NextSlash(s, at);
    NoSlashBefore(s, at);
    NextSlashIs(head + s, |head| + at, |head| + i);
    assert (head + s)[|head|+at..|head|+i] == s[at..i];
    if i < |s| {
      ShiftSplit(head, s, i + 1);
    }
  }

  lemma {:induction false} SplitJoin(p: Path<string>)
    requires Segmented(p)
    ensures Split(Join(p), 0) == p
  {
    if p.Last? {
      HasAtIsSlice(p.head, 0, p.head);
      LastIs(p.head, 0, p.head);
      assert p.head[0..] == p.head;
    } else {
      var rest := Join(p.tail);
      SplitJoin(p.tail);
      ShiftSplit(p.head + "/", rest, 0);
      SegmentIs(p.head + "/" + rest, 0, p.head);
      HasAtIsSlice(p.head + "/" + rest, 0, p.head + "/");
      assert (p.head + "/" + rest)[0..|p.head|+1] == p.head + "/";
    }
  }

  lemma {:induction false} JoinSplit(s: string, at: nat)
    requires at <= |s|
    ensures Join(Split(s, at)) == s[at..]
    decreases |s| - at
  {
    var i := NextSlash(s, at);
    if i < |s| {
      JoinSplit(s, i + 1);
    }
  }

  // ---------------------------------------------------------------------------
  // The templates by position
  // ---------------------------------------------------------------------------

  // What follows "/api/services/", read by literal text and by the next slash, as the router reads it.

  predicate IsPackage(s: string, at: nat)
    requires at <= |s|
  {
    HasAt(s, at, "catalogs/") &&
    var i := NextSlash(s, at + 9);
    HasAt(s, i, "/packages/") && NextSlash(s, i + 10) == |s|
  }

  predicate IsVersion(s: string, at: nat)
    requires at <= |s|
  {
    HasAt(s, at, "/versions/") && NextSlash(s, at + 10) == |s|
  }

  predicate IsSchema(s: string, at: nat)
    requires at <= |s|
  {
    HasAt(s, at, "schemas/") &&
    var i := NextSlash(s, at + 8);
    HasAt(s, i, "/packageName/") && IsVersion(s, NextSlash(s, i + 13))
  }

  predicate IsWatch(s: string, at: nat, what: string)
    requires at <= |s|
  {
    HasAt(s, at, "events/") && EndsAt(s, NextSlash(s, at + 7), what)
  }

  predicate IsInstall(s: string, at: nat)
    requires at <= |s|
  {
    EndsAt(s, NextSlash(s, at), "/install")
  }

  lemma Literals()
    ensures "catalogs/" == "catalogs" + "/" && "events/" == "events" + "/" && "schemas/" == "schemas" + "/"
    ensures "/packages/" == "/" + ("packages" + "/") && "/versions/" == "/" + ("versions" + "/")
    ensures "/packageName/" == "/" + ("packageName" + "/")
    ensures "/watch-release" == "/" + "watch-release" && "/watch-resources" == "/" + "watch-resources"
    ensures "/install" == "/" + "install"
    ensures "/api/services/" == "/" + ("api" + "/") + ("services" + "/")
  {
  }

  lemma ScanLast(s: string, at: nat)
    requires at <= |s|
    ensures NextSlash(s, at) == |s| <==> Split(s, at).Last?
    ensures NextSlash(s, at) == |s| ==> Split(s, at) == Last(s[at..])
  {
    assert s[at..] == s[at..|s|];
  }

  lemma ScanPackage(s: string, at: nat, q: Path<string>)
    requires at <= |s| && q == Split(s, at)
    ensures IsPackage(s, at) <==> Extract(GetMyPackage, q).Some?
    ensures IsPackage(s, at) ==>
              var i := NextSlash(s, at + 9);
              Extract(GetMyPackage, q) == Some([s[at+9..i], s[i+10..]])
  {
    assert "catalogs/" == "catalogs" + "/" && "/packages/" == "/" + ("packages" + "/") by { Literals(); }
    SegmentIs(s, at, "catalogs");
    if HasAt(s, at, "catalogs/") {
      var i := NextSlash(s, at + 9);
      NextSegmentIs(s, i, "packages");
      if HasAt(s, i, "/packages/") {
        ScanLast(s, i + 10);
      }
    }
  }

  lemma ScanVersion(s: string, at: nat)
    requires at <= |s|
    ensures IsVersion(s, at) <==> EndsInVersion(Split(s, at))
    ensures IsVersion(s, at) ==> Split(s, at).tail.tail.head == s[at+10..]
  {
    assert "/versions/" == "/" + ("versions" + "/") by { Literals(); }
    NextSegmentIs(s, at, "versions");
    if HasAt(s, at, "/versions/") {
      ScanLast(s, at + 10);
    }
  }

  predicate EndsInVersion(q: Path<string>) {
    q.More? && q.head == "" && q.tail.More? && q.tail.head == "versions" && q.tail.tail.Last?
  }

  predicate EndsInNameAndVersion(q: Path<string>) {
    && q.More? && q.head == "" && q.tail.More? && q.tail.head == "packageName"
    && q.tail.tail.More? && EndsInVersion(More("", q.tail.tail.tail))
  }

  lemma ScanNameAndVersion(s: string, at: nat)
    requires at <= |s|
    ensures HasAt(s, at, "/packageName/") && IsVersion(s, NextSlash(s, at + 13)) <==> EndsInNameAndVersion(Split(s, at))
    ensures HasAt(s, at, "/packageName/") && IsVersion(s, NextSlash(s, at + 13)) ==>
              var j := NextSlash(s, at + 13);
              var q := Split(s, at).tail.tail;
              q.head == s[at+13..j] && q.tail.tail.head == s[j+10..]
  {
    assert "/packageName/" == "/" + ("packageName" + "/") by { Literals(); }
    NextSegmentIs(s, at, "packageName");
    if HasAt(s, at, "/packageName/") {
      AfterSegment(s, at + 13);
      ScanVersion(s, NextSlash(s, at + 13));
    }
  }

  lemma ScanSchema(s: string, at: nat, q: Path<string>)
    requires at <= |s| && q == Split(s, at)
    ensures IsSchema(s, at) <==> Extract(GetPackageSchema, q).Some?
    ensures IsSchema(s, at) ==>
              var i := NextSlash(s, at + 8);
              var j := NextSlash(s, i + 13);
              Extract(GetPackageSchema, q) == Some([s[at+8..i], s[i+13..j], s[j+10..]])
  {
    assert "schemas/" == "schemas" + "/" by { Literals(); }
    SegmentIs(s, at, "schemas");
    ExtractSchema(q);
    if HasAt(s, at, "schemas/") {
      AfterSegment(s, at + 8);
      ScanNameAndVersion(s, NextSlash(s, at + 8));
    }
  }

  lemma ExtractSchema(q: Path<string>)
    ensures Extract(GetPackageSchema, q) ==
            if q.More? && q.head == "schemas" && q.tail.More? && EndsInNameAndVersion(More("", q.tail.tail)) then
              var r := q.tail.tail.tail;
              Some([q.tail.head, r.head, r.tail.tail.head])
            else None
  {
  }

  /** The slash that ends a segment starts an empty one. */
  lemma AfterSegment(s: string, at: nat)
    requires at <= |s|
    ensures Split(s, at).head == s[at..NextSlash(s, at)]
    ensures Split(s, at).More? ==> Split(s, NextSlash(s, at)) == More("", Split(s, at).tail)
    ensures Split(s, at).Last? ==> Split(s, NextSlash(s, at)) == Last("")
  {
    var i := NextSlash(s, at);
    assert s[i..i] == "";
  }

  lemma ScanWatch(s: string, at: nat, q: Path<string>)
    requires at <= |s| && q == Split(s, at)
    ensures IsWatch(s, at, "/watch-release") <==> Extract(WatchRelease, q).Some?
    ensures IsWatch(s, at, "/watch-resources") <==> Extract(WatchResources, q).Some?
    ensures IsWatch(s, at, "/watch-release") ==> Extract(WatchRelease, q) == Some([s[at+7..NextSlash(s, at + 7)]])
    ensures IsWatch(s, at, "/watch-resources") ==> Extract(WatchResources, q) == Some([s[at+7..NextSlash(s, at + 7)]])
  {
    assert "events/" == "events" + "/" && "/watch-release" == "/" + "watch-release"
           && "/watch-resources" == "/" + "watch-resources" by { Literals(); }
    SegmentIs(s, at, "events");
    if HasAt(s, at, "events/") {
      AfterSegment(s, at + 7);
      NextLastIs(s, NextSlash(s, at + 7), "watch-release");
      NextLastIs(s, NextSlash(s, at + 7), "watch-resources");
    }
  }

  lemma ScanInstall(s: string, at: nat, q: Path<string>)
    requires at <= |s| && q == Split(s, at)
    ensures IsInstall(s, at) <==> Extract(InstallService, q).Some?
    ensures IsInstall(s, at) ==> Extract(InstallService, q) == Some([s[at..NextSlash(s, at)]])
  {
    assert "/install" == "/" + "install" by { Literals(); }
    AfterSegment(s, at);
    NextLastIs(s, NextSlash(s, at), "install");
  }

  /** The template found by position, after "/api/services/". */
  function Find(s: string, at: nat): Option<(Operation, seq<string>)>
    requires at <= |s|
  {
    if EndsAt(s, at, "catalogs") then Some((GetMyCatalogs, []))
    else if IsPackage(s, at) then
      var i := NextSlash(s, at + 9);
      Some((GetMyPackage, [s[at+9..i], s[i+10..]]))
    else if IsSchema(s, at) then
      var i := NextSlash(s, at + 8);
      var j := NextSlash(s, i + 13);
      Some((GetPackageSchema, [s[at+8..i], s[i+13..j], s[j+10..]]))
    else if IsInstall(s, at) then Some((InstallService, [s[at..NextSlash(s, at)]]))
    else if IsWatch(s, at, "/watch-release") then Some((WatchRelease, [s[at+7..NextSlash(s, at + 7)]]))
    else if IsWatch(s, at, "/watch-resources") then Some((WatchResources, [s[at+7..NextSlash(s, at + 7)]]))
    else None
  }

  lemma FindIsExtract(s: string, at: nat)
    requires at <= |s|
    ensures forall op | Extract(op, Split(s, at)).Some? :: Find(s, at) == Some((op, Extract(op, Split(s, at)).value))
    ensures Find(s, at).Some? ==> Extract(Find(s, at).value.0, Split(s, at)) == Some(Find(s, at).value.1)
  {
    var q := Split(s, at);
    LastIs(s, at, "catalogs");
    ScanPackage(s, at, q);
    ScanSchema(s, at, q);
    ScanInstall(s, at, q);
    ScanWatch(s, at, q);
    forall op | Extract(op, q).Some?
      ensures Find(s, at) == Some((op, Extract(op, q).value))
    {
      OneExtract(op, q);
    }
  }

  lemma OneExtract(op: Operation, q: Path<string>)
    requires Extract(op, q).Some?
    ensures forall other | other != op :: Extract(other, q).None?
  {
  }

  lemma FindIsLookup(path: string)
    ensures Lookup(path) == if HasAt(path, 0, "/api/services/") then Find(path, 14) else None
  {
    LookupAfterServices(path);
    if HasAt(path, 0, "/api/services/") {
      var q := Split(path, 14);
      forall op: Operation
        ensures Matches(Own(op), q) ==> Find(path, 14) == Some((op, Params(Own(op), q)))
        ensures Find(path, 14).Some? ==> Matches(Own(Find(path, 14).value.0), q)
      {
        ExtractMatches(op, q);
        FindIsExtract(path, 14);
        if Find(path, 14).Some? {
          ExtractMatches(Find(path, 14).value.0, q);
        }
      }
      if Find(path, 14).None? {
        assert forall op :: !Matches(Own(op), q);
      } else {
        assert Matches(Own(Find(path, 14).value.0), q);
      }
    }
  }

  // ---------------------------------------------------------------------------
  // The two routers
  // ---------------------------------------------------------------------------

  /** The slash search of the router: the distance to the next slash, or -1. */
  function IndexSlash(s: string, at: nat): (i: int)
    requires at <= |s|
    ensures i == if NextSlash(s, at) == |s| then -1 else NextSlash(s, at) - at
  {
    var i := NextSlash(s, at);
    if i == |s| then -1 else i - at
  }

  lemma WatchTexts(s: string, at: nat)
    requires at <= |s|
    ensures EndsAt(s, at, "/watch-release") <==> HasAt(s, at, "/watch-re") && HasAt(s, at + 9, "lease") && at + 14 == |s|
    ensures EndsAt(s, at, "/watch-resources") <==> HasAt(s, at, "/watch-re") && HasAt(s, at + 9, "sources") && at + 16 == |s|
    ensures HasAt(s, at + 9, "lease") ==> s[at+9] == 'l'
    ensures HasAt(s, at + 9, "sources") ==> s[at+9] == 's'
  {
    assert "/watch-release" == "/watch-re" + "lease" && "/watch-resources" == "/watch-re" + "sources";
    HasAtConcat(s, at, "/watch-re", "lease");
    HasAtConcat(s, at, "/watch-re", "sources");
    StartsWith(s, at + 9, "lease");
    StartsWith(s, at + 9, "sources");
  }

  lemma StartsWith(s: string, at: nat, text: string)
    requires text != ""
    ensures HasAt(s, at, text) ==> s[at] == text[0]
  {
    HasAtIsSlice(s, at, text);
    if HasAt(s, at, text) {
      assert s[at..at+|text|][0] == text[0];
    }
  }

  /** What the first letter after "/api/services/" rules out. */
  lemma Dispatch(s: string)
    requires 14 <= |s|
    ensures HasAt(s, 14, "catalogs") ==> s[14] == 'c'
    ensures HasAt(s, 14, "catalogs/") <==> HasAt(s, 14, "catalogs") && 22 < |s| && s[22] == '/'
    ensures HasAt(s, 14, "events/") ==> s[14] == 'e'
    ensures HasAt(s, 14, "schemas/") ==> s[14] == 's'
  {
    assert "catalogs/" == "catalogs" + "/" by { Literals(); }
    HasAtConcat(s, 14, "catalogs", "/");
    HasSlashAt(s, 22);
    StartsWith(s, 14, "catalogs");
    StartsWith(s, 14, "events/");
    StartsWith(s, 14, "schemas/");
  }

  lemma {:induction false} NameThenInstall(s: string, at: nat, name: string)
    requires at <= |s| && SlashFree(name)
    ensures EndsAt(s, at, name + "/install") <==> HasAt(s, at, name + "/") && IsInstall(s, at)
    ensures EndsAt(s, at, name + "/install") ==> NextSlash(s, at + |name| + 1) == |s|
  {
    var i := at + |name|;
    HasAtConcat(s, at, name, "/");
    HasAtConcat(s, at, name, "/install");
    HasSlashAt(s, i);
    if HasAt(s, at, name) {
      HasAtConcat(s, i, "/", "install");
      assert "/" + "install" == "/install";
      if i < |s| && s[i] == '/' {
        NextSlashAfter(s, at, name);
        if HasAt(s, i + 1, "install") && i + 8 == |s| {
          NextSlashAfter(s, i + 1, "install");
        }
      }
    }
  }

  lemma PrefixAnd(s: string, a: string, b: string)
    ensures s == a + b <==> HasAt(s, 0, a) && EndsAt(s, |a|, b)
  {
    HasAtConcat(s, 0, a, b);
    HasAtIsSlice(s, 0, a + b);
    assert s[0..] == s;
  }

  lemma InstallAfterName(s: string)
    requires 14 <= |s|
    ensures IsInstall(s, 14) && HasAt(s, 14, "events/") ==> NextSlash(s, 21) == |s|
    ensures IsInstall(s, 14) && HasAt(s, 14, "schemas/") ==> NextSlash(s, 22) == |s|
  {
    assert "events/" == "events" + "/" && "schemas/" == "schemas" + "/" by { Literals(); }
    NameThenInstall(s, 14, "events");
    NameThenInstall(s, 14, "schemas");
  }

  /** Where the shadowed paths are. */
  lemma ShadowedAt(s: string)
    requires HasAt(s, 0, "/api/services/")
    ensures Shadowed(s) <==> IsInstall(s, 14) && (HasAt(s, 14, "events/") || HasAt(s, 14, "schemas/"))
  {
    assert "events/" == "events" + "/" && "schemas/" == "schemas" + "/" by { Literals(); }
    assert "/api/services/events/install" == "/api/services/" + ("events" + "/install") &&
           "/api/services/schemas/install" == "/api/services/" + ("schemas" + "/install") by { ShadowedLiterals(); }
    PrefixAnd(s, "/api/services/", "events" + "/install");
    PrefixAnd(s, "/api/services/", "schemas" + "/install");
    NameThenInstall(s, 14, "events");
    NameThenInstall(s, 14, "schemas");
  }

  lemma ShadowedLiterals()
    ensures "/api/services/events/install" == "/api/services/" + ("events" + "/install")
    ensures "/api/services/schemas/install" == "/api/services/" + ("schemas" + "/install")
  {
  }

  /** A path that matches `{releaseId}/install` has no other template. */
  lemma NotInstall(s: string)
    requires 14 <= |s|
    ensures IsInstall(s, 14) ==> Find(s, 14) == Some((InstallService, [s[14..NextSlash(s, 14)]]))
    ensures IsInstall(s, 14) ==>
              && !EndsAt(s, 14, "catalogs") && !IsPackage(s, 14) && !IsSchema(s, 14)
              && !IsWatch(s, 14, "/watch-release") && !IsWatch(s, 14, "/watch-resources")
  {
    var q := Split(s, 14);
    LastIs(s, 14, "catalogs");
    ScanPackage(s, 14, q);
    ScanSchema(s, 14, q);
    ScanInstall(s, 14, q);
    ScanWatch(s, 14, q);
  }

  /** The leaf of the trie the path leads to. */
  function Reach(s: string): Option<(Operation, seq<string>)> {
    if !HasAt(s, 0, "/api/services/") || (IsInstall(s, 14) && (HasAt(s, 14, "events/") || HasAt(s, 14, "schemas/")))
    then None else Find(s, 14)
  }

  function Respond(leaf: Option<(Operation, seq<string>)>, httpMethod: string): Response {
    match leaf
    case None => NotFound
    case Some((op, params)) => if httpMethod == MethodOf(op) then Handle(op, params) else NotAllowed(MethodOf(op))
  }

  /** The trie leads where the templates say, on every path but the two shadowed ones. */
  lemma ReachIsRouted(path: string, httpMethod: string)
    ensures Respond(Reach(path), httpMethod) == Routed(path, httpMethod)
  {
    FindIsLookup(path);
    if HasAt(path, 0, "/api/services/") {
      ShadowedAt(path);
    } else {
      assert "/api/services/events/install" == "/api/services/" + ("events" + "/install") &&
             "/api/services/schemas/install" == "/api/services/" + ("schemas" + "/install") by { ShadowedLiterals(); }
      PrefixAnd(path, "/api/services/", "events" + "/install");
      PrefixAnd(path, "/api/services/", "schemas" + "/install");
    }
  }

  /** The router serves what the OpenAPI document asks for on every path except two, on which a request
      to install a release is lost. */
  lemma RouterDeviation(path: string, httpMethod: string)
    ensures Routed(path, httpMethod) == Documented(path, httpMethod) <==> !Shadowed(path)
    ensures Shadowed(path) ==> Documented(path, "PUT").Handle? && Routed(path, "PUT") == NotFound
  {
    if Shadowed(path) {
      assert "/api/services/events/install" == "/api/services/" + ("events" + "/install") &&
             "/api/services/schemas/install" == "/api/services/" + ("schemas" + "/install") by { ShadowedLiterals(); }
      PrefixAnd(path, "/api/services/", "events" + "/install");
      PrefixAnd(path, "/api/services/", "schemas" + "/install");
      ShadowedAt(path);
      NotInstall(path);
      FindIsLookup(path);
    }
  }

  /** The path matches the template of `op` with these parameters, is not shadowed, and the method is the one the
      operation is documented under. */
  ghost predicate Served(path: string, httpMethod: string, op: Operation, args: seq<string>) {
    && !Shadowed(path)
    && Matches(Template(op), Split(path, 0)) && args == Params(Template(op), Split(path, 0))
    && httpMethod == match op
                     case InstallService => "PUT"
                     case GetMyCatalogs | GetMyPackage | GetPackageSchema | WatchRelease | WatchResources => "GET"
  }

  /** The path would be served under `allowed`, but not under this method. */
  ghost predicate Refused(path: string, httpMethod: string, allowed: string) {
    httpMethod != allowed && exists op, args :: Served(path, allowed, op, args)
  }

  /** A request is handled exactly when it is to be served, and by that operation; "not allowed" names the one method
      under which it would be. */
  lemma RoutedExactly(path: string, httpMethod: string)
    ensures forall op, args :: Routed(path, httpMethod) == Handle(op, args) <==> Served(path, httpMethod, op, args)
    ensures forall allowed :: Routed(path, httpMethod) == NotAllowed(allowed) <==> Refused(path, httpMethod, allowed)
  {
    var p := Split(path, 0);
    forall op, args, m | Served(path, m, op, args)
      ensures Lookup(path) == Some((op, args)) && m == MethodOf(op)
    {
      forall other | Matches(Template(other), p)
        ensures other == op
      {
        AtMostOneTemplate(op, other, p);
      }
    }
    forall op, args | Lookup(path) == Some((op, args)) && !Shadowed(path)
      ensures Served(path, MethodOf(op), op, args)
    {
    }
  }

  // ---------------------------------------------------------------------------
  // Printing
  // ---------------------------------------------------------------------------

  function ParamsIn(t: Path<Segment>): nat {
    (if t.head.Param? then 1 else 0) + if t.More? then ParamsIn(t.tail) else 0
  }

  /** The template with its parameters filled in. */
  function Fill(t: Path<Segment>, params: seq<string>): Path<string>
    requires |params| == ParamsIn(t)
  {
    var head := if t.head.Param? then params[0] else t.head.text;
    var rest := if t.head.Param? then params[1..] else params;
    if t.Last? then Last(head) else More(head, Fill(t.tail, rest))
  }

  function Print(op: Operation, params: seq<string>): string
    requires |params| == ParamCount(op)
  {
    ParamCountIsParamsIn(op);
    Join(Fill(Template(op), params))
  }

  lemma ParamCountIsParamsIn(op: Operation)
    ensures ParamsIn(Template(op)) == ParamCount(op)
  {
    var t := Own(op);
    assert t.More? ==> ParamsIn(t) == (if t.head.Param? then 1 else 0) + ParamsIn(t.tail);
    assert t.More? && t.tail.More? ==> ParamsIn(t.tail) == (if t.tail.head.Param? then 1 else 0) + ParamsIn(t.tail.tail);
    assert op.GetPackageSchema? ==> ParamsIn(t.tail.tail) == 1 + ParamsIn(t.tail.tail.tail.tail);
    assert ParamsIn(Template(op)) == ParamsIn(Template(op).tail) == ParamsIn(Template(op).tail.tail) == ParamsIn(t);
  }

  predicate PlainLiterals(t: Path<Segment>) {
    (t.head.Lit? ==> SlashFree(t.head.text)) && (t.More? ==> PlainLiterals(t.tail))
  }

  lemma {:induction false} FillMatches(t: Path<Segment>, params: seq<string>)
    requires |params| == ParamsIn(t)
    ensures Matches(t, Fill(t, params)) && Params(t, Fill(t, params)) == params
  {
    if t.More? {
      FillMatches(t.tail, if t.head.Param? then params[1..] else params);
    }
  }

  lemma {:induction false} FillSegmented(t: Path<Segment>, params: seq<string>)
    requires |params| == ParamsIn(t) && PlainLiterals(t) && forall p | p in params :: SlashFree(p)
    ensures Segmented(Fill(t, params))
  {
    if t.More? {
      FillSegmented(t.tail, if t.head.Param? then params[1..] else params);
    }
  }

  /** The printed path, segment by segment. */
  lemma Filled(op: Operation, params: seq<string>)
    requires |params| == ParamCount(op)
    ensures ParamsIn(Template(op)) == ParamCount(op)
    ensures var p := Fill(Template(op), params);
            && p.More? && p.tail.More? && p.tail.tail.More?
            && p == More("", More("api", More("services", p.tail.tail.tail)))
            && Extract(op, p.tail.tail.tail) == Some(params)
  {
    ParamCountIsParamsIn(op);
    FillMatches(Template(op), params);
    var p := Fill(Template(op), params);
    TemplateMatches(op, p);
    ExtractMatches(op, p.tail.tail.tail);
  }

  lemma Words()
    ensures SlashFree("") && SlashFree("api") && SlashFree("services") && SlashFree("catalogs") && SlashFree("packages")
    ensures SlashFree("schemas") && SlashFree("packageName") && SlashFree("versions") && SlashFree("install")
    ensures SlashFree("events") && SlashFree("watch-release") && SlashFree("watch-resources")
  {
  }

  lemma TemplateLiterals(op: Operation)
    ensures PlainLiterals(Template(op))
  {
    Words();
    var t := Own(op);
    if t.More? && t.tail.More? && t.tail.tail.More? {
      var u := t.tail.tail.tail;
      if u.More? {
        assert PlainLiterals(u.tail);
      }
      assert PlainLiterals(u);
      assert PlainLiterals(t.tail.tail);
    }
    assert PlainLiterals(t);
    assert PlainLiterals(Template(op).tail.tail);
  }

  /** Printing an operation's path and routing it gives the operation and its parameters back, except to
      install a release called "events" or "schemas". */
  lemma PrintThenRoute(op: Operation, params: seq<string>)
    requires |params| == ParamCount(op) && forall p | p in params :: SlashFree(p)
    ensures Lookup(Print(op, params)) == Some((op, params))
    ensures Routed(Print(op, params), if op.InstallService? then "PUT" else "GET") == Handle(op, params)
            <==> !(op == InstallService && params[0] in {"events", "schemas"})
  {
    PrintIsFound(op, params);
    var path := Print(op, params);
    if Shadowed(path) {
      ShadowedIsInstall(path);
    }
    if op == InstallService && params[0] in {"events", "schemas"} {
      assert params == [params[0]];
      PrintInstall(params[0]);
      ShadowedLiterals();
    }
  }

  lemma PrintIsFound(op: Operation, params: seq<string>)
    requires |params| == ParamCount(op) && forall p | p in params :: SlashFree(p)
    ensures Lookup(Print(op, params)) == Some((op, params))
  {
    ParamCountIsParamsIn(op);
    TemplateLiterals(op);
    FillMatches(Template(op), params);
    FillSegmented(Template(op), params);
    var p := Fill(Template(op), params);
    SplitJoin(p);
    forall other | Matches(Template(other), p)
      ensures other == op
    {
      AtMostOneTemplate(op, other, p);
    }
  }

  lemma PrintInstall(releaseId: string)
    ensures Print(InstallService, [releaseId]) == "/api/services/" + releaseId + "/install"
  {
    Filled(InstallService, [releaseId]);
    var own := More(releaseId, Last("install"));
    assert Fill(Template(InstallService), [releaseId]).tail.tail.tail == own;
    JoinServices(own);
    assert Join(own) == releaseId + "/" + "install" == releaseId + "/install";
  }

  lemma JoinServices(p: Path<string>)
    ensures Join(More("", More("api", More("services", p)))) == "/api/services/" + Join(p)
  {
    assert Join(More("services", p)) == "services/" + Join(p);
    assert Join(More("api", More("services", p))) == "api/" + Join(More("services", p));
  }

  lemma ShadowedIsInstall(path: string)
    requires Shadowed(path)
    ensures exists name :: name in {"events", "schemas"} && Lookup(path) == Some((InstallService, [name]))
  {
    var name := if path == "/api/services/events/install" then "events" else "schemas";
    PrintInstall(name);
    PrintIsFound(InstallService, [name]);
    ShadowedLiterals();
    assert path == Print(InstallService, [name]);
    assert name in {"events", "schemas"};
  }

  // ---------------------------------------------------------------------------
  // The trie
  // ---------------------------------------------------------------------------

  // One method per branch of the switch on the letter after "/api/services/". Each takes over `elem` and
  // `args` and hands them back: a leaf if it found one, and otherwise `elem` as it left it.

  /** `leaf` is what the templates say about `s`, or none but the `{releaseId}` one is left. */
  ghost predicate Decides(s: string, leaf: Option<Operation>, args: seq<string>)
    requires 14 <= |s|
  {
    |args| == 3 &&
    match leaf
    case Some(op) => !IsInstall(s, 14) && Find(s, 14) == Some((op, args[..ParamCount(op)]))
    case None => Find(s, 14) == if IsInstall(s, 14) then Some((InstallService, [s[14..NextSlash(s, 14)]])) else None
  }

  method Catalogs(s: string, args0: seq<string>) returns (leaf: Option<Operation>, elem: nat, args: seq<string>)
    requires 14 < |s| && s[14] == 'c' && |args0| == 3
    ensures Decides(s, leaf, args) && (leaf.None? ==> elem == 14)
  {
    Dispatch(s);
    NotInstall(s);
    elem, args, leaf := 14, args0, None;
    label Static: {
      var origElem := elem;
      if HasAt(s, elem, "catalogs") {
        elem := elem + 8;
      } else {
        break Static;
      }
      if elem == |s| { return Some(GetMyCatalogs), elem, args; }
      if s[elem] == '/' {
        label Catalog: {
          elem := elem + 1;
          var idx := IndexSlash(s, elem);
          if idx < 0 { idx := |s| - elem; }
          args := args[0 := s[elem..elem+idx]];
          elem := elem + idx;
          if elem == |s| { break Catalog; }
          if HasAt(s, elem, "/packages/") {
            elem := elem + 10;
          } else {
            break Catalog;
          }
          idx := IndexSlash(s, elem);
          if idx >= 0 { break Catalog; }
          args := args[1 := s[elem..]];
          elem := |s|;
          assert args[..2] == [args[0], args[1]];
          return Some(GetMyPackage), elem, args;
        }
      }
      elem := origElem;
    }
  }

  method Events(s: string, args0: seq<string>) returns (leaf: Option<Operation>, elem: nat, args: seq<string>)
    requires 14 < |s| && s[14] == 'e' && |args0| == 3
    ensures Decides(s, leaf, args)
    ensures leaf.None? ==> elem == if HasAt(s, 14, "events/") && NextSlash(s, 21) == |s| then |s| else 14
  {
    Dispatch(s);
    NotInstall(s);
    elem, args, leaf := 14, args0, None;
    label Static: {
      var origElem := elem;
      if HasAt(s, elem, "events/") {
        elem := elem + 7;
      } else {
        break Static;
      }
      var idx := IndexSlash(s, elem);
      if idx < 0 { idx := |s| - elem; }
      args := args[0 := s[elem..elem+idx]];
      elem := elem + idx;
      if elem == |s| { break Static; }  // leaves the switch without restoring elem
      assert args[..1] == [args[0]];
      WatchTexts(s, elem);
      label Watch: {
        if HasAt(s, elem, "/watch-re") {
          elem := elem + 9;
        } else {
          break Watch;
        }
        if elem == |s| { break Watch; }
        if s[elem] == 'l' {
          if HasAt(s, elem, "lease") {
            elem := elem + 5;
          } else {
            break Watch;
          }
          if elem == |s| { return Some(WatchRelease), elem, args; }
        } else if s[elem] == 's' {
          if HasAt(s, elem, "sources") {
            elem := elem + 7;
          } else {
            break Watch;
          }
          if elem == |s| { return Some(WatchResources), elem, args; }
        }
      }
      elem := origElem;
    }
  }

  method Schemas(s: string, args0: seq<string>) returns (leaf: Option<Operation>, elem: nat, args: seq<string>)
    requires 14 < |s| && s[14] == 's' && |args0| == 3
    ensures Decides(s, leaf, args)
    ensures leaf.None? ==> elem == if HasAt(s, 14, "schemas/") && NextSlash(s, 22) == |s| then |s| else 14
  {
    Dispatch(s);
    NotInstall(s);
    elem, args, leaf := 14, args0, None;
    label Static: {
      var origElem := elem;
      if HasAt(s, elem, "schemas/") {
        elem := elem + 8;
      } else {
        break Static;
      }
      var idx := IndexSlash(s, elem);
      if idx < 0 { idx := |s| - elem; }
      args := args[0 := s[elem..elem+idx]];
      elem := elem + idx;
      if elem == |s| { break Static; }  // leaves the switch without restoring elem
      label Schema: {
        if HasAt(s, elem, "/packageName/") {
          elem := elem + 13;
        } else {
          break Schema;
        }
        idx := IndexSlash(s, elem);
        if idx < 0 { idx := |s| - elem; }
        args := args[1 := s[elem..elem+idx]];
        elem := elem + idx;
        if elem == |s| { break Schema; }
        if HasAt(s, elem, "/versions/") {
          elem := elem + 10;
        } else {
          break Schema;
        }
        idx := IndexSlash(s, elem);
        if idx >= 0 { break Schema; }
        args := args[2 := s[elem..]];
        elem := |s|;
        assert args[..3] == [args[0], args[1], args[2]];
        return Some(GetPackageSchema), elem, args;
      }
      elem := origElem;
    }
  }

  /** The whole trie. `ServeHTTP` and `FindPath` contain one copy of it each, which differ only in what
      they do at a leaf. */
  method Walk(s: string) returns (leaf: Option<Operation>, args: seq<string>)
    ensures |args| == 3
    ensures Reach(s) == match leaf case None => None case Some(op) => Some((op, args[..ParamCount(op)]))
  {
    var elem := 0;
    args := ["", "", ""];
    leaf := None;
    StartsWith(s, elem, "/api/services/");
    if elem == |s| { return; }
    if s[elem] == '/' {
      if HasAt(s, elem, "/api/services/") {
        elem := elem + 14;
      } else {
        return;
      }
      Dispatch(s);
      InstallAfterName(s);
      if elem == |s| { return; }
      if s[elem] == 'c' {
        leaf, elem, args := Catalogs(s, args);
      } else if s[elem] == 'e' {
        leaf, elem, args := Events(s, args);
      } else if s[elem] == 's' {
        leaf, elem, args := Schemas(s, args);
      }
      if leaf.Some? { return; }
      var idx := IndexSlash(s, elem);
      if idx < 0 { idx := |s| - elem; }
      args := args[0 := s[elem..elem+idx]];
      elem := elem + idx;
      if elem == |s| { return; }
      if HasAt(s, elem, "/install") {
        elem := elem + 8;
      } else {
        return;
      }
      assert args[..1] == [args[0]];
      if elem == |s| { return Some(InstallService), args; }
    }
  }

  datatype Route = Route(op: Operation, args: seq<string>, count: nat) {
    function Args(): seq<string>
      requires count <= |args|
    {
      args[..count]
    }
  }

  class Server {
    const prefix: string

    constructor (prefix: string)
      ensures this.prefix == prefix
    {
      this.prefix := prefix;
    }

    /** `path` without the configured prefix, if it has it. */
    function CutPrefix(path: string): (r: Option<string>)
      ensures r.Some? <==> HasAt(path, 0, prefix)
      ensures r.Some? ==> path == prefix + r.value
    {
      HasAtIsSlice(path, 0, prefix);
      if prefix == "" then Some(path)
      else if !HasAt(path, 0, prefix) then None
      else Some(path[|prefix|..])
    }

    method ServeHTTP(path: string, httpMethod: string) returns (r: Response)
      ensures r == match CutPrefix(path) case None => NotFound case Some(elem) => Routed(elem, httpMethod)
      ensures forall op, args :: r == Handle(op, args) <==>
                                 CutPrefix(path).Some? && Served(CutPrefix(path).value, httpMethod, op, args)
      ensures forall allowed :: r == NotAllowed(allowed) <==>
                                CutPrefix(path).Some? && Refused(CutPrefix(path).value, httpMethod, allowed)
    {
      var cut := CutPrefix(path);
      if cut.None? { return NotFound; }
      ReachIsRouted(cut.value, httpMethod);
      RoutedExactly(cut.value, httpMethod);
      if |cut.value| == 0 { return NotFound; }
      var leaf, args := Walk(cut.value);
      match leaf
      case None => return NotFound;
      case Some(op) =>
        var allowed := if op.InstallService? then "PUT" else "GET";
        if httpMethod != allowed { return NotAllowed(allowed); }
        return Handle(op, args[..ParamCount(op)]);
    }

    /** Finds the route without serving it. A wrong method counts as no route. */
    method FindPath(path: string, httpMethod: string) returns (r: Option<Route>)
      ensures r.Some? ==> r.value.count <= 3 == |r.value.args|
      ensures match CutPrefix(path)
              case None => r.None?
              case Some(elem) =>
                var served := Routed(elem, httpMethod);
                if served.Handle? then r.Some? && served == Handle(r.value.op, r.value.Args()) else r.None?
      ensures forall op, args :: r.Some? && r.value.op == op && r.value.Args() == args <==>
                                 CutPrefix(path).Some? && Served(CutPrefix(path).value, httpMethod, op, args)
    {
      var cut := CutPrefix(path);
      if cut.None? { return None; }
      ReachIsRouted(cut.value, httpMethod);
      RoutedExactly(cut.value, httpMethod);
      var leaf, args := Walk(cut.value);
      match leaf
      case None => return None;
      case Some(op) =>
        if httpMethod != (if op.InstallService? then "PUT" else "GET") { return None; }
        return Some(Route(op, args, ParamCount(op)));
    }
  }
}
