/** The filters that thin out the versions of a package, which come newest first. */
module VersionFilter {
  import opened Common

  // ---------------------------------------------------------------------------
  // Minor versions
  // ---------------------------------------------------------------------------

  /** The first two of the components between dots, if there are two. */
  function Components(v: string): Option<(string, string)> {
    match Cut(v, '.')
    case None => None
    case Some((major, rest)) =>
      match Cut(rest, '.')
      case None => Some((major, rest))
      case Some((minor, _)) => Some((major, minor))
  }

  /** The string a version is deduplicated by. */
  function Minor(v: string): Option<string> {
    match Components(v)
    case None => None
    case Some((major, minor)) => Some(major + ['.'] + minor)
  }

  lemma DotFree(v: string)
    requires Components(v).Some?
    ensures IndexOf(Components(v).value.0, '.') < 0
  {
    CutHead(v, '.');
  }

  /** `v` is spelled major.minor, or major.minor and a dot and anything. */
  ghost predicate Spells(v: string, major: string, minor: string) {
    && '.' !in major && '.' !in minor
    && (v == major + "." + minor || exists patch :: v == major + "." + minor + "." + patch)
  }

  lemma CutsAt(head: string, rest: string)
    requires '.' !in head
    ensures Cut(head + "." + rest, '.') == Some((head, rest))
  {
    IndexOfAbsent(head, '.');
    CutAtSeparator(head, rest, '.');
  }

  lemma NoCut(v: string)
    ensures Cut(v, '.').None? <==> '.' !in v
    ensures Cut(v, '.').Some? ==> '.' !in Cut(v, '.').value.0 && v == Cut(v, '.').value.0 + "." + Cut(v, '.').value.1
  {
    IndexOfAbsent(v, '.');
    if Cut(v, '.').Some? {
      CutHead(v, '.');
      IndexOfAbsent(Cut(v, '.').value.0, '.');
    }
  }

  lemma SpelledComponents(v: string, major: string, minor: string)
    requires Spells(v, major, minor)
    ensures Components(v) == Some((major, minor))
  {
    if v == major + "." + minor {
      CutsAt(major, minor);
      NoCut(minor);
    } else {
      var patch :| v == major + "." + minor + "." + patch;
      assert v == major + "." + (minor + "." + patch);
      CutsAt(major, minor + "." + patch);
      CutsAt(minor, patch);
    }
  }

  /** The components are what a version is spelled with; there are none exactly when it has no dot. */
  lemma ComponentsExactly(v: string)
    ensures Components(v).None? <==> '.' !in v
    ensures forall major, minor :: Spells(v, major, minor) <==> Components(v) == Some((major, minor))
  {
    NoCut(v);
    forall major, minor | Spells(v, major, minor) ensures Components(v) == Some((major, minor)) {
      SpelledComponents(v, major, minor);
    }
    if Components(v).Some? {
      var (major, rest) := Cut(v, '.').value;
      NoCut(rest);
      var minor := Components(v).value.1;
      if Cut(rest, '.').Some? {
        var patch := Cut(rest, '.').value.1;
        assert rest == minor + "." + patch;
        assert v == major + "." + minor + "." + patch;
      }
      assert Spells(v, major, minor);
    }
  }

  /** Joined with a dot, different components stay different. */
  lemma MinorInjective(v: string, w: string)
    ensures Minor(v) == Minor(w) <==> Components(v) == Components(w)
  {
    if Minor(v).Some? && Minor(v) == Minor(w) {
      var (major, minor) := Components(v).value;
      var (major', minor') := Components(w).value;
      DotFree(v);
      DotFree(w);
      CutAtSeparator(major, minor, '.');
      CutAtSeparator(major', minor', '.');
    }
  }

  // ---------------------------------------------------------------------------
  // Skipping patches
  // ---------------------------------------------------------------------------

  predicate SameClass(v: string, w: string) {
    Components(v).Some? && Components(v) == Components(w)
  }

  /** No earlier version has the same major and minor. */
  ghost predicate First(versions: seq<string>, i: nat)
    requires i < |versions|
  {
    forall j | 0 <= j < i :: !SameClass(versions[i], versions[j])
  }

  ghost function Firsts(versions: seq<string>): seq<nat> {
    if |versions| == 0 then []
    else Firsts(versions[..|versions|-1]) + if First(versions, |versions| - 1) then [|versions| - 1] else []
  }

  ghost predicate Increasing(at: seq<nat>, bound: nat) {
    (forall k | 0 <= k < |at| :: at[k] < bound) && forall k, l | 0 <= k < l < |at| :: at[k] < at[l]
  }

  function Pick(versions: seq<string>, at: seq<nat>): seq<string>
    requires forall k | 0 <= k < |at| :: at[k] < |versions|
  {
    seq(|at|, k requires 0 <= k < |at| => versions[at[k]])
  }

  /** What skipping patches leaves: the first version of each class, and all that have none. */
  ghost function Skipped(versions: seq<string>): seq<string> {
    FirstsExactly(versions);
    Pick(versions, Firsts(versions))
  }

  lemma {:induction false} FirstsExactly(versions: seq<string>)
    ensures Increasing(Firsts(versions), |versions|)
    ensures forall i: nat | i < |versions| :: i in Firsts(versions) <==> First(versions, i)
  {
    if |versions| > 0 {
      var init := versions[..|versions|-1];
      FirstsExactly(init);
      forall i: nat | i < |init| ensures First(init, i) <==> First(versions, i) {
        assert forall j | 0 <= j <= i :: init[j] == versions[j];
      }
    }
  }

  /** In terms of the strings: of all versions spelled with one major and minor the first is kept and no other, and
      every version without a dot is. */
  lemma KeptExactly(versions: seq<string>, i: nat)
    requires i < |versions|
    ensures '.' !in versions[i] ==> i in Firsts(versions)
    ensures forall major, minor | Spells(versions[i], major, minor) ::
              i in Firsts(versions) <==> forall j | 0 <= j < i :: !Spells(versions[j], major, minor)
    ensures '.' in versions[i] ==> exists major, minor :: Spells(versions[i], major, minor)
  {
    FirstsExactly(versions);
    ComponentsExactly(versions[i]);
    forall major, minor | Spells(versions[i], major, minor)
      ensures First(versions, i) <==> forall j | 0 <= j < i :: !Spells(versions[j], major, minor)
    {
      forall j | 0 <= j < i ensures SameClass(versions[i], versions[j]) <==> Spells(versions[j], major, minor) {
        ComponentsExactly(versions[j]);
      }
    }
    if '.' in versions[i] {
      var (major, minor) := Components(versions[i]).value;
      assert Spells(versions[i], major, minor);
    }
  }

  /** The kept versions are the first of their class, and every class is still there. */
  lemma SkippedKeepsClasses(versions: seq<string>, i: nat)
    requires i < |versions|
    ensures exists j :: 0 <= j <= i && versions[j] in Skipped(versions) &&
                        (j == i || SameClass(versions[i], versions[j]))
    decreases i
  {
    FirstsExactly(versions);
    if First(versions, i) {
      var k :| 0 <= k < |Firsts(versions)| && Firsts(versions)[k] == i;
      assert Skipped(versions)[k] == versions[i];
    } else {
      var j :| 0 <= j < i && SameClass(versions[i], versions[j]);
      SkippedKeepsClasses(versions, j);
    }
  }

  /** No two kept versions are of the same class. */
  lemma SkippedOncePerClass(versions: seq<string>)
    ensures forall k: nat | k < |Skipped(versions)| :: First(Skipped(versions), k)
  {
    FirstsExactly(versions);
    var at := Firsts(versions);
    forall k: nat, l: nat | k < |at| && l < k ensures !SameClass(versions[at[k]], versions[at[l]]) {
      assert at[k] in at;
      assert First(versions, at[k]);
    }
  }

  lemma {:induction false} AllFirst(versions: seq<string>)
    requires forall i: nat | i < |versions| :: First(versions, i)
    ensures Skipped(versions) == versions
    ensures Firsts(versions) == seq(|versions|, i => i)
  {
    if |versions| > 0 {
      var init := versions[..|versions|-1];
      forall i: nat | i < |init| ensures First(init, i) {
        assert First(versions, i);
        assert forall j | 0 <= j <= i :: init[j] == versions[j];
      }
      AllFirst(init);
      assert First(versions, |versions| - 1);
    }
  }

  lemma SkipIdempotent(versions: seq<string>)
    ensures Skipped(Skipped(versions)) == Skipped(versions)
  {
    SkippedOncePerClass(versions);
    AllFirst(Skipped(versions));
  }

  /** If earlier versions are newer, each kept version is newer than the others of its class. */
  lemma SkippedKeepsNewest(versions: seq<string>, newer: (string, string) -> bool, k: nat, j: nat)
    requires forall i, j | 0 <= i < j < |versions| :: newer(versions[i], versions[j])
    requires k < |Skipped(versions)| && j < |versions| && SameClass(Skipped(versions)[k], versions[j])
    ensures j == Firsts(versions)[k] || newer(Skipped(versions)[k], versions[j])
  {
    FirstsExactly(versions);
    var i := Firsts(versions)[k];
    assert i in Firsts(versions);
    assert First(versions, i);
    assert SameClass(versions[i], versions[j]);
  }

  lemma FirstsOneMore(versions: seq<string>, i: nat)
    requires i < |versions|
    ensures Firsts(versions[..i+1]) == Firsts(versions[..i]) + if First(versions, i) then [i] else []
  {
    var next := versions[..i+1];
    assert next[..i] == versions[..i];
    assert forall j | 0 <= j <= i :: next[j] == versions[j];
    assert First(next, i) <==> First(versions, i);
  }

  lemma SkipOneMore(versions: seq<string>, i: nat)
    requires i < |versions|
    ensures Skipped(versions[..i+1])
            == Skipped(versions[..i]) + if First(versions, i) then [versions[i]] else []
  {
    FirstsOneMore(versions, i);
    FirstsExactly(versions[..i]);
  }

  /** The keys of the first `i` versions. */
  ghost predicate KeysSeen(versions: seq<string>, i: nat, seen: set<string>)
    requires i <= |versions|
  {
    forall m :: m in seen <==> exists j :: 0 <= j < i && Minor(versions[j]) == Some(m)
  }

  lemma UnseenIsFirst(versions: seq<string>, i: nat, seen: set<string>)
    requires i < |versions| && KeysSeen(versions, i, seen)
    ensures First(versions, i) <==> Minor(versions[i]).None? || Minor(versions[i]).value !in seen
  {
    forall j | 0 <= j < i
      ensures SameClass(versions[i], versions[j]) <==>
              Minor(versions[i]).Some? && Minor(versions[j]) == Minor(versions[i])
    {
      MinorInjective(versions[i], versions[j]);
    }
  }

  lemma SkippedAt(versions: seq<string>)
    ensures |Skipped(versions)| == |Firsts(versions)|
    ensures forall k | 0 <= k < |Firsts(versions)| ::
              Firsts(versions)[k] < |versions| && Skipped(versions)[k] == versions[Firsts(versions)[k]]
  {
    FirstsExactly(versions);
  }

  method SkipPatches(versions: seq<string>) returns (out: seq<string>)
    ensures out == Skipped(versions)
    ensures |out| == |Firsts(versions)|
    ensures forall k | 0 <= k < |out| :: Firsts(versions)[k] < |versions| && out[k] == versions[Firsts(versions)[k]]
  {
    var seen: set<string> := {};
    out := [];
    for i := 0 to |versions|
      invariant out == Skipped(versions[..i])
      invariant KeysSeen(versions, i, seen)
    {
      SkipOneMore(versions, i);
      UnseenIsFirst(versions, i, seen);
      var minor := Minor(versions[i]);
      if minor.None? {
        out := out + [versions[i]];
      } else if minor.value !in seen {
        seen := seen + {minor.value};
        out := out + [versions[i]];
      }
    }
    assert versions[..|versions|] == versions;
    SkippedAt(versions);
  }

  // ---------------------------------------------------------------------------
  // Filters
  // ---------------------------------------------------------------------------

  /** How many versions of a package a catalog offers. */
  datatype Mode = All | Latest | SkipPatch | MaxNumber | OtherMode

  datatype Filter = AllVersions | LatestOnly | PatchSkipper | AtMost(n: int)

  /** None when the number of versions is missing. Any other mode means all versions. */
  function FilterFrom(mode: Mode, maxNumber: Option<int>): Option<Filter> {
    match mode
    case Latest => Some(LatestOnly)
    case SkipPatch => Some(PatchSkipper)
    case MaxNumber => if maxNumber.None? then None else Some(AtMost(maxNumber.value))
    case _ => Some(AllVersions)
  }

  /** The positions a filter keeps. */
  ghost function Kept(f: Filter, versions: seq<string>): seq<nat> {
    match f
    case AllVersions => seq(|versions|, i => i)
    case LatestOnly => if |versions| == 0 then [] else [0]
    case PatchSkipper => Firsts(versions)
    case AtMost(n) => seq(if n < 0 then 0 else if n < |versions| then n else |versions|, i => i)
  }

  /** Every filter keeps some of the versions, in their order. */
  lemma KeptIncreasing(f: Filter, versions: seq<string>)
    ensures Increasing(Kept(f, versions), |versions|)
  {
    FirstsExactly(versions);
  }

  /** Unless it asks for none, the newest version is kept. */
  lemma NewestKept(f: Filter, versions: seq<string>)
    requires |versions| > 0 && (f.AtMost? ==> f.n > 0)
    ensures |Kept(f, versions)| > 0 && Kept(f, versions)[0] == 0
  {
    if f.PatchSkipper? {
      FirstsExactly(versions);
      assert First(versions, 0);
    }
  }

  /** None stands for the panic of a slice out of range: exactly when the number of versions is negative. */
  method Apply(f: Filter, versions: seq<string>) returns (out: Option<seq<string>>)
    ensures out.None? <==> f.AtMost? && f.n < 0
    ensures Increasing(Kept(f, versions), |versions|)
    ensures out.Some? ==> out.value == Pick(versions, Kept(f, versions))
  {
    KeptIncreasing(f, versions);
    match f {
      case AllVersions => out := Some(versions);
      case LatestOnly => out := Some(if |versions| == 0 then versions else versions[..1]);
      case PatchSkipper =>
        var skipped := SkipPatches(versions);
        out := Some(skipped);
      case AtMost(n) =>
        if n >= |versions| {
          out := Some(versions);
        } else if n < 0 {
          out := None;
        } else {
          out := Some(versions[..n]);
        }
    }
  }
}
