/** JSON merge patch, section 2 of RFC 7396. */
module MergePatch {

  datatype Json = Null | Text(s: string) | Obj(members: map<string, Json>)

  predicate Nulled(p: map<string, Json>, k: string) {
    k in p && p[k].Null?
  }

  function Members(j: Json): map<string, Json> {
    if j.Obj? then j.members else map[]
  }

  function Member(j: Json, k: string): Json {
    if k in Members(j) then Members(j)[k] else Null
  }

  /** Members of the patch replace or extend those of the target; a null member removes one. */
  function Merge(target: Json, patch: Json): Json
    decreases patch
  {
    if patch.Obj? then
      var t, p := Members(target), patch.members;
      Obj(map k | k in t.Keys + p.Keys && !Nulled(p, k) ::
            if k in p then Merge(Member(target, k), p[k]) else t[k])
    else patch
  }

  lemma {:induction false} MergeIdempotent(target: Json, patch: Json)
    ensures Merge(Merge(target, patch), patch) == Merge(target, patch)
    decreases patch
  {
    if patch.Obj? {
      var once := Merge(target, patch);
      var p := patch.members;
      forall k | k in p && !p[k].Null?
        ensures Merge(once.members[k], p[k]) == once.members[k]
      {
        MergeIdempotent(Member(target, k), p[k]);
      }
      assert Merge(once, patch).members == once.members;
    }
  }

  /** What a patch does to one member. */
  lemma MergeMember(target: Json, patch: Json, k: string)
    requires patch.Obj?
    ensures Merge(target, patch).Obj?
    ensures Member(Merge(target, patch), k) ==
            if k !in patch.members then Member(target, k)
            else if patch.members[k].Null? then Null
            else Merge(Member(target, k), patch.members[k])
  {
  }

  // ---------------------------------------------------------------------------
  // Flat objects of strings
  // ---------------------------------------------------------------------------

  function Strings(m: map<string, string>): Json {
    Obj(map k | k in m :: Text(m[k]))
  }

  function StringsOf(j: Json): map<string, string> {
    map k | k in Members(j) && Members(j)[k].Text? :: Members(j)[k].s
  }

  /** Patching strings with strings is overlaying them. */
  lemma MergeStrings(t: map<string, string>, p: map<string, string>)
    ensures StringsOf(Merge(Strings(t), Strings(p))) == t + p
    ensures StringsOf(Merge(Null, Strings(p))) == p && StringsOf(Strings(t)) == t
  {
    var merged := Merge(Strings(t), Strings(p));
    assert merged.members.Keys == t.Keys + p.Keys;
    var created := Merge(Null, Strings(p));
    assert created.members.Keys == p.Keys;
  }
}
