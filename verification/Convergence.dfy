/** What any number of onboardings, of any users in any order and failing anywhere, leaves in the cluster. */
module Convergence {
  import opened Common
  import opened NamespaceService
  import opened Onboarding

  // ---------------------------------------------------------------------------
  // Namespaces
  // ---------------------------------------------------------------------------

  ghost predicate AnnotationsKept(c: State, c': State) {
    forall n | n in c.namespaces ::
      n in c'.namespaces && c.namespaces[n].annotations.Keys <= c'.namespaces[n].annotations.Keys
  }

  ghost predicate LabelsKept(c: State, c': State) {
    forall n | n in c.namespaces ::
      n in c'.namespaces && c.namespaces[n].labels.Keys <= c'.namespaces[n].labels.Keys
  }

  /** A patch of these annotations and labels would remove labels that are there. */
  predicate DropsLabels(c: State, name: string, annotations: Option<Strs>, labels: Option<Strs>) {
    && labels.None? && name in c.namespaces && OrEmpty(annotations) != map[] && c.namespaces[name].labels != map[]
  }

  /** No annotation disappears. Labels do exactly when nil labels are patched onto a namespace that has some: always
      if the call succeeds, and if it reports an error, whenever it has written all the same. */
  lemma KeptExactly(c: State, c': State, name: string, annotations: Option<Strs>, labels: Option<Strs>,
                    r: Result<NamespaceResult, Error>)
    requires NamespaceStep(c, c', name, annotations, labels, r)
    ensures AnnotationsKept(c, c')
    ensures LabelsKept(c, c') <==> !DropsLabels(c, name, annotations, labels) || c' == c
    ensures r.Success? ==> (LabelsKept(c, c') <==> !DropsLabels(c, name, annotations, labels))
  {
    if DropsLabels(c, name, annotations, labels) && c' != c {
      var k :| k in c.namespaces[name].labels;
      assert k !in c'.namespaces[name].labels;
    }
  }

  /** A namespace loses its labels. */
  lemma LabelsDropped()
    ensures var c := State(map["user-ann" := Namespace(map[], map["team" := "a"])], map[], 0);
            var annotations: Option<Strs> := Some(map["k" := "v"]);
            var c' := NamespaceWritten(c, "user-ann", annotations, None);
            && NamespaceStep(c, c', "user-ann", annotations, None, Success(NamespaceAnnotationsUpdated))
            && !LabelsKept(c, c')
  {
    var c := State(map["user-ann" := Namespace(map[], map["team" := "a"])], map[], 0);
    var annotations: Option<Strs> := Some(map["k" := "v"]);
    assert "k" in OrEmpty(annotations) && "team" in c.namespaces["user-ann"].labels;
    KeptExactly(c, NamespaceWritten(c, "user-ann", annotations, None), "user-ann", annotations, None,
                Success(NamespaceAnnotationsUpdated));
  }

  lemma {:induction false} NothingDisappears(start: State, h: seq<Record>, i: nat, j: nat)
    requires Run(start, h) && i <= j <= |h|
    ensures AnnotationsKept(At(start, h, i), At(start, h, j))
    ensures (forall k | i <= k < j :: h[k].wanted.labels.Some?) ==> LabelsKept(At(start, h, i), At(start, h, j))
  {
    if i < j {
      NothingDisappears(start, h, i, j - 1);
      assert Linked(start, h, j - 1);
      OnboardingKeeps(h[j-1]);
      KeptOn(At(start, h, i), h[j-1].before, h[j-1].after);
    }
  }

  lemma OnboardingKeeps(o: Record)
    requires Onboarded(o)
    ensures AnnotationsKept(o.before, o.after)
    ensures o.wanted.labels.Some? ==> LabelsKept(o.before, o.after)
    ensures o.after.namespaces == o.middle.namespaces
  {
    KeptExactly(o.before, o.middle, o.wanted.name, o.wanted.annotations, o.wanted.labels, o.namespace);
  }

  lemma KeptOn(c: State, c': State, c'': State)
    ensures AnnotationsKept(c, c') && AnnotationsKept(c', c'') ==> AnnotationsKept(c, c'')
    ensures LabelsKept(c, c') && LabelsKept(c', c'') ==> LabelsKept(c, c'')
  {
  }

  /** The namespace was written as requested, whatever was reported. */
  predicate Wrote(o: Record) {
    && WritesNamespace(o.before, o.wanted.name, o.wanted.annotations)
    && o.middle == NamespaceWritten(o.before, o.wanted.name, o.wanted.annotations, o.wanted.labels)
  }

  predicate Annotates(w: Wanted, name: string, key: string) {
    w.name == name && w.annotations.Some? && key in w.annotations.value
  }

  predicate HasAnnotation(c: State, name: string, key: string, value: string) {
    name in c.namespaces && key in c.namespaces[name].annotations && c.namespaces[name].annotations[key] == value
  }

  predicate HasLabels(c: State, name: string, labels: Strs) {
    name in c.namespaces &&
    forall k | k in labels :: k in c.namespaces[name].labels && c.namespaces[name].labels[k] == labels[k]
  }

  /** After a success that is not "already exists", and after every failure that changed the namespace, each requested
      annotation and label has its value. */
  lemma WrittenAsRequested(o: Record)
    requires Onboarded(o)
    ensures o.namespace in {Success(NamespaceCreated), Success(NamespaceAnnotationsUpdated)} || o.middle != o.before
            ==> Wrote(o)
    ensures Wrote(o) ==>
              && (forall k | Annotates(o.wanted, o.wanted.name, k) ::
                    HasAnnotation(o.after, o.wanted.name, k, o.wanted.annotations.value[k]))
              && HasLabels(o.after, o.wanted.name, OrEmpty(o.wanted.labels))
  {
    OnboardingKeeps(o);
  }

  lemma AnnotationStays(o: Record, name: string, key: string, value: string)
    requires Onboarded(o) && HasAnnotation(o.before, name, key, value)
    requires Annotates(o.wanted, name, key) ==> o.middle == o.before
    ensures HasAnnotation(o.after, name, key, value)
  {
    OnboardingKeeps(o);
  }

  lemma LabelsStay(o: Record, name: string, labels: Strs)
    requires Onboarded(o) && HasLabels(o.before, name, labels) && o.wanted.labels == Some(labels)
    ensures HasLabels(o.after, name, labels)
  {
    OnboardingKeeps(o);
  }

  /** An annotation keeps the value of the last onboarding that wrote it, reported or not: those after it that ask for
      another value have changed nothing. */
  lemma {:induction false} LastAnnotationStands(start: State, h: seq<Record>, i: nat, j: nat, key: string)
    requires Run(start, h) && i < j <= |h| && Wrote(h[i]) && Annotates(h[i].wanted, h[i].wanted.name, key)
    requires forall k | i < k < j :: Annotates(h[k].wanted, h[i].wanted.name, key) ==> h[k].middle == h[k].before
    ensures HasAnnotation(At(start, h, j), h[i].wanted.name, key, h[i].wanted.annotations.value[key])
  {
    assert Linked(start, h, j - 1);
    if i + 1 == j {
      WrittenAsRequested(h[i]);
    } else {
      LastAnnotationStands(start, h, i, j - 1, key);
      AnnotationStays(h[j-1], h[i].wanted.name, key, h[i].wanted.annotations.value[key]);
    }
  }

  /** Once written, the configured labels stay. */
  lemma {:induction false} ConfiguredLabelsStand(start: State, h: seq<Record>, i: nat, j: nat, labels: Strs)
    requires Run(start, h) && i < j <= |h| && Wrote(h[i])
    requires forall k | i <= k < j :: h[k].wanted.labels == Some(labels)
    ensures HasLabels(At(start, h, j), h[i].wanted.name, labels)
  {
    assert Linked(start, h, j - 1);
    if i + 1 == j {
      WrittenAsRequested(h[i]);
    } else {
      ConfiguredLabelsStand(start, h, i, j - 1, labels);
      LabelsStay(h[j-1], h[i].wanted.name, labels);
    }
  }

  lemma WrittenTwice(c: State, name: string, annotations: Option<Strs>, labels: Option<Strs>)
    ensures var c' := NamespaceWritten(c, name, annotations, labels);
            NamespaceWritten(c', name, annotations, labels) == c'
  {
    var c' := NamespaceWritten(c, name, annotations, labels);
    var stored, a := c'.namespaces[name], OrEmpty(annotations);
    assert stored.annotations + a == stored.annotations;
    assert labels.Some? ==> stored.labels + labels.value == stored.labels;
    assert c'.namespaces[name := stored] == c'.namespaces;
  }

  /** Asking for the same again changes nothing. */
  lemma NamespaceRepeats(c: State, c': State, c'': State, name: string, annotations: Option<Strs>, labels: Option<Strs>,
                         r: Result<NamespaceResult, Error>, r': Result<NamespaceResult, Error>)
    requires NamespaceStep(c, c', name, annotations, labels, r) && r.Success?
    requires NamespaceStep(c', c'', name, annotations, labels, r')
    ensures c'' == c'
  {
    WrittenTwice(c, name, annotations, labels);
  }

  // ---------------------------------------------------------------------------
  // Quotas
  // ---------------------------------------------------------------------------

  function QuotaOf(c: State, n: string): Option<ResourceQuota> {
    if n in c.quotas then Some(c.quotas[n]) else None
  }

  /** The namespace is held to these limits and no others. */
  predicate Enforced(c: State, n: string, hard: Limits) {
    SameLimits(if n in c.quotas then c.quotas[n].hard else map[], hard)
  }

  /** A successful application enforces the limits, unless they were not enforced before and either there are none
      or the stored quota is marked ignored. */
  lemma EnforcedExactly(c: State, c': State, n: string, hard: Limits, r: Result<QuotaResult, Error>)
    requires QuotaStep(c, c', n, hard, r) && r.Success?
    ensures Enforced(c', n, hard)
            <==> Enforced(c, n, hard) || (hard != map[] && !(n in c.quotas && Ignored(c.quotas[n])))
  {
  }

  /** Applying a quota without amounts leaves a limit in place. */
  lemma LimitNotCleared()
    ensures var c := State(map[], map["user-ann" := ResourceQuota(map["count/pods" := Quantity(5, "5")], map[], map[])], 0);
            QuotaStep(c, c, "user-ann", map[], Success(QuotaUnchanged)) && !Enforced(c, "user-ann", map[])
  {
    assert "count/pods" in map["count/pods" := Quantity(5, "5")];
  }

  /** An application finds no reason to write. */
  predicate Settled(c: State, n: string, hard: Limits) {
    !WritesQuota(c, n, hard)
  }

  predicate Wants(w: Wanted, n: string, hard: Limits) {
    w.name == n ==> w.limits == Some(Success(hard))
  }

  /** The quota was applied: so it was reported, or it was written all the same. */
  predicate Applied(o: Record) {
    o.quota.Some? && (o.quota.value.Success? || o.after != o.middle)
  }

  lemma Settles(o: Record, hard: Limits)
    requires Onboarded(o) && o.wanted.limits == Some(Success(hard)) && Applied(o)
    ensures Settled(o.after, o.wanted.name, hard)
  {
  }

  lemma StaysSettled(o: Record, n: string, hard: Limits)
    requires Onboarded(o) && Settled(o.before, n, hard) && Wants(o.wanted, n, hard)
    ensures Settled(o.after, n, hard) && QuotaOf(o.after, n) == QuotaOf(o.before, n)
    ensures o.wanted.name == n ==> o.after.quotaWrites == o.before.quotaWrites
    ensures o.wanted.name == n && o.quota.Some? && o.quota.value.Success?
            ==> o.quota.value.value in {QuotaUnchanged, QuotaIgnored}
  {
  }

  /** After one application of the limits, even one that reported an error, as long as a namespace is onboarded with the same ones, and
      whatever becomes of the other namespaces, no onboarding of it writes its quota again. */
  lemma {:induction false} Converges(start: State, h: seq<Record>, hard: Limits, i: nat, j: nat)
    requires Run(start, h) && i < j < |h| && Applied(h[i])
    requires forall k | i <= k <= j :: Wants(h[k].wanted, h[i].wanted.name, hard)
    ensures var n, o := h[i].wanted.name, h[j];
      && Settled(o.after, n, hard) && QuotaOf(o.after, n) == QuotaOf(h[i].after, n)
      && (o.wanted.name == n ==>
            && o.after.quotaWrites == o.before.quotaWrites
            && (o.quota.Some? && o.quota.value.Success? ==> o.quota.value.value in {QuotaUnchanged, QuotaIgnored}))
  {
    assert Linked(start, h, i) && Linked(start, h, j);
    if i + 1 == j {
      Settles(h[i], hard);
    } else {
      Converges(start, h, hard, i, j - 1);
    }
    StaysSettled(h[j], h[i].wanted.name, hard);
  }

  /** The quota is still there with the same annotations and labels, and untouched if it was marked ignored. */
  predicate QuotaKept(c: State, c': State, n: string)
    requires n in c.quotas
  {
    n in c'.quotas &&
    var q, q' := c.quotas[n], c'.quotas[n];
    q'.annotations == q.annotations && q'.labels == q.labels && (Ignored(q) ==> q' == q)
  }

  lemma OnboardingKeepsQuota(o: Record, n: string)
    requires Onboarded(o) && n in o.before.quotas
    ensures QuotaKept(o.before, o.after, n)
  {
  }

  /** Over any run. */
  lemma {:induction false} QuotasKept(start: State, h: seq<Record>, i: nat, j: nat, n: string)
    requires Run(start, h) && i <= j <= |h| && n in At(start, h, i).quotas
    ensures QuotaKept(At(start, h, i), At(start, h, j), n)
  {
    if i < j {
      QuotasKept(start, h, i, j - 1, n);
      assert Linked(start, h, j - 1);
      OnboardingKeepsQuota(h[j-1], n);
    }
  }

  /** Repeating a successful onboarding, the same in all it asks for, changes nothing more, however often and
      wherever it fails. */
  lemma {:induction false} RepeatsChangeNothing(start: State, h: seq<Record>, i: nat, j: nat)
    requires Run(start, h) && i < j <= |h| && Outcome(h[i]) == Success(())
    requires forall k | i <= k < j :: h[k].wanted == h[i].wanted
    ensures At(start, h, j) == At(start, h, i + 1)
  {
    if i + 1 < j {
      RepeatsChangeNothing(start, h, i, j - 1);
      assert Linked(start, h, i) && Linked(start, h, j - 1);
      Repeats(h[i], h[j-1]);
    }
  }

  lemma Repeats(o: Record, o': Record)
    requires Onboarded(o) && Onboarded(o') && o'.wanted == o.wanted && o'.before == o.after
    requires Outcome(o) == Success(())
    ensures o'.after == o.after
  {
    var w := o.wanted;
    // The first half, had the quotas been what they became in the second.
    var before := o.before.(quotas := o.after.quotas, quotaWrites := o.after.quotaWrites);
    NamespaceRepeats(before, o.after, o'.middle, w.name, w.annotations, w.labels, o.namespace, o'.namespace);
    if w.limits.Some? && o'.namespace.Success? {
      Settles(o, w.limits.value.value);
    }
  }
}
