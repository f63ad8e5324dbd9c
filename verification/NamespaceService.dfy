/**
 Namespaces and their resource quotas in the cluster: create or merge-patch the namespace,
 create or update or leave alone the quota.

 Any request to the cluster may fail, before or after it took effect: an error does not say whether
 the write it reports on was made. There is no other writer.
 */
module NamespaceService {
  import opened Common
  import opened MergePatch

  type Strs = map<string, string>

  // ---------------------------------------------------------------------------
  // The cluster
  // ---------------------------------------------------------------------------

  datatype Namespace = Namespace(annotations: Strs, labels: Strs)

  /** Quantities are compared by amount, whatever the notation they were written in. */
  datatype Quantity = Quantity(amount: int, notation: string)

  predicate Equal(a: Quantity, b: Quantity) {
    a.amount == b.amount
  }

  type Limits = map<string, Quantity>

  datatype ResourceQuota = ResourceQuota(hard: Limits, annotations: Strs, labels: Strs)

  /** `quotaWrites` counts the writes to quotas. */
  datatype State = State(namespaces: map<string, Namespace>, quotas: map<string, ResourceQuota>, quotaWrites: nat)

  datatype NamespaceResult = NamespaceCreated | NamespaceAlreadyExists | NamespaceAnnotationsUpdated

  datatype QuotaResult = QuotaCreated | QuotaUpdated | QuotaUnchanged | QuotaIgnored

  datatype Error = RequestFailed | BadQuantity

  // ---------------------------------------------------------------------------
  // Patching a namespace
  // ---------------------------------------------------------------------------

  /** A nil map is encoded as null, an empty one as an empty object. */
  function Encoded(m: Option<Strs>): Json {
    match m case None => Null case Some(strings) => Strings(strings)
  }

  function PatchDocument(annotations: Strs, labels: Option<Strs>): Json {
    Obj(map["metadata" := PatchMetadata(annotations, labels)])
  }

  function PatchMetadata(annotations: Strs, labels: Option<Strs>): Json {
    Obj(map["annotations" := Strings(annotations), "labels" := Encoded(labels)])
  }

  /** A stored namespace leaves empty maps out. */
  function Document(n: Namespace): Json {
    Obj(map["metadata" := Metadata(n)])
  }

  function Metadata(n: Namespace): Json {
    var present := set k | k in {"annotations", "labels"} && Stored(n, k) != map[];
    Obj(map k | k in present :: Strings(Stored(n, k)))
  }

  function Stored(n: Namespace, member: string): Strs {
    if member == "annotations" then n.annotations else n.labels
  }

  function FromDocument(d: Json): Namespace {
    var metadata := Member(d, "metadata");
    Namespace(StringsOf(Member(metadata, "annotations")), StringsOf(Member(metadata, "labels")))
  }

  lemma StoredMember(n: Namespace, k: string, p: Strs)
    requires k in {"annotations", "labels"}
    ensures StringsOf(Member(Metadata(n), k)) == Stored(n, k)
    ensures StringsOf(Merge(Member(Metadata(n), k), Strings(p))) == Stored(n, k) + p
  {
    MergeStrings(Stored(n, k), p);
    if Stored(n, k) == map[] {
      assert map[] + p == p;
    }
  }

  /** What the cluster makes of the patch: requested annotations and labels overlay the stored ones, and
      nil labels remove all labels. */
  lemma {:induction false} PatchOverlays(n: Namespace, annotations: Strs, labels: Option<Strs>)
    ensures FromDocument(Merge(Document(n), PatchDocument(annotations, labels)))
            == Namespace(n.annotations + annotations, if labels.None? then map[] else n.labels + labels.value)
    ensures FromDocument(Document(n)) == n
  {
    var p := PatchMetadata(annotations, labels);
    MergeMember(Document(n), PatchDocument(annotations, labels), "metadata");
    MergeMember(Metadata(n), p, "annotations");
    MergeMember(Metadata(n), p, "labels");
    StoredMember(n, "annotations", annotations);
    StoredMember(n, "labels", if labels.None? then map[] else labels.value);
  }

  // ---------------------------------------------------------------------------
  // Steps
  // ---------------------------------------------------------------------------

  function OrEmpty(m: Option<Strs>): Strs {
    match m case None => map[] case Some(strings) => strings
  }

  /** The call has something to write: the namespace is not there, or there are annotations to patch. */
  predicate WritesNamespace(c: State, name: string, annotations: Option<Strs>) {
    name !in c.namespaces || OrEmpty(annotations) != map[]
  }

  /** What it writes. */
  function NamespaceWritten(c: State, name: string, annotations: Option<Strs>, labels: Option<Strs>): State {
    if name !in c.namespaces then
      c.(namespaces := c.namespaces[name := Namespace(OrEmpty(annotations), OrEmpty(labels))])
    else
      c.(namespaces := c.namespaces[name := Namespace(
           c.namespaces[name].annotations + OrEmpty(annotations),
           if labels.None? then map[] else c.namespaces[name].labels + labels.value)])
  }

  /** What one call of CreateNamespace may do. A call that reports an error may have written all the same. */
  ghost predicate NamespaceStep(c: State, c': State, name: string, annotations: Option<Strs>, labels: Option<Strs>,
                                r: Result<NamespaceResult, Error>) {
    match r
    case Failure(_) =>
      c' == c || (WritesNamespace(c, name, annotations) && c' == NamespaceWritten(c, name, annotations, labels))
    case Success(NamespaceCreated) =>
      name !in c.namespaces && c' == NamespaceWritten(c, name, annotations, labels)
    case Success(NamespaceAlreadyExists) =>
      !WritesNamespace(c, name, annotations) && c' == c
    case Success(NamespaceAnnotationsUpdated) =>
      && name in c.namespaces && WritesNamespace(c, name, annotations)
      && c' == NamespaceWritten(c, name, annotations, labels)
  }

  const IGNORE_ANNOTATION := "onyxia.sh/ignore"

  predicate Ignored(q: ResourceQuota) {
    IGNORE_ANNOTATION in q.annotations && q.annotations[IGNORE_ANNOTATION] == "true"
  }

  predicate SameLimits(a: Limits, b: Limits) {
    a.Keys == b.Keys && forall k | k in a :: Equal(a[k], b[k])
  }

  /** The call has something to write: there are limits, and they are new to a quota that is not ignored. */
  predicate WritesQuota(c: State, namespace: string, hard: Limits) {
    hard != map[] &&
    (namespace in c.quotas ==> !Ignored(c.quotas[namespace]) && !SameLimits(c.quotas[namespace].hard, hard))
  }

  /** What it writes: an existing quota keeps all but its limits. */
  function QuotaWritten(c: State, namespace: string, hard: Limits): State {
    var q := if namespace in c.quotas then c.quotas[namespace].(hard := hard)
             else ResourceQuota(hard, map[], map["created-by" := "onyxia"]);
    c.(quotas := c.quotas[namespace := q], quotaWrites := c.quotaWrites + 1)
  }

  /** What one call of ApplyResourceQuotas for these limits may do. A call that reports an error may have written all
      the same. */
  ghost predicate QuotaStep(c: State, c': State, namespace: string, hard: Limits, r: Result<QuotaResult, Error>) {
    match r
    case Failure(_) =>
      c' == c || (WritesQuota(c, namespace, hard) && c' == QuotaWritten(c, namespace, hard))
    case Success(QuotaUnchanged) =>
      c' == c && (hard == map[] || (namespace in c.quotas && !Ignored(c.quotas[namespace])
                                    && SameLimits(c.quotas[namespace].hard, hard)))
    case Success(QuotaIgnored) =>
      c' == c && hard != map[] && namespace in c.quotas && Ignored(c.quotas[namespace])
    case Success(QuotaUpdated) =>
      namespace in c.quotas && WritesQuota(c, namespace, hard) && c' == QuotaWritten(c, namespace, hard)
    case Success(QuotaCreated) =>
      namespace !in c.quotas && WritesQuota(c, namespace, hard) && c' == QuotaWritten(c, namespace, hard)
  }

  // ---------------------------------------------------------------------------
  // Quotas
  // ---------------------------------------------------------------------------

  /** The configured amounts, "" where nothing is configured. */
  datatype Quota = Quota(memoryRequest: string, cpuRequest: string, memoryLimit: string, cpuLimit: string,
                         storageRequest: string, maxPods: string, ephemeralStorageRequest: string,
                         ephemeralStorageLimit: string, gpuRequest: string, gpuLimit: string)

  function Entries(q: Quota): Strs {
    map[
      "requests.memory" := q.memoryRequest,
      "requests.cpu" := q.cpuRequest,
      "limits.memory" := q.memoryLimit,
      "limits.cpu" := q.cpuLimit,
      "requests.storage" := q.storageRequest,
      "count/pods" := q.maxPods,
      "requests.ephemeral-storage" := q.ephemeralStorageRequest,
      "limits.ephemeral-storage" := q.ephemeralStorageLimit,
      "requests.nvidia.com/gpu" := q.gpuRequest,
      "limits.nvidia.com/gpu" := q.gpuLimit]
  }

  type Parser = string -> Option<Quantity>

  predicate Parses(entries: Strs, parse: Parser) {
    forall k | k in entries && entries[k] != "" :: parse(entries[k]).Some?
  }

  function Converted(entries: Strs, parse: Parser): Limits
    requires Parses(entries, parse)
  {
    map k | k in entries && entries[k] != "" :: parse(entries[k]).value
  }

  lemma ConvertOneMore(entries: Strs, todo: set<string>, key: string, parse: Parser)
    requires key in todo && todo <= entries.Keys && Parses(entries - todo, parse)
    ensures entries[key] == "" ==>
              Parses(entries - (todo - {key}), parse)
              && Converted(entries - (todo - {key}), parse) == Converted(entries - todo, parse)
    ensures entries[key] != "" && parse(entries[key]).Some? ==>
              Parses(entries - (todo - {key}), parse)
              && Converted(entries - (todo - {key}), parse)
                 == Converted(entries - todo, parse)[key := parse(entries[key]).value]
  {
    assert entries - (todo - {key}) == (entries - todo)[key := entries[key]];
  }

  /** The limit of a resource is there exactly when an amount is configured, and is that amount. */
  predicate HasLimit(hard: Limits, resource: string, configured: string, parse: Parser) {
    && (resource in hard <==> configured != "")
    && (configured != "" ==> parse(configured).Some? && hard[resource].amount == parse(configured).value.amount)
  }

  /** The limits of a quota, resource by resource, and no others. */
  predicate LimitsOf(hard: Limits, q: Quota, parse: Parser) {
    && HasLimit(hard, "requests.memory", q.memoryRequest, parse)
    && HasLimit(hard, "requests.cpu", q.cpuRequest, parse)
    && HasLimit(hard, "limits.memory", q.memoryLimit, parse)
    && HasLimit(hard, "limits.cpu", q.cpuLimit, parse)
    && HasLimit(hard, "requests.storage", q.storageRequest, parse)
    && HasLimit(hard, "count/pods", q.maxPods, parse)
    && HasLimit(hard, "requests.ephemeral-storage", q.ephemeralStorageRequest, parse)
    && HasLimit(hard, "limits.ephemeral-storage", q.ephemeralStorageLimit, parse)
    && HasLimit(hard, "requests.nvidia.com/gpu", q.gpuRequest, parse)
    && HasLimit(hard, "limits.nvidia.com/gpu", q.gpuLimit, parse)
    && forall k | k in hard ::
         k in {"requests.memory", "requests.cpu", "limits.memory", "limits.cpu", "requests.storage", "count/pods",
               "requests.ephemeral-storage", "limits.ephemeral-storage", "requests.nvidia.com/gpu",
               "limits.nvidia.com/gpu"}
  }

  /** No amount is configured. */
  predicate Blank(q: Quota) {
    && q.memoryRequest == "" && q.cpuRequest == "" && q.memoryLimit == "" && q.cpuLimit == "" && q.storageRequest == ""
    && q.maxPods == "" && q.ephemeralStorageRequest == "" && q.ephemeralStorageLimit == "" && q.gpuRequest == ""
    && q.gpuLimit == ""
  }

  lemma EntryConverted(entries: Strs, k: string, parse: Parser)
    requires Parses(entries, parse) && k in entries
    ensures HasLimit(Converted(entries, parse), k, entries[k], parse)
  {
  }

  /** Which field is entered under which resource. */
  lemma EntriesOf(q: Quota)
    ensures var entries := Entries(q);
      && entries.Keys == {"requests.memory", "requests.cpu", "limits.memory", "limits.cpu", "requests.storage",
                          "count/pods", "requests.ephemeral-storage", "limits.ephemeral-storage",
                          "requests.nvidia.com/gpu", "limits.nvidia.com/gpu"}
      && entries["requests.memory"] == q.memoryRequest && entries["requests.cpu"] == q.cpuRequest
      && entries["limits.memory"] == q.memoryLimit && entries["limits.cpu"] == q.cpuLimit
      && entries["requests.storage"] == q.storageRequest && entries["count/pods"] == q.maxPods
      && entries["requests.ephemeral-storage"] == q.ephemeralStorageRequest
      && entries["limits.ephemeral-storage"] == q.ephemeralStorageLimit
      && entries["requests.nvidia.com/gpu"] == q.gpuRequest && entries["limits.nvidia.com/gpu"] == q.gpuLimit
  {
  }

  lemma LimitsOfEntries(entries: Strs, q: Quota, hard: Limits, parse: Parser)
    requires hard.Keys <= entries.Keys && forall k | k in entries :: HasLimit(hard, k, entries[k], parse)
    requires entries == Entries(q)
    ensures LimitsOf(hard, q, parse)
  {
    EntriesOf(q);
  }

  lemma ConvertedLimits(q: Quota, parse: Parser)
    requires Parses(Entries(q), parse)
    ensures LimitsOf(Converted(Entries(q), parse), q, parse)
  {
    var entries := Entries(q);
    forall k | k in entries
      ensures HasLimit(Converted(entries, parse), k, entries[k], parse)
    {
      EntryConverted(entries, k, parse);
    }
    LimitsOfEntries(entries, q, Converted(entries, parse), parse);
  }

  lemma SameHasLimit(hard: Limits, stored: Limits, resource: string, configured: string, parse: Parser)
    requires SameLimits(stored, hard) && HasLimit(hard, resource, configured, parse)
    ensures HasLimit(stored, resource, configured, parse)
  {
  }

  lemma SameLimitsOf(hard: Limits, stored: Limits, q: Quota, parse: Parser)
    requires SameLimits(stored, hard) && LimitsOf(hard, q, parse)
    ensures LimitsOf(stored, q, parse)
  {
    forall resource, configured | HasLimit(hard, resource, configured, parse)
      ensures HasLimit(stored, resource, configured, parse)
    {
      SameHasLimit(hard, stored, resource, configured, parse);
    }
  }

  lemma BlankExactly(hard: Limits, q: Quota, parse: Parser)
    requires LimitsOf(hard, q, parse)
    ensures hard == map[] <==> Blank(q)
  {
    if Blank(q) {
      forall k ensures k !in hard {}
    }
  }

  /** What a successful application leaves stored, unless it was ignored or there was nothing to apply: for each
      resource the amount configured for it. */
  lemma StoredLimits(c: State, c': State, namespace: string, hard: Limits, q: Quota, parse: Parser,
                     r: Result<QuotaResult, Error>)
    requires LimitsOf(hard, q, parse) && QuotaStep(c, c', namespace, hard, r)
    ensures r in {Success(QuotaCreated), Success(QuotaUpdated)} || (r == Success(QuotaUnchanged) && !Blank(q))
            ==> namespace in c'.quotas && LimitsOf(c'.quotas[namespace].hard, q, parse)
    ensures r in {Success(QuotaCreated), Success(QuotaUpdated)} ==> !Blank(q)
  {
    BlankExactly(hard, q, parse);
    if r == Success(QuotaUnchanged) && !Blank(q) {
      SameLimitsOf(hard, c'.quotas[namespace].hard, q, parse);
    } else if r in {Success(QuotaCreated), Success(QuotaUpdated)} {
      assert c'.quotas[namespace].hard == hard;
    }
  }

  /** Entries are converted in whatever order the map is iterated; any that does not parse fails the whole. */
  method ConvertQuotaToResourceMap(entries: Strs, parse: Parser) returns (r: Result<Limits, Error>)
    ensures r.Success? <==> Parses(entries, parse)
    ensures r.Success? ==> r.value == Converted(entries, parse)
  {
    var hardLimits: Limits := map[];
    var todo := entries.Keys;
    while todo != {}
      invariant todo <= entries.Keys
      invariant Parses(entries - todo, parse)
      invariant hardLimits == Converted(entries - todo, parse)
    {
      var key :| key in todo;
      ConvertOneMore(entries, todo, key, parse);
      todo := todo - {key};
      if entries[key] != "" {
        var quantity := parse(entries[key]);
        if quantity.None? { return Failure(BadQuantity); }
        hardLimits := hardLimits[key := quantity.value];
      }
    }
    assert entries - {} == entries;
    return Success(hardLimits);
  }

  /** A quota is ignored exactly when it is annotated "onyxia.sh/ignore" with "true". */
  lemma IgnoredExactly(q: ResourceQuota)
    ensures Ignored(q) <==> ("onyxia.sh/ignore", "true") in q.annotations.Items
  {
  }

  lemma SameSizeSubset<T>(a: set<T>, b: set<T>)
    requires a <= b && |a| == |b|
    ensures a == b
  {
    var extra := b - a;
    assert b == a + extra;
    assert |b| == |a| + |extra|;
    assert extra == {};
  }

  /** Comparing the sizes and one direction decides whether two sets of limits are the same. */
  method QuotasAreDifferent(existing: Limits, newLimits: Limits) returns (different: bool)
    ensures different <==> !SameLimits(existing, newLimits)
  {
    if |existing| != |newLimits| {
      assert |existing.Keys| != |newLimits.Keys|;
      return true;
    }
    var todo := newLimits.Keys;
    while todo != {}
      invariant todo <= newLimits.Keys
      invariant forall k | k in newLimits && k !in todo :: k in existing && Equal(existing[k], newLimits[k])
    {
      var key :| key in todo;
      todo := todo - {key};
      if key !in existing || !Equal(existing[key], newLimits[key]) { return true; }
    }
    SameSizeSubset(newLimits.Keys, existing.Keys);
    return false;
  }

  // ---------------------------------------------------------------------------
  // The service
  // ---------------------------------------------------------------------------

  datatype Reply = Done | Exists | Missing | Failed

  class Cluster {
    var state: State

    constructor (state: State)
      ensures this.state == state
    {
      this.state := state;
    }

    method CreateNamespaceObject(name: string, n: Namespace) returns (reply: Reply)
      modifies this
      ensures var created := old(state).(namespaces := old(state).namespaces[name := n]);
              match reply
              case Done => name !in old(state).namespaces && state == created
              case Exists => name in old(state).namespaces && state == old(state)
              case Failed => state == old(state) || (name !in old(state).namespaces && state == created)
              case Missing => false
    {
      var fault, applied: bool := *, *;
      var taken := name in state.namespaces;
      if !taken && (!fault || applied) {
        state := state.(namespaces := state.namespaces[name := n]);
      }
      return if fault then Failed else if taken then Exists else Done;
    }

    method PatchNamespace(name: string, patch: Json) returns (reply: Reply)
      requires name in state.namespaces
      modifies this
      ensures var patched := old(state).(namespaces := old(state).namespaces[name :=
                               FromDocument(Merge(Document(old(state).namespaces[name]), patch))]);
              (reply == Done && state == patched) || (reply == Failed && (state == old(state) || state == patched))
    {
      var fault, applied: bool := *, *;
      if !fault || applied {
        state := state.(namespaces := state.namespaces[name := FromDocument(Merge(Document(state.namespaces[name]), patch))]);
      }
      return if fault then Failed else Done;
    }

    method GetQuota(namespace: string) returns (reply: Reply, q: Option<ResourceQuota>)
      ensures reply == Done ==> namespace in state.quotas && q == Some(state.quotas[namespace])
      ensures reply == Missing ==> namespace !in state.quotas
      ensures reply in {Done, Missing, Failed}
    {
      var fails := *;
      if fails { return Failed, None; }
      if namespace !in state.quotas { return Missing, None; }
      return Done, Some(state.quotas[namespace]);
    }

    method WriteQuota(namespace: string, q: ResourceQuota) returns (reply: Reply)
      modifies this
      ensures var written := old(state).(quotas := old(state).quotas[namespace := q], quotaWrites := old(state).quotaWrites + 1);
              (reply == Done && state == written) || (reply == Failed && (state == old(state) || state == written))
    {
      var fault, applied: bool := *, *;
      if !fault || applied {
        state := state.(quotas := state.quotas[namespace := q], quotaWrites := state.quotaWrites + 1);
      }
      return if fault then Failed else Done;
    }
  }

  method CreateNamespace(cluster: Cluster, name: string, annotations: Option<Strs>, labels: Option<Strs>)
    returns (r: Result<NamespaceResult, Error>)
    modifies cluster
    ensures NamespaceStep(old(cluster.state), cluster.state, name, annotations, labels, r)
  {
    var created := cluster.CreateNamespaceObject(name, Namespace(OrEmpty(annotations), OrEmpty(labels)));
    if created == Exists {
      if |OrEmpty(annotations)| == 0 { return Success(NamespaceAlreadyExists); }
      PatchOverlays(cluster.state.namespaces[name], OrEmpty(annotations), labels);
      var patched := cluster.PatchNamespace(name, PatchDocument(OrEmpty(annotations), labels));
      if patched != Done { return Failure(RequestFailed); }
      return Success(NamespaceAnnotationsUpdated);
    }
    if created != Done { return Failure(RequestFailed); }
    return Success(NamespaceCreated);
  }

  method ApplyLimits(cluster: Cluster, namespace: string, hardLimits: Limits) returns (r: Result<QuotaResult, Error>)
    modifies cluster
    ensures QuotaStep(old(cluster.state), cluster.state, namespace, hardLimits, r)
  {
    if |hardLimits| == 0 { return Success(QuotaUnchanged); }
    var got, existing := cluster.GetQuota(namespace);
    if got == Done {
      var annotations := existing.value.annotations;
      if "onyxia.sh/ignore" in annotations && annotations["onyxia.sh/ignore"] == "true" { return Success(QuotaIgnored); }
      var different := QuotasAreDifferent(existing.value.hard, hardLimits);
      if !different { return Success(QuotaUnchanged); }
      var updated := cluster.WriteQuota(namespace, existing.value.(hard := hardLimits));
      return if updated == Done then Success(QuotaUpdated) else Failure(RequestFailed);
    }
    if got == Missing {
      var created := cluster.WriteQuota(namespace, ResourceQuota(hardLimits, map[], map["created-by" := "onyxia"]));
      return if created == Done then Success(QuotaCreated) else Failure(RequestFailed);
    }
    return Failure(RequestFailed);
  }

  /** Besides the step, what a success leaves stored: for each resource the amount configured for it. */
  method ApplyResourceQuotas(cluster: Cluster, namespace: string, quota: Quota, parse: Parser)
    returns (r: Result<QuotaResult, Error>)
    modifies cluster
    ensures if Parses(Entries(quota), parse)
            then QuotaStep(old(cluster.state), cluster.state, namespace, Converted(Entries(quota), parse), r)
            else r == Failure(BadQuantity) && cluster.state == old(cluster.state)
    ensures r in {Success(QuotaCreated), Success(QuotaUpdated)} || (r == Success(QuotaUnchanged) && !Blank(quota))
            ==> namespace in cluster.state.quotas && LimitsOf(cluster.state.quotas[namespace].hard, quota, parse)
  {
    ghost var before := cluster.state;
    var converted := ConvertQuotaToResourceMap(Entries(quota), parse);
    if converted.Failure? { return Failure(BadQuantity); }
    ConvertedLimits(quota, parse);
    r := ApplyLimits(cluster, namespace, converted.value);
    StoredLimits(before, cluster.state, namespace, converted.value, quota, parse, r);
  }
}
