/**
 Onboarding: the annotations requested for a namespace, the quota chosen for it, and what any
 number of onboardings leaves in the cluster.

 Calls run one at a time, each to its end.
 */
module Onboarding {
  import opened Common
  import opened NamespaceService

  // ---------------------------------------------------------------------------
  // Annotations
  // ---------------------------------------------------------------------------

  const TIMESTAMP_KEY := "onyxia_last_login_timestamp"

  datatype AnnotationConfig = AnnotationConfig(enabled: bool, lastLoginTimestamp: bool, userAttributes: seq<string>)

  /** What a request brings: the time, printed, and the user's attributes, printed, if it has any map of them. */
  datatype Visit = Visit(now: string, attributes: Option<Strs>)

  function Printed(attributes: Strs, key: string): string {
    if key in attributes then attributes[key] else "<nil>"
  }

  function Timestamp(config: AnnotationConfig, now: string): Strs {
    if config.lastLoginTimestamp then map[TIMESTAMP_KEY := now] else map[]
  }

  function PrintedAt(keys: seq<string>, attributes: Strs): Strs {
    map k | k in keys :: Printed(attributes, k)
  }

  function FromUser(config: AnnotationConfig, attributes: Option<Strs>): Strs {
    match attributes
    case None => map[]
    case Some(a) => PrintedAt(config.userAttributes, a)
  }

  lemma PrintOneMore(m: Strs, keys: seq<string>, i: nat, attributes: Strs)
    requires i < |keys|
    ensures (m + PrintedAt(keys[..i], attributes))[keys[i] := Printed(attributes, keys[i])]
            == m + PrintedAt(keys[..i+1], attributes)
  {
    var now, next := PrintedAt(keys[..i], attributes), PrintedAt(keys[..i+1], attributes);
    assert keys[..i+1] == keys[..i] + [keys[i]];
    assert next.Keys == now.Keys + {keys[i]};
  }

  /** The annotations meant for a visit: the static ones, under the timestamp, under the user's. */
  function Annotated(base: Strs, config: AnnotationConfig, v: Visit): Strs {
    base + Timestamp(config, v.now) + FromUser(config, v.attributes)
  }

  /** Key by key: a configured attribute has the user's value, "<nil>" if the user has none; failing that, the timestamp
      key has the time; every other key is as it was. */
  lemma AnnotatedExactly(base: Strs, config: AnnotationConfig, v: Visit, k: string)
    ensures var annotations := Annotated(base, config, v);
            if v.attributes.Some? && k in config.userAttributes then
              k in annotations
              && annotations[k] == if k in v.attributes.value then v.attributes.value[k] else "<nil>"
            else if k == "onyxia_last_login_timestamp" && config.lastLoginTimestamp then
              k in annotations && annotations[k] == v.now
            else
              (k in annotations <==> k in base) && (k in base ==> annotations[k] == base[k])
  {
  }

  /** The static map, which every visit writes to, after these visits. */
  function StaticAfter(base: Strs, config: AnnotationConfig, visits: seq<Visit>): Strs {
    if visits == [] then base else Annotated(StaticAfter(base, config, visits[..|visits|-1]), config, visits[|visits|-1])
  }

  lemma OneMore(base: Strs, config: AnnotationConfig, visits: seq<Visit>, v: Visit)
    ensures StaticAfter(base, config, visits + [v]) == Annotated(StaticAfter(base, config, visits), config, v)
  {
    assert (visits + [v])[..|visits|] == visits;
  }

  /** The attributes of the last visit that brought any. */
  function LastAttributes(visits: seq<Visit>): Option<Strs> {
    if visits == [] then None
    else if visits[|visits|-1].attributes.Some? then visits[|visits|-1].attributes
    else LastAttributes(visits[..|visits|-1])
  }

  /** An overlay hides an earlier one of the same keys. */
  lemma Hidden(base: Strs, hidden: Strs, between: Strs, over: Strs)
    requires hidden.Keys <= over.Keys
    ensures base + hidden + between + over == base + between + over
  {
  }

  lemma NothingBetween(base: Strs, hidden: Strs, over: Strs)
    requires hidden.Keys <= over.Keys
    ensures base + hidden + over == base + over
  {
  }

  lemma UserKeys(config: AnnotationConfig, attributes: Option<Strs>)
    ensures FromUser(config, attributes).Keys == if attributes.None? then {} else set k | k in config.userAttributes
  {
  }

  /** A visit's own attributes replace the last ones, and the next timestamp its timestamp. */
  lemma OneVisit(base: Strs, config: AnnotationConfig, last: Option<Strs>, w: Visit, now: string)
    ensures Annotated(base + FromUser(config, last), config, w) + Timestamp(config, now)
            == base + FromUser(config, if w.attributes.Some? then w.attributes else last) + Timestamp(config, now)
  {
    var l, user := FromUser(config, last), FromUser(config, w.attributes);
    var t, t' := Timestamp(config, w.now), Timestamp(config, now);
    UserKeys(config, last);
    UserKeys(config, w.attributes);
    if w.attributes.Some? {
      Hidden(base, l, t, user);
      Hidden(base, t, user, t');
    } else {
      assert base + l + t + user == base + l + t;
      NothingBetween(base + l, t, t');
    }
  }

  /** Of all earlier visits, what a visit sees is the attributes of the last that brought any. */
  lemma {:induction false} WhatRemains(base: Strs, config: AnnotationConfig, visits: seq<Visit>, v: Visit)
    ensures Annotated(StaticAfter(base, config, visits), config, v)
            == Annotated(base + FromUser(config, LastAttributes(visits)), config, v)
  {
    if visits == [] {
      assert base + map[] == base;
    } else {
      var earlier, w := visits[..|visits|-1], visits[|visits|-1];
      WhatRemains(base, config, earlier, w);
      OneVisit(base, config, LastAttributes(earlier), w, v.now);
    }
  }

  /** A visit that brings attributes gets what it would have got first, whoever came before. */
  lemma {:induction false} HistoryIndependent(base: Strs, config: AnnotationConfig, visits: seq<Visit>, v: Visit)
    requires v.attributes.Some?
    ensures Annotated(StaticAfter(base, config, visits), config, v) == Annotated(base, config, v)
  {
    WhatRemains(base, config, visits, v);
    UserKeys(config, LastAttributes(visits));
    UserKeys(config, v.attributes);
    Hidden(base, FromUser(config, LastAttributes(visits)), Timestamp(config, v.now), FromUser(config, v.attributes));
  }

  predicate TimestampOnly(config: AnnotationConfig) {
    forall k | k in config.userAttributes :: k == TIMESTAMP_KEY && config.lastLoginTimestamp
  }

  /** Every visit, whether or not it brings attributes, is independent of the others exactly when no user
      attribute is configured, or only one that the timestamp overwrites. */
  lemma AlwaysIndependentExactly(base: Strs, config: AnnotationConfig)
    ensures (forall visits, v :: Annotated(StaticAfter(base, config, visits), config, v) == Annotated(base, config, v))
            <==> TimestampOnly(config)
  {
    if TimestampOnly(config) {
      forall visits, v ensures Annotated(StaticAfter(base, config, visits), config, v) == Annotated(base, config, v) {
        WhatRemains(base, config, visits, v);
        UserKeys(config, LastAttributes(visits));
        var last, t := FromUser(config, LastAttributes(visits)), Timestamp(config, v.now);
        NothingBetween(base, last, t);
      }
    } else {
      var k :| k in config.userAttributes && !(k == TIMESTAMP_KEY && config.lastLoginTimestamp);
      Leak(base, config, k);
    }
  }

  /** One user's attribute reaches a visit that brings none. */
  lemma Leak(base: Strs, config: AnnotationConfig, k: string)
    requires k in config.userAttributes && !(k == TIMESTAMP_KEY && config.lastLoginTimestamp)
    ensures exists visits, v ::
              Annotated(StaticAfter(base, config, visits), config, v) != Annotated(base, config, v)
  {
    var value := if k in base && base[k] == "a" then "b" else "a";
    var visits := [Visit("0", Some(map[k := value]))];
    var v := Visit("0", None);
    WhatRemains(base, config, visits, v);
    assert LastAttributes(visits) == Some(map[k := value]);
    assert Annotated(StaticAfter(base, config, visits), config, v)[k] == value;
    assert k in Annotated(base, config, v) ==> Annotated(base, config, v)[k] == base[k];
  }

  // ---------------------------------------------------------------------------
  // Choosing a quota
  // ---------------------------------------------------------------------------

  datatype Quotas = Quotas(enabled: bool, default_: Quota, userEnabled: bool, user: Quota,
                           groupEnabled: bool, group: Quota, roles: map<string, Quota>)

  datatype Request = Request(group: Option<string>, userName: string, userRoles: seq<string>)

  function FirstRole(roles: map<string, Quota>, userRoles: seq<string>): (r: Option<Quota>)
    ensures r.None? <==> forall i | 0 <= i < |userRoles| :: userRoles[i] !in roles
    ensures r.Some? ==> exists i :: 0 <= i < |userRoles| && userRoles[i] in roles && r.value == roles[userRoles[i]]
                                    && forall j | 0 <= j < i :: userRoles[j] !in roles
  {
    if userRoles == [] then None
    else if userRoles[0] in roles then Some(roles[userRoles[0]])
    else
      var rest := FirstRole(roles, userRoles[1..]);
      assert forall i | 0 < i < |userRoles| :: userRoles[i] == userRoles[1..][i-1];
      assert rest.Some? ==> exists i :: 0 < i < |userRoles| && userRoles[i] in roles && rest.value == roles[userRoles[i]]
                                        && forall j | 0 <= j < i :: userRoles[j] !in roles by
      {
        if rest.Some? {
          var i :| 0 <= i < |userRoles[1..]| && userRoles[1..][i] in roles && rest.value == roles[userRoles[1..][i]]
                   && forall j | 0 <= j < i :: userRoles[1..][j] !in roles;
          assert userRoles[i+1] in roles;
        }
      }
      rest
  }
  /** The group's quota for a group; for a user, that of the first of their roles that has one, else the
      users' quota; and the default one where those are not enabled. */
  function Selected(quotas: Quotas, req: Request): Quota {
    if req.group.Some? then if quotas.groupEnabled then quotas.group else quotas.default_
    else match FirstRole(quotas.roles, req.userRoles)
      case Some(q) => q
      case None => if quotas.userEnabled then quotas.user else quotas.default_
  }

  /** A group gets the group quota where that is enabled; a user the quota of a role of theirs, or without any the user
      quota where that is enabled; all others the default quota. */
  lemma SelectedExactly(quotas: Quotas, req: Request)
    ensures req.group.Some? && quotas.groupEnabled ==> Selected(quotas, req) == quotas.group
    ensures req.group.Some? && !quotas.groupEnabled ==> Selected(quotas, req) == quotas.default_
    ensures forall i | req.group.None? && 0 <= i < |req.userRoles| && req.userRoles[i] in quotas.roles
                       && forall j | 0 <= j < i :: req.userRoles[j] !in quotas.roles ::
              Selected(quotas, req) == quotas.roles[req.userRoles[i]]
    ensures req.group.None? && (forall role | role in req.userRoles :: role !in quotas.roles) ==>
              Selected(quotas, req) == if quotas.userEnabled then quotas.user else quotas.default_
  {
    var first := FirstRole(quotas.roles, req.userRoles);
  }

  datatype Prefixes = Prefixes(user: string, group: string)

  function NamespaceName(prefixes: Prefixes, req: Request): string {
    if req.group.Some? then prefixes.group + req.group.value else prefixes.user + req.userName
  }

  /** A user and a group, both with a name, can share a namespace exactly when one of the two prefixes extends the
      other. */
  lemma SharedNamespaceExactly(prefixes: Prefixes)
    ensures (exists u: Request, g: Request :: u.group.None? && u.userName != "" && g.group.Some? && g.group.value != ""
                                              && NamespaceName(prefixes, u) == NamespaceName(prefixes, g))
            <==> prefixes.user <= prefixes.group || prefixes.group <= prefixes.user
  {
    var p, q := prefixes.user, prefixes.group;
    if p <= q || q <= p {
      var u := Request(None, (if p <= q then q[|p|..] else "") + "a", []);
      var g := Request(Some((if p <= q then "" else p[|q|..]) + "a"), "", []);
      assert NamespaceName(prefixes, u) == NamespaceName(prefixes, g);
    }
    forall u: Request, g: Request | u.group.None? && g.group.Some? && p + u.userName == q + g.group.value
      ensures p <= q || q <= p
    {
      var all := p + u.userName;
      assert p == all[..|p|] && q == all[..|q|];
    }
  }

  // ---------------------------------------------------------------------------
  // One onboarding
  // ---------------------------------------------------------------------------

  /** What an onboarding asks of the cluster: no quota when quotas are disabled, bad limits when the quota does not
      parse. */
  datatype Wanted = Wanted(name: string, annotations: Option<Strs>, labels: Option<Strs>,
                           limits: Option<Result<Limits, Error>>)

  /** An onboarding, the state before it, between its two halves, and after it, and what it reports. */
  datatype Record = Record(wanted: Wanted, before: State, middle: State, after: State,
                           namespace: Result<NamespaceResult, Error>, quota: Option<Result<QuotaResult, Error>>)

  ghost predicate Onboarded(o: Record) {
    && NamespaceStep(o.before, o.middle, o.wanted.name, o.wanted.annotations, o.wanted.labels, o.namespace)
    && (o.quota.Some? <==> o.namespace.Success? && o.wanted.limits.Some?)
    && match o.wanted.limits
       case Some(Success(hard)) =>
         if o.quota.Some? then QuotaStep(o.middle, o.after, o.wanted.name, hard, o.quota.value) else o.after == o.middle
       case Some(Failure(error)) =>
         o.after == o.middle && (o.quota.Some? ==> o.quota.value == Failure(error))
       case None => o.after == o.middle
  }

  /** The state after the first `i` onboardings. */
  function At(start: State, h: seq<Record>, i: nat): State
    requires i <= |h|
  {
    if i == 0 then start else h[i-1].after
  }

  ghost predicate Linked(start: State, h: seq<Record>, i: nat)
    requires i < |h|
  {
    Onboarded(h[i]) && h[i].before == At(start, h, i)
  }

  ghost predicate Run(start: State, h: seq<Record>) {
    forall i | 0 <= i < |h| :: Linked(start, h, i)
  }

  lemma RunGrows(start: State, h: seq<Record>, o: Record)
    requires Run(start, h) && Onboarded(o) && o.before == At(start, h, |h|)
    ensures Run(start, h + [o]) && At(start, h + [o], |h| + 1) == o.after
  {
    var grown := h + [o];
    forall i | 0 <= i < |grown|
      ensures Linked(start, grown, i)
    {
      assert i < |h| ==> Linked(start, h, i);
      assert At(start, grown, i) == At(start, h, i);
    }
  }

  function Outcome(o: Record): Result<(), Error> {
    if o.namespace.Failure? then Failure(o.namespace.error)
    else if o.quota.Some? && o.quota.value.Failure? then Failure(o.quota.value.error)
    else Success(())
  }

  /** After an application that was neither ignored nor had nothing to apply, each resource is limited to the amount
      configured for it. */
  predicate LeavesLimits(r: Result<QuotaResult, Error>, c: State, name: string, q: Quota, parse: Parser) {
    r in {Success(QuotaCreated), Success(QuotaUpdated)} || (r == Success(QuotaUnchanged) && !Blank(q)) ==>
      name in c.quotas && LimitsOf(c.quotas[name].hard, q, parse)
  }

  function Limited(quotas: Quotas, req: Request, parse: Parser): Option<Result<Limits, Error>> {
    if !quotas.enabled then None
    else if Parses(Entries(Selected(quotas, req)), parse)
    then Some(Success(Converted(Entries(Selected(quotas, req)), parse)))
    else Some(Failure(BadQuantity))
  }

  /** A map held by reference. */
  class StringMap {
    var m: Strs

    constructor (m: Strs)
      ensures this.m == m
    {
      this.m := m;
    }

    method Annotate(config: AnnotationConfig, v: Visit)
      modifies this
      ensures m == Annotated(old(m), config, v)
    {
      if config.lastLoginTimestamp {
        m := m[TIMESTAMP_KEY := v.now];
      }
      assert m == old(m) + Timestamp(config, v.now);
      if v.attributes.Some? {
        Write(config.userAttributes, v.attributes.value);
      } else {
        assert m + map[] == m;
      }
    }

    method Write(keys: seq<string>, attributes: Strs)
      modifies this
      ensures m == old(m) + PrintedAt(keys, attributes)
    {
      var i := 0;
      while i < |keys|
        invariant i <= |keys|
        invariant m == old(m) + PrintedAt(keys[..i], attributes)
      {
        PrintOneMore(old(m), keys, i, attributes);
        m := m[keys[i] := Printed(attributes, keys[i])];
        i := i + 1;
      }
      assert keys[..i] == keys;
    }
  }

  class Usecase {
    const cluster: Cluster
    const prefixes: Prefixes
    const annotation: AnnotationConfig
    /** The configured static annotations. */
    const shared: StringMap?
    const labels: Option<Strs>
    const quotas: Quotas
    const parse: Parser

    ghost const start: State
    ghost const base: Strs
    /** The visits that wrote to the shared map. */
    ghost var visits: seq<Visit>
    ghost var history: seq<Record>

    ghost predicate Valid()
      reads this, cluster, shared
    {
      && Run(start, history) && At(start, history, |history|) == cluster.state
      && (shared != null ==> shared.m == StaticAfter(base, annotation, visits))
      && (shared == null ==> base == map[] && visits == [])
    }

    constructor (cluster: Cluster, prefixes: Prefixes, annotation: AnnotationConfig, shared: StringMap?,
                 labels: Option<Strs>, quotas: Quotas, parse: Parser)
      ensures Valid() && visits == [] && history == []
      ensures this.cluster == cluster && this.prefixes == prefixes && this.annotation == annotation
      ensures this.shared == shared && this.labels == labels && this.quotas == quotas && this.parse == parse
      ensures start == cluster.state && base == if shared == null then map[] else shared.m
    {
      this.cluster, this.prefixes, this.annotation := cluster, prefixes, annotation;
      this.shared, this.labels, this.quotas, this.parse := shared, labels, quotas, parse;
      start, base, visits, history := cluster.state, if shared == null then map[] else shared.m, [], [];
    }

    /** The map returned is the static one itself, if there is one. */
    method GetNamespaceAnnotations(v: Visit) returns (annotations: StringMap?)
      requires Valid()
      modifies this`visits, shared
      ensures Valid() && cluster.state == old(cluster.state)
      ensures annotations == null <==> !annotation.enabled
      ensures annotations != null && shared != null ==> annotations == shared
      ensures annotations != null && shared == null ==> fresh(annotations)
      ensures annotations != null ==> annotations.m == Annotated(StaticAfter(base, annotation, old(visits)), annotation, v)
      ensures annotations != null && v.attributes.Some? ==> annotations.m == Annotated(base, annotation, v)
      ensures !annotation.enabled && shared != null ==> shared.m == old(shared.m)
    {
      if !annotation.enabled { return null; }
      annotations := shared;
      if annotations == null { annotations := new StringMap(map[]); }
      annotations.Annotate(annotation, v);
      if v.attributes.Some? {
        HistoryIndependent(base, annotation, visits, v);
      }
      if shared != null {
        OneMore(base, annotation, visits, v);
        visits := visits + [v];
      }
    }

    method GetUserQuota(req: Request) returns (q: Quota)
      requires req.group.None?
      ensures q == Selected(quotas, req)
    {
      var i := 0;
      while i < |req.userRoles|
        invariant i <= |req.userRoles|
        invariant FirstRole(quotas.roles, req.userRoles) == FirstRole(quotas.roles, req.userRoles[i..])
      {
        if req.userRoles[i] in quotas.roles { return quotas.roles[req.userRoles[i]]; }
        i := i + 1;
      }
      return if quotas.userEnabled then quotas.user else quotas.default_;
    }

    method GetQuota(req: Request) returns (q: Quota)
      ensures q == Selected(quotas, req)
    {
      if req.group.Some? { return if quotas.groupEnabled then quotas.group else quotas.default_; }
      q := GetUserQuota(req);
    }

    method ApplyQuotas(name: string, req: Request) returns (r: Option<Result<QuotaResult, Error>>)
      modifies cluster
      ensures match Limited(quotas, req, parse)
              case Some(Success(hard)) =>
                r.Some? && QuotaStep(old(cluster.state), cluster.state, name, hard, r.value)
              case Some(Failure(error)) => r == Some(Result.Failure(error)) && cluster.state == old(cluster.state)
              case None => r.None? && cluster.state == old(cluster.state)
      ensures r.Some? ==> LeavesLimits(r.value, cluster.state, name, Selected(quotas, req), parse)
    {
      if !quotas.enabled { return None; }
      var q := GetQuota(req);
      var applied := ApplyResourceQuotas(cluster, name, q, parse);
      return Some(applied);
    }

    /** The two halves of an onboarding; the second only if the first succeeds. */
    method Reconcile(req: Request, name: string, annotations: Option<Strs>)
      returns (r: Result<(), Error>, ghost o: Record)
      modifies cluster
      ensures Onboarded(o) && o.before == old(cluster.state) && o.after == cluster.state && r == Outcome(o)
      ensures o.wanted == Wanted(name, annotations, labels, Limited(quotas, req, parse))
      ensures o.quota.Some? ==> LeavesLimits(o.quota.value, o.after, name, Selected(quotas, req), parse)
    {
      ghost var before := cluster.state;
      var created := CreateNamespace(cluster, name, annotations, labels);
      ghost var middle := cluster.state;
      ghost var wanted := Wanted(name, annotations, labels, Limited(quotas, req, parse));
      if created.Failure? { return Failure(created.error), Record(wanted, before, middle, middle, created, None); }
      var applied := ApplyQuotas(name, req);
      o := Record(wanted, before, middle, cluster.state, created, applied);
      r := if applied.Some? && applied.value.Failure? then Failure(applied.value.error) else Success(());
    }

    method Onboard(req: Request, v: Visit) returns (r: Result<(), Error>, ghost o: Record)
      requires Valid()
      modifies this`visits, this`history, shared, cluster
      ensures Valid() && history == old(history) + [o]
      ensures o.before == old(cluster.state) && o.after == cluster.state && r == Outcome(o)
      ensures o.wanted.name == NamespaceName(prefixes, req)
      ensures req.group.None? ==> o.wanted.name == prefixes.user + req.userName
      ensures req.group.Some? ==> o.wanted.name == prefixes.group + req.group.value
      ensures o.quota.Some? ==> LeavesLimits(o.quota.value, o.after, o.wanted.name, Selected(quotas, req), parse)
      ensures o.wanted.labels == labels && o.wanted.limits == Limited(quotas, req, parse)
      ensures o.wanted.annotations == if !annotation.enabled then None
                                      else Some(Annotated(StaticAfter(base, annotation, old(visits)), annotation, v))
      ensures v.attributes.Some? && annotation.enabled ==> o.wanted.annotations == Some(Annotated(base, annotation, v))
    {
      var name := if req.group.Some? then prefixes.group + req.group.value else prefixes.user + req.userName;
      var annotations := GetNamespaceAnnotations(v);
      r, o := Reconcile(req, name, if annotations == null then None else Some(annotations.m));
      RunGrows(start, history, o);
      history := history + [o];
    }
  }
}
