/**
 The gateway that writes the Onyxia secret of a release: create, and when the secret is already
 there, read it and write it back under the resource version that was read, retrying on conflict.

 The API server is a versioned map. Between any two requests of a call, other clients may do
 anything an API server lets them do, and any request may fail. The whole course of events is
 kept in a history, about which the guarantees are stated.
 */
module SecretGateway {
  import opened Common

  // ---------------------------------------------------------------------------
  // The API server
  // ---------------------------------------------------------------------------

  type Data = map<string, seq<bv8>>
  type Key = (string, string)   // namespace and name

  /** `meta` stands for everything in a secret besides its type, data and version. */
  datatype Secret = Secret(kind: string, data: Option<Data>, meta: map<string, string>, version: nat)

  datatype Cluster = Cluster(secrets: map<Key, Secret>, clock: nat)

  datatype ApiError = AlreadyExists | NotFound | Conflict | Other

  predicate WellVersioned(c: Cluster) {
    forall k | k in c.secrets :: c.secrets[k].version < c.clock
  }

  function Put(c: Cluster, key: Key, s: Secret): Cluster {
    Cluster(c.secrets[key := s.(version := c.clock)], c.clock + 1)
  }

  function CreateIn(c: Cluster, key: Key, s: Secret): (Option<ApiError>, Cluster) {
    if key in c.secrets then (Some(AlreadyExists), c) else (None, Put(c, key, s))
  }

  /** Optimistic concurrency: the write has to name the version it replaces. */
  function UpdateIn(c: Cluster, key: Key, s: Secret): (Option<ApiError>, Cluster) {
    if key !in c.secrets then (Some(NotFound), c)
    else if c.secrets[key].version != s.version then (Some(Conflict), c)
    else (None, Put(c, key, s))
  }

  function DeleteIn(c: Cluster, key: Key): (Option<ApiError>, Cluster) {
    if key !in c.secrets then (Some(NotFound), c) else (None, Cluster(c.secrets - {key}, c.clock))
  }

  function GetIn(c: Cluster, key: Key): (Option<ApiError>, Cluster) {
    (if key in c.secrets then None else Some(NotFound), c)
  }

  /** What others may do to the cluster: anything, but whatever they write gets a new version. */
  predicate Interferes(c: Cluster, c': Cluster) {
    && c.clock <= c'.clock
    && forall k | k in c'.secrets ::
         (k in c.secrets && c'.secrets[k] == c.secrets[k]) || c.clock <= c'.secrets[k].version < c'.clock
  }

  /** Who brought a moment about: other clients, the request of a gateway call, or such a request that failed. */
  datatype Who = Others | Gateway | Fault

  datatype Moment = Moment(who: Who, state: Cluster)

  /** `h'` is `h` followed by other clients' doing and then one request, answered by `err`. `reply` is what
      the server makes of the request. A request that failed may have taken effect all the same. */
  ghost predicate Requested(h: seq<Moment>, h': seq<Moment>, err: Option<ApiError>,
                            reply: Cluster -> (Option<ApiError>, Cluster))
    requires h != []
  {
    var n := |h|;
    && |h'| == n + 2 && h'[..n] == h
    && h'[n].who == Others && Interferes(h[n-1].state, h'[n].state) && WellVersioned(h'[n].state)
    && match h'[n+1].who
       case Others => false
       case Gateway => (err, h'[n+1].state) == reply(h'[n].state)
       case Fault => err == Some(Other) && (h'[n+1].state == h'[n].state || h'[n+1].state == reply(h'[n].state).1)
  }

  class Server {
    var cluster: Cluster
    ghost var history: seq<Moment>   // every state the cluster went through

    ghost predicate Valid()
      reads this
    {
      history != [] && history[|history|-1].state == cluster && WellVersioned(cluster)
    }

    method Interfere()
      requires Valid()
      modifies this
      ensures Valid() && Interferes(old(cluster), cluster)
      ensures history == old(history) + [Moment(Others, cluster)]
    {
      var next: Cluster :| Interferes(cluster, next) && WellVersioned(next);
      cluster := next;
      history := history + [Moment(Others, cluster)];
    }

    /** Answers one request, or lets it fail before or after it took effect. */
    method Answer(reply: (Option<ApiError>, Cluster)) returns (err: Option<ApiError>)
      requires Valid() && WellVersioned(reply.1)
      modifies this
      ensures Valid() && |history| == |old(history)| + 1 && history[..|old(history)|] == old(history)
      ensures match history[|old(history)|].who
              case Others => false
              case Gateway => (err, cluster) == reply
              case Fault => err == Some(Other) && (cluster == old(cluster) || cluster == reply.1)
    {
      var fault, applied: bool := *, *;
      if !fault || applied { cluster := reply.1; }
      err := if fault then Some(Other) else reply.0;
      history := history + [Moment(if fault then Fault else Gateway, cluster)];
    }

    method Create(key: Key, s: Secret) returns (err: Option<ApiError>)
      requires Valid()
      modifies this
      ensures Valid() && Requested(old(history), history, err, c => CreateIn(c, key, s))
    {
      Interfere();
      err := Answer(CreateIn(cluster, key, s));
    }

    method Update(key: Key, s: Secret) returns (err: Option<ApiError>)
      requires Valid()
      modifies this
      ensures Valid() && Requested(old(history), history, err, c => UpdateIn(c, key, s))
    {
      Interfere();
      err := Answer(UpdateIn(cluster, key, s));
    }

    method Delete(key: Key) returns (err: Option<ApiError>)
      requires Valid()
      modifies this
      ensures Valid() && Requested(old(history), history, err, c => DeleteIn(c, key))
    {
      Interfere();
      err := Answer(DeleteIn(cluster, key));
    }

    method Get(key: Key) returns (r: Result<Secret, ApiError>)
      requires Valid()
      modifies this
      ensures Valid()
      ensures Requested(old(history), history, if r.Success? then None else Some(r.error),
                        c => GetIn(c, key))
      ensures r.Success? ==> key in cluster.secrets && r.value == cluster.secrets[key]
    {
      Interfere();
      var err := Answer(GetIn(cluster, key));
      r := if err.None? then Success(cluster.secrets[key]) else Failure(err.value);
    }
  }

  // ---------------------------------------------------------------------------
  // What a call guarantees to the others
  // ---------------------------------------------------------------------------

  const ONYXIA_TYPE: string := "onyxia.sh/release.v1"
  const NAME_PREFIX: string := "sh.onyxia.release.v1."

  function SecretName(release: string): string {
    NAME_PREFIX + release
  }

  /** Every release has a secret of its own, named with the prefix. */
  lemma SecretNames(release: string, other: string)
    ensures SecretName(release) == "sh.onyxia.release.v1." + release
    ensures SecretName(release) == SecretName(other) <==> release == other
  {
    var n := |NAME_PREFIX|;
    assert SecretName(release)[n..] == release && SecretName(other)[n..] == other;
  }

  /** A call of the gateway on one secret; `Elsewhere` is anyone who leaves that secret alone. */
  datatype Call = Ensure(data: Data) | Remove | Elsewhere

  /** One atomic step of a call. An update replaces type and data of the secret as it is at that instant,
      and nothing else of it; no step touches another secret. */
  predicate StepOf(call: Call, key: Key, c: Cluster, c': Cluster) {
    match call
    case Elsewhere => Interferes(c, c') && (key in c'.secrets <==> key in c.secrets)
                      && (key in c.secrets ==> c'.secrets[key] == c.secrets[key])
    case Remove => c' == c || c' == DeleteIn(c, key).1
    case Ensure(data) =>
      || c' == c
      || (key !in c.secrets && c' == Put(c, key, Secret(ONYXIA_TYPE, Some(data), map[], 0)))
      || (key in c.secrets && c' == Put(c, key, c.secrets[key].(kind := ONYXIA_TYPE, data := Some(data))))
  }

  predicate Holds(c: Cluster, key: Key, data: Data) {
    key in c.secrets && c.secrets[key].kind == ONYXIA_TYPE && c.secrets[key].data == Some(data)
  }

  predicate OwnStepAt(call: Call, key: Key, h: seq<Moment>, i: nat)
    requires 0 < i < |h|
  {
    h[i].who != Others ==> StepOf(call, key, h[i-1].state, h[i].state)
  }

  /** Everything the call itself did from position `from` of the history on is a step of `call`. */
  ghost predicate OwnSteps(call: Call, key: Key, h: seq<Moment>, from: nat) {
    forall i | from <= i < |h| && 0 < i :: OwnStepAt(call, key, h, i)
  }

  ghost predicate OthersSame(namespace: string, release: string, c: Cluster, c': Cluster) {
    forall k: Key | k != (namespace, "sh.onyxia.release.v1." + release) :: SameAt(k, c, c')
  }

  /** None of the call's own steps changed the secret of another release, or any other. */
  ghost predicate OthersKept(namespace: string, release: string, h: seq<Moment>, from: nat) {
    forall i | from <= i < |h| && 0 < i && h[i].who != Others :: OthersSame(namespace, release, h[i-1].state, h[i].state)
  }

  lemma OwnStepsKeepOthers(call: Call, namespace: string, release: string, h: seq<Moment>, from: nat)
    requires !call.Elsewhere? && OwnSteps(call, (namespace, SecretName(release)), h, from)
    ensures OthersKept(namespace, release, h, from)
  {
    var key := (namespace, SecretName(release));
    SecretNames(release, release);
    forall i | from <= i < |h| && 0 < i && h[i].who != Others
      ensures OthersSame(namespace, release, h[i-1].state, h[i].state)
    {
      assert OwnStepAt(call, key, h, i);
    }
  }

  /** So whatever a call does for one release, another release of the namespace reads as before. */
  lemma OtherReleasesUnaffected(call: Call, namespace: string, release: string, other: string, h: seq<Moment>,
                                from: nat, i: nat)
    requires !call.Elsewhere? && OwnSteps(call, (namespace, SecretName(release)), h, from)
    requires other != release && from <= i < |h| && 0 < i && h[i].who != Others
    ensures Reading(h[i].state, (namespace, SecretName(other))) == Reading(h[i-1].state, (namespace, SecretName(other)))
  {
    OwnStepsKeepOthers(call, namespace, release, h, from);
    SecretNames(release, other);
    SecretNames(other, release);
    assert OthersSame(namespace, release, h[i-1].state, h[i].state);
    assert SameAt((namespace, SecretName(other)), h[i-1].state, h[i].state);
  }

  /** The data was in place right after one of the call's own steps. */
  ghost predicate HeldDuring(key: Key, data: Data, h: seq<Moment>, from: nat) {
    exists i :: from <= i < |h| && h[i].who == Gateway && Holds(h[i].state, key, data)
  }

  // ---------------------------------------------------------------------------
  // How much the others got in the way
  // ---------------------------------------------------------------------------

  predicate CalmAt(key: Key, h: seq<Moment>, i: nat)
    requires 0 < i < |h|
  {
    h[i].who != Fault && (h[i].who == Others ==> (key in h[i].state.secrets <==> key in h[i-1].state.secrets))
  }

  /** From `from` on nothing failed, and others neither created nor removed the secret. */
  ghost predicate OnlyUpdated(key: Key, h: seq<Moment>, from: nat) {
    forall i | from <= i < |h| && 0 < i :: CalmAt(key, h, i)
  }

  /** How many times others wrote the secret between two requests. */
  ghost function Disturbances(key: Key, h: seq<Moment>, from: nat): nat {
    if |h| <= from || |h| < 2 then 0
    else Disturbances(key, h[..|h|-1], from) +
         (if h[|h|-1].who == Others && !SameAt(key, h[|h|-2].state, h[|h|-1].state) then 1 else 0)
  }

  predicate SameAt(key: Key, c: Cluster, c': Cluster) {
    (key in c.secrets <==> key in c'.secrets) && (key in c.secrets ==> c.secrets[key] == c'.secrets[key])
  }

  ghost function OwnRequests(h: seq<Moment>, from: nat): nat {
    if |h| <= from || h == [] then 0
    else OwnRequests(h[..|h|-1], from) + (if h[|h|-1].who == Others then 0 else 1)
  }

  /** There are none exactly when others left the secret alone between any two requests. */
  lemma {:induction false} UndisturbedExactly(key: Key, h: seq<Moment>, from: nat)
    requires 0 < from
    ensures Disturbances(key, h, from) == 0 <==>
            forall i | from <= i < |h| && h[i].who == Others :: SameAt(key, h[i-1].state, h[i].state)
  {
    if |h| > from {
      var init := h[..|h|-1];
      UndisturbedExactly(key, init, from);
      assert forall i | 0 <= i < |init| :: init[i] == h[i];
      if forall i | from <= i < |h| && h[i].who == Others :: SameAt(key, h[i-1].state, h[i].state) {
        forall i | from <= i < |init| && init[i].who == Others ensures SameAt(key, init[i-1].state, init[i].state) {
          assert SameAt(key, h[i-1].state, h[i].state);
        }
      }
      if Disturbances(key, h, from) == 0 {
        forall i | from <= i < |h| && h[i].who == Others ensures SameAt(key, h[i-1].state, h[i].state) {
          assert i < |init| ==> SameAt(key, init[i-1].state, init[i].state);
        }
      }
    }
  }

  lemma OneMoreOwnStep(call: Call, key: Key, h: seq<Moment>, m: Moment, from: nat)
    requires h != [] && from <= |h|
    ensures OwnSteps(call, key, h + [m], from) <==>
              OwnSteps(call, key, h, from) && (m.who != Others ==> StepOf(call, key, h[|h|-1].state, m.state))
  {
    var h' := h + [m];
    assert OwnStepAt(call, key, h', |h|) <==> (m.who != Others ==> StepOf(call, key, h[|h|-1].state, m.state));
    forall i | from <= i < |h| && 0 < i ensures OwnStepAt(call, key, h', i) == OwnStepAt(call, key, h, i) {
      assert h'[i] == h[i] && h'[i-1] == h[i-1];
    }
  }

  lemma OneMoreUpdated(key: Key, h: seq<Moment>, m: Moment, from: nat)
    requires h != [] && from <= |h|
    ensures OnlyUpdated(key, h + [m], from) <==>
              && OnlyUpdated(key, h, from) && m.who != Fault
              && (m.who == Others ==> (key in m.state.secrets <==> key in h[|h|-1].state.secrets))
  {
    var h' := h + [m];
    assert h'[|h|] == m && h'[|h|-1] == h[|h|-1];
    assert OnlyUpdated(key, h', from) ==> CalmAt(key, h', |h|);
    forall i | from <= i < |h| && 0 < i ensures CalmAt(key, h', i) == CalmAt(key, h, i) {
      assert h'[i] == h[i] && h'[i-1] == h[i-1];
    }
  }

  lemma OneMoreCounted(key: Key, h: seq<Moment>, m: Moment, from: nat)
    requires h != [] && from <= |h|
    ensures OwnRequests(h + [m], from) == OwnRequests(h, from) + if m.who == Others then 0 else 1
    ensures Disturbances(key, h + [m], from) == Disturbances(key, h, from)
              + if m.who == Others && !SameAt(key, h[|h|-1].state, m.state) then 1 else 0
  {
    assert (h + [m])[..|h|] == h;
  }

  /** What one more request of a call adds to its account. */
  lemma OneMoreRequest(call: Call, key: Key, h: seq<Moment>, h': seq<Moment>, from: nat)
    requires h != [] && from <= |h| && |h'| == |h| + 2 && h'[..|h|] == h
    requires h'[|h|].who == Others && h'[|h|+1].who != Others
    requires OwnSteps(call, key, h, from) && StepOf(call, key, h'[|h|].state, h'[|h|+1].state)
    ensures OwnSteps(call, key, h', from)
    ensures OnlyUpdated(key, h', from) ==>
              && OnlyUpdated(key, h, from) && h'[|h|+1].who == Gateway
              && (key in h'[|h|].state.secrets <==> key in h[|h|-1].state.secrets)
    ensures OwnRequests(h', from) == OwnRequests(h, from) + 1
    ensures Disturbances(key, h', from) == Disturbances(key, h, from)
                                           + if SameAt(key, h[|h|-1].state, h'[|h|].state) then 0 else 1
  {
    var n := |h|;
    var h1 := h + [h'[n]];
    assert h' == h1 + [h'[n+1]];
    OneMoreOwnStep(call, key, h, h'[n], from);
    OneMoreOwnStep(call, key, h1, h'[n+1], from);
    OneMoreUpdated(key, h, h'[n], from);
    OneMoreUpdated(key, h1, h'[n+1], from);
    OneMoreCounted(key, h, h'[n], from);
    OneMoreCounted(key, h1, h'[n+1], from);
  }

  /** A write under the version that was read either finds the secret as it was read, and is a step of the
      call, or changes nothing. */
  lemma WriteBack(key: Key, read: Cluster, c: Cluster, wanted: Data)
    requires WellVersioned(read) && Interferes(read, c) && key in read.secrets
    ensures var cur := read.secrets[key].(kind := ONYXIA_TYPE, data := Some(wanted));
            var (err, c') := UpdateIn(c, key, cur);
            && StepOf(Ensure(wanted), key, c, c')
            && (err.None? <==> SameAt(key, read, c))
            && (err.None? ==> Holds(c', key, wanted))
            && (key in c.secrets ==> err.None? || err == Some(Conflict))
  {
  }

  // ---------------------------------------------------------------------------
  // The gateway
  // ---------------------------------------------------------------------------

  /** What holds throughout a call that has written nothing yet. */
  ghost predicate Writing(server: Server, key: Key, wanted: Data, from: nat)
    reads server
  {
    server.Valid() && 0 < from <= |server.history| && OwnSteps(Ensure(wanted), key, server.history, from)
  }

  ghost predicate Written(server: Server, key: Key, wanted: Data)
    reads server
    requires server.Valid()
  {
    server.history[|server.history|-1].who == Gateway && Holds(server.cluster, key, wanted)
  }

  function Desired(wanted: Data): Secret {
    Secret(ONYXIA_TYPE, Some(wanted), map[], 0)
  }

  method CreateSecret(server: Server, key: Key, wanted: Data, ghost from: nat) returns (err: Option<ApiError>)
    requires Writing(server, key, wanted, from)
    modifies server
    ensures Writing(server, key, wanted, from) && old(server.history) <= server.history
    ensures err.None? ==> Written(server, key, wanted)
    ensures err != Some(Conflict)
    ensures OwnRequests(server.history, from) == OwnRequests(old(server.history), from) + 1
    ensures Disturbances(key, server.history, from) >= Disturbances(key, old(server.history), from)
    ensures OnlyUpdated(key, server.history, from) ==>
              && OnlyUpdated(key, old(server.history), from)
              && (err.None? || (err == Some(AlreadyExists) && key in server.cluster.secrets))
  {
    ghost var h := server.history;
    err := server.Create(key, Desired(wanted));
    OneMoreRequest(Ensure(wanted), key, h, server.history, from);
  }

  /** Writes type and data back over the secret read in the state before. */
  method UpdateRead(server: Server, key: Key, read: Secret, wanted: Data, ghost from: nat) returns (err: Option<ApiError>)
    requires Writing(server, key, wanted, from)
    requires key in server.cluster.secrets && server.cluster.secrets[key] == read
    modifies server
    ensures Writing(server, key, wanted, from) && old(server.history) <= server.history
    ensures err.None? ==> Written(server, key, wanted)
    ensures OwnRequests(server.history, from) == OwnRequests(old(server.history), from) + 1
    ensures Disturbances(key, server.history, from) >= Disturbances(key, old(server.history), from)
    ensures OnlyUpdated(key, server.history, from) ==>
              && OnlyUpdated(key, old(server.history), from) && key in server.cluster.secrets
              && (err.None? ||
                  (err == Some(Conflict) &&
                   Disturbances(key, server.history, from) > Disturbances(key, old(server.history), from)))
  {
    ghost var h := server.history;
    err := server.Update(key, read.(kind := ONYXIA_TYPE, data := Some(wanted)));
    WriteBack(key, h[|h|-1].state, server.history[|h|].state, wanted);
    OneMoreRequest(Ensure(wanted), key, h, server.history, from);
  }

  /** One pass of the retry loop. */
  method WriteOnce(server: Server, key: Key, wanted: Data, ghost from: nat) returns (err: Option<ApiError>)
    requires Writing(server, key, wanted, from)
    modifies server
    ensures Writing(server, key, wanted, from) && old(server.history) <= server.history
    ensures err.None? ==> Written(server, key, wanted)
    ensures Disturbances(key, server.history, from) >= Disturbances(key, old(server.history), from)
    ensures OnlyUpdated(key, server.history, from) ==> OnlyUpdated(key, old(server.history), from)
    ensures OnlyUpdated(key, server.history, from) && key in old(server.cluster).secrets ==>
              && key in server.cluster.secrets
              && OwnRequests(server.history, from) == OwnRequests(old(server.history), from) + 2
              && (err.None? ||
                  (err == Some(Conflict) &&
                   Disturbances(key, server.history, from) > Disturbances(key, old(server.history), from)))
  {
    ghost var h := server.history;
    var got := server.Get(key);
    OneMoreRequest(Ensure(wanted), key, h, server.history, from);
    if got.Success? {
      err := UpdateRead(server, key, got.value, wanted, from);
    } else if got.error == NotFound {
      err := CreateSecret(server, key, wanted, from);
    } else {
      err := Some(got.error);
    }
  }

  method EnsureOnyxiaSecret(server: Server, namespace: string, release: string, data: Option<Data>, attempts: nat)
    returns (err: Option<ApiError>)
    requires server.Valid() && attempts >= 1
    modifies server
    ensures server.Valid() && OthersKept(namespace, release, server.history, |old(server.history)|)
    ensures err.None? ==>
              var key := (namespace, "sh.onyxia.release.v1." + release);
              && key in server.cluster.secrets && server.cluster.secrets[key].kind == "onyxia.sh/release.v1"
              && server.cluster.secrets[key].data == Some(if data.Some? then data.value else map[])
    ensures var key := (namespace, SecretName(release));
            var wanted := if data.Some? then data.value else map[];
            var from := |old(server.history)|;
            && old(server.history) <= server.history
            && OwnSteps(Ensure(wanted), key, server.history, from)
            && (err.None? ==> Written(server, key, wanted) && HeldDuring(key, wanted, server.history, from))
            && (OnlyUpdated(key, server.history, from) && Disturbances(key, server.history, from) < attempts ==>
                  err.None?)
            && (OnlyUpdated(key, server.history, from) && Disturbances(key, server.history, from) == 0 ==>
                  OwnRequests(server.history, from) <= 3)
  {
    var wanted := if data.Some? then data.value else map[];
    var key := (namespace, SecretName(release));
    ghost var from := |server.history|;
    SecretNames(release, release);
    err := CreateSecret(server, key, wanted, from);
    OwnStepsKeepOthers(Ensure(wanted), namespace, release, server.history, from);
    if err != Some(AlreadyExists) { return; }
    // retry on conflict
    for attempt := 0 to attempts
      invariant Writing(server, key, wanted, from) && old(server.history) <= server.history
      invariant attempt > 0 ==> err == Some(Conflict)
      invariant OnlyUpdated(key, server.history, from) ==>
                  && attempt <= Disturbances(key, server.history, from)
                  && key in server.cluster.secrets
                  && OwnRequests(server.history, from) == 1 + 2 * attempt
    {
      err := WriteOnce(server, key, wanted, from);
      OwnStepsKeepOthers(Ensure(wanted), namespace, release, server.history, from);
      if err != Some(Conflict) { return; }
    }
    OwnStepsKeepOthers(Ensure(wanted), namespace, release, server.history, from);
  }

  /** A secret that is already gone counts as deleted. */
  method DeleteOnyxiaSecret(server: Server, namespace: string, release: string) returns (err: Option<ApiError>)
    requires server.Valid()
    modifies server
    ensures server.Valid() && OthersKept(namespace, release, server.history, |old(server.history)|)
    ensures err.None? ==> (namespace, "sh.onyxia.release.v1." + release) !in server.cluster.secrets
    ensures var key := (namespace, SecretName(release));
            var from := |old(server.history)|;
            && old(server.history) <= server.history && OwnSteps(Remove, key, server.history, from)
            && (err.None? ==> key !in server.cluster.secrets)
            && (OnlyUpdated(key, server.history, from) ==> err.None?)
  {
    var key := (namespace, SecretName(release));
    ghost var h := server.history;
    err := server.Delete(key);
    OneMoreRequest(Remove, key, h, server.history, |h|);
    OwnStepsKeepOthers(Remove, namespace, release, server.history, |h|);
    SecretNames(release, release);
    if err == Some(NotFound) { return None; }
  }

  /** No data reads as empty data. Reading changes nothing. */
  method ReadOnyxiaSecretData(server: Server, namespace: string, release: string) returns (r: Result<Data, ApiError>)
    requires server.Valid()
    modifies server
    ensures server.Valid()
    ensures var key, n := (namespace, SecretName(release)), |old(server.history)|;
            && |server.history| == n + 2 && server.history[..n] == old(server.history)
            && server.history[n].who == Others && server.history[n].state == server.cluster
            && match server.history[n+1].who
               case Others => false
               case Gateway => r == Reading(server.cluster, key)
               case Fault => r == Failure(Other)
  {
    var key := (namespace, SecretName(release));
    var got := server.Get(key);
    if got.Failure? { return Failure(got.error); }
    if got.value.data.None? { return Success(map[]); }
    return Success(got.value.data.value);
  }

  function Reading(c: Cluster, key: Key): Result<Data, ApiError> {
    if key !in c.secrets then Failure(NotFound)
    else Success(match c.secrets[key].data case None => map[] case Some(d) => d)
  }

  /** Undisturbed, what was ensured is what is read. */
  method EnsureThenRead(server: Server, namespace: string, release: string, data: Data, attempts: nat)
    returns (r: Result<Data, ApiError>)
    requires server.Valid() && attempts >= 1
    modifies server
    ensures var key, from := (namespace, SecretName(release)), |old(server.history)|;
            OnlyUpdated(key, server.history, from) && Disturbances(key, server.history, from) == 0 ==> r == Success(data)
  {
    ghost var key, from := (namespace, SecretName(release)), |server.history|;
    var err := EnsureOnyxiaSecret(server, namespace, release, Some(data), attempts);
    ghost var h := server.history;
    r := ReadOnyxiaSecretData(server, namespace, release);
    ghost var n, h' := |h|, server.history;
    assert h' == h + [h'[n]] + [h'[n+1]];
    OneMoreUpdated(key, h, h'[n], from);
    OneMoreUpdated(key, h + [h'[n]], h'[n+1], from);
    OneMoreCounted(key, h, h'[n], from);
    OneMoreCounted(key, h + [h'[n]], h'[n+1], from);
  }

  // ---------------------------------------------------------------------------
  // All calls together
  // ---------------------------------------------------------------------------

  /** Calls rely on each other for no more than every step of theirs delivers. */
  lemma StepsInterfereAsAllowed(call: Call, key: Key, c: Cluster, c': Cluster)
    requires WellVersioned(c) && StepOf(call, key, c, c')
    ensures WellVersioned(c') && Interferes(c, c')
    ensures forall k | k != key && !call.Elsewhere? :: SameAt(k, c, c')
  {
  }

  lemma InterferenceComposes(c: Cluster, c': Cluster, c'': Cluster)
    requires WellVersioned(c) && WellVersioned(c') && Interferes(c, c') && Interferes(c', c'')
    ensures Interferes(c, c'') && WellVersioned(c'')
  {
  }

  /** Any interleaving of atomic steps of any number of calls: `calls[i]` takes the cluster from
      `states[i]` to `states[i+1]`. */
  predicate Interleaving(calls: seq<Call>, key: Key, states: seq<Cluster>) {
    && |states| == |calls| + 1
    && forall i | 0 <= i < |calls| :: StepOf(calls[i], key, states[i], states[i+1])
  }

  /** In every reachable state the secret is absent, or as it was in the beginning, or of the Onyxia type
      and with the data of one single call that has ensured it. */
  lemma {:induction false} SecretSafety(calls: seq<Call>, key: Key, states: seq<Cluster>, n: nat)
    requires Interleaving(calls, key, states) && n < |states| && WellVersioned(states[0])
    ensures WellVersioned(states[n]) && Interferes(states[0], states[n])
    ensures || key !in states[n].secrets
            || SameAt(key, states[0], states[n])
            || exists i :: 0 <= i < n && calls[i].Ensure? && Holds(states[n], key, calls[i].data)
  {
    if n > 0 {
      SecretSafety(calls, key, states, n - 1);
      var call := calls[n-1];
      assert StepOf(call, key, states[n-1], states[n]);
      StepsInterfereAsAllowed(call, key, states[n-1], states[n]);
      InterferenceComposes(states[0], states[n-1], states[n]);
      if call.Ensure? && states[n] != states[n-1] {
        assert Holds(states[n], key, calls[n-1].data);
      } else if i :| 0 <= i < n - 1 && calls[i].Ensure? && Holds(states[n-1], key, calls[i].data)
                     && key in states[n].secrets {
        assert Holds(states[n], key, calls[i].data);
      }
    }
  }

  /** Through an interleaving without removals, whatever else a secret carries is kept from the moment it exists. */
  lemma {:induction false} MetadataKept(calls: seq<Call>, key: Key, states: seq<Cluster>, n: nat)
    requires Interleaving(calls, key, states) && n < |states| && key in states[0].secrets
    requires forall i | 0 <= i < |calls| :: !calls[i].Remove?
    ensures key in states[n].secrets && states[n].secrets[key].meta == states[0].secrets[key].meta
  {
    if n > 0 {
      MetadataKept(calls, key, states, n - 1);
      assert StepOf(calls[n-1], key, states[n-1], states[n]);
    }
  }
}
