/**
 Replay safety over whole runs of concurrent requests.

 Requests are listed in the order in which they hold the cache's lock. Each one reads the
 clock three times: `checkAt` for the proof's time window, before it queues for the lock, then
 `evictAt` and `insertAt` while it holds it. How long it queues is not bounded by the code.
 */
module Replay {
  import opened Common
  import opened JtiCache
  import opened Oidc

  datatype Attempt = Attempt(request: Request, checkAt: int, evictAt: int, insertAt: int)

  predicate Reaches(cfg: Config, lib: Library, a: Attempt) {
    ReachesCache(cfg, lib, a.request, a.checkAt)
  }

  /** The clock never runs backwards, within a request and from one lock holder to the next. */
  ghost predicate LockOrder(cfg: Config, lib: Library, run: seq<Attempt>) {
    && (forall i | 0 <= i < |run| :: run[i].checkAt <= run[i].evictAt <= run[i].insertAt)
    && (forall i, j | 0 <= i < j < |run| && Reaches(cfg, lib, run[i]) && Reaches(cfg, lib, run[j]) ::
          run[i].insertAt <= run[j].evictAt)
  }

  ghost function LogStep(cfg: Config, lib: Library, log: seq<Entry>, a: Attempt): seq<Entry> {
    if Reaches(cfg, lib, a) then Record(log, Call(JtiOf(lib, a.request), a.evictAt, a.insertAt), JTI_TTL) else log
  }

  /** What the cache has recorded after a run that started with an empty cache. */
  ghost function LogAfter(cfg: Config, lib: Library, run: seq<Attempt>): seq<Entry> {
    if run == [] then [] else LogStep(cfg, lib, LogAfter(cfg, lib, run[..|run|-1]), run[|run|-1])
  }

  ghost predicate Replayed(cfg: Config, lib: Library, run: seq<Attempt>, i: nat)
    requires i < |run|
  {
    Remembers(LogAfter(cfg, lib, run[..i]), JtiOf(lib, run[i].request), run[i].evictAt)
  }

  ghost predicate Accepted(cfg: Config, lib: Library, run: seq<Attempt>, i: nat)
    requires i < |run|
  {
    Accepts(cfg, lib, run[i].request, run[i].checkAt, Replayed(cfg, lib, run, i))
  }

  /** The access token is bound to a key, so that a proof is required. */
  predicate Bound(lib: Library, r: Request) {
    Credential(lib, r).Some? && BoundKey(lib, Credential(lib, r).value.0) != ""
  }

  // ---------------------------------------------------------------------------
  // One request
  // ---------------------------------------------------------------------------

  ghost predicate ProvesPossession(lib: Library, r: Request, now: int) {
    var cred := Credential(lib, r);
    && cred.Some? && FindAuthorization(lib, r.authorization, "DPoP") == Some(cred.value.0)
    && r.proof != "" && Admissible(lib, r.proof, r.httpMethod, r.url, now)
    && lib.parseProof(r.proof).value.thumbprint == Some(BoundKey(lib, cred.value.0))
    && ClaimsOf(lib, r.proof).ath == lib.tokenHash(cred.value.0)
  }

  lemma AcceptanceProvesPossession(cfg: Config, lib: Library, r: Request, now: int, replayed: bool)
    requires Bound(lib, r) && Accepts(cfg, lib, r, now, replayed)
    ensures ProvesPossession(lib, r, now) && ReachesCache(cfg, lib, r, now) && !replayed
  {
  }

  /** A bound token is accepted only under the DPoP scheme, with a proof by the key it is bound to,
      for this request and this token, whose identifier this very request has recorded. */
  lemma AcceptedBoundRequest(cfg: Config, lib: Library, run: seq<Attempt>, i: nat)
    requires i < |run| && Bound(lib, run[i].request) && Accepted(cfg, lib, run, i)
    ensures ProvesPossession(lib, run[i].request, run[i].checkAt)
    ensures Describes(lib, ClaimsOf(lib, run[i].request.proof), run[i].request.httpMethod, run[i].request.url, run[i].checkAt)
    ensures LogAfter(cfg, lib, run[..i+1])
            == LogAfter(cfg, lib, run[..i])
               + [Entry(ClaimsOf(lib, run[i].request.proof).jti, run[i].insertAt + 360_000_000_000)]
  {
    var a, replayed := run[i], Replayed(cfg, lib, run, i);
    AcceptanceProvesPossession(cfg, lib, a.request, a.checkAt, replayed);
    assert run[..i+1][..i] == run[..i];
  }

  /** A request adds to the log exactly when its checks up to the identifier pass and the identifier
      is new: a later failure, on `ath` or on the key, has consumed the identifier all the same,
      and nothing else leaves a trace. */
  lemma IdentifierConsumed(cfg: Config, lib: Library, run: seq<Attempt>, i: nat)
    requires i < |run|
    ensures LogAfter(cfg, lib, run[..i+1]) != LogAfter(cfg, lib, run[..i])
            <==> Reaches(cfg, lib, run[i]) && !Replayed(cfg, lib, run, i)
    ensures !Bound(lib, run[i].request) ==> LogAfter(cfg, lib, run[..i+1]) == LogAfter(cfg, lib, run[..i])
    ensures Accepted(cfg, lib, run, i) && LogAfter(cfg, lib, run[..i+1]) == LogAfter(cfg, lib, run[..i])
            ==> !Bound(lib, run[i].request)
  {
    assert run[..i+1][..i] == run[..i];
  }

  // ---------------------------------------------------------------------------
  // Two requests
  // ---------------------------------------------------------------------------

  lemma {:induction false} LogGrows(cfg: Config, lib: Library, run: seq<Attempt>, i: nat, j: nat)
    requires i <= j <= |run|
    ensures LogAfter(cfg, lib, run[..i]) <= LogAfter(cfg, lib, run[..j])
    decreases j
  {
    if i < j {
      LogGrows(cfg, lib, run, i, j - 1);
      assert run[..j][..j-1] == run[..j-1];
    }
  }

  /** Once an identifier is recorded, everyone who gets the lock within its lifetime is refused. */
  lemma RecordedIsRefused(cfg: Config, lib: Library, run: seq<Attempt>, i: nat, j: nat)
    requires i < j < |run|
    requires Reaches(cfg, lib, run[i]) && !Replayed(cfg, lib, run, i)
    requires JtiOf(lib, run[i].request) == JtiOf(lib, run[j].request)
    requires run[j].evictAt <= run[i].insertAt + JTI_TTL
    ensures Replayed(cfg, lib, run, j)
  {
    LogGrows(cfg, lib, run, i + 1, j);
    assert run[..i+1][..i] == run[..i];
    var log := LogAfter(cfg, lib, run[..i+1]);
    assert LogAfter(cfg, lib, run[..j])[|log|-1] == log[|log|-1] == Entry(JtiOf(lib, run[i].request), run[i].insertAt + JTI_TTL);
  }

  /** Accepting one proof twice takes a request that queues for the lock longer than the time its
      first acceptance left over: the first one's own delay plus the distance from its check to the
      end of the clock-skew allowance. That allowance is never negative. */
  lemma ReplayNeedsStall(cfg: Config, lib: Library, run: seq<Attempt>, i: nat, j: nat)
    requires LockOrder(cfg, lib, run) && i < j < |run|
    requires Bound(lib, run[i].request) && Accepted(cfg, lib, run, i)
    requires Bound(lib, run[j].request) && Accepted(cfg, lib, run, j)
    requires JtiOf(lib, run[i].request) == JtiOf(lib, run[j].request)
    requires IatOf(lib, run[i].request) == IatOf(lib, run[j].request)
    ensures run[i].checkAt + MAX_CLOCK_SKEW - IatOf(lib, run[i].request) * SECOND >= 0
    ensures run[j].evictAt - run[j].checkAt
            > (run[i].insertAt - run[i].checkAt)
              + (run[i].checkAt + MAX_CLOCK_SKEW - IatOf(lib, run[i].request) * SECOND)
  {
    if run[j].evictAt <= run[i].insertAt + JTI_TTL {
      RecordedIsRefused(cfg, lib, run, i, j);
    }
  }

  /** So a proof is never accepted twice when no request waits between its check and the lock,
      whatever else happens in the run. */
  lemma NeverAcceptedTwice(cfg: Config, lib: Library, run: seq<Attempt>)
    requires LockOrder(cfg, lib, run)
    requires forall i | 0 <= i < |run| :: run[i].evictAt == run[i].checkAt
    ensures forall i, j | 0 <= i < j < |run| && Bound(lib, run[i].request) && Bound(lib, run[j].request)
                          && run[i].request.proof == run[j].request.proof ::
              !(Accepted(cfg, lib, run, i) && Accepted(cfg, lib, run, j))
  {
    forall i, j | 0 <= i < j < |run| && Bound(lib, run[i].request) && Bound(lib, run[j].request)
                  && run[i].request.proof == run[j].request.proof
      ensures !(Accepted(cfg, lib, run, i) && Accepted(cfg, lib, run, j))
    {
      if Accepted(cfg, lib, run, i) && Accepted(cfg, lib, run, j) {
        ReplayNeedsStall(cfg, lib, run, i, j);
      }
    }
  }

  // ---------------------------------------------------------------------------
  // Exactly when a proof is accepted again
  // ---------------------------------------------------------------------------

  /** The request records its identifier, whether or not it is accepted in the end. */
  ghost predicate Records(cfg: Config, lib: Library, run: seq<Attempt>, i: nat)
    requires i < |run|
  {
    Reaches(cfg, lib, run[i]) && !Replayed(cfg, lib, run, i)
  }

  lemma RemembersAppend(log: seq<Entry>, e: Entry, jti: string, now: int)
    ensures Remembers(log + [e], jti, now) <==> Remembers(log, jti, now) || (e.jti == jti && now <= e.expiry)
  {
    var log' := log + [e];
    assert log'[|log|] == e && forall k | 0 <= k < |log| :: log'[k] == log[k];
  }

  lemma OneMoreAttempt(cfg: Config, lib: Library, run: seq<Attempt>, i: nat)
    requires i < |run|
    ensures LogAfter(cfg, lib, run[..i+1])
            == if Records(cfg, lib, run, i)
               then LogAfter(cfg, lib, run[..i]) + [Entry(JtiOf(lib, run[i].request), run[i].insertAt + JTI_TTL)]
               else LogAfter(cfg, lib, run[..i])
  {
    assert run[..i+1][..i] == run[..i];
  }

  /** Attempt `i` has recorded the identifier, and its entry still counts. */
  ghost predicate Holds(cfg: Config, lib: Library, run: seq<Attempt>, i: nat, jti: string, now: int)
    requires i < |run|
  {
    Records(cfg, lib, run, i) && JtiOf(lib, run[i].request) == jti && now <= run[i].insertAt + JTI_TTL
  }

  lemma OneMoreRemembered(cfg: Config, lib: Library, run: seq<Attempt>, i: nat, jti: string, now: int)
    requires i < |run|
    ensures Remembers(LogAfter(cfg, lib, run[..i+1]), jti, now) <==>
            Remembers(LogAfter(cfg, lib, run[..i]), jti, now) || Holds(cfg, lib, run, i, jti, now)
  {
    OneMoreAttempt(cfg, lib, run, i);
    RemembersAppend(LogAfter(cfg, lib, run[..i]), Entry(JtiOf(lib, run[i].request), run[i].insertAt + JTI_TTL), jti, now);
  }

  /** What is remembered was remembered before, or some attempt since has recorded it. */
  lemma RememberedSince(cfg: Config, lib: Library, run: seq<Attempt>, i: nat, n: nat, jti: string, now: int)
    requires i <= n <= |run|
    ensures Remembers(LogAfter(cfg, lib, run[..n]), jti, now) <==>
            Remembers(LogAfter(cfg, lib, run[..i]), jti, now)
            || exists k: nat :: i <= k < n && Holds(cfg, lib, run, k, jti, now)
  {
    var remembered := (k: nat) => k <= |run| && Remembers(LogAfter(cfg, lib, run[..k]), jti, now);
    var holds := (k: nat) => k < |run| && Holds(cfg, lib, run, k, jti, now);
    forall k: nat | i <= k < n
      ensures remembered(k + 1) <==> remembered(k) || holds(k)
    {
      OneMoreRemembered(cfg, lib, run, k, jti, now);
    }
    Accumulates(remembered, holds, i, n);
    assert forall k: nat | k < |run| :: holds(k) == Holds(cfg, lib, run, k, jti, now);
  }

  lemma ForgottenStays(log: seq<Entry>, jti: string, earlier: int, now: int)
    requires earlier <= now && !Remembers(log, jti, earlier)
    ensures !Remembers(log, jti, now)
  {
  }

  /** As long as nobody else records it, an identifier is remembered for its lifetime and no longer. */
  lemma RememberedUntil(cfg: Config, lib: Library, run: seq<Attempt>, i: nat, j: nat, now: int)
    requires i < j <= |run| && Records(cfg, lib, run, i) && run[i].evictAt <= now
    requires forall k: nat | i < k < j :: !Holds(cfg, lib, run, k, JtiOf(lib, run[i].request), now)
    ensures Remembers(LogAfter(cfg, lib, run[..j]), JtiOf(lib, run[i].request), now) <==> now <= run[i].insertAt + JTI_TTL
  {
    var jti := JtiOf(lib, run[i].request);
    RememberedSince(cfg, lib, run, i, j, jti, now);
    ForgottenStays(LogAfter(cfg, lib, run[..i]), jti, run[i].evictAt, now);
    assert Holds(cfg, lib, run, i, jti, now) <==> now <= run[i].insertAt + JTI_TTL;
  }

  /** In every run, a request is refused as a replay exactly when an earlier one has recorded the identifier and its
      lifetime has not passed. */
  lemma ReplayedExactly(cfg: Config, lib: Library, run: seq<Attempt>, j: nat)
    requires j < |run|
    ensures Replayed(cfg, lib, run, j) <==>
            exists i: nat :: i < j && Holds(cfg, lib, run, i, JtiOf(lib, run[j].request), run[j].evictAt)
  {
    RememberedSince(cfg, lib, run, 0, j, JtiOf(lib, run[j].request), run[j].evictAt);
  }

  /** The exact condition in any run: a proof that was accepted, and whose identifier nobody has recorded since, is
      accepted again if and only if the request queued longer than the unused skew plus the unused age. */
  lemma SecondAcceptanceExactly(cfg: Config, lib: Library, run: seq<Attempt>, i: nat, j: nat)
    requires LockOrder(cfg, lib, run) && i < j < |run|
    requires Bound(lib, run[i].request) && Accepted(cfg, lib, run, i)
    requires Bound(lib, run[j].request) && Accepts(cfg, lib, run[j].request, run[j].checkAt, false)
    requires JtiOf(lib, run[i].request) == JtiOf(lib, run[j].request)
    requires forall k | i < k < j && Reaches(cfg, lib, run[k]) && JtiOf(lib, run[k].request) == JtiOf(lib, run[i].request) ::
               Replayed(cfg, lib, run, k)
    ensures var iat := IatOf(lib, run[j].request) * SECOND;
            Accepted(cfg, lib, run, j) <==>
            run[j].evictAt - run[j].checkAt
            > (run[i].insertAt - iat + MAX_CLOCK_SKEW) + (iat + MAX_PROOF_AGE - run[j].checkAt)
  {
    RememberedUntil(cfg, lib, run, i, j, run[j].evictAt);
  }

  const STALLED_REQUEST := Request(["DPoP t"], "proof", "GET", "u")

  const STALLED_RUN: seq<Attempt> :=
    var t := 1000 * SECOND;
    [Attempt(STALLED_REQUEST, t, t, t),
     Attempt(STALLED_REQUEST, t + 300 * SECOND, t + 361 * SECOND, t + 361 * SECOND)]

  /** A library under which STALLED_REQUEST carries a valid proof issued at second 1000. */
  ghost function StalledLibrary(): Library {
    var proof := Proof(true, "dpop+jwt", true, Some(Claims("GET", "u", 1000, "id", "h")), Some("key"));
    var token := map["sub" := Str("ann"), "cnf" := Object(map["jkt" := Str("key")])];
    Library(_ => Some(proof), _ => Some(Url("https", "host", "/", "")), s => s, _ => "h", _ => Some(token))
  }

  lemma StalledCredential()
    ensures Credential(StalledLibrary(), STALLED_REQUEST) == Some(("t", true))
  {
    var line := STALLED_REQUEST.authorization[0];
    assert line[4] == ' ';
    CutAtSeparator("DPoP", "t", ' ') by {
      assert line == "DPoP" + [' '] + "t";
    }
    assert HasScheme(StalledLibrary(), line, "DPoP");
  }

  /** The documentation promises that replays are prevented; this run replays a proof. The second
      presentation is checked at the last admissible instant and gets the lock 61 seconds later. */
  lemma StalledReplay(cfg: Config)
    requires cfg.usernameClaim == "sub" && cfg.audience == ""
    ensures var lib := StalledLibrary();
            && LockOrder(cfg, lib, STALLED_RUN) && Bound(lib, STALLED_REQUEST)
            && STALLED_RUN[0].request == STALLED_RUN[1].request == STALLED_REQUEST
            && Accepted(cfg, lib, STALLED_RUN, 0) && Accepted(cfg, lib, STALLED_RUN, 1)
  {
    var lib, run := StalledLibrary(), STALLED_RUN;
    StalledCredential();
    assert BoundKey(lib, "t") == "key" && TokenOk(cfg, lib, "t");
    assert MatchHtu(lib, "u", "u");
    assert run[..0] == [];
    SecondAcceptanceExactly(cfg, lib, run, 0, 1);
  }

  // ---------------------------------------------------------------------------
  // How long an identifier has to be kept
  // ---------------------------------------------------------------------------

  ghost predicate Instantaneous(calls: seq<Call>) {
    forall i | 0 <= i < |calls| :: calls[i].evictAt == calls[i].insertAt
  }

  /** Keeping identifiers for `ttl` refuses every second presentation of a proof issued at `iat` inside its window,
      when the three clock readings of a request coincide. */
  ghost predicate ReplaySafe(ttl: int, iat: int) {
    forall calls: seq<Call>, i: nat, j: nat ::
      && i < j < |calls| && EvictionsOrdered(calls) && Instantaneous(calls)
      && calls[i].jti == calls[j].jti && InWindow(iat, calls[i].evictAt) && InWindow(iat, calls[j].evictAt)
      && !Answer(calls, i, ttl)
      ==> Answer(calls, j, ttl)
  }

  /** The lifetime in the code is the shortest safe one, whenever a proof was issued. */
  lemma TtlIsTight(ttl: int, iat: int)
    ensures ReplaySafe(ttl, iat) <==> ttl >= 360_000_000_000
    ensures JTI_TTL == 360_000_000_000
  {
    if ttl >= MAX_PROOF_AGE + MAX_CLOCK_SKEW {
      forall calls: seq<Call>, i: nat, j: nat
        | && i < j < |calls| && EvictionsOrdered(calls) && Instantaneous(calls)
          && calls[i].jti == calls[j].jti && InWindow(iat, calls[i].evictAt) && InWindow(iat, calls[j].evictAt)
          && !Answer(calls, i, ttl)
        ensures Answer(calls, j, ttl)
      {
        SeenExactly(calls, j, ttl);
        assert Inserted(calls, i, ttl, calls[j].jti, calls[i].insertAt + ttl);
      }
    } else {
      // presented as early and as late as the window allows
      var early, late := iat * SECOND - MAX_CLOCK_SKEW, iat * SECOND + MAX_PROOF_AGE;
      var calls := [Call("id", early, early), Call("id", late, late)];
      assert calls[..0] == [] && calls[..1] == [calls[0]] && [calls[0]][..0] == [];
      assert After(calls[..1], ttl) == map["id" := early + ttl];
      assert !Answer(calls, 0, ttl) && !Answer(calls, 1, ttl);
      assert InWindow(iat, early) && InWindow(iat, late);
      assert EvictionsOrdered(calls) && Instantaneous(calls);
    }
  }
}
