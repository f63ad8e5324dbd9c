/**
 The store of DPoP proof identifiers (`jti`) behind replay detection.

 The code keeps a map from identifier to expiry and throws expired entries away.
 What it has to behave like is a log that never forgets. This module defines both,
 proves that one refines the other over every sequence of calls, and proves the
 mutating class against the functions.

 Times are nanoseconds on one clock that never runs backwards.
 */
module JtiCache {
  import opened Common

  const SECOND: int := 1_000_000_000
  const MAX_PROOF_AGE: int := 5 * 60 * SECOND
  const MAX_CLOCK_SKEW: int := 60 * SECOND
  const JTI_TTL: int := MAX_PROOF_AGE + MAX_CLOCK_SKEW

  /** One call of `Seen`, with the two clock readings it takes while it holds the lock. */
  datatype Call = Call(jti: string, evictAt: int, insertAt: int)

  // ---------------------------------------------------------------------------
  // The expiring map
  // ---------------------------------------------------------------------------

  function Unexpired(entries: map<string, int>, now: int): map<string, int> {
    map k | k in entries && !(now > entries[k]) :: entries[k]
  }

  /** The answer to one call, and the map it leaves behind. */
  function Look(entries: map<string, int>, call: Call, ttl: int): (bool, map<string, int>) {
    var live := Unexpired(entries, call.evictAt);
    if call.jti in live then (true, live) else (false, live[call.jti := call.insertAt + ttl])
  }

  function After(calls: seq<Call>, ttl: int): map<string, int> {
    if calls == [] then map[] else Look(After(calls[..|calls|-1], ttl), calls[|calls|-1], ttl).1
  }

  predicate Answer(calls: seq<Call>, i: nat, ttl: int)
    requires i < |calls|
  {
    Look(After(calls[..i], ttl), calls[i], ttl).0
  }

  // ---------------------------------------------------------------------------
  // The log that never forgets
  // ---------------------------------------------------------------------------

  datatype Entry = Entry(jti: string, expiry: int)

  /** `jti` was recorded by an entry that still counts at time `now`. */
  ghost predicate Remembers(log: seq<Entry>, jti: string, now: int) {
    exists k :: 0 <= k < |log| && log[k].jti == jti && now <= log[k].expiry
  }

  ghost function Record(log: seq<Entry>, call: Call, ttl: int): seq<Entry> {
    if Remembers(log, call.jti, call.evictAt) then log
    else log + [Entry(call.jti, call.insertAt + ttl)]
  }

  ghost function Log(calls: seq<Call>, ttl: int): seq<Entry> {
    if calls == [] then [] else Record(Log(calls[..|calls|-1], ttl), calls[|calls|-1], ttl)
  }

  /** The part of the log that still counts, as a map; later entries win. */
  function Live(log: seq<Entry>, now: int): map<string, int> {
    if log == [] then map[] else
    var earlier := Live(log[..|log|-1], now);
    var e := log[|log|-1];
    if now <= e.expiry then earlier[e.jti := e.expiry] else earlier
  }

  function CountLive(log: seq<Entry>, now: int): nat {
    if log == [] then 0
    else CountLive(log[..|log|-1], now) + if now <= log[|log|-1].expiry then 1 else 0
  }

  lemma {:induction false} LiveIsRemembered(log: seq<Entry>, now: int)
    ensures forall j :: j in Live(log, now) <==> Remembers(log, j, now)
    ensures forall j :: j in Live(log, now) ==> Entry(j, Live(log, now)[j]) in log && now <= Live(log, now)[j]
  {
    if log != [] {
      var front, e := log[..|log|-1], log[|log|-1];
      LiveIsRemembered(front, now);
      assert forall j :: Remembers(log, j, now) <==> Remembers(front, j, now) || (e.jti == j && now <= e.expiry) by {
        forall j | Remembers(front, j, now) ensures Remembers(log, j, now) {
          var k :| 0 <= k < |front| && front[k].jti == j && now <= front[k].expiry;
          assert log[k] == front[k];
        }
        forall j | Remembers(log, j, now) && !(e.jti == j && now <= e.expiry) ensures Remembers(front, j, now) {
          var k :| 0 <= k < |log| && log[k].jti == j && now <= log[k].expiry;
          assert front[k] == log[k];
        }
        assert log[|log|-1] == e;
      }
    }
  }

  lemma {:induction false} LiveSize(log: seq<Entry>, now: int)
    ensures |Live(log, now)| <= CountLive(log, now)
  {
    if log != [] {
      LiveSize(log[..|log|-1], now);
    }
  }

  // ---------------------------------------------------------------------------
  // Refinement
  // ---------------------------------------------------------------------------

  /** From time `t` on, the map holds exactly what still counts in the log. */
  ghost predicate Agrees(entries: map<string, int>, log: seq<Entry>, t: int) {
    forall now | t <= now :: Unexpired(entries, now) == Live(log, now)
  }

  lemma UnexpiredLater(entries: map<string, int>, s: int, t: int)
    requires s <= t
    ensures Unexpired(Unexpired(entries, s), t) == Unexpired(entries, t)
  {
  }

  lemma LiveAppend(log: seq<Entry>, e: Entry, now: int)
    ensures Live(log + [e], now) == if now <= e.expiry then Live(log, now)[e.jti := e.expiry] else Live(log, now)
  {
    assert (log + [e])[..|log|] == log;
  }

  lemma UnexpiredInsert(entries: map<string, int>, jti: string, expiry: int, now: int)
    requires jti !in Unexpired(entries, now)
    ensures Unexpired(entries[jti := expiry], now)
            == if now <= expiry then Unexpired(entries, now)[jti := expiry] else Unexpired(entries, now)
  {
  }

  lemma LookAgreesAt(entries: map<string, int>, log: seq<Entry>, call: Call, ttl: int, now: int)
    requires call.evictAt <= now
    requires Unexpired(entries, call.evictAt) == Live(log, call.evictAt) && Unexpired(entries, now) == Live(log, now)
    requires call.jti in Unexpired(entries, call.evictAt) <==> Remembers(log, call.jti, call.evictAt)
    ensures Unexpired(Look(entries, call, ttl).1, now) == Live(Record(log, call, ttl), now)
  {
    var live, e := Unexpired(entries, call.evictAt), Entry(call.jti, call.insertAt + ttl);
    UnexpiredLater(entries, call.evictAt, now);
    if call.jti !in live {
      UnexpiredInsert(live, call.jti, e.expiry, now);
      LiveAppend(log, e, now);
    }
  }

  /** One call keeps the agreement and gives the log's answer. */
  lemma LookRefinesRecord(entries: map<string, int>, log: seq<Entry>, t: int, call: Call, ttl: int)
    requires Agrees(entries, log, t) && t <= call.evictAt
    ensures Look(entries, call, ttl).0 == Remembers(log, call.jti, call.evictAt)
    ensures Agrees(Look(entries, call, ttl).1, Record(log, call, ttl), call.evictAt)
  {
    LiveIsRemembered(log, call.evictAt);
    assert Unexpired(entries, call.evictAt) == Live(log, call.evictAt);
    forall now | call.evictAt <= now
      ensures Unexpired(Look(entries, call, ttl).1, now) == Live(Record(log, call, ttl), now)
    {
      LookAgreesAt(entries, log, call, ttl, now);
    }
  }

  /** Successive holders of the lock read the clock for eviction in order. */
  ghost predicate EvictionsOrdered(calls: seq<Call>) {
    forall i, j | 0 <= i < j < |calls| :: calls[i].evictAt <= calls[j].evictAt
  }

  lemma {:induction false} MapRefinesLog(calls: seq<Call>, ttl: int)
    requires EvictionsOrdered(calls)
    ensures |calls| > 0 ==> Agrees(After(calls, ttl), Log(calls, ttl), calls[|calls|-1].evictAt)
    ensures calls == [] ==> forall t :: Agrees(After(calls, ttl), Log(calls, ttl), t)
  {
    if calls != [] {
      var front, last := calls[..|calls|-1], calls[|calls|-1];
      MapRefinesLog(front, ttl);
      var t := if front == [] then last.evictAt else front[|front|-1].evictAt;
      LookRefinesRecord(After(front, ttl), Log(front, ttl), t, last, ttl);
    }
  }

  /** After any run, `Seen` answers as the unbounded log does. */
  lemma SeenRefinesLog(calls: seq<Call>, i: nat, ttl: int)
    requires EvictionsOrdered(calls) && i < |calls|
    ensures Answer(calls, i, ttl) <==> Remembers(Log(calls[..i], ttl), calls[i].jti, calls[i].evictAt)
  {
    var front := calls[..i];
    MapRefinesLog(front, ttl);
    var t := if front == [] then calls[i].evictAt else front[i-1].evictAt;
    LookRefinesRecord(After(front, ttl), Log(front, ttl), t, calls[i], ttl);
  }

  /** Call `k` was answered "new" and inserted `jti` until `expiry`. */
  predicate Inserted(calls: seq<Call>, k: nat, ttl: int, jti: string, expiry: int) {
    k < |calls| && !Answer(calls, k, ttl) && calls[k].jti == jti && calls[k].insertAt + ttl == expiry
  }

  lemma LogGrows(calls: seq<Call>, n: nat, ttl: int)
    requires EvictionsOrdered(calls) && n < |calls|
    ensures Log(calls[..n+1], ttl) == if Answer(calls, n, ttl) then Log(calls[..n], ttl)
                                      else Log(calls[..n], ttl) + [Entry(calls[n].jti, calls[n].insertAt + ttl)]
  {
    SeenRefinesLog(calls, n, ttl);
    assert calls[..n+1][..n] == calls[..n];
  }

  lemma OneMoreEntry(calls: seq<Call>, n: nat, ttl: int, jti: string, expiry: int)
    requires EvictionsOrdered(calls) && n < |calls|
    ensures Entry(jti, expiry) in Log(calls[..n+1], ttl) <==>
            Entry(jti, expiry) in Log(calls[..n], ttl) || Inserted(calls, n, ttl, jti, expiry)
  {
    LogGrows(calls, n, ttl);
  }

  /** The log holds exactly what calls answered "new" have inserted. */
  lemma LogEntries(calls: seq<Call>, n: nat, ttl: int, jti: string, expiry: int)
    requires EvictionsOrdered(calls) && n <= |calls|
    ensures Entry(jti, expiry) in Log(calls[..n], ttl) <==>
            exists k: nat :: k < n && Inserted(calls, k, ttl, jti, expiry)
  {
    var entered := (k: nat) => k <= |calls| && Entry(jti, expiry) in Log(calls[..k], ttl);
    var inserted := (k: nat) => Inserted(calls, k, ttl, jti, expiry);
    forall k: nat | k < n
      ensures entered(k + 1) <==> entered(k) || inserted(k)
    {
      OneMoreEntry(calls, k, ttl, jti, expiry);
    }
    Accumulates(entered, inserted, 0, n);
    assert forall k: nat :: inserted(k) == Inserted(calls, k, ttl, jti, expiry);
  }

  /** The same statement with the log spelled out: a call is answered "seen" exactly when an
      earlier call with that jti was answered "new" and inserted at most `ttl` before this one's eviction. */
  lemma SeenExactly(calls: seq<Call>, i: nat, ttl: int)
    requires EvictionsOrdered(calls) && i < |calls|
    ensures Answer(calls, i, ttl) <==>
            exists k: nat, expiry :: k < i && Inserted(calls, k, ttl, calls[i].jti, expiry) && calls[i].evictAt <= expiry
  {
    var c, log := calls[i], Log(calls[..i], ttl);
    SeenRefinesLog(calls, i, ttl);
    if Remembers(log, c.jti, c.evictAt) {
      var m :| 0 <= m < |log| && log[m].jti == c.jti && c.evictAt <= log[m].expiry;
      assert log[m] == Entry(c.jti, log[m].expiry);
      LogEntries(calls, i, ttl, c.jti, log[m].expiry);
    }
    if k: nat, expiry :| k < i && Inserted(calls, k, ttl, c.jti, expiry) && c.evictAt <= expiry {
      LogEntries(calls, i, ttl, c.jti, expiry);
      assert Entry(c.jti, expiry) in log;
    }
  }

  /** How many calls inserted an entry that still counts at `now`. */
  function FreshCalls(calls: seq<Call>, upTo: nat, now: int, ttl: int): nat
    requires upTo <= |calls|
  {
    if upTo == 0 then 0
    else FreshCalls(calls, upTo - 1, now, ttl)
         + if !Answer(calls, upTo - 1, ttl) && now <= calls[upTo-1].insertAt + ttl then 1 else 0
  }

  lemma CountAppend(log: seq<Entry>, e: Entry, now: int)
    ensures CountLive(log + [e], now) == CountLive(log, now) + if now <= e.expiry then 1 else 0
  {
    assert (log + [e])[..|log|] == log;
  }

  lemma {:induction false} CountLiveIsFreshCalls(calls: seq<Call>, upTo: nat, now: int, ttl: int)
    requires EvictionsOrdered(calls) && upTo <= |calls|
    ensures CountLive(Log(calls[..upTo], ttl), now) == FreshCalls(calls, upTo, now, ttl)
  {
    if upTo > 0 {
      var k, last := upTo - 1, calls[upTo-1];
      CountLiveIsFreshCalls(calls, k, now, ttl);
      LogGrows(calls, k, ttl);
      CountAppend(Log(calls[..k], ttl), Entry(last.jti, last.insertAt + ttl), now);
    }
  }

  /** The map never holds more entries than there were new identifiers in the last `ttl`. */
  lemma {:induction false} SizeBound(calls: seq<Call>, ttl: nat)
    requires EvictionsOrdered(calls) && |calls| > 0
    requires forall i | 0 <= i < |calls| :: calls[i].evictAt <= calls[i].insertAt
    ensures |After(calls, ttl)| <= FreshCalls(calls, |calls|, calls[|calls|-1].evictAt, ttl)
  {
    var now := calls[|calls|-1].evictAt;
    MapRefinesLog(calls, ttl);
    assert Unexpired(After(calls, ttl), now) == After(calls, ttl);
    LiveSize(Log(calls, ttl), now);
    CountLiveIsFreshCalls(calls, |calls|, now, ttl);
    assert calls[..|calls|] == calls;
  }

  // ---------------------------------------------------------------------------
  // The class
  // ---------------------------------------------------------------------------

  class JTICache {
    var entries: map<string, int>
    ghost var log: seq<Entry>       // every identifier ever recorded
    ghost var lastEviction: int     // the most recent clock reading taken for eviction

    ghost predicate Valid()
      reads this
    {
      Agrees(entries, log, lastEviction)
    }

    constructor (ghost now: int)
      ensures Valid() && entries == map[] && log == [] && lastEviction == now
    {
      entries, log, lastEviction := map[], [], now;
    }

    /** Deletes in place, in whatever order the map is iterated. */
    method Evict(now: int)
      modifies this`entries
      ensures entries == Unexpired(old(entries), now)
    {
      var todo := entries.Keys;
      while todo != {}
        invariant todo <= old(entries).Keys && todo <= entries.Keys
        invariant forall k :: k in entries <==> k in todo || k in Unexpired(old(entries), now)
        invariant forall k | k in entries :: entries[k] == old(entries)[k]
      {
        var k :| k in todo;
        todo := todo - {k};
        if now > entries[k] {
          entries := entries - {k};
        }
      }
    }

    /** True for a replay. Otherwise records the identifier and returns false.
        A hit leaves every surviving expiry as it was. */
    method Seen(jti: string, evictAt: int, insertAt: int) returns (seen: bool)
      requires Valid() && lastEviction <= evictAt <= insertAt
      modifies this
      ensures Valid() && lastEviction == evictAt
      ensures seen <==> Remembers(old(log), jti, evictAt)
      ensures log == Record(old(log), Call(jti, evictAt, insertAt), JTI_TTL)
      ensures (seen, entries) == Look(old(entries), Call(jti, evictAt, insertAt), JTI_TTL)
      ensures forall k | k in entries && (seen || k != jti) :: k in old(entries) && entries[k] == old(entries[k])
    {
      ghost var call := Call(jti, evictAt, insertAt);
      LookRefinesRecord(entries, log, lastEviction, call, JTI_TTL);
      log, lastEviction := Record(log, call, JTI_TTL), evictAt;
      Evict(evictAt);
      if jti in entries {
        return true;
      }
      entries := entries[jti := insertAt + JTI_TTL];
      return false;
    }
  }
}
