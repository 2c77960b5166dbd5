/** The idempotency middleware: requests with the same key share one entry in a key-value store with expiry. The store
    calls of concurrent requests interleave freely; every store call is atomic and stamped with a monotone clock. */
module Idempotency {
  import opened Common

  type Id = nat

  /** Milliseconds. */
  type Time = int

  const TTL: Time := 5000

  const PROCESSING := "processing"

  // ---------- Keys ----------

  function KeyOf(org: string, idemp: string): string { "idemp:" + org + ":" + idemp }

  /** Organization ids print with one fixed length, so two requests share a key only when they agree on organization
      and idempotency value. */
  lemma KeysAreInjective(org1: string, idemp1: string, org2: string, idemp2: string)
    requires |org1| == |org2|
    ensures KeyOf(org1, idemp1) == KeyOf(org2, idemp2) <==> org1 == org2 && idemp1 == idemp2
  {
    var k1, k2, n := KeyOf(org1, idemp1), KeyOf(org2, idemp2), |org1|;
    assert k1[6..6 + n] == org1 && k2[6..6 + n] == org2;
    assert k1[7 + n..] == idemp1 && k2[7 + n..] == idemp2;
  }

  // ---------- The store ----------

  datatype Entry = Entry(value: string, expiresAt: Time)

  type Entries = map<string, Entry>

  predicate Live(entries: Entries, key: string, now: Time) { key in entries && now < entries[key].expiresAt }

  class Redis {
    var entries: Entries

    constructor ()
      ensures entries == map[]
    {
      entries := map[];
    }

    method SetNX(key: string, value: string, now: Time) returns (ok: bool)
      modifies this
      ensures ok <==> !Live(old(entries), key, now)
      ensures entries == if ok then old(entries)[key := Entry(value, now + TTL)] else old(entries)
    {
      if key in entries && now < entries[key].expiresAt {
        return false;
      }
      entries := entries[key := Entry(value, now + TTL)];
      return true;
    }

    method Get(key: string, now: Time) returns (value: Option<string>)
      ensures value == if Live(entries, key, now) then Some(entries[key].value) else None
    {
      if key in entries && now < entries[key].expiresAt {
        return Some(entries[key].value);
      }
      return None;
    }

    method Set(key: string, value: string, now: Time)
      modifies this
      ensures entries == old(entries)[key := Entry(value, now + TTL)]
    {
      entries := entries[key := Entry(value, now + TTL)];
    }

    method Del(key: string)
      modifies this
      ensures entries == old(entries) - {key}
    {
      entries := entries - {key};
    }
  }

  /** What the handler writes is passed on and kept. */
  class ResponseCapture {
    var body: string
    var status: int

    constructor ()
      ensures body == "" && status == 200
    {
      body, status := "", 200;
    }

    method WriteHeader(code: int)
      modifies this
      ensures status == code && body == old(body)
    {
      status := code;
    }

    method Write(b: string)
      modifies this
      ensures body == old(body) + b && status == old(status)
    {
      body := body + b;
    }
  }

  // ---------- One step ----------

  /** Where a request stands between its store calls. `lease` is when the entry it set expires. */
  datatype Phase =
    | Looking(key: string)
    | Running(key: string, lease: Time)
    | Responded(key: string, lease: Time, status: int, body: string)
    | Done

  datatype Record =
    | RunStarted(req: Id, key: string, at: Time)
    | RunEnded(req: Id, key: string, status: int, body: string)
    | Cached(req: Id, key: string, body: string, at: Time)
    | Replayed(req: Id, key: string, body: string)
    | TooMany(req: Id, key: string)

  datatype Step =
    | Acquire(req: Id, key: string)
    | Lookup(req: Id)
    | Finish(req: Id, status: int, body: string)
    | Commit(req: Id)

  datatype Timed = Timed(step: Step, now: Time)

  /** The log is only a record of what happened; no step reads it. */
  datatype Shared = Shared(entries: Entries, requests: map<Id, Phase>, clock: Time, log: seq<Record>)

  const INITIAL := Shared(map[], map[], 0, [])

  predicate Success(status: int) { 200 <= status < 300 }

  predicate Enabled(s: Shared, ts: Timed) {
    && s.clock <= ts.now
    && match ts.step
       case Acquire(req, _) => req !in s.requests
       case Lookup(req) => req in s.requests && s.requests[req].Looking?
       case Finish(req, _, _) => req in s.requests && s.requests[req].Running?
       case Commit(req) => req in s.requests && s.requests[req].Responded?
  }

  function After(s: Shared, ts: Timed): Shared {
    if !Enabled(s, ts) then s
    else
      var now := ts.now;
      match ts.step
      case Acquire(req, key) =>
        if Live(s.entries, key, now)
        then s.(requests := s.requests[req := Looking(key)], clock := now)
        else Shared(s.entries[key := Entry(PROCESSING, now + TTL)], s.requests[req := Running(key, now + TTL)], now,
                    s.log + [RunStarted(req, key, now)])
      case Lookup(req) =>
        var key := s.requests[req].key;
        if !Live(s.entries, key, now) || s.entries[key].value == PROCESSING
        then s.(requests := s.requests[req := Done], clock := now, log := s.log + [TooMany(req, key)])
        else s.(requests := s.requests[req := Done], clock := now,
                log := s.log + [Replayed(req, key, s.entries[key].value)])
      case Finish(req, status, body) =>
        var p := s.requests[req];
        s.(requests := s.requests[req := Responded(p.key, p.lease, status, body)], clock := now,
           log := s.log + [RunEnded(req, p.key, status, body)])
      case Commit(req) =>
        var p := s.requests[req];
        if Success(p.status)
        then Shared(s.entries[p.key := Entry(p.body, now + TTL)], s.requests[req := Done], now,
                    s.log + [Cached(req, p.key, p.body, now)])
        else Shared(s.entries - {p.key}, s.requests[req := Done], now, s.log)
  }

  function Run(s: Shared, steps: seq<Timed>): Shared {
    if steps == [] then s else After(Run(s, steps[..|steps| - 1]), steps[|steps| - 1])
  }

  // ---------- The middleware ----------

  class Middleware {
    const rdb: Redis
    var requests: map<Id, Phase>
    var clock: Time
    ghost var log: seq<Record>

    constructor (rdb: Redis)
      requires rdb.entries == map[]
      ensures this.rdb == rdb && View() == INITIAL
    {
      this.rdb := rdb;
      requests, clock, log := map[], 0, [];
    }

    ghost function View(): Shared
      reads this, rdb
    {
      Shared(rdb.entries, requests, clock, log)
    }

    /** Entering with a nonempty idempotency value; `running` tells that the handler is to be called. */
    method Begin(req: Id, key: string, now: Time) returns (running: bool)
      requires Enabled(View(), Timed(Acquire(req, key), now))
      modifies this, rdb
      ensures View() == After(old(View()), Timed(Acquire(req, key), now))
      ensures running <==> requests[req].Running?
    {
      clock := now;
      running := rdb.SetNX(key, PROCESSING, now);
      if running {
        requests := requests[req := Running(key, now + TTL)];
        log := log + [RunStarted(req, key, now)];
      } else {
        requests := requests[req := Looking(key)];
      }
    }

    /** The key was taken: the stored body is replayed, or None stands for the 429 answer. */
    method Replay(req: Id, now: Time) returns (body: Option<string>)
      requires Enabled(View(), Timed(Lookup(req), now))
      modifies this
      ensures View() == After(old(View()), Timed(Lookup(req), now))
      ensures body.Some? ==> log == old(log) + [Replayed(req, old(requests[req].key), body.value)]
      ensures body.None? ==> log == old(log) + [TooMany(req, old(requests[req].key))]
    {
      var key := requests[req].key;
      var val := rdb.Get(key, now);
      clock := now;
      requests := requests[req := Done];
      if val.None? || val.value == PROCESSING {
        log := log + [TooMany(req, key)];
        return None;
      }
      log := log + [Replayed(req, key, val.value)];
      return val;
    }

    /** The handler returned; its captured response is what will be cached. */
    method HandlerReturned(req: Id, capture: ResponseCapture, now: Time)
      requires Enabled(View(), Timed(Finish(req, capture.status, capture.body), now))
      modifies this
      ensures View() == After(old(View()), Timed(Finish(req, capture.status, capture.body), now))
    {
      var p := requests[req];
      clock := now;
      requests := requests[req := Responded(p.key, p.lease, capture.status, capture.body)];
      log := log + [RunEnded(req, p.key, capture.status, capture.body)];
    }

    method Store(req: Id, now: Time)
      requires Enabled(View(), Timed(Commit(req), now))
      modifies this, rdb
      ensures View() == After(old(View()), Timed(Commit(req), now))
    {
      var p := requests[req];
      clock := now;
      requests := requests[req := Done];
      if p.status >= 200 && p.status < 300 {
        rdb.Set(p.key, p.body, now);
        log := log + [Cached(req, p.key, p.body, now)];
      } else {
        rdb.Del(p.key);
      }
    }
  }

  // ---------- Replayed bodies, with no timing assumption ----------

  ghost predicate Produced(log: seq<Record>, key: string, body: string) {
    exists i :: 0 <= i < |log| && log[i].RunEnded? && log[i].key == key && log[i].body == body && Success(log[i].status)
  }

  ghost predicate EntriesProduced(s: Shared) {
    forall k :: k in s.entries && s.entries[k].value != PROCESSING ==> Produced(s.log, k, s.entries[k].value)
  }

  ghost predicate AnswersProduced(s: Shared) {
    forall r :: r in s.requests && s.requests[r].Responded? && Success(s.requests[r].status) ==>
      Produced(s.log, s.requests[r].key, s.requests[r].body)
  }

  ghost predicate ReplaysProduced(log: seq<Record>) {
    forall j :: 0 <= j < |log| && log[j].Replayed? ==> Produced(log[..j], log[j].key, log[j].body)
  }

  ghost predicate BodiesProduced(s: Shared) { EntriesProduced(s) && AnswersProduced(s) && ReplaysProduced(s.log) }

  /** What was produced stays so, as the log only grows. */
  lemma StaysProduced(s: Shared, ts: Timed)
    ensures forall key, body :: Produced(s.log, key, body) ==> Produced(After(s, ts).log, key, body)
  {
    var s' := After(s, ts);
    if |s'.log| > |s.log| {
      assert s'.log == s.log + [s'.log[|s.log|]];
      forall key, body | Produced(s.log, key, body) ensures Produced(s'.log, key, body) {
        var i :| 0 <= i < |s.log| && s.log[i].RunEnded? && s.log[i].key == key && s.log[i].body == body
                 && Success(s.log[i].status);
        assert s'.log[i] == s.log[i];
      }
    }
  }

  lemma StepKeepsAnswers(s: Shared, ts: Timed)
    requires AnswersProduced(s)
    ensures AnswersProduced(After(s, ts))
  {
    var s' := After(s, ts);
    StaysProduced(s, ts);
    if ts.step.Finish? && Enabled(s, ts) && Success(ts.step.status) {
      var r := s'.log[|s.log|];
      assert r.RunEnded? && Produced(s'.log, r.key, r.body);
    }
  }

  lemma StepKeepsReplays(s: Shared, ts: Timed)
    requires EntriesProduced(s) && ReplaysProduced(s.log)
    ensures ReplaysProduced(After(s, ts).log)
  {
    var log' := After(s, ts).log;
    forall j | 0 <= j < |log'| && log'[j].Replayed? ensures Produced(log'[..j], log'[j].key, log'[j].body) {
      if j < |s.log| {
        assert log'[..j] == s.log[..j] && log'[j] == s.log[j];
      } else {
        assert log'[..j] == s.log;
      }
    }
  }

  lemma {:induction false} RunKeepsBodies(steps: seq<Timed>)
    ensures BodiesProduced(Run(INITIAL, steps))
  {
    if steps != [] {
      RunKeepsBodies(steps[..|steps| - 1]);
      var s, step := Run(INITIAL, steps[..|steps| - 1]), steps[|steps| - 1];
      StepKeepsAnswers(s, step);
      StaysProduced(s, step);
      StepKeepsReplays(s, step);
    }
  }

  /** Whatever the timing, every replayed body is the body of an earlier 2xx handler run under the same key. */
  lemma ReplayedBodiesAreReal(steps: seq<Timed>, j: nat)
    requires j < |Run(INITIAL, steps).log| && Run(INITIAL, steps).log[j].Replayed?
    ensures var log := Run(INITIAL, steps).log;
            exists i :: 0 <= i < j && log[i].RunEnded? && log[i].key == log[j].key && log[i].body == log[j].body
                        && Success(log[i].status)
  {
    RunKeepsBodies(steps);
    var log := Run(INITIAL, steps).log;
    assert Produced(log[..j], log[j].key, log[j].body);
    var i :| 0 <= i < j && log[..j][i].RunEnded? && log[..j][i].key == log[j].key && log[..j][i].body == log[j].body
             && Success(log[..j][i].status);
    assert log[i] == log[..j][i];
  }

  // ---------- Mutual exclusion, when handlers are done in time ----------

  predicate Holding(p: Phase) { p.Running? || p.Responded? }

  /** No request still holds an entry that has expired. */
  ghost predicate Timely(s: Shared, now: Time) {
    forall r :: r in s.requests && Holding(s.requests[r]) ==> now < s.requests[r].lease
  }

  /** Every step of the run happens while all held entries are still alive. */
  ghost predicate TimelyRun(steps: seq<Timed>) {
    steps == []
    || (TimelyRun(steps[..|steps| - 1]) && Timely(Run(INITIAL, steps[..|steps| - 1]), steps[|steps| - 1].now))
  }

  /** A held key carries the holder's own marker, and has one holder. */
  ghost predicate Exclusive(s: Shared) {
    && (forall r :: r in s.requests && Holding(s.requests[r]) ==>
          s.requests[r].key in s.entries
          && s.entries[s.requests[r].key] == Entry(PROCESSING, s.requests[r].lease))
    && (forall r, q :: SameKey(s, r, q) ==> r == q)
  }

  predicate SameKey(s: Shared, r: Id, q: Id) {
    r in s.requests && q in s.requests && Holding(s.requests[r]) && Holding(s.requests[q])
    && s.requests[r].key == s.requests[q].key
  }

  ghost predicate EndedAfter(log: seq<Record>, i: nat, req: Id) {
    exists m :: i < m < |log| && log[m].RunEnded? && log[m].req == req
  }

  /** A started run is still going or has ended since. */
  ghost predicate RunsTracked(s: Shared) {
    forall i :: 0 <= i < |s.log| && s.log[i].RunStarted? ==>
      s.log[i].req in s.requests
      && (s.requests[s.log[i].req] == Running(s.log[i].key, s.log[i].at + TTL) || EndedAfter(s.log, i, s.log[i].req))
  }

  /** Between two starts under one key the first run has ended. */
  ghost predicate RunsSeparate(log: seq<Record>) {
    forall i, j :: 0 <= i < j < |log| && log[i].RunStarted? && log[j].RunStarted? && log[i].key == log[j].key ==>
      EndedAfter(log[..j], i, log[i].req)
  }

  /** An unexpired cached answer is in the store and nobody runs under its key. */
  ghost predicate CacheStands(s: Shared) {
    forall i :: 0 <= i < |s.log| && s.log[i].Cached? && s.clock < s.log[i].at + TTL ==>
      && s.log[i].key in s.entries
      && s.entries[s.log[i].key] == Entry(s.log[i].body, s.log[i].at + TTL)
      && forall r :: r in s.requests && Holding(s.requests[r]) ==> s.requests[r].key != s.log[i].key
  }

  /** No run starts under a key before a cached answer for it has expired. */
  ghost predicate CacheRespected(log: seq<Record>) {
    forall i, j :: 0 <= i < j < |log| && log[i].Cached? && log[j].RunStarted? && log[i].key == log[j].key ==>
      log[j].at >= log[i].at + TTL
  }

  ghost predicate CachedAfter(log: seq<Record>, i: nat, r: Record) {
    exists m :: i < m < |log| && log[m].Cached? && log[m].req == r.req && log[m].key == r.key
  }

  predicate AboutToCache(p: Phase, key: string) { p.Responded? && p.key == key && Success(p.status) }

  /** A 2xx answer is about to be cached or has been. */
  ghost predicate AnswersTracked(s: Shared) {
    forall i :: 0 <= i < |s.log| && s.log[i].RunEnded? && Success(s.log[i].status) ==>
      s.log[i].req in s.requests
      && (AboutToCache(s.requests[s.log[i].req], s.log[i].key) || CachedAfter(s.log, i, s.log[i]))
  }

  /** Between a 2xx run and the next one under its key the answer was cached. */
  ghost predicate AnswersCached(log: seq<Record>) {
    forall i, j :: 0 <= i < j < |log| && log[i].RunEnded? && Success(log[i].status) && log[j].RunStarted?
                   && log[i].key == log[j].key ==>
      CachedAfter(log[..j], i, log[i])
  }

  ghost predicate Guarded(s: Shared) {
    && Exclusive(s) && RunsTracked(s) && RunsSeparate(s.log) && CacheStands(s) && CacheRespected(s.log)
    && AnswersTracked(s) && AnswersCached(s.log)
  }

  /** No step lets its request hold the key of another holder. */
  lemma HolderStandsAlone(s: Shared, ts: Timed, other: Id)
    requires Exclusive(s) && Timely(s, ts.now)
    requires other in s.requests && other != ts.step.req && Holding(s.requests[other])
    ensures var s' := After(s, ts);
            ts.step.req in s'.requests && Holding(s'.requests[ts.step.req]) ==>
              s'.requests[ts.step.req].key != s.requests[other].key
  {
    assert Live(s.entries, s.requests[other].key, ts.now);
    assert !SameKey(s, other, ts.step.req);
  }

  lemma StepStaysExclusive(s: Shared, ts: Timed)
    requires Exclusive(s) && Timely(s, ts.now)
    ensures Exclusive(After(s, ts))
  {
    var s', req := After(s, ts), ts.step.req;
    forall r, q | SameKey(s', r, q) ensures r == q {
      if r != req && q != req {
        assert SameKey(s, r, q);
      } else if r != req {
        HolderStandsAlone(s, ts, r);
      } else if q != req {
        HolderStandsAlone(s, ts, q);
      }
    }
    forall r | r in s'.requests && Holding(s'.requests[r])
      ensures s'.requests[r].key in s'.entries
              && s'.entries[s'.requests[r].key] == Entry(PROCESSING, s'.requests[r].lease)
    {
      if r != req {
        assert !SameKey(s, r, req);
      }
    }
  }

  lemma StepTracksRuns(s: Shared, ts: Timed)
    requires RunsTracked(s)
    ensures RunsTracked(After(s, ts))
  {
    var s' := After(s, ts);
    forall i | 0 <= i < |s'.log| && s'.log[i].RunStarted?
      ensures s'.log[i].req in s'.requests
      ensures s'.requests[s'.log[i].req] == Running(s'.log[i].key, s'.log[i].at + TTL)
              || EndedAfter(s'.log, i, s'.log[i].req)
    {
      if i < |s.log| {
        assert s'.log[i] == s.log[i];
        if EndedAfter(s.log, i, s.log[i].req) && |s'.log| > |s.log| {
          var m :| i < m < |s.log| && s.log[m].RunEnded? && s.log[m].req == s.log[i].req;
          assert s'.log[m] == s.log[m];
          assert s'.log == s.log + [s'.log[|s.log|]];
        } else if ts.step.Finish? && |s'.log| > |s.log| && ts.step.req == s.log[i].req {
          assert s'.log[|s.log|].RunEnded? && s'.log[|s.log|].req == s.log[i].req;
        }
      }
    }
  }

  /** A start under a key finds no run of that key going. */
  lemma StepSeparatesRuns(s: Shared, ts: Timed)
    requires Exclusive(s) && RunsTracked(s) && RunsSeparate(s.log) && Timely(s, ts.now)
    ensures RunsSeparate(After(s, ts).log)
  {
    var log' := After(s, ts).log;
    forall i, j | 0 <= i < j < |log'| && log'[i].RunStarted? && log'[j].RunStarted? && log'[i].key == log'[j].key
      ensures EndedAfter(log'[..j], i, log'[i].req)
    {
      if j < |s.log| {
        assert log'[..j] == s.log[..j];
      } else {
        assert log'[..j] == s.log && log'[i] == s.log[i];
        var r := s.log[i].req;
        assert !Live(s.entries, log'[j].key, ts.now);
        assert r in s.requests;
        assert !Holding(s.requests[r]) || s.requests[r].key != log'[j].key;
      }
    }
  }

  lemma StepKeepsCache(s: Shared, ts: Timed)
    requires Exclusive(s) && CacheStands(s) && Timely(s, ts.now)
    ensures CacheStands(After(s, ts))
  {
    var s' := After(s, ts);
    forall i | 0 <= i < |s'.log| && s'.log[i].Cached? && s'.clock < s'.log[i].at + TTL
      ensures s'.log[i].key in s'.entries && s'.entries[s'.log[i].key] == Entry(s'.log[i].body, s'.log[i].at + TTL)
      ensures forall r :: r in s'.requests && Holding(s'.requests[r]) ==> s'.requests[r].key != s'.log[i].key
    {
      if i < |s.log| {
        assert s'.log[i] == s.log[i];
        assert s.entries[s.log[i].key] == Entry(s.log[i].body, s.log[i].at + TTL);
      } else {
        assert forall r :: r in s.requests && r != ts.step.req ==> !SameKey(s, r, ts.step.req);
      }
    }
  }

  lemma StepRespectsCache(s: Shared, ts: Timed)
    requires CacheStands(s) && CacheRespected(s.log)
    ensures CacheRespected(After(s, ts).log)
  {
    var s' := After(s, ts);
    forall i, j | 0 <= i < j < |s'.log| && s'.log[i].Cached? && s'.log[j].RunStarted? && s'.log[i].key == s'.log[j].key
      ensures s'.log[j].at >= s'.log[i].at + TTL
    {
      assert s'.log[i] == s.log[i];
      if j < |s.log| {
        assert s'.log[j] == s.log[j];
      } else if s.clock < s.log[i].at + TTL {
        assert s.entries[s.log[i].key] == Entry(s.log[i].body, s.log[i].at + TTL);
      }
    }
  }

  lemma StepTracksAnswers(s: Shared, ts: Timed)
    requires AnswersTracked(s)
    ensures AnswersTracked(After(s, ts))
  {
    var s' := After(s, ts);
    forall i | 0 <= i < |s'.log| && s'.log[i].RunEnded? && Success(s'.log[i].status)
      ensures s'.log[i].req in s'.requests
      ensures AboutToCache(s'.requests[s'.log[i].req], s'.log[i].key) || CachedAfter(s'.log, i, s'.log[i])
    {
      if i < |s.log| {
        var r := s.log[i];
        assert s'.log[i] == r;
        if |s'.log| > |s.log| {
          assert s'.log == s.log + [s'.log[|s.log|]];
          if CachedAfter(s.log, i, r) {
            var m :| i < m < |s.log| && s.log[m].Cached? && s.log[m].req == r.req && s.log[m].key == r.key;
            assert s'.log[m] == s.log[m];
          } else if ts.step.Commit? && ts.step.req == r.req {
            assert s'.log[|s.log|].Cached? && s'.log[|s.log|].req == r.req && s'.log[|s.log|].key == r.key;
          }
        }
      }
    }
  }

  /** A start under a key finds no 2xx answer of that key still to be cached. */
  lemma StepCachesAnswers(s: Shared, ts: Timed)
    requires Exclusive(s) && AnswersTracked(s) && AnswersCached(s.log) && Timely(s, ts.now)
    ensures AnswersCached(After(s, ts).log)
  {
    var log' := After(s, ts).log;
    forall i, j | 0 <= i < j < |log'| && log'[i].RunEnded? && Success(log'[i].status) && log'[j].RunStarted?
                  && log'[i].key == log'[j].key
      ensures CachedAfter(log'[..j], i, log'[i])
    {
      if j < |s.log| {
        assert log'[..j] == s.log[..j];
      } else {
        assert log'[..j] == s.log && log'[i] == s.log[i];
        var r := s.log[i].req;
        assert !Live(s.entries, log'[j].key, ts.now);
        assert r in s.requests;
        assert !Holding(s.requests[r]) || s.requests[r].key != log'[j].key;
      }
    }
  }

  lemma {:induction false} TimelyRunsAreGuarded(steps: seq<Timed>)
    requires TimelyRun(steps)
    ensures Guarded(Run(INITIAL, steps))
  {
    if steps != [] {
      var s, ts := Run(INITIAL, steps[..|steps| - 1]), steps[|steps| - 1];
      TimelyRunsAreGuarded(steps[..|steps| - 1]);
      StepStaysExclusive(s, ts);
      StepTracksRuns(s, ts);
      StepSeparatesRuns(s, ts);
      StepKeepsCache(s, ts);
      StepRespectsCache(s, ts);
      StepTracksAnswers(s, ts);
      StepCachesAnswers(s, ts);
    }
  }

  /** If every handler is done and stored before its entry expires, two runs under one key never overlap: whenever one
      starts, each earlier one has ended. */
  lemma RunsNeverOverlap(steps: seq<Timed>, i: nat, j: nat)
    requires TimelyRun(steps)
    requires var log := Run(INITIAL, steps).log;
             i < j < |log| && log[i].RunStarted? && log[j].RunStarted? && log[i].key == log[j].key
    ensures var log := Run(INITIAL, steps).log;
            exists m :: i < m < j && log[m].RunEnded? && log[m].req == log[i].req
  {
    TimelyRunsAreGuarded(steps);
    var log := Run(INITIAL, steps).log;
    assert EndedAfter(log[..j], i, log[i].req);
    var m :| i < m < j && log[..j][m].RunEnded? && log[..j][m].req == log[i].req;
    assert log[m] == log[..j][m];
  }

  /** Under the same assumption, between a 2xx run's end and the next start under its key the answer was cached, and its
      lifetime has passed. */
  lemma CachedAnswersHoldBackRuns(steps: seq<Timed>, i: nat, j: nat)
    requires TimelyRun(steps)
    requires var log := Run(INITIAL, steps).log;
             i < j < |log| && log[i].RunEnded? && Success(log[i].status) && log[j].RunStarted?
             && log[i].key == log[j].key
    ensures var log := Run(INITIAL, steps).log;
            exists m :: i < m < j && log[m].Cached? && log[m].req == log[i].req && log[m].key == log[i].key
                        && log[j].at >= log[m].at + TTL
  {
    TimelyRunsAreGuarded(steps);
    var log := Run(INITIAL, steps).log;
    assert CachedAfter(log[..j], i, log[i]);
    var m :| i < m < j && log[..j][m].Cached? && log[..j][m].req == log[i].req && log[..j][m].key == log[i].key;
    assert log[m] == log[..j][m];
  }

  /** No run starts under the key of a cached answer before that has expired. */
  lemma NoRunWhileCached(steps: seq<Timed>, i: nat, j: nat)
    requires TimelyRun(steps)
    requires var log := Run(INITIAL, steps).log;
             i < j < |log| && log[i].Cached? && log[j].RunStarted? && log[i].key == log[j].key
    ensures var log := Run(INITIAL, steps).log; log[j].at >= log[i].at + TTL
  {
    TimelyRunsAreGuarded(steps);
  }

  /** The assumption is needed: a second run starts beside a run still going exactly when its entry has expired. */
  lemma OverlapNeedsExpiry(s: Shared, r: Id, q: Id, now: Time)
    requires Exclusive(s) && r in s.requests && Holding(s.requests[r])
    requires Enabled(s, Timed(Acquire(q, s.requests[r].key), now))
    ensures After(s, Timed(Acquire(q, s.requests[r].key), now)).requests[q].Running? <==> now >= s.requests[r].lease
  {
  }

  // ---------- What a client sees ----------

  /** The keys in Redis, spelled out. */
  lemma KeyText()
    ensures KeyOf("org", "value") == "idemp:org:value"
  {
  }

  /** A stored 2xx answer is kept for five seconds; any other answer takes the key away, so that the next request
      runs at once. */
  lemma AnswerDecidesRetry(s: Shared, req: Id, next: Id, now: Time, later: Time)
    ensures Enabled(s, Timed(Commit(req), now)) ==>
              var p, s' := s.requests[req], After(s, Timed(Commit(req), now));
              && (200 <= p.status <= 299 ==>
                    && p.key in s'.entries && s'.entries[p.key].value == p.body
                    && s'.entries[p.key].expiresAt == now + 5000)
              && (p.status < 200 || p.status > 299 ==>
                    p.key !in s'.entries
                    && (next !in s.requests && now <= later ==>
                          After(s', Timed(Acquire(next, p.key), later)).requests[next].Running?))
  {
  }

  /** A request that found its key taken gets the stored body back while it lives; while the first request is still at
      work or when the entry has gone meanwhile it is told to wait. */
  lemma LookupAnswers(s: Shared, req: Id, now: Time)
    ensures Enabled(s, Timed(Lookup(req), now)) ==>
              var key, log := s.requests[req].key, After(s, Timed(Lookup(req), now)).log;
              && (key in s.entries && now < s.entries[key].expiresAt && s.entries[key].value != "processing" ==>
                    log == s.log + [Replayed(req, key, s.entries[key].value)])
              && (key !in s.entries || now >= s.entries[key].expiresAt || s.entries[key].value == "processing" ==>
                    log == s.log + [TooMany(req, key)])
  {
  }
}
