/** The fixed-window rate limiter and its background sweep, over a monotone clock. */
module RateLimit {
  import opened Common

  type Key = string
  type Time = int

  datatype Visitor = Visitor(count: int, resetAt: Time)

  // ---------- One step, on values ----------

  predicate Expired(v: Visitor, now: Time) { now > v.resetAt }

  predicate StartsWindow(visitors: map<Key, Visitor>, key: Key, now: Time) {
    key !in visitors || Expired(visitors[key], now)
  }

  function Granted(rate: int, visitors: map<Key, Visitor>, key: Key, now: Time): bool {
    StartsWindow(visitors, key, now) || visitors[key].count < rate
  }

  function Counted(window: nat, visitors: map<Key, Visitor>, key: Key, now: Time): map<Key, Visitor> {
    if StartsWindow(visitors, key, now) then visitors[key := Visitor(1, now + window)]
    else visitors[key := visitors[key].(count := visitors[key].count + 1)]
  }

  function Swept(visitors: map<Key, Visitor>, now: Time): map<Key, Visitor> {
    map k | k in visitors && !Expired(visitors[k], now) :: visitors[k]
  }

  /** After a sweep exactly the visitors are left whose window is not over, as they were. */
  lemma SweepLeavesOpen(visitors: map<Key, Visitor>, now: Time, key: Key)
    ensures key in Swept(visitors, now) <==> key in visitors && now <= visitors[key].resetAt
    ensures key in Swept(visitors, now) ==> Swept(visitors, now)[key] == visitors[key]
  {
  }

  // ---------- The limiter ----------

  class RateLimiter {
    const rate: int
    const window: nat
    var visitors: map<Key, Visitor>

    constructor (rate: int, window: nat)
      ensures this.rate == rate && this.window == window && visitors == map[]
    {
      this.rate, this.window := rate, window;
      visitors := map[];
    }

    method Allow(key: Key, now: Time) returns (ok: bool)
      modifies this
      ensures ok == Granted(rate, old(visitors), key, now)
      ensures visitors == Counted(window, old(visitors), key, now)
    {
      if key !in visitors || now > visitors[key].resetAt {
        visitors := visitors[key := Visitor(1, now + window)];
        return true;
      }
      var v := visitors[key];
      v := v.(count := v.count + 1);
      visitors := visitors[key := v];
      return v.count <= rate;
    }

    /** One pass of the cleanup loop: expired visitors are deleted, the others stay as they are. */
    method Cleanup(now: Time)
      modifies this
      ensures visitors == Swept(old(visitors), now)
    {
      var pending := visitors.Keys;
      while pending != {}
        invariant pending <= visitors.Keys <= old(visitors).Keys
        invariant forall k :: k in visitors ==> visitors[k] == old(visitors)[k]
        invariant forall k :: k in old(visitors) && k !in pending ==>
                    (k in visitors <==> !Expired(old(visitors)[k], now))
        decreases pending
      {
        var key :| key in pending;
        if now > visitors[key].resetAt {
          visitors := visitors - {key};
        }
        pending := pending - {key};
      }
    }
  }

  // ---------- Runs ----------

  datatype Event = Request(key: Key, now: Time) | Sweep(now: Time)

  datatype Answer = Answer(key: Key, now: Time, ok: bool)

  ghost predicate Monotone(events: seq<Event>) {
    forall i, j :: 0 <= i < j < |events| ==> events[i].now <= events[j].now
  }

  function After(window: nat, visitors: map<Key, Visitor>, e: Event): map<Key, Visitor> {
    match e
    case Request(key, now) => Counted(window, visitors, key, now)
    case Sweep(now) => Swept(visitors, now)
  }

  /** The answers a run gives, in order. */
  function Answers(rate: int, window: nat, visitors: map<Key, Visitor>, events: seq<Event>): seq<Answer>
    decreases events
  {
    if events == [] then []
    else
      var e := events[0];
      var rest := Answers(rate, window, After(window, visitors, e), events[1..]);
      if e.Request? then [Answer(e.key, e.now, Granted(rate, visitors, e.key, e.now))] + rest else rest
  }

  function Requests(events: seq<Event>): seq<Event> {
    if events == [] then []
    else if events[0].Request? then [events[0]] + Requests(events[1..])
    else Requests(events[1..])
  }

  // ---------- Sweeping never changes an answer ----------

  /** `full` is `swept` plus visitors whose window is over by `now`. */
  ghost predicate OnlyExpiredMissing(swept: map<Key, Visitor>, full: map<Key, Visitor>, now: Time) {
    && (forall k :: k in swept ==> k in full && swept[k] == full[k])
    && (forall k :: k in full && k !in swept ==> Expired(full[k], now))
  }

  /** However sweeps are interleaved, the answers are those of a limiter that never deletes a visitor. */
  lemma SweepsAreInvisible(rate: int, window: nat, events: seq<Event>)
    requires Monotone(events)
    ensures Answers(rate, window, map[], events) == Answers(rate, window, map[], Requests(events))
  {
    SweptRunAgrees(rate, window, map[], map[], events, if events == [] then 0 else events[0].now);
  }

  lemma {:induction false} SweptRunAgrees(rate: int, window: nat, swept: map<Key, Visitor>, full: map<Key, Visitor>,
                                          events: seq<Event>, start: Time)
    requires Monotone(events)
    requires events != [] ==> start <= events[0].now
    requires OnlyExpiredMissing(swept, full, start)
    ensures Answers(rate, window, swept, events) == Answers(rate, window, full, Requests(events))
    decreases events
  {
    if events != [] {
      var e := events[0];
      match e {
        case Request(key, now) =>
          assert Requests(events)[1..] == Requests(events[1..]);
          SweptRunAgrees(rate, window, Counted(window, swept, key, now), Counted(window, full, key, now),
                         events[1..], now);
        case Sweep(now) =>
          SweptRunAgrees(rate, window, Swept(swept, now), full, events[1..], now);
      }
    }
  }

  // ---------- How many requests pass ----------

  /** The answers for `key` inside [from, to]. */
  function Asked(answers: seq<Answer>, key: Key, from: Time, to: Time): nat {
    if answers == [] then 0
    else (if answers[0].key == key && from <= answers[0].now <= to then 1 else 0)
         + Asked(answers[1..], key, from, to)
  }

  function Passed(answers: seq<Answer>, key: Key, from: Time, to: Time): nat {
    if answers == [] then 0
    else (if answers[0].key == key && from <= answers[0].now <= to && answers[0].ok then 1 else 0)
         + Passed(answers[1..], key, from, to)
  }

  ghost predicate Busy(visitors: map<Key, Visitor>) {
    forall k :: k in visitors ==> visitors[k].count >= 1
  }

  function Left(rate: int, visitors: map<Key, Visitor>, key: Key): nat {
    if key in visitors then Max(0, rate - visitors[key].count) else 0
  }

  /** Inside a window still open until `to`, exactly the first requests up to the rate pass. */
  lemma {:induction false} OpenWindowPasses(rate: int, window: nat, visitors: map<Key, Visitor>, events: seq<Event>,
                                            key: Key, from: Time, to: Time)
    requires Monotone(events)
    requires events != [] ==> from <= events[0].now
    requires key in visitors && visitors[key].resetAt >= to
    ensures Passed(Answers(rate, window, visitors, events), key, from, to)
         == Min(Left(rate, visitors, key), Asked(Answers(rate, window, visitors, events), key, from, to))
    decreases events
  {
    if events != [] {
      var e := events[0];
      if e.now > to {
        NothingLate(rate, window, visitors, events, key, from, to);
      } else {
        OpenWindowPasses(rate, window, After(window, visitors, e), events[1..], key, from, to);
      }
    }
  }

  lemma {:induction false} NothingLate(rate: int, window: nat, visitors: map<Key, Visitor>, events: seq<Event>,
                                       key: Key, from: Time, to: Time)
    requires Monotone(events)
    requires events != [] ==> events[0].now > to
    ensures Asked(Answers(rate, window, visitors, events), key, from, to) == 0
    ensures Passed(Answers(rate, window, visitors, events), key, from, to) == 0
    decreases events
  {
    if events != [] {
      NothingLate(rate, window, After(window, visitors, events[0]), events[1..], key, from, to);
    }
  }

  /** A request that opens a window: of all requests of the key up to the window's end exactly the first
      max(rate, 1) pass. */
  lemma WindowPasses(rate: int, window: nat, visitors: map<Key, Visitor>, events: seq<Event>)
    requires Monotone(events)
    requires events != [] && events[0].Request? && StartsWindow(visitors, events[0].key, events[0].now)
    ensures var answers := Answers(rate, window, visitors, events);
            var key, start := events[0].key, events[0].now;
            Passed(answers, key, start, start + window) == Min(Max(rate, 1), Asked(answers, key, start, start + window))
  {
    var e := events[0];
    OpenWindowPasses(rate, window, After(window, visitors, e), events[1..], e.key, e.now, e.now + window);
  }

  /** From inside the interval at most the open window's rest and one more window can pass. */
  lemma {:induction false} TwoWindows(rate: int, window: nat, visitors: map<Key, Visitor>, events: seq<Event>,
                                      key: Key, from: Time)
    requires Monotone(events)
    requires events != [] ==> from <= events[0].now
    ensures Passed(Answers(rate, window, visitors, events), key, from, from + window)
         <= Left(rate, visitors, key) + Max(rate, 1)
    decreases events
  {
    if events != [] {
      var e := events[0];
      var next := After(window, visitors, e);
      if e.Request? && e.key == key && StartsWindow(visitors, key, e.now) {
        OpenWindowPasses(rate, window, next, events[1..], key, from, from + window);
      } else {
        TwoWindows(rate, window, next, events[1..], key, from);
      }
    }
  }

  lemma {:induction false} RunBound(rate: int, window: nat, visitors: map<Key, Visitor>, events: seq<Event>,
                                    key: Key, from: Time)
    requires Monotone(events) && Busy(visitors)
    ensures Passed(Answers(rate, window, visitors, events), key, from, from + window) <= 2 * Max(rate, 1) - 1
    decreases events
  {
    if events != [] {
      if events[0].now >= from {
        TwoWindows(rate, window, visitors, events, key, from);
      } else {
        RunBound(rate, window, After(window, visitors, events[0]), events[1..], key, from);
      }
    }
  }

  /** For every key, every run with any sweeps and every closed interval as long as one window, at most
      2 * rate - 1 requests pass (rate taken as at least 1: the request that opens a window always passes). */
  lemma RateBound(rate: int, window: nat, events: seq<Event>, key: Key, from: Time)
    requires Monotone(events)
    ensures Passed(Answers(rate, window, map[], events), key, from, from + window) <= 2 * Max(rate, 1) - 1
  {
    RunBound(rate, window, map[], events, key, from);
  }

  // ---------- The bound is reached ----------

  function Repeat(e: Event, n: nat): seq<Event> {
    if n == 0 then [] else [e] + Repeat(e, n - 1)
  }

  /** One request at 0, the rest of that window's quota at its end, a full quota just after it. */
  function Burst(rate: int, window: nat, key: Key): seq<Event>
    requires rate >= 1
  {
    [Request(key, 0)] + (Repeat(Request(key, window), rate - 1) + Repeat(Request(key, window + 1), rate))
  }

  lemma BurstIsMonotone(rate: int, window: nat, key: Key)
    requires rate >= 1
    ensures Monotone(Burst(rate, window, key))
  {
    RepeatIs(Request(key, window), rate - 1);
    RepeatIs(Request(key, window + 1), rate);
  }

  lemma BoundIsReached(rate: int, window: nat, key: Key)
    requires rate >= 1 && window >= 1
    ensures Monotone(Burst(rate, window, key))
    ensures Passed(Answers(rate, window, map[], Burst(rate, window, key)), key, 1, 1 + window) == 2 * rate - 1
  {
    var first, second := Repeat(Request(key, window), rate - 1), Repeat(Request(key, window + 1), rate);
    BurstIsMonotone(rate, window, key);
    AnswerOfFirst(rate, window, map[], key, 0, first + second, 1, 1 + window);
    assert Counted(window, map[], key, 0) == map[key := Visitor(1, window)];
    FirstWindow(rate, window, key, second);
    SecondWindow(rate, window, map[key := Visitor(rate, window)], key);
  }

  lemma AnswerOfFirst(rate: int, window: nat, visitors: map<Key, Visitor>, key: Key, now: Time, rest: seq<Event>,
                      from: Time, to: Time)
    ensures Passed(Answers(rate, window, visitors, [Request(key, now)] + rest), key, from, to)
         == (if from <= now <= to && Granted(rate, visitors, key, now) then 1 else 0)
            + Passed(Answers(rate, window, Counted(window, visitors, key, now), rest), key, from, to)
  {
    var events, next := [Request(key, now)] + rest, Counted(window, visitors, key, now);
    assert events[1..] == rest;
    assert Answers(rate, window, visitors, events)[1..] == Answers(rate, window, next, rest);
  }

  lemma FirstWindow(rate: int, window: nat, key: Key, rest: seq<Event>)
    requires rate >= 1 && window >= 1
    ensures Passed(Answers(rate, window, map[key := Visitor(1, window)], Repeat(Request(key, window), rate - 1) + rest),
                   key, 1, 1 + window)
         == rate - 1 + Passed(Answers(rate, window, map[key := Visitor(rate, window)], rest), key, 1, 1 + window)
  {
    var once := map[key := Visitor(1, window)];
    RunRepeat(rate, window, once, key, window, rate - 1, rest);
    assert once[key := once[key].(count := once[key].count + (rate - 1))] == map[key := Visitor(rate, window)];
  }

  lemma SecondWindow(rate: int, window: nat, visitors: map<Key, Visitor>, key: Key)
    requires rate >= 1 && window >= 1
    requires key in visitors && visitors[key].resetAt == window
    ensures Passed(Answers(rate, window, visitors, Repeat(Request(key, window + 1), rate)), key, 1, 1 + window) == rate
  {
    var second := Repeat(Request(key, window + 1), rate);
    assert second[1..] == Repeat(Request(key, window + 1), rate - 1) + [];
    RunRepeat(rate, window, Counted(window, visitors, key, window + 1), key, window + 1, rate - 1, []);
  }

  lemma {:induction false} RepeatIs(e: Event, n: nat)
    ensures |Repeat(e, n)| == n && forall i :: 0 <= i < n ==> Repeat(e, n)[i] == e
  {
    if n > 0 {
      RepeatIs(e, n - 1);
    }
  }

  /** While the quota lasts every one of n simultaneous requests passes. */
  lemma {:induction false} RunRepeat(rate: int, window: nat, visitors: map<Key, Visitor>, key: Key, now: Time, n: nat,
                                     rest: seq<Event>)
    requires key in visitors && !Expired(visitors[key], now) && visitors[key].count + n <= rate
    requires 1 <= now <= window + 1
    ensures Passed(Answers(rate, window, visitors, Repeat(Request(key, now), n) + rest), key, 1, 1 + window)
         == n + Passed(Answers(rate, window,
                               visitors[key := visitors[key].(count := visitors[key].count + n)], rest),
                       key, 1, 1 + window)
  {
    if n == 0 {
      assert Repeat(Request(key, now), n) + rest == rest;
      assert visitors[key := visitors[key].(count := visitors[key].count + n)] == visitors;
    } else {
      var more, next := Repeat(Request(key, now), n - 1) + rest, Counted(window, visitors, key, now);
      assert Repeat(Request(key, now), n) + rest == [Request(key, now)] + more;
      AnswerOfFirst(rate, window, visitors, key, now, more, 1, 1 + window);
      RunRepeat(rate, window, next, key, now, n - 1, rest);
      assert next[key := next[key].(count := next[key].count + (n - 1))]
          == visitors[key := visitors[key].(count := visitors[key].count + n)];
    }
  }
}
