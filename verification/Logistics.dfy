/** Delivery routes: stops are visited in order, one at a time. */
module Logistics {
  import opened Common

  type Id = nat

  type Time = int

  datatype RouteStatus = Planned | InProgress | Finished

  datatype Route = Route(name: string, status: RouteStatus)

  datatype StopStatus = Pending | Arrived | Completed

  datatype Stop = Stop(id: Id, route: Id, sortOrder: nat, address: string, status: StopStatus, arrival: Option<Time>)

  /** `stops` is the stop table of all routes in insertion order. */
  datatype Tables = Tables(routes: map<Id, Route>, stops: seq<Stop>, nextId: Id)

  const EMPTY_TABLES := Tables(map[], [], 0)

  datatype Op =
    | CreateRoute(name: string, addresses: seq<string>)
    | StartRoute(route: Id)
    | CompleteRoute(route: Id)
    | ArriveAtStop(route: Id, stop: Id, now: Time)
    | CompleteStop(route: Id, stop: Id)

  // ---------- What each call does to the tables ----------

  /** The position of the stop with this id, or the number of stops. */
  function FindStop(stops: seq<Stop>, id: Id): (k: nat)
    ensures k <= |stops| && (k < |stops| ==> stops[k].id == id)
    ensures forall j :: 0 <= j < k ==> stops[j].id != id
  {
    if stops == [] || stops[0].id == id then 0 else 1 + FindStop(stops[1..], id)
  }

  /** The stops of a route in sort order. */
  function ListStops(stops: seq<Stop>, route: Id): seq<Stop> {
    if stops == [] then []
    else if stops[|stops| - 1].route == route then ListStops(stops[..|stops| - 1], route) + [stops[|stops| - 1]]
    else ListStops(stops[..|stops| - 1], route)
  }

  function NewStops(route: Id, addresses: seq<string>, firstId: Id): seq<Stop> {
    seq(|addresses|, i requires 0 <= i < |addresses| => Stop(firstId + i, route, i, addresses[i], Pending, None))
  }

  predicate EarlierDone(stops: seq<Stop>, stop: Stop) {
    forall k :: 0 <= k < |stops| && stops[k].route == stop.route && stops[k].sortOrder < stop.sortOrder ==>
      stops[k].status == Completed
  }

  function StopRefusal(t: Tables, route: Id, stop: Id, wanted: StopStatus): Option<ErrorCode> {
    var k := FindStop(t.stops, stop);
    if k == |t.stops| || t.stops[k].route != route then Some(NotFound)
    else if t.stops[k].status != wanted then Some(Conflict)
    else None
  }

  function RouteRefusal(t: Tables, route: Id, wanted: RouteStatus): Option<ErrorCode> {
    if route !in t.routes then Some(NotFound)
    else if t.routes[route].status != wanted then Some(Conflict)
    else None
  }

  function Refusal(t: Tables, op: Op): Option<ErrorCode> {
    match op
    case CreateRoute(name, _) => if name == "" then Some(BadRequest) else None
    case StartRoute(route) => RouteRefusal(t, route, Planned)
    case CompleteRoute(route) => RouteRefusal(t, route, InProgress)
    case ArriveAtStop(route, stop, _) =>
      var refusal := StopRefusal(t, route, stop, Pending);
      if refusal.Some? then refusal
      else if !EarlierDone(t.stops, t.stops[FindStop(t.stops, stop)]) then Some(Conflict)
      else None
    case CompleteStop(route, stop) => StopRefusal(t, route, stop, Arrived)
  }

  function After(t: Tables, op: Op): Tables {
    if Refusal(t, op).Some? then t
    else
      match op
      case CreateRoute(name, addresses) =>
        Tables(t.routes[t.nextId := Route(name, Planned)], t.stops + NewStops(t.nextId, addresses, t.nextId + 1),
               t.nextId + 1 + |addresses|)
      case StartRoute(route) => t.(routes := t.routes[route := t.routes[route].(status := InProgress)])
      case CompleteRoute(route) => t.(routes := t.routes[route := t.routes[route].(status := Finished)])
      case ArriveAtStop(_, stop, now) =>
        var k := FindStop(t.stops, stop);
        t.(stops := t.stops[k := t.stops[k].(status := Arrived, arrival := Some(now))])
      case CompleteStop(_, stop) =>
        var k := FindStop(t.stops, stop);
        t.(stops := t.stops[k := t.stops[k].(status := Completed)])
  }

  function Run(t: Tables, ops: seq<Op>): Tables {
    if ops == [] then t else After(Run(t, ops[..|ops| - 1]), ops[|ops| - 1])
  }

  // ---------- The service ----------

  class LogisticsService {
    var routes: map<Id, Route>
    var stops: seq<Stop>
    var nextId: Id

    function View(): Tables
      reads this
    {
      Tables(routes, stops, nextId)
    }

    constructor ()
      ensures View() == EMPTY_TABLES
    {
      routes, stops, nextId := map[], [], 0;
    }

    method Create(name: string, addresses: seq<string>) returns (err: Option<ErrorCode>)
      modifies this
      ensures err == Refusal(old(View()), CreateRoute(name, addresses))
      ensures View() == After(old(View()), CreateRoute(name, addresses))
    {
      if name == "" {
        return Some(BadRequest);
      }
      var route := nextId;
      routes := routes[route := Route(name, Planned)];
      var created: seq<Stop> := [];
      for i := 0 to |addresses|
        invariant created == NewStops(route, addresses, route + 1)[..i]
      {
        created := created + [Stop(route + 1 + i, route, i, addresses[i], Pending, None)];
      }
      assert created == NewStops(route, addresses, route + 1);
      stops := stops + created;
      nextId := route + 1 + |addresses|;
      return None;
    }

    method Start(route: Id) returns (err: Option<ErrorCode>)
      modifies this
      ensures err == Refusal(old(View()), StartRoute(route)) && View() == After(old(View()), StartRoute(route))
    {
      if route !in routes {
        return Some(NotFound);
      }
      if routes[route].status != Planned {
        return Some(Conflict);
      }
      routes := routes[route := routes[route].(status := InProgress)];
      return None;
    }

    method Complete(route: Id) returns (err: Option<ErrorCode>)
      modifies this
      ensures err == Refusal(old(View()), CompleteRoute(route)) && View() == After(old(View()), CompleteRoute(route))
    {
      if route !in routes {
        return Some(NotFound);
      }
      if routes[route].status != InProgress {
        return Some(Conflict);
      }
      routes := routes[route := routes[route].(status := Finished)];
      return None;
    }

    method Arrive(route: Id, stopId: Id, now: Time) returns (err: Option<ErrorCode>)
      modifies this
      ensures err == Refusal(old(View()), ArriveAtStop(route, stopId, now))
      ensures View() == After(old(View()), ArriveAtStop(route, stopId, now))
    {
      var k := FindStop(stops, stopId);
      if k == |stops| {
        return Some(NotFound);
      }
      var stop := stops[k];
      if stop.route != route {
        return Some(NotFound);
      }
      if stop.status != Pending {
        return Some(Conflict);
      }
      var listed := ListStops(stops, route);
      ListedStops(stops, route);
      for i := 0 to |listed|
        invariant forall j :: 0 <= j < i && listed[j].sortOrder < stop.sortOrder ==> listed[j].status == Completed
      {
        var prev := listed[i];
        if prev.sortOrder < stop.sortOrder && prev.status != Completed {
          assert prev in listed;
          return Some(Conflict);
        }
      }
      forall j | 0 <= j < |stops| && stops[j].route == route && stops[j].sortOrder < stop.sortOrder
        ensures stops[j].status == Completed
      {
        assert stops[j] in listed;
      }
      stops := stops[k := stop.(status := Arrived, arrival := Some(now))];
      return None;
    }

    method CompleteVisit(route: Id, stopId: Id) returns (err: Option<ErrorCode>)
      modifies this
      ensures err == Refusal(old(View()), CompleteStop(route, stopId))
      ensures View() == After(old(View()), CompleteStop(route, stopId))
    {
      var k := FindStop(stops, stopId);
      if k == |stops| {
        return Some(NotFound);
      }
      var stop := stops[k];
      if stop.route != route {
        return Some(NotFound);
      }
      if stop.status != Arrived {
        return Some(Conflict);
      }
      stops := stops[k := stop.(status := Completed)];
      return None;
    }
  }

  lemma {:induction false} ListedStops(stops: seq<Stop>, route: Id)
    ensures forall s :: s in ListStops(stops, route) <==> s in stops && s.route == route
  {
    if stops != [] {
      ListedStops(stops[..|stops| - 1], route);
      assert stops == stops[..|stops| - 1] + [stops[|stops| - 1]];
    }
  }

  // ---------- What every run keeps ----------

  ghost predicate Monotone(ops: seq<Op>) {
    forall i, j :: 0 <= i < j < |ops| && ops[i].ArriveAtStop? && ops[j].ArriveAtStop? ==> ops[i].now <= ops[j].now
  }

  /** Of two stops of a route the earlier one is done before the later one is visited, and was reached first. */
  ghost predicate InOrder(a: Stop, b: Stop) {
    a.route == b.route ==>
      && a.sortOrder < b.sortOrder
      && (b.status != Pending ==> a.status == Completed)
      && (a.arrival.Some? && b.arrival.Some? ==> a.arrival.value <= b.arrival.value)
  }

  ghost predicate Visited(s: Stop, clock: Time) {
    && (s.arrival.Some? <==> s.status != Pending)
    && (s.arrival.Some? ==> s.arrival.value <= clock)
  }

  ghost predicate Orderly(t: Tables, clock: Time) {
    && (forall i :: 0 <= i < |t.stops| ==> t.stops[i].id < t.nextId && t.stops[i].route < t.nextId)
    && (forall i, j :: 0 <= i < j < |t.stops| ==> t.stops[i].id != t.stops[j].id && InOrder(t.stops[i], t.stops[j]))
    && (forall i :: 0 <= i < |t.stops| ==> Visited(t.stops[i], clock))
  }

  lemma CallStaysOrderly(t: Tables, op: Op, clock: Time)
    requires Orderly(t, clock)
    requires op.ArriveAtStop? ==> clock <= op.now
    ensures Orderly(After(t, op), if op.ArriveAtStop? then op.now else clock)
  {
    if Refusal(t, op).None? {
      match op {
        case CreateRoute(name, addresses) => CreationStaysOrderly(t, name, addresses, clock);
        case ArriveAtStop(route, stop, now) => ArrivalStaysOrderly(t, route, stop, now, clock);
        case CompleteStop(route, stop) => CompletionStaysOrderly(t, route, stop, clock);
        case _ =>
      }
    }
  }

  lemma CreationStaysOrderly(t: Tables, name: string, addresses: seq<string>, clock: Time)
    requires Orderly(t, clock) && Refusal(t, CreateRoute(name, addresses)).None?
    ensures Orderly(After(t, CreateRoute(name, addresses)), clock)
  {
    var t', created := After(t, CreateRoute(name, addresses)), NewStops(t.nextId, addresses, t.nextId + 1);
    forall i, j | 0 <= i < j < |t'.stops|
      ensures t'.stops[i].id != t'.stops[j].id && InOrder(t'.stops[i], t'.stops[j])
    {
      if j >= |t.stops| {
        assert t'.stops[j] == created[j - |t.stops|];
      }
    }
  }

  lemma ArrivalStaysOrderly(t: Tables, route: Id, stop: Id, now: Time, clock: Time)
    requires Orderly(t, clock) && clock <= now && Refusal(t, ArriveAtStop(route, stop, now)).None?
    ensures Orderly(After(t, ArriveAtStop(route, stop, now)), now)
  {
    var k := FindStop(t.stops, stop);
    var t' := After(t, ArriveAtStop(route, stop, now));
    forall i, j | 0 <= i < j < |t'.stops| ensures InOrder(t'.stops[i], t'.stops[j]) {
      assert InOrder(t.stops[i], t.stops[j]);
      assert EarlierDone(t.stops, t.stops[k]);
    }
  }

  lemma CompletionStaysOrderly(t: Tables, route: Id, stop: Id, clock: Time)
    requires Orderly(t, clock) && Refusal(t, CompleteStop(route, stop)).None?
    ensures Orderly(After(t, CompleteStop(route, stop)), clock)
  {
    var t' := After(t, CompleteStop(route, stop));
    forall i, j | 0 <= i < j < |t'.stops| ensures InOrder(t'.stops[i], t'.stops[j]) {
      assert InOrder(t.stops[i], t.stops[j]);
    }
  }

  lemma {:induction false} RunStaysOrderly(ops: seq<Op>, clock: Time)
    requires Monotone(ops)
    requires forall i :: 0 <= i < |ops| && ops[i].ArriveAtStop? ==> ops[i].now <= clock
    ensures Orderly(Run(EMPTY_TABLES, ops), clock)
  {
    if ops != [] {
      var before, op := ops[..|ops| - 1], ops[|ops| - 1];
      if op.ArriveAtStop? {
        assert forall i :: 0 <= i < |before| ==> before[i] == ops[i];
        RunStaysOrderly(before, op.now);
        CallStaysOrderly(Run(EMPTY_TABLES, before), op, op.now);
      } else {
        RunStaysOrderly(before, clock);
        CallStaysOrderly(Run(EMPTY_TABLES, before), op, clock);
      }
    }
  }

  function LatestArrival(ops: seq<Op>): Time {
    if ops == [] then 0
    else
      var before := LatestArrival(ops[..|ops| - 1]);
      if ops[|ops| - 1].ArriveAtStop? && ops[|ops| - 1].now > before then ops[|ops| - 1].now else before
  }

  lemma {:induction false} LatestIsLatest(ops: seq<Op>)
    ensures forall i :: 0 <= i < |ops| && ops[i].ArriveAtStop? ==> ops[i].now <= LatestArrival(ops)
  {
    if ops != [] {
      LatestIsLatest(ops[..|ops| - 1]);
    }
  }

  /** Members of the listing come from the table in table order. */
  lemma {:induction false} ListingOrder(stops: seq<Stop>, route: Id, i: nat, j: nat) returns (a: nat, b: nat)
    requires i < j < |ListStops(stops, route)|
    ensures a < b < |stops|
    ensures stops[a] == ListStops(stops, route)[i] && stops[b] == ListStops(stops, route)[j]
    ensures stops[a].route == route && stops[b].route == route
  {
    var n := |stops| - 1;
    if stops[n].route == route && j == |ListStops(stops, route)| - 1 {
      ListedStops(stops[..n], route);
      assert ListStops(stops[..n], route)[i] in ListStops(stops[..n], route);
      a :| 0 <= a < n && stops[a] == ListStops(stops, route)[i];
      b := n;
    } else {
      a, b := ListingOrder(stops[..n], route, i, j);
    }
  }

  /** The number of leading completed stops. */
  function Done(stops: seq<Stop>): (n: nat)
    ensures n <= |stops|
    ensures forall i :: 0 <= i < n ==> stops[i].status == Completed
    ensures n < |stops| ==> stops[n].status != Completed
  {
    if stops == [] || stops[0].status != Completed then 0 else 1 + Done(stops[1..])
  }

  /** In sort order: completed stops, then at most one arrived stop, then pending stops; sort orders increase and
      arrival times never decrease. */
  lemma StopsVisitedInOrder(ops: seq<Op>, route: Id)
    requires Monotone(ops)
    ensures var listed := ListStops(Run(EMPTY_TABLES, ops).stops, route);
            && (forall i :: Done(listed) < i < |listed| ==> listed[i].status == Pending)
            && (forall i, j :: 0 <= i < j < |listed| ==> InOrder(listed[i], listed[j]))
            && (forall i :: 0 <= i < |listed| ==> (listed[i].arrival.Some? <==> listed[i].status != Pending))
  {
    var t := Run(EMPTY_TABLES, ops);
    var listed := ListStops(t.stops, route);
    LatestIsLatest(ops);
    RunStaysOrderly(ops, LatestArrival(ops));
    ListedStops(t.stops, route);
    forall i, j | 0 <= i < j < |listed| ensures InOrder(listed[i], listed[j]) && listed[i].route == listed[j].route {
      var a, b := ListingOrder(t.stops, route, i, j);
    }
    forall i | 0 <= i < |listed| ensures listed[i].arrival.Some? <==> listed[i].status != Pending {
      assert listed[i] in listed;
    }
    forall i | Done(listed) < i < |listed| ensures listed[i].status == Pending {
      assert InOrder(listed[Done(listed)], listed[i]);
    }
  }

  // ---------- How many steps can succeed ----------

  function Steps(s: Stop): nat {
    match s.status case Pending => 0 case Arrived => 1 case Completed => 2
  }

  function StepsDone(stops: seq<Stop>): nat {
    if stops == [] then 0 else StepsDone(stops[..|stops| - 1]) + Steps(stops[|stops| - 1])
  }

  /** Accepted arrivals and completions on a route in a run. */
  function Accepted(ops: seq<Op>, route: Id): nat {
    if ops == [] then 0
    else
      var op := ops[|ops| - 1];
      Accepted(ops[..|ops| - 1], route)
      + (if (op.ArriveAtStop? || op.CompleteStop?) && op.route == route
            && Refusal(Run(EMPTY_TABLES, ops[..|ops| - 1]), op).None? then 1 else 0)
  }

  lemma {:induction false} ListingAppends(stops: seq<Stop>, more: seq<Stop>, route: Id)
    ensures ListStops(stops + more, route) == ListStops(stops, route) + ListStops(more, route)
  {
    if more == [] {
      assert stops + more == stops;
    } else {
      ListingAppends(stops, more[..|more| - 1], route);
      assert (stops + more)[..|stops + more| - 1] == stops + more[..|more| - 1];
    }
  }

  lemma {:induction false} StepsAppend(a: seq<Stop>, b: seq<Stop>)
    ensures StepsDone(a + b) == StepsDone(a) + StepsDone(b)
  {
    if b == [] {
      assert a + b == a;
    } else {
      StepsAppend(a, b[..|b| - 1]);
      assert (a + b)[..|a + b| - 1] == a + b[..|b| - 1];
    }
  }

  lemma {:induction false} PendingStopsHaveNoSteps(stops: seq<Stop>, route: Id)
    requires forall i :: 0 <= i < |stops| ==> stops[i].status == Pending
    ensures StepsDone(ListStops(stops, route)) == 0
  {
    if stops != [] {
      PendingStopsHaveNoSteps(stops[..|stops| - 1], route);
      StepsAppend(ListStops(stops[..|stops| - 1], route), [stops[|stops| - 1]]);
      assert [stops[|stops| - 1]][..0] == [];
    }
  }

  lemma {:induction false} UpdatedStop(stops: seq<Stop>, k: nat, s: Stop, route: Id)
    requires k < |stops| && s.route == stops[k].route
    ensures StepsDone(ListStops(stops[k := s], route))
         == StepsDone(ListStops(stops, route)) + (if s.route == route then Steps(s) - Steps(stops[k]) else 0)
    ensures |ListStops(stops[k := s], route)| == |ListStops(stops, route)|
  {
    var n := |stops| - 1;
    if k < n {
      UpdatedStop(stops[..n], k, s, route);
      assert stops[k := s][..n] == stops[..n][k := s];
    } else {
      assert stops[k := s][..n] == stops[..n];
    }
    if stops[n].route == route {
      var before := ListStops(stops[..n], route);
      assert (before + [stops[n]])[..|before|] == before;
      var before' := ListStops(stops[k := s][..n], route);
      assert (before' + [stops[k := s][n]])[..|before'|] == before';
    }
  }

  lemma NewStopsCountNothing(t: Tables, addresses: seq<string>, route: Id)
    ensures StepsDone(ListStops(t.stops + NewStops(t.nextId, addresses, t.nextId + 1), route))
         == StepsDone(ListStops(t.stops, route))
  {
    var created := NewStops(t.nextId, addresses, t.nextId + 1);
    ListingAppends(t.stops, created, route);
    StepsAppend(ListStops(t.stops, route), ListStops(created, route));
    PendingStopsHaveNoSteps(created, route);
  }

  lemma VisitCounts(t: Tables, op: Op, route: Id)
    requires (op.ArriveAtStop? || op.CompleteStop?) && Refusal(t, op).None?
    ensures StepsDone(ListStops(After(t, op).stops, route))
         == StepsDone(ListStops(t.stops, route)) + (if op.route == route then 1 else 0)
  {
    var k := FindStop(t.stops, op.stop);
    var visited := if op.ArriveAtStop? then t.stops[k].(status := Arrived, arrival := Some(op.now))
                   else t.stops[k].(status := Completed);
    UpdatedStop(t.stops, k, visited, route);
    assert After(t, op).stops == t.stops[k := visited];
  }

  lemma StepCounts(t: Tables, op: Op, route: Id)
    ensures StepsDone(ListStops(After(t, op).stops, route)) == StepsDone(ListStops(t.stops, route))
              + (if (op.ArriveAtStop? || op.CompleteStop?) && op.route == route && Refusal(t, op).None? then 1 else 0)
  {
    if Refusal(t, op).None? {
      match op {
        case CreateRoute(_, addresses) => NewStopsCountNothing(t, addresses, route);
        case ArriveAtStop(_, _, _) => VisitCounts(t, op, route);
        case CompleteStop(_, _) => VisitCounts(t, op, route);
        case _ =>
      }
    }
  }

  lemma {:induction false} StepsBound(stops: seq<Stop>)
    ensures StepsDone(stops) <= 2 * |stops|
    ensures StepsDone(stops) == 2 * |stops| <==> forall i :: 0 <= i < |stops| ==> stops[i].status == Completed
  {
    if stops != [] {
      StepsBound(stops[..|stops| - 1]);
    }
  }

  lemma {:induction false} AcceptedAreStepsDone(ops: seq<Op>, route: Id)
    ensures Accepted(ops, route) == StepsDone(ListStops(Run(EMPTY_TABLES, ops).stops, route))
  {
    if ops != [] {
      AcceptedAreStepsDone(ops[..|ops| - 1], route);
      StepCounts(Run(EMPTY_TABLES, ops[..|ops| - 1]), ops[|ops| - 1], route);
    }
  }

  /** At most two steps per stop ever succeed on a route, and all of them have exactly when every stop is completed. */
  lemma AtMostTwoStepsPerStop(ops: seq<Op>, route: Id)
    ensures var listed := ListStops(Run(EMPTY_TABLES, ops).stops, route);
            && Accepted(ops, route) <= 2 * |listed|
            && (Accepted(ops, route) == 2 * |listed| <==>
                  forall i :: 0 <= i < |listed| ==> listed[i].status == Completed)
  {
    AcceptedAreStepsDone(ops, route);
    StepsBound(ListStops(Run(EMPTY_TABLES, ops).stops, route));
  }

  // ---------- What the single calls do ----------

  lemma {:induction false} OwnStopsListed(stops: seq<Stop>, route: Id)
    requires forall i :: 0 <= i < |stops| ==> stops[i].route == route
    ensures ListStops(stops, route) == stops
  {
    if stops != [] {
      OwnStopsListed(stops[..|stops| - 1], route);
      assert stops == stops[..|stops| - 1] + [stops[|stops| - 1]];
    }
  }

  lemma {:induction false} OtherStopsUnlisted(stops: seq<Stop>, route: Id)
    requires forall i :: 0 <= i < |stops| ==> stops[i].route != route
    ensures ListStops(stops, route) == []
  {
    if stops != [] {
      OtherStopsUnlisted(stops[..|stops| - 1], route);
    }
  }

  /** A fresh route is planned and lists one pending stop per address, in the order the addresses were given. */
  lemma FreshRouteListsAddresses(ops: seq<Op>, name: string, addresses: seq<string>)
    requires name != "" && Monotone(ops)
    ensures var t := Run(EMPTY_TABLES, ops);
            var t' := After(t, CreateRoute(name, addresses));
            var listed := ListStops(t'.stops, t.nextId);
            && t.nextId in t'.routes && t'.routes[t.nextId] == Route(name, Planned)
            && |listed| == |addresses|
            && forall i :: 0 <= i < |addresses| ==>
                 && listed[i].address == addresses[i] && listed[i].sortOrder == i
                 && listed[i].status == Pending && listed[i].arrival.None?
  {
    LatestIsLatest(ops);
    RunStaysOrderly(ops, LatestArrival(ops));
    NewStopsAreListed(Run(EMPTY_TABLES, ops).stops, Run(EMPTY_TABLES, ops).nextId, addresses);
  }

  lemma NewStopsAreListed(stops: seq<Stop>, nextId: Id, addresses: seq<string>)
    requires forall i :: 0 <= i < |stops| ==> stops[i].route < nextId
    ensures ListStops(stops + NewStops(nextId, addresses, nextId + 1), nextId)
            == NewStops(nextId, addresses, nextId + 1)
  {
    var created := NewStops(nextId, addresses, nextId + 1);
    ListingAppends(stops, created, nextId);
    OtherStopsUnlisted(stops, nextId);
    OwnStopsListed(created, nextId);
  }

  /** An accepted arrival stamps its stop with the current time; an accepted completion keeps the stamp; no other stop
      and nothing else of the stop changes. */
  lemma VisitsMarkOneStop(t: Tables, op: Op, i: nat)
    ensures i < |t.stops| && (op.ArriveAtStop? || op.CompleteStop?) && Refusal(t, op).None? ==>
              && |After(t, op).stops| == |t.stops| && After(t, op).routes == t.routes
              && (i == FindStop(t.stops, op.stop) && op.ArriveAtStop? ==>
                    t.stops[i].status == Pending
                    && After(t, op).stops[i] == t.stops[i].(status := Arrived, arrival := Some(op.now)))
              && (i == FindStop(t.stops, op.stop) && op.CompleteStop? ==>
                    t.stops[i].status == Arrived && After(t, op).stops[i] == t.stops[i].(status := Completed))
              && (i != FindStop(t.stops, op.stop) ==> After(t, op).stops[i] == t.stops[i])
  {
  }

  /** A route's status can change by some call exactly from planned to in progress and from there to finished. */
  lemma RouteMovesExactly(t: Tables, route: Id, to: RouteStatus)
    requires route in t.routes && route < t.nextId && t.routes[route].status != to
    ensures (exists op :: route in After(t, op).routes && After(t, op).routes[route].status == to) <==>
              (t.routes[route].status == Planned && to == InProgress)
              || (t.routes[route].status == InProgress && to == Finished)
  {
    var start, finish := After(t, StartRoute(route)), After(t, CompleteRoute(route));
    if t.routes[route].status == Planned && to == InProgress {
      assert route in start.routes && start.routes[route].status == to;
    }
    if t.routes[route].status == InProgress && to == Finished {
      assert route in finish.routes && finish.routes[route].status == to;
    }
  }

  /** A visit is accepted if and only if the stop is one of the route's, in the right status, and for an arrival no
      earlier stop of the route is left uncompleted. A refusal says that the name is missing, that the route or stop is,
      or that a status forbids the call. */
  lemma VisitsAcceptedExactly(t: Tables, op: Op)
    ensures op.ArriveAtStop? || op.CompleteStop? ==>
              (Refusal(t, op).None? <==>
                 exists k :: 0 <= k < |t.stops| && t.stops[k].id == op.stop && t.stops[k].route == op.route
                             && (forall j :: 0 <= j < k ==> t.stops[j].id != op.stop)
                             && t.stops[k].status == (if op.ArriveAtStop? then Pending else Arrived)
                             && (op.ArriveAtStop? ==> EarlierDone(t.stops, t.stops[k])))
    ensures Refusal(t, op) == Some(BadRequest) ==> op == CreateRoute("", op.addresses)
    ensures Refusal(t, op) == Some(NotFound) && (op.StartRoute? || op.CompleteRoute?) ==> op.route !in t.routes
    ensures Refusal(t, op) == Some(NotFound) ==>
              !op.CreateRoute?
              && (op.ArriveAtStop? || op.CompleteStop? ==>
                    forall k :: 0 <= k < |t.stops| && t.stops[k].id == op.stop && t.stops[k].route == op.route ==>
                      exists j :: 0 <= j < k && t.stops[j].id == op.stop)
    ensures Refusal(t, op) == Some(Conflict) && (op.StartRoute? || op.CompleteRoute?) ==> op.route in t.routes
    ensures Refusal(t, op) == Some(Conflict) && (op.ArriveAtStop? || op.CompleteStop?) ==>
              exists k :: 0 <= k < |t.stops| && t.stops[k].id == op.stop && t.stops[k].route == op.route
  {
  }
}
