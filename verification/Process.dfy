/** The process engine: instances of state machines driven by events. */
module Process {
  import opened Common
  import opened Dsl

  type Id = nat

  datatype Event = Event(kind: string, entity: Option<Id>, data: string)

  datatype HistoryEntry = HistoryEntry(source: string, target: string, event: string)

  datatype Status = Active | Completed

  datatype Instance = Instance(definitionId: string, entity: Id, current: string, status: Status,
                               history: seq<HistoryEntry>)

  type Registry = map<string, ProcessDefinition>

  /** The verdict of a condition on the data of an event. */
  type Evaluator = (Condition, string) -> bool

  // ---------- One event ----------

  predicate Matches(tr: Transition, eval: Evaluator, ev: Event) {
    tr.event == ev.kind && (tr.condition.None? || eval(tr.condition.value, ev.data))
  }

  /** The position of the first transition that matches, or their number. */
  function FirstMatch(trs: seq<Transition>, eval: Evaluator, ev: Event): (k: nat)
    ensures k <= |trs| && (k < |trs| ==> Matches(trs[k], eval, ev))
    ensures forall j :: 0 <= j < k ==> !Matches(trs[j], eval, ev)
  {
    if trs == [] || Matches(trs[0], eval, ev) then 0 else 1 + FirstMatch(trs[1..], eval, ev)
  }

  /** A missing state counts as not terminal. */
  predicate Terminal(def: ProcessDefinition, state: string) { state in def.states && def.states[state].terminal }

  function Advanced(def: ProcessDefinition, eval: Evaluator, inst: Instance, ev: Event): Instance {
    if inst.current !in def.states then inst
    else
      var trs := def.states[inst.current].transitions;
      var k := FirstMatch(trs, eval, ev);
      if k == |trs| then inst
      else
        inst.(current := trs[k].target,
              history := inst.history + [HistoryEntry(inst.current, trs[k].target, ev.kind)],
              status := if Terminal(def, trs[k].target) then Completed else inst.status)
  }

  function Started(defs: Registry, insts: seq<Instance>, ev: Event): seq<Instance> {
    if ev.kind in defs && ev.entity.Some?
    then insts + [Instance(defs[ev.kind].id, ev.entity.value, defs[ev.kind].initState, Active, [])]
    else insts
  }

  /** A definition is looked up by id; when several registered definitions carry it, any of them may be found. */
  ghost predicate Moved(defs: Registry, eval: Evaluator, ev: Event, before: Instance, after: Instance) {
    if ev.entity == Some(before.entity) && before.status == Active then
      (exists t :: t in defs && defs[t].id == before.definitionId && after == Advanced(defs[t], eval, before, ev))
      || (after == before && forall t :: t in defs ==> defs[t].id != before.definitionId)
    else after == before
  }

  /** An event may start an instance, then every active instance of its entity, the new one included, may move. */
  ghost predicate Handled(defs: Registry, eval: Evaluator, ev: Event, before: seq<Instance>, after: seq<Instance>) {
    var started := Started(defs, before, ev);
    && |after| == |started|
    && forall i :: 0 <= i < |after| ==> Moved(defs, eval, ev, started[i], after[i])
  }

  /** An event moves an instance along the first transition of its state with the event's type whose condition, if any,
      is true, and completes it when the target is terminal; without such a transition, or in a state the definition
      does not have, the instance stays as it is. */
  lemma MovesByVerdict(def: ProcessDefinition, eval: Evaluator, inst: Instance, ev: Event, k: nat)
    ensures inst.current !in def.states ==> Advanced(def, eval, inst, ev) == inst
    ensures inst.current in def.states ==>
              var trs := def.states[inst.current].transitions;
              && (k < |trs| && trs[k].event == ev.kind
                  && (trs[k].condition.Some? ==> eval(trs[k].condition.value, ev.data))
                  && (forall j :: 0 <= j < k && trs[j].event == ev.kind ==>
                        trs[j].condition.Some? && !eval(trs[j].condition.value, ev.data)) ==>
                  Advanced(def, eval, inst, ev)
                    == inst.(current := trs[k].target,
                             history := inst.history + [HistoryEntry(inst.current, trs[k].target, ev.kind)],
                             status := if trs[k].target in def.states && def.states[trs[k].target].terminal
                                       then Completed else inst.status))
              && ((forall j :: 0 <= j < |trs| && trs[j].event == ev.kind ==>
                     trs[j].condition.Some? && !eval(trs[j].condition.value, ev.data)) ==>
                  Advanced(def, eval, inst, ev) == inst)
  {
  }

  /** An event starts at most one instance: of the definition it triggers, if there is one, on the event's entity, if it
      has one. */
  lemma StartsOne(defs: Registry, insts: seq<Instance>, ev: Event)
    ensures Started(defs, insts, ev)[..|insts|] == insts
    ensures ev.kind !in defs || ev.entity.None? ==> |Started(defs, insts, ev)| == |insts|
    ensures ev.kind in defs && ev.entity.Some? ==>
              && |Started(defs, insts, ev)| == |insts| + 1
              && var inst := Started(defs, insts, ev)[|insts|];
                 && inst.definitionId == defs[ev.kind].id && inst.entity == ev.entity.value
                 && inst.current == defs[ev.kind].initState && inst.status == Active && inst.history == []
  {
  }

  class Engine {
    const eval: Evaluator
    var defs: Registry
    var instances: seq<Instance>

    constructor (eval: Evaluator)
      ensures this.eval == eval && defs == map[] && instances == []
    {
      this.eval := eval;
      defs, instances := map[], [];
    }

    method HandleEvent(ev: Event)
      modifies this
      ensures defs == old(defs)
      ensures Handled(defs, eval, ev, old(instances), instances)
    {
      if ev.kind in defs && ev.entity.Some? {
        var def := defs[ev.kind];
        instances := instances + [Instance(def.id, ev.entity.value, def.initState, Active, [])];
      }
      if ev.entity.None? {
        return;
      }
      ghost var started := instances;
      for i := 0 to |instances|
        invariant |instances| == |started|
        invariant defs == old(defs)
        invariant forall j :: 0 <= j < i ==> Moved(defs, eval, ev, started[j], instances[j])
        invariant forall j :: i <= j < |instances| ==> instances[j] == started[j]
      {
        if instances[i].entity == ev.entity.value && instances[i].status == Active {
          var moved := AdvanceInstance(instances[i], ev);
          instances := instances[i := moved];
        }
      }
    }

    method AdvanceInstance(inst: Instance, ev: Event) returns (moved: Instance)
      requires ev.entity == Some(inst.entity) && inst.status == Active
      ensures Moved(defs, eval, ev, inst, moved)
    {
      var found := FindDefinition(inst.definitionId);
      if found.None? {
        return inst;
      }
      var def := found.value;
      if inst.current !in def.states {
        return inst;
      }
      var trs := def.states[inst.current].transitions;
      for k := 0 to |trs|
        invariant k <= FirstMatch(trs, eval, ev)
      {
        var tr := trs[k];
        if tr.event != ev.kind {
          continue;
        }
        if tr.condition.Some? && !eval(tr.condition.value, ev.data) {
          continue;
        }
        var entry := HistoryEntry(inst.current, tr.target, ev.kind);
        moved := inst.(history := inst.history + [entry], current := tr.target);
        if tr.target in def.states && def.states[tr.target].terminal {
          moved := moved.(status := Completed);
        }
        assert moved == Advanced(def, eval, inst, ev);
        return;
      }
      assert inst == Advanced(def, eval, inst, ev);
      return inst;
    }

    method FindDefinition(id: string) returns (found: Option<ProcessDefinition>)
      ensures found.Some? ==> exists t :: t in defs && defs[t].id == id && found.value == defs[t]
      ensures found.None? ==> forall t :: t in defs ==> defs[t].id != id
    {
      var pending := defs.Keys;
      while pending != {}
        invariant pending <= defs.Keys
        invariant forall t :: t in defs.Keys - pending ==> defs[t].id != id
        decreases pending
      {
        var t :| t in pending;
        if defs[t].id == id {
          return Some(defs[t]);
        }
        pending := pending - {t};
      }
      return None;
    }

    /** Only a definition without defects is saved, and it is registered under its trigger when active. */
    method SaveDefinition(def: ProcessDefinition, isActive: bool) returns (err: Option<ErrorCode>)
      requires AllValid(defs)
      modifies this
      ensures err == (if Valid(def) then None else Some(BadRequest))
      ensures defs == Saved(old(defs), def, isActive)
      ensures AllValid(defs) && instances == old(instances)
    {
      var validationErrs := Validate(def);
      if |validationErrs| > 0 {
        return Some(BadRequest);
      }
      if isActive {
        defs := defs[def.triggerOn := def];
      }
      return None;
    }
  }

  ghost predicate AllValid(defs: Registry) { forall t :: t in defs ==> Valid(defs[t]) }

  // ---------- Runs and their explanation ----------

  /** `regs[n]` is the registry when event n arrives and `states[n]` are the instances before it; definitions may be
      saved between events. */
  ghost predicate IsRun(regs: seq<Registry>, eval: Evaluator, events: seq<Event>, states: seq<seq<Instance>>) {
    && |regs| == |events| && |states| == |events| + 1 && states[0] == []
    && forall n :: 0 <= n < |events| ==> Handled(regs[n], eval, events[n], states[n], states[n + 1])
  }

  ghost predicate AlwaysValid(regs: seq<Registry>) { forall n :: 0 <= n < |regs| ==> AllValid(regs[n]) }

  /** One step: the event that caused it, the definition found for it and the transition taken. */
  datatype Step = Step(at: nat, trigger: string, transition: nat)

  /** The event that started an instance and its steps. */
  datatype Trail = Trail(start: nat, steps: seq<Step>)

  /** The definition a step went by, as registered at that moment. */
  predicate Registered(regs: seq<Registry>, at: nat, trigger: string) { at < |regs| && trigger in regs[at] }

  function DefOf(regs: seq<Registry>, at: nat, trigger: string): ProcessDefinition
    requires Registered(regs, at, trigger)
  {
    regs[at][trigger]
  }

  /** The event is the transition's, and it has no condition or one that is true of the event's data. */
  predicate Lets(tr: Transition, eval: Evaluator, ev: Event) {
    tr.event == ev.kind && (tr.condition.None? || eval(tr.condition.value, ev.data) == true)
  }

  /** The event is another one than the transition's, or its condition is false of the event's data. */
  predicate Bars(tr: Transition, eval: Evaluator, ev: Event) {
    tr.event != ev.kind || (tr.condition.Some? && eval(tr.condition.value, ev.data) == false)
  }

  /** The history entry is the first matching transition of a definition registered at that moment under the instance's
      definition id. */
  ghost predicate Taken(regs: seq<Registry>, eval: Evaluator, events: seq<Event>, inst: Instance, step: Step,
                        entry: HistoryEntry)
  {
    && step.at < |events| && Registered(regs, step.at, step.trigger)
    && var ev, def := events[step.at], DefOf(regs, step.at, step.trigger);
       && ev.entity == Some(inst.entity) && ev.kind == entry.event
       && def.id == inst.definitionId
       && entry.source in def.states && entry.target in def.states
       && var trs := def.states[entry.source].transitions;
          && step.transition < |trs| && trs[step.transition].target == entry.target
          && Lets(trs[step.transition], eval, ev)
          && forall j :: 0 <= j < step.transition ==> Bars(trs[j], eval, ev)
  }

  ghost predicate WellStarted(regs: seq<Registry>, events: seq<Event>, inst: Instance, start: nat) {
    && start < |events| && Registered(regs, start, events[start].kind)
    && events[start].entity == Some(inst.entity)
    && var def := DefOf(regs, start, events[start].kind);
       def.id == inst.definitionId && def.initState in def.states
  }

  function InitOf(regs: seq<Registry>, events: seq<Event>, start: nat): string
    requires start < |events| && Registered(regs, start, events[start].kind)
  {
    DefOf(regs, start, events[start].kind).initState
  }

  /** The history is a connected path from the initial to the current state, one event per step in event order. */
  ghost predicate Connected(regs: seq<Registry>, eval: Evaluator, events: seq<Event>, inst: Instance, trail: Trail)
    requires WellStarted(regs, events, inst, trail.start)
  {
    && |trail.steps| == |inst.history|
    && (forall j :: 0 <= j < |inst.history| ==> Taken(regs, eval, events, inst, trail.steps[j], inst.history[j]))
    && (forall j :: 0 <= j < |trail.steps| ==> trail.start <= trail.steps[j].at)
    && (forall j, l :: 0 <= j < l < |trail.steps| ==> trail.steps[j].at < trail.steps[l].at)
    && (forall j :: 0 < j < |inst.history| ==> inst.history[j].source == inst.history[j - 1].target)
    && (inst.history == [] ==> inst.current == InitOf(regs, events, trail.start))
    && (inst.history != [] ==> inst.history[0].source == InitOf(regs, events, trail.start)
                               && inst.current == inst.history[|inst.history| - 1].target)
  }

  /** Completed exactly when the last step led to a terminal state; no earlier step did. */
  ghost predicate StatusFits(regs: seq<Registry>, inst: Instance, trail: Trail)
    requires |trail.steps| == |inst.history|
    requires forall j :: 0 <= j < |trail.steps| ==> Registered(regs, trail.steps[j].at, trail.steps[j].trigger)
  {
    && (inst.status == Completed <==>
          inst.history != [] && EndsAt(regs, trail.steps[|trail.steps| - 1], inst.current))
    && (forall j :: 0 <= j < |inst.history| - 1 ==> !EndsAt(regs, trail.steps[j], inst.history[j].target))
  }

  predicate EndsAt(regs: seq<Registry>, step: Step, state: string)
    requires Registered(regs, step.at, step.trigger)
  {
    Terminal(DefOf(regs, step.at, step.trigger), state)
  }

  ghost predicate Explains(regs: seq<Registry>, eval: Evaluator, events: seq<Event>, inst: Instance, trail: Trail) {
    && WellStarted(regs, events, inst, trail.start)
    && Connected(regs, eval, events, inst, trail)
    && StatusFits(regs, inst, trail)
  }

  /** No step of the trail comes after the first n events. */
  predicate Within(trail: Trail, n: nat) {
    trail.start < n && forall j :: 0 <= j < |trail.steps| ==> trail.steps[j].at < n
  }

  lemma ValidHasStates(def: ProcessDefinition)
    requires Valid(def)
    ensures def.initState in def.states
    ensures forall s, k :: s in def.states && 0 <= k < |def.states[s].transitions| ==>
              def.states[s].transitions[k].target in def.states
  {
    assert !Has(def, NoStates) && !Has(def, UnknownInitState);
    forall s, k | s in def.states && 0 <= k < |def.states[s].transitions|
      ensures def.states[s].transitions[k].target in def.states
    {
      assert !Has(def, UnknownTarget(s, k));
    }
  }

  /** A move of an active instance is a declared, enabled transition, and completes it exactly in a terminal state. */
  lemma LastStepTaken(regs: seq<Registry>, eval: Evaluator, events: seq<Event>, n: nat, inst: Instance, t: string)
    requires |regs| == |events| && n < |events| && AllValid(regs[n]) && inst.status == Active
    requires events[n].entity == Some(inst.entity)
    requires Registered(regs, n, t) && regs[n][t].id == inst.definitionId
    requires Advanced(regs[n][t], eval, inst, events[n]) != inst
    ensures inst.current in regs[n][t].states
    ensures var after := Advanced(regs[n][t], eval, inst, events[n]);
            var step := Step(n, t, FirstMatch(regs[n][t].states[inst.current].transitions, eval, events[n]));
            && Extends(regs, eval, events, inst, after, step)
            && after.history == inst.history + [HistoryEntry(inst.current, after.current, events[n].kind)]
  {
    ValidHasStates(regs[n][t]);
  }

  /** One more event extends the explanation of an active instance that moves. */
  lemma TrailExtends(regs: seq<Registry>, eval: Evaluator, events: seq<Event>, n: nat, inst: Instance, trail: Trail,
                     t: string)
    requires |regs| == |events| && n < |events| && AllValid(regs[n])
    requires Explains(regs, eval, events, inst, trail) && inst.status == Active
    requires trail.start <= n && forall j :: 0 <= j < |trail.steps| ==> trail.steps[j].at < n
    requires events[n].entity == Some(inst.entity)
    requires Registered(regs, n, t) && regs[n][t].id == inst.definitionId
    requires Advanced(regs[n][t], eval, inst, events[n]) != inst
    ensures inst.current in regs[n][t].states
    ensures var k := FirstMatch(regs[n][t].states[inst.current].transitions, eval, events[n]);
            Explains(regs, eval, events, Advanced(regs[n][t], eval, inst, events[n]),
                     Trail(trail.start, trail.steps + [Step(n, t, k)]))
  {
    var after := Advanced(regs[n][t], eval, inst, events[n]);
    LastStepTaken(regs, eval, events, n, inst, t);
    var step := Step(n, t, FirstMatch(regs[n][t].states[inst.current].transitions, eval, events[n]));
    TrailAppends(regs, eval, events, inst, after, trail, step);
  }

  /** What a move adds to an instance: one history entry, taken by the step. */
  ghost predicate Extends(regs: seq<Registry>, eval: Evaluator, events: seq<Event>, inst: Instance, after: Instance,
                          step: Step)
  {
    && after.entity == inst.entity && after.definitionId == inst.definitionId
    && |after.history| == |inst.history| + 1
    && (forall j :: 0 <= j < |inst.history| ==> after.history[j] == inst.history[j])
    && after.history[|inst.history|].source == inst.current && after.history[|inst.history|].target == after.current
    && Taken(regs, eval, events, after, step, after.history[|inst.history|])
    && (after.status == Completed <==> EndsAt(regs, step, after.current))
  }

  lemma StepsStayTaken(regs: seq<Registry>, eval: Evaluator, events: seq<Event>, inst: Instance, after: Instance,
                       steps: seq<Step>, step: Step)
    requires |steps| == |inst.history| && Extends(regs, eval, events, inst, after, step)
    requires forall j :: 0 <= j < |inst.history| ==> Taken(regs, eval, events, inst, steps[j], inst.history[j])
    ensures forall j :: 0 <= j < |after.history| ==>
              Taken(regs, eval, events, after, (steps + [step])[j], after.history[j])
  {
    forall j | 0 <= j < |inst.history| ensures Taken(regs, eval, events, after, steps[j], after.history[j]) {
      assert Taken(regs, eval, events, inst, steps[j], inst.history[j]);
    }
  }

  lemma StatusStaysFit(regs: seq<Registry>, inst: Instance, after: Instance, trail: Trail, step: Step)
    requires |trail.steps| == |inst.history| && inst.status == Active
    requires forall j :: 0 <= j < |trail.steps| ==> Registered(regs, trail.steps[j].at, trail.steps[j].trigger)
    requires StatusFits(regs, inst, trail)
    requires inst.history != [] ==> inst.current == inst.history[|inst.history| - 1].target
    requires |after.history| == |inst.history| + 1
    requires forall j :: 0 <= j < |inst.history| ==> after.history[j] == inst.history[j]
    requires Registered(regs, step.at, step.trigger)
    requires after.status == Completed <==> EndsAt(regs, step, after.current)
    ensures forall j :: 0 <= j < |trail.steps| + 1 ==>
              Registered(regs, (trail.steps + [step])[j].at, (trail.steps + [step])[j].trigger)
    ensures StatusFits(regs, after, Trail(trail.start, trail.steps + [step]))
  {
    var extended := Trail(trail.start, trail.steps + [step]);
    forall j | 0 <= j < |after.history| - 1 ensures !EndsAt(regs, extended.steps[j], after.history[j].target) {
      assert extended.steps[j] == trail.steps[j];
    }
  }

  lemma PathGrows(regs: seq<Registry>, eval: Evaluator, events: seq<Event>, inst: Instance, after: Instance,
                  trail: Trail, step: Step)
    requires WellStarted(regs, events, inst, trail.start) && WellStarted(regs, events, after, trail.start)
    requires Connected(regs, eval, events, inst, trail) && Extends(regs, eval, events, inst, after, step)
    requires trail.start <= step.at && forall j :: 0 <= j < |trail.steps| ==> trail.steps[j].at < step.at
    ensures Connected(regs, eval, events, after, Trail(trail.start, trail.steps + [step]))
  {
    var extended := Trail(trail.start, trail.steps + [step]);
    StepsStayTaken(regs, eval, events, inst, after, trail.steps, step);
    forall j | 0 < j < |after.history| ensures after.history[j].source == after.history[j - 1].target {
      if j == |inst.history| {
        assert inst.current == inst.history[j - 1].target;
      }
    }
    assert forall j :: 0 <= j < |trail.steps| ==> extended.steps[j] == trail.steps[j];
  }

  lemma TrailAppends(regs: seq<Registry>, eval: Evaluator, events: seq<Event>, inst: Instance, after: Instance,
                     trail: Trail, step: Step)
    requires Explains(regs, eval, events, inst, trail) && inst.status == Active
    requires trail.start <= step.at && forall j :: 0 <= j < |trail.steps| ==> trail.steps[j].at < step.at
    requires Extends(regs, eval, events, inst, after, step)
    ensures Explains(regs, eval, events, after, Trail(trail.start, trail.steps + [step]))
  {
    PathGrows(regs, eval, events, inst, after, trail, step);
    StatusStaysFit(regs, inst, after, trail, step);
  }

  lemma TakenLater(regs: seq<Registry>, defs: Registry, eval: Evaluator, events: seq<Event>, ev: Event, inst: Instance,
                   step: Step, entry: HistoryEntry)
    requires |regs| == |events| && Taken(regs, eval, events, inst, step, entry)
    ensures Taken(regs + [defs], eval, events + [ev], inst, step, entry)
  {
    assert DefOf(regs + [defs], step.at, step.trigger) == DefOf(regs, step.at, step.trigger);
    assert (events + [ev])[step.at] == events[step.at];
  }

  lemma ExplainsLater(regs: seq<Registry>, defs: Registry, eval: Evaluator, events: seq<Event>, ev: Event,
                      inst: Instance, trail: Trail)
    requires |regs| == |events| && Explains(regs, eval, events, inst, trail)
    ensures Explains(regs + [defs], eval, events + [ev], inst, trail)
  {
    forall j | 0 <= j < |inst.history|
      ensures Taken(regs + [defs], eval, events + [ev], inst, trail.steps[j], inst.history[j])
    {
      TakenLater(regs, defs, eval, events, ev, inst, trail.steps[j], inst.history[j]);
    }
  }

  /** Some trail explains the instance. */
  ghost predicate Explained(regs: seq<Registry>, eval: Evaluator, events: seq<Event>, inst: Instance) {
    exists trail :: Explains(regs, eval, events, inst, trail) && Within(trail, |events|)
  }

  /** One instance after one more event. */
  lemma OneMore(regs: seq<Registry>, eval: Evaluator, events: seq<Event>, n: nat, inst: Instance, after: Instance,
                trail: Trail)
    requires |regs| == |events| == n + 1 && AllValid(regs[n])
    requires Explains(regs, eval, events, inst, trail)
    requires trail.start <= n && forall j :: 0 <= j < |trail.steps| ==> trail.steps[j].at < n
    requires Moved(regs[n], eval, events[n], inst, after)
    ensures Explained(regs, eval, events, after)
  {
    if after == inst {
      assert Explains(regs, eval, events, inst, trail) && Within(trail, |events|);
    } else {
      var t :| t in regs[n] && regs[n][t].id == inst.definitionId
               && after == Advanced(regs[n][t], eval, inst, events[n]);
      MoveExplained(regs, eval, events, n, inst, trail, t);
    }
  }

  lemma MoveExplained(regs: seq<Registry>, eval: Evaluator, events: seq<Event>, n: nat, inst: Instance, trail: Trail,
                      t: string)
    requires |regs| == |events| == n + 1 && AllValid(regs[n])
    requires Explains(regs, eval, events, inst, trail) && inst.status == Active
    requires trail.start <= n && forall j :: 0 <= j < |trail.steps| ==> trail.steps[j].at < n
    requires events[n].entity == Some(inst.entity)
    requires Registered(regs, n, t) && regs[n][t].id == inst.definitionId
    requires Advanced(regs[n][t], eval, inst, events[n]) != inst
    ensures Explained(regs, eval, events, Advanced(regs[n][t], eval, inst, events[n]))
  {
    TrailExtends(regs, eval, events, n, inst, trail, t);
    var k := FirstMatch(regs[n][t].states[inst.current].transitions, eval, events[n]);
    assert Within(Trail(trail.start, trail.steps + [Step(n, t, k)]), |events|);
  }

  /** The i-th instance after one more event, which may have started that instance. */
  lemma EventExplained(regs: seq<Registry>, defs: Registry, eval: Evaluator, events: seq<Event>, ev: Event,
                       before: seq<Instance>, after: seq<Instance>, i: nat)
    requires |regs| == |events| && AllValid(defs) && Handled(defs, eval, ev, before, after) && i < |after|
    requires i < |before| ==> Explained(regs, eval, events, before[i])
    ensures Explained(regs + [defs], eval, events + [ev], after[i])
  {
    var started := Started(defs, before, ev);
    var trail := Trail(|events|, []);
    if i < |before| {
      trail :| Explains(regs, eval, events, before[i], trail) && Within(trail, |events|);
      ExplainsLater(regs, defs, eval, events, ev, before[i], trail);
    } else {
      ValidHasStates(defs[ev.kind]);
    }
    assert Moved(defs, eval, ev, started[i], after[i]);
    OneMore(regs + [defs], eval, events + [ev], |events|, started[i], after[i], trail);
  }

  /** Every instance of every run over valid definitions, saved at whatever time, has a trail: its history is a
      connected path from its initial state to the current one, each step is a declared, enabled transition of a
      definition registered at that moment and is caused by an event of its own in event order, and the instance is
      completed exactly when its last step reached a terminal state. */
  lemma {:induction false} RunsAreExplained(regs: seq<Registry>, eval: Evaluator, events: seq<Event>,
                                            states: seq<seq<Instance>>)
    requires AlwaysValid(regs) && IsRun(regs, eval, events, states)
    ensures forall i :: 0 <= i < |states[|events|]| ==> Explained(regs, eval, events, states[|events|][i])
    decreases |events|
  {
    if events != [] {
      var n := |events| - 1;
      var before, ev := events[..n], events[n];
      assert before + [ev] == events && regs[..n] + [regs[n]] == regs;
      RunsAreExplained(regs[..n], eval, before, states[..n + 1]);
      assert states[..n + 1][n] == states[n];
      var insts := states[|events|];
      assert Handled(regs[n], eval, ev, states[n], insts);
      forall i | 0 <= i < |insts| ensures Explained(regs, eval, events, insts[i]) {
        EventExplained(regs[..n], regs[n], eval, before, ev, states[n], insts, i);
      }
    }
  }

  // ---------- Saving definitions between events ----------

  datatype Input = Deliver(ev: Event) | Save(def: ProcessDefinition, isActive: bool)

  ghost function Saved(defs: Registry, def: ProcessDefinition, isActive: bool): Registry {
    if Valid(def) && isActive then defs[def.triggerOn := def] else defs
  }

  /** The registry at each delivered event. */
  ghost function Registries(defs: Registry, inputs: seq<Input>): seq<Registry>
    decreases |inputs|
  {
    if inputs == [] then []
    else
      match inputs[0]
      case Deliver(_) => [defs] + Registries(defs, inputs[1..])
      case Save(def, isActive) => Registries(Saved(defs, def, isActive), inputs[1..])
  }

  /** Whatever is saved, only valid definitions are ever registered. */
  lemma {:induction false} SavesStayValid(defs: Registry, inputs: seq<Input>)
    requires AllValid(defs)
    ensures AlwaysValid(Registries(defs, inputs))
    decreases |inputs|
  {
    if inputs != [] {
      match inputs[0] {
        case Deliver(_) => SavesStayValid(defs, inputs[1..]);
        case Save(def, isActive) => SavesStayValid(Saved(defs, def, isActive), inputs[1..]);
      }
    }
  }

  // ---------- One definition per id ----------

  /** Definitions registered under one id, at whatever times, are one and the same. */
  ghost predicate IdsUnique(regs: seq<Registry>) {
    forall m: nat, n: nat, t: string, u: string ::
      Registered(regs, m, t) && Registered(regs, n, u) && DefOf(regs, m, t).id == DefOf(regs, n, u).id ==>
        DefOf(regs, m, t) == DefOf(regs, n, u)
  }

  /** When registered ids are unique, one definition explains the whole trail: it declares the current state, and the
      instance is completed exactly when it has moved and that state is terminal there. */
  lemma OneDefinitionExplains(regs: seq<Registry>, eval: Evaluator, events: seq<Event>, inst: Instance, trail: Trail)
    requires IdsUnique(regs) && Explains(regs, eval, events, inst, trail)
    ensures var def := DefOf(regs, trail.start, events[trail.start].kind);
            && def.id == inst.definitionId && inst.current in def.states
            && (forall j :: 0 <= j < |trail.steps| ==> DefOf(regs, trail.steps[j].at, trail.steps[j].trigger) == def)
            && (inst.status == Completed <==> inst.history != [] && def.states[inst.current].terminal)
  {
    var def := DefOf(regs, trail.start, events[trail.start].kind);
    forall j | 0 <= j < |trail.steps|
      ensures DefOf(regs, trail.steps[j].at, trail.steps[j].trigger) == def && inst.history[j].target in def.states
    {
      assert Taken(regs, eval, events, inst, trail.steps[j], inst.history[j]);
    }
  }

  /** Instances are never lost, moved to another entity or definition; histories only grow; a completed instance never
      changes again. */
  lemma {:induction false} InstancesOnlyGrow(regs: seq<Registry>, eval: Evaluator, events: seq<Event>,
                                             states: seq<seq<Instance>>, m: nat, n: nat, i: nat)
    requires IsRun(regs, eval, events, states) && m <= n <= |events| && i < |states[m]|
    ensures i < |states[n]|
    ensures var a, b := states[m][i], states[n][i];
            && a.definitionId == b.definitionId && a.entity == b.entity
            && a.history <= b.history
            && (a.status == Completed ==> b == a)
    decreases n - m
  {
    if m < n {
      assert Handled(regs[m], eval, events[m], states[m], states[m + 1]);
      assert Moved(regs[m], eval, events[m], Started(regs[m], states[m], events[m])[i], states[m + 1][i]);
      InstancesOnlyGrow(regs, eval, events, states, m + 1, n, i);
    }
  }

  // ---------- Two definitions with one id ----------

  /** Every history entry is a transition the definition declares. */
  predicate PathOf(def: ProcessDefinition, history: seq<HistoryEntry>) {
    forall j :: 0 <= j < |history| ==> Declares(def, history[j])
  }

  predicate Declares(def: ProcessDefinition, entry: HistoryEntry) {
    entry.source in def.states
    && exists k :: 0 <= k < |def.states[entry.source].transitions|
                   && def.states[entry.source].transitions[k].target == entry.target
                   && def.states[entry.source].transitions[k].event == entry.event
  }

  /** With unique ids the history is a path of the one definition that explains it. */
  lemma UniqueIdsGivePath(regs: seq<Registry>, eval: Evaluator, events: seq<Event>, inst: Instance, trail: Trail)
    requires IdsUnique(regs) && Explains(regs, eval, events, inst, trail)
    ensures PathOf(DefOf(regs, trail.start, events[trail.start].kind), inst.history)
  {
    OneDefinitionExplains(regs, eval, events, inst, trail);
    var def := DefOf(regs, trail.start, events[trail.start].kind);
    forall j | 0 <= j < |inst.history| ensures Declares(def, inst.history[j]) {
      assert Taken(regs, eval, events, inst, trail.steps[j], inst.history[j]);
    }
  }

  function Passive(transitions: seq<Transition>): State { State(false, None, [], [], transitions) }

  const FINAL := State(true, None, [], [], [])

  const PACKING := ProcessDefinition("p", "Packing", "packed", "order", "open",
                                     map["open" := Passive([Transition("half", "pack", None, [])]),
                                         "half" := Passive([]), "done" := FINAL])

  const SHIPPING := ProcessDefinition("p", "Shipping", "shipped", "order", "half",
                                      map["half" := Passive([Transition("done", "ship", None, [])]), "done" := FINAL])

  const TWO_DEFINITIONS: Registry := map["packed" := PACKING, "shipped" := SHIPPING]

  const THREE_EVENTS := [Event("packed", Some(0), ""), Event("pack", Some(0), ""), Event("ship", Some(0), "")]

  const BOTH_STEPS := [HistoryEntry("open", "half", "pack"), HistoryEntry("half", "done", "ship")]

  function Packed(current: string, status: Status, history: seq<HistoryEntry>): Instance {
    Instance("p", 0, current, status, history)
  }

  function FourStates(): seq<seq<Instance>> {
    [[], [Packed("open", Active, [])], [Packed("half", Active, BOTH_STEPS[..1])],
     [Packed("done", Completed, BOTH_STEPS)]]
  }

  lemma PackingStarts(eval: Evaluator)
    ensures Handled(TWO_DEFINITIONS, eval, THREE_EVENTS[0], FourStates()[0], FourStates()[1])
  {
    assert "packed" in TWO_DEFINITIONS;
    assert Advanced(PACKING, eval, FourStates()[1][0], THREE_EVENTS[0]) == FourStates()[1][0];
  }

  lemma PackingMoves(eval: Evaluator)
    ensures Handled(TWO_DEFINITIONS, eval, THREE_EVENTS[1], FourStates()[1], FourStates()[2])
  {
    assert "packed" in TWO_DEFINITIONS;
    assert Advanced(PACKING, eval, FourStates()[1][0], THREE_EVENTS[1]) == FourStates()[2][0];
  }

  lemma ShippingMoves(eval: Evaluator)
    ensures Handled(TWO_DEFINITIONS, eval, THREE_EVENTS[2], FourStates()[2], FourStates()[3])
  {
    assert "shipped" in TWO_DEFINITIONS;
    assert BOTH_STEPS[..1] + [BOTH_STEPS[1]] == BOTH_STEPS;
    assert Advanced(SHIPPING, eval, FourStates()[2][0], THREE_EVENTS[2]) == FourStates()[3][0];
  }

  lemma BothAreValid()
    ensures Valid(PACKING) && Valid(SHIPPING)
  {
    assert "open" in PACKING.states && "half" in PACKING.states && "done" in PACKING.states;
    assert PACKING.states["done"].terminal && SHIPPING.states["done"].terminal;
  }

  lemma MixedRun(eval: Evaluator)
    ensures IsRun([TWO_DEFINITIONS, TWO_DEFINITIONS, TWO_DEFINITIONS], eval, THREE_EVENTS, FourStates())
  {
    var regs := [TWO_DEFINITIONS, TWO_DEFINITIONS, TWO_DEFINITIONS];
    PackingStarts(eval);
    PackingMoves(eval);
    ShippingMoves(eval);
    forall n | 0 <= n < 3 ensures Handled(regs[n], eval, THREE_EVENTS[n], FourStates()[n], FourStates()[n + 1]) {
      assert regs[n] == TWO_DEFINITIONS && (n == 0 || n == 1 || n == 2);
    }
  }

  /** Two valid definitions registered under one id: a run in which they take turns, with a history that is a path of
      neither. */
  lemma SharedIdMixesDefinitions(eval: Evaluator)
    ensures AllValid(TWO_DEFINITIONS) && PACKING.id == SHIPPING.id
    ensures IsRun([TWO_DEFINITIONS, TWO_DEFINITIONS, TWO_DEFINITIONS], eval, THREE_EVENTS, FourStates())
    ensures var history := FourStates()[3][0].history;
            forall t :: t in TWO_DEFINITIONS ==> !PathOf(TWO_DEFINITIONS[t], history)
  {
    BothAreValid();
    MixedRun(eval);
    assert !Declares(PACKING, BOTH_STEPS[1]) && !Declares(SHIPPING, BOTH_STEPS[0]);
    assert FourStates()[3][0].history == BOTH_STEPS;
  }

  // ---------- A terminal initial state ----------

  const CLOSED_AT_ONCE := ProcessDefinition("c", "Closed at once", "opened", "order", "done", map["done" := FINAL])

  const CLOSED: Registry := map["opened" := CLOSED_AT_ONCE]

  const NEVER_COMPLETED := Instance("c", 0, "done", Active, [])

  function OpenedAndTicks(n: nat): seq<Event> {
    [Event("opened", Some(0), "")] + seq(n, i requires 0 <= i < n => Event("tick", Some(0), ""))
  }

  function AlwaysActive(n: nat): seq<seq<Instance>> {
    [[]] + seq(n + 1, i requires 0 <= i < n + 1 => [NEVER_COMPLETED])
  }

  /** Started in a terminal state, an instance is active, and stays so through any number of events. */
  lemma TerminalStartStaysActive(eval: Evaluator, n: nat)
    ensures Valid(CLOSED_AT_ONCE) && Terminal(CLOSED_AT_ONCE, NEVER_COMPLETED.current)
    ensures IsRun(seq(n + 1, i requires 0 <= i < n + 1 => CLOSED), eval, OpenedAndTicks(n), AlwaysActive(n))
    ensures AlwaysActive(n)[n + 1] == [NEVER_COMPLETED] && NEVER_COMPLETED.status == Active
  {
    assert "done" in CLOSED_AT_ONCE.states && CLOSED_AT_ONCE.states["done"].terminal;
    assert "opened" in CLOSED;
    var events, states := OpenedAndTicks(n), AlwaysActive(n);
    forall k | 0 <= k < n + 1 ensures Handled(CLOSED, eval, events[k], states[k], states[k + 1]) {
      assert Advanced(CLOSED_AT_ONCE, eval, NEVER_COMPLETED, events[k]) == NEVER_COMPLETED;
      assert k > 0 ==> events[k].kind == "tick" && "tick" !in CLOSED;
    }
  }
}
