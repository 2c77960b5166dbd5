/** Process definitions and their static validation. */
module Dsl {
  import opened Common

  datatype Condition = Condition(field: string, operator: string, value: string)

  datatype Action = Action(kind: string)

  datatype Timeout = Timeout(duration: string, target: string)

  datatype Transition = Transition(target: string, event: string, condition: Option<Condition>, actions: seq<Action>)

  datatype State = State(terminal: bool, timeout: Option<Timeout>, onEnter: seq<Action>, onExit: seq<Action>,
                         transitions: seq<Transition>)

  datatype ProcessDefinition = ProcessDefinition(id: string, name: string, triggerOn: string, entityKind: string,
                                                 initState: string, states: map<string, State>)

  const VALID_OPERATORS: set<string> := {"eq", "neq", "gt", "lt", "gte", "lte", "in", "not_in", "exists"}

  const VALID_ACTION_TYPES: set<string> := {"emit_event", "update_status", "update_component", "notify", "webhook"}

  /** Where a list of actions stands. */
  datatype Place = OnEnter(state: string) | OnExit(state: string) | OfTransition(state: string, index: nat)

  datatype Defect =
    | EmptyId | EmptyName | EmptyTrigger | EmptyKind
    | NoStates | UnknownInitState | NoTerminalState
    | EmptyTimeoutDuration(state: string) | UnknownTimeoutTarget(state: string)
    | UnknownAction(place: Place, index: nat)
    | EmptyEvent(state: string, index: nat) | UnknownTarget(state: string, index: nat)
    | EmptyConditionField(state: string, index: nat) | UnknownOperator(state: string, index: nat)

  // ---------- What counts as a defect ----------

  function StateOfPlace(p: Place): string { p.state }

  /** The state a defect lies in, if any. */
  function StateOf(d: Defect): Option<string> {
    match d
    case EmptyTimeoutDuration(s) => Some(s)
    case UnknownTimeoutTarget(s) => Some(s)
    case UnknownAction(place, _) => Some(StateOfPlace(place))
    case EmptyEvent(s, _) => Some(s)
    case UnknownTarget(s, _) => Some(s)
    case EmptyConditionField(s, _) => Some(s)
    case UnknownOperator(s, _) => Some(s)
    case _ => None
  }

  /** The transition a defect lies in, if any. */
  function TransitionOf(d: Defect): Option<nat> {
    match d
    case UnknownAction(OfTransition(_, i), _) => Some(i)
    case EmptyEvent(_, i) => Some(i)
    case UnknownTarget(_, i) => Some(i)
    case EmptyConditionField(_, i) => Some(i)
    case UnknownOperator(_, i) => Some(i)
    case _ => None
  }

  predicate BadAction(actions: seq<Action>, index: nat) {
    index < |actions| && actions[index].kind !in VALID_ACTION_TYPES
  }

  predicate InState(def: ProcessDefinition, state: State, d: Defect) {
    match d
    case EmptyTimeoutDuration(_) => state.timeout.Some? && state.timeout.value.duration == ""
    case UnknownTimeoutTarget(_) => state.timeout.Some? && state.timeout.value.target !in def.states
    case UnknownAction(OnEnter(_), j) => BadAction(state.onEnter, j)
    case UnknownAction(OnExit(_), j) => BadAction(state.onExit, j)
    case UnknownAction(OfTransition(_, i), j) => i < |state.transitions| && BadAction(state.transitions[i].actions, j)
    case EmptyEvent(_, i) => i < |state.transitions| && state.transitions[i].event == ""
    case UnknownTarget(_, i) => i < |state.transitions| && state.transitions[i].target !in def.states
    case EmptyConditionField(_, i) =>
      i < |state.transitions| && state.transitions[i].condition.Some?
      && state.transitions[i].condition.value.field == ""
    case UnknownOperator(_, i) =>
      i < |state.transitions| && state.transitions[i].condition.Some?
      && state.transitions[i].condition.value.operator !in VALID_OPERATORS
    case _ => false
  }

  ghost predicate Has(def: ProcessDefinition, d: Defect) {
    match d
    case EmptyId => def.id == ""
    case EmptyName => def.name == ""
    case EmptyTrigger => def.triggerOn == ""
    case EmptyKind => def.entityKind == ""
    case NoStates => def.states == map[]
    case UnknownInitState => def.states != map[] && def.initState !in def.states
    case NoTerminalState => def.states != map[] && forall s :: s in def.states ==> !def.states[s].terminal
    case _ => StateOf(d).value in def.states && InState(def, def.states[StateOf(d).value], d)
  }

  ghost predicate Valid(def: ProcessDefinition) { forall d: Defect :: !Has(def, d) }

  // ---------- Validation ----------

  method ValidateActions(actions: seq<Action>, place: Place) returns (errs: seq<Defect>)
    ensures forall d :: d in errs <==> d.UnknownAction? && d.place == place && BadAction(actions, d.index)
  {
    errs := [];
    for j := 0 to |actions|
      invariant forall d :: d in errs <==>
                  d.UnknownAction? && d.place == place && d.index < j && BadAction(actions, d.index)
    {
      if actions[j].kind !in VALID_ACTION_TYPES {
        errs := errs + [UnknownAction(place, j)];
      }
    }
  }

  /** The defects a transition can have, one by one. */
  lemma TransitionDefects(def: ProcessDefinition, name: string, i: nat, d: Defect)
    requires name in def.states && i < |def.states[name].transitions|
    ensures var tr := def.states[name].transitions[i];
            StateOf(d) == Some(name) && TransitionOf(d) == Some(i) && Has(def, d) <==>
              (match d
               case EmptyEvent(s, k) => s == name && k == i && tr.event == ""
               case UnknownTarget(s, k) => s == name && k == i && tr.target !in def.states
               case EmptyConditionField(s, k) =>
                 s == name && k == i && tr.condition.Some? && tr.condition.value.field == ""
               case UnknownOperator(s, k) =>
                 s == name && k == i && tr.condition.Some? && tr.condition.value.operator !in VALID_OPERATORS
               case UnknownAction(place, j) => place == OfTransition(name, i) && BadAction(tr.actions, j)
               case _ => false)
  {
  }

  method ValidateTransition(def: ProcessDefinition, name: string, i: nat) returns (errs: seq<Defect>)
    requires name in def.states && i < |def.states[name].transitions|
    ensures forall d :: d in errs <==> StateOf(d) == Some(name) && TransitionOf(d) == Some(i) && Has(def, d)
  {
    var tr := def.states[name].transitions[i];
    errs := [];
    if tr.event == "" {
      errs := errs + [EmptyEvent(name, i)];
    }
    if tr.target !in def.states {
      errs := errs + [UnknownTarget(name, i)];
    }
    if tr.condition.Some? {
      if tr.condition.value.field == "" {
        errs := errs + [EmptyConditionField(name, i)];
      }
      if tr.condition.value.operator !in VALID_OPERATORS {
        errs := errs + [UnknownOperator(name, i)];
      }
    }
    var more := ValidateActions(tr.actions, OfTransition(name, i));
    errs := errs + more;
    forall d ensures d in errs <==> StateOf(d) == Some(name) && TransitionOf(d) == Some(i) && Has(def, d) {
      TransitionDefects(def, name, i, d);
    }
  }

  method ValidateState(def: ProcessDefinition, name: string) returns (errs: seq<Defect>)
    requires name in def.states
    ensures forall d :: d in errs <==> StateOf(d) == Some(name) && Has(def, d)
  {
    var state := def.states[name];
    errs := [];
    if state.timeout.Some? {
      if state.timeout.value.duration == "" {
        errs := errs + [EmptyTimeoutDuration(name)];
      }
      if state.timeout.value.target !in def.states {
        errs := errs + [UnknownTimeoutTarget(name)];
      }
    }
    var entering := ValidateActions(state.onEnter, OnEnter(name));
    var leaving := ValidateActions(state.onExit, OnExit(name));
    errs := errs + entering + leaving;
    for i := 0 to |state.transitions|
      invariant forall d :: d in errs <==>
                  StateOf(d) == Some(name) && Has(def, d) && (TransitionOf(d).Some? ==> TransitionOf(d).value < i)
    {
      var more := ValidateTransition(def, name, i);
      errs := errs + more;
    }
  }

  method ValidateStates(def: ProcessDefinition) returns (errs: seq<Defect>, hasTerminal: bool)
    ensures forall d :: d in errs <==> StateOf(d).Some? && Has(def, d)
    ensures hasTerminal <==> exists s :: s in def.states && def.states[s].terminal
  {
    errs := [];
    hasTerminal := false;
    var pending := def.states.Keys;
    while pending != {}
      invariant pending <= def.states.Keys
      invariant forall d :: d in errs <==> StateOf(d).Some? && StateOf(d).value !in pending && Has(def, d)
      invariant hasTerminal <==> exists s :: s in def.states.Keys - pending && def.states[s].terminal
      decreases pending
    {
      var name :| name in pending;
      if def.states[name].terminal {
        hasTerminal := true;
      }
      var more := ValidateState(def, name);
      errs := errs + more;
      pending := pending - {name};
    }
  }

  /** Reports exactly the defects of the definition; states are visited in no particular order. A definition without
      states gets no further checks. */
  method Validate(def: ProcessDefinition) returns (errs: seq<Defect>)
    ensures forall d :: d in errs <==> Has(def, d)
    ensures errs == [] <==> Valid(def)
  {
    errs := [];
    if def.id == "" {
      errs := errs + [EmptyId];
    }
    if def.name == "" {
      errs := errs + [EmptyName];
    }
    if def.triggerOn == "" {
      errs := errs + [EmptyTrigger];
    }
    if def.entityKind == "" {
      errs := errs + [EmptyKind];
    }
    if |def.states| == 0 {
      errs := errs + [NoStates];
      ReportedAll(def, errs);
      return;
    }
    if def.initState !in def.states {
      errs := errs + [UnknownInitState];
    }
    var more, hasTerminal := ValidateStates(def);
    errs := errs + more;
    if !hasTerminal {
      errs := errs + [NoTerminalState];
    }
    ReportedAll(def, errs);
  }

  lemma ReportedAll(def: ProcessDefinition, errs: seq<Defect>)
    requires forall d :: d in errs <==> Has(def, d)
    ensures errs == [] <==> Valid(def)
  {
    if errs != [] {
      assert errs[0] in errs;
    }
  }

  // ---------- What a valid definition is ----------

  predicate KnownAction(a: Action) {
    a.kind == "emit_event" || a.kind == "update_status" || a.kind == "update_component" || a.kind == "notify"
    || a.kind == "webhook"
  }

  predicate KnownOperator(operator: string) {
    operator == "eq" || operator == "neq" || operator == "gt" || operator == "lt" || operator == "gte"
    || operator == "lte" || operator == "in" || operator == "not_in" || operator == "exists"
  }

  predicate GoodActions(actions: seq<Action>) { forall j :: 0 <= j < |actions| ==> KnownAction(actions[j]) }

  predicate GoodTransition(def: ProcessDefinition, tr: Transition) {
    && tr.event != "" && tr.target in def.states && GoodActions(tr.actions)
    && (tr.condition.Some? ==> tr.condition.value.field != "" && KnownOperator(tr.condition.value.operator))
  }

  predicate GoodState(def: ProcessDefinition, s: State) {
    && GoodActions(s.onEnter) && GoodActions(s.onExit)
    && (s.timeout.Some? ==> s.timeout.value.duration != "" && s.timeout.value.target in def.states)
    && (forall i :: 0 <= i < |s.transitions| ==> GoodTransition(def, s.transitions[i]))
  }

  /** A definition passes validation if and only if its names are given, its initial state is declared, some state is
      terminal, and every timeout, transition and action of every state is in order. */
  lemma ValidMeans(def: ProcessDefinition)
    ensures Valid(def) <==>
              && def.id != "" && def.name != "" && def.triggerOn != "" && def.entityKind != ""
              && def.initState in def.states
              && (exists s :: s in def.states && def.states[s].terminal)
              && (forall s :: s in def.states ==> GoodState(def, def.states[s]))
  {
    if Valid(def) {
      assert !Has(def, EmptyId) && !Has(def, EmptyName) && !Has(def, EmptyTrigger) && !Has(def, EmptyKind);
      assert !Has(def, NoStates) && !Has(def, UnknownInitState) && !Has(def, NoTerminalState);
      forall s | s in def.states ensures GoodState(def, def.states[s]) {
        GoodStateMeans(def, s);
      }
    }
  }

  lemma ActionsAreGood(actions: seq<Action>)
    ensures GoodActions(actions) <==> forall j: nat :: !BadAction(actions, j)
  {
    forall j | 0 <= j < |actions| ensures KnownAction(actions[j]) <==> !BadAction(actions, j) {
    }
  }

  /** A state, and a transition, is in order if and only if no defect lies in it. */
  lemma GoodStateMeans(def: ProcessDefinition, s: string)
    ensures s in def.states ==>
              (GoodState(def, def.states[s]) <==> forall d: Defect :: StateOf(d) == Some(s) ==> !Has(def, d))
  {
    if s in def.states && forall d: Defect :: StateOf(d) == Some(s) ==> !Has(def, d) {
      var state := def.states[s];
      assert !Has(def, EmptyTimeoutDuration(s)) && !Has(def, UnknownTimeoutTarget(s));
      forall j: nat ensures !BadAction(state.onEnter, j) && !BadAction(state.onExit, j) {
        assert !Has(def, UnknownAction(OnEnter(s), j)) && !Has(def, UnknownAction(OnExit(s), j));
      }
      ActionsAreGood(state.onEnter);
      ActionsAreGood(state.onExit);
      forall i | 0 <= i < |state.transitions| ensures GoodTransition(def, state.transitions[i]) {
        GoodTransitionMeans(def, s, i);
      }
    }
  }

  lemma GoodTransitionMeans(def: ProcessDefinition, s: string, i: nat)
    ensures s in def.states && i < |def.states[s].transitions| ==>
              (GoodTransition(def, def.states[s].transitions[i]) <==>
                 forall d: Defect :: StateOf(d) == Some(s) && TransitionOf(d) == Some(i) ==> !Has(def, d))
  {
    if s in def.states && i < |def.states[s].transitions| {
      var actions := def.states[s].transitions[i].actions;
      ActionsAreGood(actions);
      assert StateOf(EmptyEvent(s, i)) == StateOf(UnknownTarget(s, i)) == Some(s);
      assert StateOf(EmptyConditionField(s, i)) == StateOf(UnknownOperator(s, i)) == Some(s);
      forall j: nat | forall d: Defect :: StateOf(d) == Some(s) && TransitionOf(d) == Some(i) ==> !Has(def, d)
        ensures !BadAction(actions, j)
      {
        assert StateOf(UnknownAction(OfTransition(s, i), j)) == Some(s);
      }
    }
  }
}
