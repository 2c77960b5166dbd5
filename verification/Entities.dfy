/** Entities and components with their event log: every mutation updates the live rows and appends an event, and most
    events are written twice, once with the rows and once by the persisting bus. */
module Entities {
  import opened Common

  type Id = nat

  type Time = int

  datatype Entity = Entity(kind: string, name: string, status: string, parent: Option<Id>, meta: string,
                           sortOrder: int, deleted: bool)

  datatype Component = Component(data: string, version: nat)

  datatype Place = Place(entity: Id, kind: string)

  datatype Payload =
    | EntityCreated(entity: Id, kind: string, name: string, status: string)
    | EntityUpdated(entity: Id, newName: Option<string>, newStatus: Option<string>, newParent: Option<Id>,
                    newMeta: Option<string>, newSortOrder: Option<int>)
    | EntityDeleted(entity: Id, kind: string)
    | ComponentSet(place: Place, data: string, version: Option<nat>)
    | ComponentRemoved(place: Place)

  datatype Event = Event(id: Id, timestamp: Time, payload: Payload)

  datatype Tables = Tables(entities: map<Id, Entity>, components: map<Place, Component>, events: seq<Event>, nextId: Id)

  const EMPTY_TABLES := Tables(map[], map[], [], 0)

  datatype Change = Change(name: Option<string>, status: Option<string>, parent: Option<Id>, meta: Option<string>,
                           sortOrder: Option<int>)

  datatype Request =
    | Create(kind: string, name: string, parent: Option<Id>, meta: string)
    | CreateWithComponents(kind: string, name: string, parent: Option<Id>, meta: string,
                           components: seq<(string, string)>)
    | Update(id: Id, change: Change)
    | Delete(id: Id)
    | SetComponent(id: Id, kind: string, data: string)
    | DeleteComponent(id: Id, kind: string)

  /** A call at a time. `committed` tells whether its transaction, if it has one, went through: when it fails, at the
      latest on committing, what was written in it is taken back. `persisted` tells whether the bus managed to write to
      the event store. */
  datatype Op = Op(request: Request, now: Time, committed: bool, persisted: bool)

  // ---------- The event store ----------

  predicate Known(events: seq<Event>, ev: Event) {
    exists i :: 0 <= i < |events| && events[i].id == ev.id && events[i].timestamp == ev.timestamp
  }

  /** The bus writes first and does nothing when the event is already there. */
  function Published(events: seq<Event>, ev: Event, persisted: bool): seq<Event> {
    if persisted && !Known(events, ev) then events + [ev] else events
  }

  function PublishedAll(events: seq<Event>, evs: seq<Event>, persisted: bool): seq<Event> {
    if evs == [] then events
    else Published(PublishedAll(events, evs[..|evs| - 1], persisted), evs[|evs| - 1], persisted)
  }

  lemma PublishedOne(events: seq<Event>, ev: Event, persisted: bool)
    ensures PublishedAll(events, [ev], persisted) == Published(events, ev, persisted)
  {
    assert [ev][..0] == [];
  }

  // ---------- What each call does to the tables ----------

  predicate Alive(t: Tables, id: Id) { id in t.entities && !t.entities[id].deleted }

  /** A parent, deleted or not, has to have a row. */
  predicate Dangling(entities: map<Id, Entity>, parent: Option<Id>) { parent.Some? && parent.value !in entities }

  function CreationRefusal(t: Tables, kind: string, name: string, parent: Option<Id>): Option<ErrorCode> {
    if kind == "" || name == "" then Some(BadRequest)
    else if Dangling(t.entities, parent) then Some(StorageError)
    else None
  }

  function Refusal(t: Tables, r: Request): Option<ErrorCode> {
    match r
    case Create(kind, name, parent, _) => CreationRefusal(t, kind, name, parent)
    case CreateWithComponents(kind, name, parent, _, _) => CreationRefusal(t, kind, name, parent)
    case Update(id, change) =>
      if !Alive(t, id) then Some(NotFound)
      else if Dangling(t.entities, change.parent) then Some(StorageError)
      else None
    case Delete(id) => if Alive(t, id) then None else Some(NotFound)
    case SetComponent(id, _, _) => if Alive(t, id) then None else Some(NotFound)
    case DeleteComponent(id, kind) =>
      if Alive(t, id) && Place(id, kind) in t.components then None else Some(NotFound)
  }

  function Upserted(components: map<Place, Component>, place: Place, data: string): map<Place, Component> {
    components[place := Component(data, if place in components then components[place].version + 1 else 1)]
  }

  function UpsertedAll(components: map<Place, Component>, id: Id, cs: seq<(string, string)>): map<Place, Component> {
    if cs == [] then components
    else Upserted(UpsertedAll(components, id, cs[..|cs| - 1]), Place(id, cs[|cs| - 1].0), cs[|cs| - 1].1)
  }

  function SetEvents(id: Id, cs: seq<(string, string)>, firstEventId: Id, now: Time): seq<Event> {
    seq(|cs|, i requires 0 <= i < |cs| =>
      Event(firstEventId + i, now, ComponentSet(Place(id, cs[i].0), cs[i].1, None)))
  }

  function Changed<T(==)>(wanted: Option<T>, current: T): Option<T> {
    if wanted.Some? && wanted.value != current then wanted else None
  }

  /** The fields that the update event records: parent and meta whenever given, the others only when different. */
  function Recorded(e: Entity, id: Id, c: Change): Payload {
    EntityUpdated(id, Changed(c.name, e.name), Changed(c.status, e.status), c.parent, c.meta,
                  Changed(c.sortOrder, e.sortOrder))
  }

  predicate RecordsNothing(p: Payload)
    requires p.EntityUpdated?
  {
    p.newName.None? && p.newStatus.None? && p.newParent.None? && p.newMeta.None? && p.newSortOrder.None?
  }

  function Or<T>(o: Option<T>, default: T): T { if o.Some? then o.value else default }

  function Amended(e: Entity, c: Change): Entity {
    e.(name := Or(c.name, e.name), status := Or(c.status, e.status),
       parent := if c.parent.Some? then c.parent else e.parent, meta := Or(c.meta, e.meta),
       sortOrder := Or(c.sortOrder, e.sortOrder))
  }

  function NewEntity(kind: string, name: string, parent: Option<Id>, meta: string): Entity {
    Entity(kind, name, "active", parent, meta, 0, false)
  }

  /** What an accepted call does: the new rows, the events written with them, the events published afterwards and the
      number of ids drawn. */
  datatype Outcome = Outcome(entities: map<Id, Entity>, components: map<Place, Component>, written: seq<Event>,
                             published: seq<Event>, ids: nat)

  function Creation(t: Tables, kind: string, name: string, parent: Option<Id>, meta: string, cs: seq<(string, string)>,
                    now: Time): Outcome
  {
    var evs := [Event(t.nextId + 1, now, EntityCreated(t.nextId, kind, name, "active"))]
               + SetEvents(t.nextId, cs, t.nextId + 2, now);
    Outcome(t.entities[t.nextId := NewEntity(kind, name, parent, meta)], UpsertedAll(t.components, t.nextId, cs),
            evs, evs, 2 + |cs|)
  }

  function Amendment(t: Tables, id: Id, change: Change, now: Time): Outcome
    requires id in t.entities
  {
    var payload := Recorded(t.entities[id], id, change);
    if RecordsNothing(payload) then Outcome(t.entities, t.components, [], [], 0)
    else
      var evs := [Event(t.nextId, now, payload)];
      Outcome(t.entities[id := Amended(t.entities[id], change)], t.components, evs, evs, 1)
  }

  function Deletion(t: Tables, id: Id, now: Time): Outcome
    requires id in t.entities
  {
    var evs := [Event(t.nextId, now, EntityDeleted(id, t.entities[id].kind))];
    Outcome(t.entities[id := t.entities[id].(deleted := true)], t.components, evs, evs, 1)
  }

  /** The published copy of a set event also carries the version. */
  function Setting(t: Tables, place: Place, data: string, now: Time): Outcome {
    var components := Upserted(t.components, place, data);
    Outcome(t.entities, components, [Event(t.nextId, now, ComponentSet(place, data, None))],
            [Event(t.nextId, now, ComponentSet(place, data, Some(components[place].version)))], 1)
  }

  /** A removal is not written with the rows, only published. */
  function Removal(t: Tables, place: Place, now: Time): Outcome {
    Outcome(t.entities, t.components - {place}, [], [Event(t.nextId, now, ComponentRemoved(place))], 1)
  }

  function OutcomeOf(t: Tables, r: Request, now: Time): Outcome
    requires Refusal(t, r).None?
  {
    match r
    case Create(kind, name, parent, meta) => Creation(t, kind, name, parent, meta, [], now)
    case CreateWithComponents(kind, name, parent, meta, cs) => Creation(t, kind, name, parent, meta, cs, now)
    case Update(id, change) => Amendment(t, id, change, now)
    case Delete(id) => Deletion(t, id, now)
    case SetComponent(id, kind, data) => Setting(t, Place(id, kind), data, now)
    case DeleteComponent(id, kind) => Removal(t, Place(id, kind), now)
  }

  function Carried(t: Tables, o: Outcome, persisted: bool): Tables {
    Tables(o.entities, o.components, PublishedAll(t.events + o.written, o.published, persisted), t.nextId + o.ids)
  }

  /** The transaction of an accepted call fails. Removals and updates that record nothing have none. */
  predicate Fails(t: Tables, op: Op) {
    && !op.committed && Refusal(t, op.request).None?
    && match op.request
       case Update(id, change) => !RecordsNothing(Recorded(t.entities[id], id, change))
       case DeleteComponent(_, _) => false
       case _ => true
  }

  /** A failed transaction stores no event. Updates and deletions have changed the entity's row outside of it. */
  function Aborted(t: Tables, r: Request, o: Outcome): Tables {
    t.(entities := if r.Update? || r.Delete? then o.entities else t.entities, nextId := t.nextId + o.ids)
  }

  function ErrorOf(t: Tables, op: Op): Option<ErrorCode> {
    if Fails(t, op) then Some(StorageError) else Refusal(t, op.request)
  }

  function After(t: Tables, op: Op): Tables {
    if Refusal(t, op.request).Some? then t
    else
      var o := OutcomeOf(t, op.request, op.now);
      if Fails(t, op) then Aborted(t, op.request, o) else Carried(t, o, op.persisted)
  }

  function Run(t: Tables, ops: seq<Op>): Tables {
    if ops == [] then t else After(Run(t, ops[..|ops| - 1]), ops[|ops| - 1])
  }

  ghost predicate IdsBelow(events: seq<Event>, nextId: Id) {
    forall i :: 0 <= i < |events| ==> events[i].id < nextId
  }

  /** Ids handed out so far lie below `nextId`. */
  ghost predicate FreshIds(t: Tables) {
    && (forall id :: id in t.entities ==> id < t.nextId)
    && IdsBelow(t.events, t.nextId)
    && (forall p :: p in t.components ==> p.entity in t.entities)
  }

  // ---------- The service ----------

  class EntityService {
    var entities: map<Id, Entity>
    var components: map<Place, Component>
    var events: seq<Event>
    var nextId: Id

    function View(): Tables
      reads this
    {
      Tables(entities, components, events, nextId)
    }

    constructor ()
      ensures View() == EMPTY_TABLES && FreshIds(View())
    {
      entities, components, events, nextId := map[], map[], [], 0;
    }

    method NewId() returns (id: Id)
      modifies this`nextId
      ensures id == old(nextId) && nextId == old(nextId) + 1
    {
      id := nextId;
      nextId := nextId + 1;
    }

    /** A plain insert: a second event with the same id and timestamp is an error. */
    method AppendTx(ev: Event) returns (ok: bool)
      modifies this`events
      ensures ok <==> !Known(old(events), ev)
      ensures events == if ok then old(events) + [ev] else old(events)
    {
      if Known(events, ev) {
        return false;
      }
      events := events + [ev];
      return true;
    }

    method PublishEach(evs: seq<Event>, persisted: bool)
      modifies this`events
      ensures events == PublishedAll(old(events), evs, persisted)
    {
      for i := 0 to |evs|
        invariant events == PublishedAll(old(events), evs[..i], persisted)
      {
        assert evs[..i + 1][..i] == evs[..i];
        Publish(evs[i], persisted);
      }
      assert evs[..|evs|] == evs;
    }

    /** The persisting bus: an insert that does nothing on conflict, its failure is only logged. */
    method Publish(ev: Event, persisted: bool)
      modifies this`events
      ensures events == Published(old(events), ev, persisted)
    {
      if persisted {
        if !Known(events, ev) {
          events := events + [ev];
        }
      }
    }

    method UpsertComponent(place: Place, data: string) returns (version: nat)
      modifies this`components
      ensures components == Upserted(old(components), place, data) && version == components[place].version
    {
      version := 1;
      if place in components {
        version := components[place].version + 1;
      }
      components := components[place := Component(data, version)];
    }

    method CreateEntity(kind: string, name: string, parent: Option<Id>, meta: string, now: Time, committed: bool,
                        persisted: bool) returns (err: Option<ErrorCode>)
      requires FreshIds(View())
      modifies this
      ensures var op := Op(Create(kind, name, parent, meta), now, committed, persisted);
              err == ErrorOf(old(View()), op) && View() == After(old(View()), op)
    {
      if kind == "" {
        return Some(BadRequest);
      }
      if name == "" {
        return Some(BadRequest);
      }
      if Dangling(entities, parent) {
        return Some(StorageError);
      }
      var id := NewId();
      var evId := NewId();
      var ev := Event(evId, now, EntityCreated(id, kind, name, "active"));
      var entitiesBefore, eventsBefore := entities, events;
      entities := entities[id := Entity(kind, name, "active", parent, meta, 0, false)];
      var ok := AppendTx(ev);
      assert ok;
      if !committed {
        entities, events := entitiesBefore, eventsBefore;
        return Some(StorageError);
      }
      Publish(ev, persisted);
      PublishedOne(old(events) + [ev], ev, persisted);
      assert Creation(old(View()), kind, name, parent, meta, [], now).published == [ev];
      return None;
    }

    method CreateEntityWithComponents(kind: string, name: string, parent: Option<Id>, meta: string,
                                      cs: seq<(string, string)>, now: Time, committed: bool, persisted: bool)
      returns (err: Option<ErrorCode>)
      requires FreshIds(View())
      modifies this
      ensures var op := Op(CreateWithComponents(kind, name, parent, meta, cs), now, committed, persisted);
              err == ErrorOf(old(View()), op) && View() == After(old(View()), op)
    {
      if kind == "" {
        return Some(BadRequest);
      }
      if name == "" {
        return Some(BadRequest);
      }
      if Dangling(entities, parent) {
        return Some(StorageError);
      }
      var entitiesBefore, componentsBefore, eventsBefore := entities, components, events;
      var evs := WriteEntity(kind, name, parent, meta, cs, now);
      if !committed {
        entities, components, events := entitiesBefore, componentsBefore, eventsBefore;
        return Some(StorageError);
      }
      PublishEach(evs, persisted);
      return None;
    }

    /** The transaction that inserts the entity, its components and their events. */
    method WriteEntity(kind: string, name: string, parent: Option<Id>, meta: string, cs: seq<(string, string)>,
                       now: Time) returns (evs: seq<Event>)
      requires FreshIds(View())
      modifies this
      ensures var o := Creation(old(View()), kind, name, parent, meta, cs, now);
              && evs == o.published
              && View() == Tables(o.entities, o.components, old(events) + o.written, old(nextId) + o.ids)
    {
      var id := NewId();
      var evId := NewId();
      var entityEv := Event(evId, now, EntityCreated(id, kind, name, "active"));
      entities := entities[id := Entity(kind, name, "active", parent, meta, 0, false)];
      var stored := AppendTx(entityEv);
      assert stored;
      evs := WriteComponents(id, cs, now);
      evs := [entityEv] + evs;
    }

    method WriteComponents(id: Id, cs: seq<(string, string)>, now: Time) returns (evs: seq<Event>)
      requires IdsBelow(events, nextId)
      modifies this`components, this`events, this`nextId
      ensures components == UpsertedAll(old(components), id, cs)
      ensures evs == SetEvents(id, cs, old(nextId), now)
      ensures events == old(events) + evs && nextId == old(nextId) + |cs|
    {
      evs := [];
      ghost var sets := SetEvents(id, cs, nextId, now);
      for i := 0 to |cs|
        invariant nextId == old(nextId) + i
        invariant components == UpsertedAll(old(components), id, cs[..i])
        invariant evs == sets[..i]
        invariant events == old(events) + evs && IdsBelow(events, nextId)
      {
        assert cs[..i + 1][..i] == cs[..i];
        var ev := WriteComponent(Place(id, cs[i].0), cs[i].1, now);
        evs := evs + [ev];
      }
      assert cs[..|cs|] == cs && sets[..|cs|] == sets;
    }

    method WriteComponent(place: Place, data: string, now: Time) returns (ev: Event)
      requires IdsBelow(events, nextId)
      modifies this`components, this`events, this`nextId
      ensures components == Upserted(old(components), place, data)
      ensures ev == Event(old(nextId), now, ComponentSet(place, data, None))
      ensures events == old(events) + [ev] && nextId == old(nextId) + 1 && IdsBelow(events, nextId)
    {
      var version := UpsertComponent(place, data);
      var evId := NewId();
      ev := Event(evId, now, ComponentSet(place, data, None));
      var stored := AppendTx(ev);
      assert stored;
    }

    /** The row is changed outside the transaction that stores the event, so it stays changed when that fails. */
    method UpdateEntity(id: Id, change: Change, now: Time, committed: bool, persisted: bool)
      returns (err: Option<ErrorCode>)
      requires FreshIds(View())
      modifies this
      ensures var op := Op(Update(id, change), now, committed, persisted);
              err == ErrorOf(old(View()), op) && View() == After(old(View()), op)
    {
      if id !in entities || entities[id].deleted {
        return Some(NotFound);
      }
      if Dangling(entities, change.parent) {
        return Some(StorageError);
      }
      var e, changes := CollectChanges(entities[id], id, change);
      if changes == EntityUpdated(id, None, None, None, None, None) {
        return None;
      }
      var evId := NewId();
      var ev := Event(evId, now, changes);
      entities := entities[id := e];
      var eventsBefore := events;
      var ok := AppendTx(ev);
      assert ok;
      if !committed {
        events := eventsBefore;
        return Some(StorageError);
      }
      Publish(ev, persisted);
      PublishedOne(old(events) + [ev], ev, persisted);
      return None;
    }

    method CollectChanges(loaded: Entity, id: Id, change: Change) returns (e: Entity, changes: Payload)
      ensures e == (if RecordsNothing(Recorded(loaded, id, change)) then loaded else Amended(loaded, change))
      ensures changes == Recorded(loaded, id, change)
    {
      e := loaded;
      changes := EntityUpdated(id, None, None, None, None, None);
      if change.name.Some? && change.name.value != e.name {
        changes := changes.(newName := change.name);
        e := e.(name := change.name.value);
      }
      if change.status.Some? && change.status.value != e.status {
        changes := changes.(newStatus := change.status);
        e := e.(status := change.status.value);
      }
      if change.parent.Some? {
        changes := changes.(newParent := change.parent);
        e := e.(parent := change.parent);
      }
      if change.meta.Some? {
        changes := changes.(newMeta := change.meta);
        e := e.(meta := change.meta.value);
      }
      if change.sortOrder.Some? && change.sortOrder.value != e.sortOrder {
        changes := changes.(newSortOrder := change.sortOrder);
        e := e.(sortOrder := change.sortOrder.value);
      }
    }

    /** As with updates, the row stays marked when the transaction fails. */
    method DeleteEntity(id: Id, now: Time, committed: bool, persisted: bool)
      returns (err: Option<ErrorCode>)
      requires FreshIds(View())
      modifies this
      ensures var op := Op(Delete(id), now, committed, persisted);
              err == ErrorOf(old(View()), op) && View() == After(old(View()), op)
    {
      if id !in entities || entities[id].deleted {
        return Some(NotFound);
      }
      var evId := NewId();
      var ev := Event(evId, now, EntityDeleted(id, entities[id].kind));
      entities := entities[id := entities[id].(deleted := true)];
      var eventsBefore := events;
      var ok := AppendTx(ev);
      assert ok;
      if !committed {
        events := eventsBefore;
        return Some(StorageError);
      }
      Publish(ev, persisted);
      PublishedOne(old(events) + [ev], ev, persisted);
      return None;
    }

    method SetEntityComponent(id: Id, kind: string, data: string, now: Time, committed: bool, persisted: bool)
      returns (err: Option<ErrorCode>)
      requires FreshIds(View())
      modifies this
      ensures var op := Op(SetComponent(id, kind, data), now, committed, persisted);
              err == ErrorOf(old(View()), op) && View() == After(old(View()), op)
    {
      if id !in entities || entities[id].deleted {
        return Some(NotFound);
      }
      var evId := NewId();
      var ev := Event(evId, now, ComponentSet(Place(id, kind), data, None));
      var componentsBefore, eventsBefore := components, events;
      var version := UpsertComponent(Place(id, kind), data);
      var ok := AppendTx(ev);
      assert ok;
      if !committed {
        components, events := componentsBefore, eventsBefore;
        return Some(StorageError);
      }
      ghost var written := old(events) + [ev];
      ev := ev.(payload := ComponentSet(Place(id, kind), data, Some(version)));
      Publish(ev, persisted);
      PublishedOne(written, ev, persisted);
      return None;
    }

    method DeleteEntityComponent(id: Id, kind: string, now: Time, ghost committed: bool, persisted: bool)
      returns (err: Option<ErrorCode>)
      requires FreshIds(View())
      modifies this
      ensures var op := Op(DeleteComponent(id, kind), now, committed, persisted);
              err == ErrorOf(old(View()), op) && View() == After(old(View()), op)
    {
      if id !in entities || entities[id].deleted {
        return Some(NotFound);
      }
      if Place(id, kind) !in components {
        return Some(NotFound);
      }
      var evId := NewId();
      var ev := Event(evId, now, ComponentRemoved(Place(id, kind)));
      components := components - {Place(id, kind)};
      Publish(ev, persisted);
      assert old(events) + [] == old(events);
      PublishedOne(old(events), ev, persisted);
      return None;
    }
  }

  // ---------- What the log receives ----------

  lemma {:induction false} PublishAllAgain(events: seq<Event>, evs: seq<Event>, persisted: bool)
    requires forall i :: 0 <= i < |evs| ==> Known(events, evs[i])
    ensures PublishedAll(events, evs, persisted) == events
  {
    if evs != [] {
      PublishAllAgain(events, evs[..|evs| - 1], persisted);
    }
  }

  /** Events published after having been written, under the same id and timestamp. */
  ghost predicate Echoes(written: seq<Event>, published: seq<Event>) {
    |published| == |written|
    && forall i :: 0 <= i < |written| ==>
         published[i].id == written[i].id && published[i].timestamp == written[i].timestamp
  }

  /** The events a call adds to the log. */
  function Added(t: Tables, op: Op): seq<Event> {
    if Refusal(t, op.request).Some? || Fails(t, op) then []
    else
      var o := OutcomeOf(t, op.request, op.now);
      if op.request.DeleteComponent? then (if op.persisted then o.published else []) else o.written
  }

  lemma EchoesAddNothing(events: seq<Event>, written: seq<Event>, published: seq<Event>, persisted: bool)
    requires Echoes(written, published)
    ensures PublishedAll(events + written, published, persisted) == events + written
  {
    forall i | 0 <= i < |published| ensures Known(events + written, published[i]) {
      assert (events + written)[|events| + i] == written[i];
    }
    PublishAllAgain(events + written, published, persisted);
  }

  /** Writing an event with its rows and publishing it afterwards stores it once, as it was written first; a failed
      transaction stores none; a removal is stored when, and only when, the bus can persist it. */
  lemma CallsAppendOnce(t: Tables, op: Op)
    requires FreshIds(t)
    ensures After(t, op).events == t.events + Added(t, op)
  {
    if Fails(t, op) {
      assert t.events + [] == t.events;
    } else if Refusal(t, op.request).None? {
      var o := OutcomeOf(t, op.request, op.now);
      if op.request.DeleteComponent? {
        var ev := o.published[0];
        assert t.events + o.written == t.events && o.published == [ev];
        assert !Known(t.events, ev);
        PublishedOne(t.events, ev, op.persisted);
      } else {
        EchoesAddNothing(t.events, o.written, o.published, op.persisted);
      }
    }
  }

  ghost predicate DrawnInOrder(evs: seq<Event>, lo: Id, hi: Id) {
    && (forall i :: 0 <= i < |evs| ==> lo <= evs[i].id < hi)
    && (forall i, j :: 0 <= i < j < |evs| ==> evs[i].id < evs[j].id)
  }

  lemma CreationIsFresh(t: Tables, kind: string, name: string, parent: Option<Id>, meta: string,
                        cs: seq<(string, string)>, now: Time)
    requires FreshIds(t)
    ensures var o := Creation(t, kind, name, parent, meta, cs, now);
            && DrawnInOrder(o.written, t.nextId, t.nextId + o.ids)
            && (forall id :: id in o.entities ==> id < t.nextId + o.ids)
            && (forall p :: p in o.components ==> p.entity in o.entities)
  {
    UpsertedPlaces(t.components, t.nextId, cs);
  }

  lemma OutcomesAreFresh(t: Tables, op: Op)
    requires FreshIds(t) && Refusal(t, op.request).None?
    ensures var o := OutcomeOf(t, op.request, op.now);
            && DrawnInOrder(Added(t, op), t.nextId, t.nextId + o.ids)
            && (forall id :: id in o.entities ==> id < t.nextId + o.ids)
            && (forall p :: p in o.components ==> p.entity in o.entities)
  {
    match op.request {
      case Create(kind, name, parent, meta) => CreationIsFresh(t, kind, name, parent, meta, [], op.now);
      case CreateWithComponents(kind, name, parent, meta, cs) =>
        CreationIsFresh(t, kind, name, parent, meta, cs, op.now);
      case _ =>
    }
  }

  lemma {:induction false} UpsertedPlaces(components: map<Place, Component>, id: Id, cs: seq<(string, string)>)
    ensures forall p :: p in UpsertedAll(components, id, cs) ==> p in components || p.entity == id
  {
    if cs != [] {
      UpsertedPlaces(components, id, cs[..|cs| - 1]);
    }
  }

  ghost predicate UniqueIds(events: seq<Event>) {
    forall i, j :: 0 <= i < j < |events| ==> events[i].id != events[j].id
  }

  /** In every run no event id is stored twice. */
  lemma {:induction false} EventIdsAreUnique(ops: seq<Op>)
    ensures UniqueIds(Run(EMPTY_TABLES, ops).events) && FreshIds(Run(EMPTY_TABLES, ops))
  {
    if ops != [] {
      EventIdsAreUnique(ops[..|ops| - 1]);
      var t, op := Run(EMPTY_TABLES, ops[..|ops| - 1]), ops[|ops| - 1];
      CallsAppendOnce(t, op);
      if Refusal(t, op.request).None? {
        OutcomesAreFresh(t, op);
      }
    }
  }

  // ---------- Replay ----------

  datatype Seen = Seen(kind: string, name: string, status: string, sortOrder: int, deleted: bool)

  datatype Replica = Replica(entities: map<Id, Seen>, components: map<Place, string>)

  function Applied(r: Replica, p: Payload): Replica {
    match p
    case EntityCreated(id, kind, name, status) => r.(entities := r.entities[id := Seen(kind, name, status, 0, false)])
    case EntityUpdated(id, newName, newStatus, _, _, newSortOrder) =>
      if id !in r.entities then r
      else
        var e := r.entities[id];
        r.(entities := r.entities[id := e.(name := Or(newName, e.name), status := Or(newStatus, e.status),
                                           sortOrder := Or(newSortOrder, e.sortOrder))])
    case EntityDeleted(id, _) =>
      if id !in r.entities then r else r.(entities := r.entities[id := r.entities[id].(deleted := true)])
    case ComponentSet(place, data, _) => r.(components := r.components[place := data])
    case ComponentRemoved(place) => r.(components := r.components - {place})
  }

  function ReplayOn(r: Replica, events: seq<Event>): Replica {
    if events == [] then r
    else Applied(ReplayOn(r, events[..|events| - 1]), events[|events| - 1].payload)
  }

  function Replay(events: seq<Event>): Replica { ReplayOn(Replica(map[], map[]), events) }

  /** Live rows as far as the log speaks of them. */
  function LiveRows(entities: map<Id, Entity>, components: map<Place, Component>): Replica {
    Replica(map id | id in entities ::
              Seen(entities[id].kind, entities[id].name, entities[id].status,
                   entities[id].sortOrder, entities[id].deleted),
            map p | p in components :: components[p].data)
  }

  function Live(t: Tables): Replica { LiveRows(t.entities, t.components) }

  ghost predicate Synced(t: Tables) { Replay(t.events) == Live(t) }

  lemma {:induction false} ReplayAppends(r: Replica, a: seq<Event>, b: seq<Event>)
    ensures ReplayOn(r, a + b) == ReplayOn(ReplayOn(r, a), b)
  {
    if b == [] {
      assert a + b == a;
    } else {
      ReplayAppends(r, a, b[..|b| - 1]);
      assert (a + b)[..|a + b| - 1] == a + b[..|b| - 1];
    }
  }

  lemma ReplayOne(r: Replica, ev: Event)
    ensures ReplayOn(r, [ev]) == Applied(r, ev.payload)
  {
    assert [ev][..0] == [];
  }

  /** A removal whose event could not be persisted: it is the one event only the bus writes. */
  predicate LosesRemoval(t: Tables, op: Op) {
    op.request.DeleteComponent? && Refusal(t, op.request).None? && !op.persisted
  }

  /** The row changes in what the log speaks of and no event tells so: a lost removal, or a deletion or a change of
      name, status or sort order whose transaction fails. */
  predicate LosesEvent(t: Tables, op: Op) {
    LosesRemoval(t, op)
    || (Fails(t, op)
        && match op.request
           case Update(id, change) =>
             var e := t.entities[id];
             Changed(change.name, e.name).Some? || Changed(change.status, e.status).Some?
             || Changed(change.sortOrder, e.sortOrder).Some?
           case Delete(_) => true
           case _ => false)
  }

  /** From a state in step with its log, a call keeps it in step unless, and only unless, it loses an event. */
  lemma CallStaysSynced(t: Tables, op: Op)
    requires FreshIds(t) && Synced(t)
    ensures Synced(After(t, op)) <==> !LosesEvent(t, op)
  {
    CallsAppendOnce(t, op);
    ReplayAppends(Replica(map[], map[]), t.events, Added(t, op));
    if Fails(t, op) {
      FailureShows(t, op);
    } else if Refusal(t, op.request).None? {
      match op.request {
        case Create(kind, name, parent, meta) => CreationReplays(t, kind, name, parent, meta, [], op.now);
        case CreateWithComponents(kind, name, parent, meta, cs) =>
          CreationReplays(t, kind, name, parent, meta, cs, op.now);
        case Update(id, change) => AmendmentReplays(t, id, change, op.now);
        case Delete(id) => DeletionReplays(t, id, op.now);
        case SetComponent(id, kind, data) => SettingReplays(t, Place(id, kind), data, op.now);
        case DeleteComponent(id, kind) => RemovalReplays(t, Place(id, kind), op.now);
      }
    }
  }

  lemma FailureShows(t: Tables, op: Op)
    requires Fails(t, op)
    ensures Live(After(t, op)) == Live(t) <==> !LosesEvent(t, op)
  {
    match op.request {
      case Update(id, change) =>
        assert Live(After(t, op)).entities[id] == Live(t).entities[id] <==> !LosesEvent(t, op);
        assert !LosesEvent(t, op) ==> Live(After(t, op)).entities == Live(t).entities;
      case Delete(id) =>
        assert Live(After(t, op)).entities[id] != Live(t).entities[id];
      case _ =>
    }
  }

  /** The events of an outcome, replayed on the old rows, give the new rows. */
  ghost predicate Replays(t: Tables, o: Outcome, added: seq<Event>) {
    ReplayOn(Live(t), added) == LiveRows(o.entities, o.components)
  }

  lemma AmendmentReplays(t: Tables, id: Id, change: Change, now: Time)
    requires id in t.entities
    ensures Replays(t, Amendment(t, id, change, now), Amendment(t, id, change, now).written)
  {
    var o := Amendment(t, id, change, now);
    if o.written != [] {
      ReplayOne(Live(t), o.written[0]);
      assert ReplayOn(Live(t), o.written).entities == LiveRows(o.entities, o.components).entities;
    }
  }

  lemma DeletionReplays(t: Tables, id: Id, now: Time)
    requires id in t.entities
    ensures Replays(t, Deletion(t, id, now), Deletion(t, id, now).written)
  {
    var o := Deletion(t, id, now);
    ReplayOne(Live(t), o.written[0]);
    assert ReplayOn(Live(t), o.written).entities == LiveRows(o.entities, o.components).entities;
  }

  lemma SettingReplays(t: Tables, place: Place, data: string, now: Time)
    ensures Replays(t, Setting(t, place, data, now), Setting(t, place, data, now).written)
  {
    var o := Setting(t, place, data, now);
    ReplayOne(Live(t), o.written[0]);
    assert ReplayOn(Live(t), o.written).components == LiveRows(o.entities, o.components).components;
  }

  lemma RemovalReplays(t: Tables, place: Place, now: Time)
    requires place in t.components
    ensures Replays(t, Removal(t, place, now), Removal(t, place, now).published)
    ensures !Replays(t, Removal(t, place, now), [])
  {
    var o := Removal(t, place, now);
    ReplayOne(Live(t), o.published[0]);
    assert ReplayOn(Live(t), o.published).components == LiveRows(o.entities, o.components).components;
    assert place in Live(t).components && place !in LiveRows(o.entities, o.components).components;
  }

  lemma CreationReplays(t: Tables, kind: string, name: string, parent: Option<Id>, meta: string,
                        cs: seq<(string, string)>, now: Time)
    requires FreshIds(t)
    ensures var o := Creation(t, kind, name, parent, meta, cs, now); Replays(t, o, o.written)
  {
    var ev := Event(t.nextId + 1, now, EntityCreated(t.nextId, kind, name, "active"));
    var entities := t.entities[t.nextId := NewEntity(kind, name, parent, meta)];
    ReplayOne(Live(t), ev);
    CreationShows(t, kind, name, parent, meta);
    ReplayAppends(Live(t), [ev], SetEvents(t.nextId, cs, t.nextId + 2, now));
    ComponentsReplay(entities, t.components, t.nextId, cs, t.nextId + 2, now);
  }

  lemma CreationShows(t: Tables, kind: string, name: string, parent: Option<Id>, meta: string)
    requires FreshIds(t)
    ensures Applied(Live(t), EntityCreated(t.nextId, kind, name, "active"))
         == LiveRows(t.entities[t.nextId := NewEntity(kind, name, parent, meta)], t.components)
  {
    assert Applied(Live(t), EntityCreated(t.nextId, kind, name, "active")).entities
        == LiveRows(t.entities[t.nextId := NewEntity(kind, name, parent, meta)], t.components).entities;
  }

  lemma {:induction false} ComponentsReplay(entities: map<Id, Entity>, components: map<Place, Component>, id: Id,
                                            cs: seq<(string, string)>, firstEventId: Id, now: Time)
    ensures ReplayOn(LiveRows(entities, components), SetEvents(id, cs, firstEventId, now))
         == LiveRows(entities, UpsertedAll(components, id, cs))
  {
    if cs != [] {
      var n := |cs| - 1;
      ComponentsReplay(entities, components, id, cs[..n], firstEventId, now);
      assert SetEvents(id, cs, firstEventId, now)[..n] == SetEvents(id, cs[..n], firstEventId, now);
      OneUpsertShows(entities, UpsertedAll(components, id, cs[..n]), Place(id, cs[n].0), cs[n].1);
    }
  }

  lemma OneUpsertShows(entities: map<Id, Entity>, components: map<Place, Component>, place: Place, data: string)
    ensures Applied(LiveRows(entities, components), ComponentSet(place, data, None))
         == LiveRows(entities, Upserted(components, place, data))
  {
    assert Applied(LiveRows(entities, components), ComponentSet(place, data, None)).components
        == LiveRows(entities, Upserted(components, place, data)).components;
  }

  ghost predicate NoLostEvent(ops: seq<Op>) {
    ops == [] || (NoLostEvent(ops[..|ops| - 1]) && !LosesEvent(Run(EMPTY_TABLES, ops[..|ops| - 1]), ops[|ops| - 1]))
  }

  ghost function InStep(): seq<Op> -> bool { (ops: seq<Op>) => Synced(Run(EMPTY_TABLES, ops)) }

  /** The live state equals the replayed log at every moment of a run if and only if the run loses no event. */
  lemma {:induction false} RunStaysSynced(ops: seq<Op>)
    ensures Always(InStep(), ops) <==> NoLostEvent(ops)
  {
    AlwaysSplits(InStep(), ops);
    if ops == [] {
      assert Live(EMPTY_TABLES) == Replica(map[], map[]);
    } else {
      var before := ops[..|ops| - 1];
      RunStaysSynced(before);
      EventIdsAreUnique(before);
      AlwaysNow(InStep(), before);
      if InStep()(before) {
        CallStaysSynced(Run(EMPTY_TABLES, before), ops[|ops| - 1]);
      }
    }
  }

  lemma {:induction false} LogOnlyGrows(ops: seq<Op>, k: nat)
    requires k <= |ops|
    ensures Run(EMPTY_TABLES, ops[..k]).events <= Run(EMPTY_TABLES, ops).events
  {
    if k < |ops| {
      var before := ops[..|ops| - 1];
      LogOnlyGrows(before, k);
      assert before[..k] == ops[..k];
      EventIdsAreUnique(before);
      CallsAppendOnce(Run(EMPTY_TABLES, before), ops[|ops| - 1]);
    } else {
      assert ops[..k] == ops;
    }
  }

  lemma {:induction false} PrefixLosesNothing(ops: seq<Op>, k: nat)
    requires NoLostEvent(ops) && k <= |ops|
    ensures NoLostEvent(ops[..k])
  {
    if k < |ops| {
      PrefixLosesNothing(ops[..|ops| - 1], k);
      assert ops[..|ops| - 1][..k] == ops[..k];
    } else {
      assert ops[..k] == ops;
    }
  }

  /** Replay to any point in time: the log as it was after k calls is a prefix of the final log, and replaying that
      prefix gives every entity's kind, name, status, sort order, deleted flag and all component data of that moment. */
  lemma ReplayToAnyPoint(ops: seq<Op>, k: nat)
    requires NoLostEvent(ops) && k <= |ops|
    ensures var n := |Run(EMPTY_TABLES, ops[..k]).events|;
            && n <= |Run(EMPTY_TABLES, ops).events|
            && Replay(Run(EMPTY_TABLES, ops).events[..n]) == Live(Run(EMPTY_TABLES, ops[..k]))
  {
    LogOnlyGrows(ops, k);
    PrefixLosesNothing(ops, k);
    RunStaysSynced(ops[..k]);
    AlwaysNow(InStep(), ops[..k]);
    assert InStep()(ops[..k]);
    var log := Run(EMPTY_TABLES, ops[..k]).events;
    assert Run(EMPTY_TABLES, ops).events[..|log|] == log;
  }

  // ---------- Component versions ----------

  /** How often the component was set since it was last removed. */
  function SetsSinceRemoval(events: seq<Event>, place: Place): nat {
    if events == [] then 0
    else
      var before, p := events[..|events| - 1], events[|events| - 1].payload;
      if p == ComponentRemoved(place) then 0
      else SetsSinceRemoval(before, place) + (if p.ComponentSet? && p.place == place then 1 else 0)
  }

  function VersionOf(components: map<Place, Component>, place: Place): nat {
    if place in components then components[place].version else 0
  }

  lemma CountAppend(events: seq<Event>, ev: Event)
    ensures forall place: Place :: SetsSinceRemoval(events + [ev], place)
              == if ev.payload == ComponentRemoved(place) then 0
                 else SetsSinceRemoval(events, place)
                      + (if ev.payload.ComponentSet? && ev.payload.place == place then 1 else 0)
  {
    assert (events + [ev])[..|events|] == events;
  }

  lemma {:induction false} ComponentsCount(events: seq<Event>, components: map<Place, Component>, id: Id,
                                           cs: seq<(string, string)>, firstEventId: Id, now: Time)
    requires forall place: Place :: VersionOf(components, place) == SetsSinceRemoval(events, place)
    ensures forall place: Place :: VersionOf(UpsertedAll(components, id, cs), place)
                                == SetsSinceRemoval(events + SetEvents(id, cs, firstEventId, now), place)
  {
    var sets := SetEvents(id, cs, firstEventId, now);
    if cs == [] {
      assert events + sets == events;
    } else {
      var before := cs[..|cs| - 1];
      ComponentsCount(events, components, id, before, firstEventId, now);
      var earlier := SetEvents(id, before, firstEventId, now);
      assert events + sets == (events + earlier) + [sets[|cs| - 1]];
      CountAppend(events + earlier, sets[|cs| - 1]);
    }
  }

  ghost predicate Counts(components: map<Place, Component>, events: seq<Event>) {
    forall place: Place :: VersionOf(components, place) == SetsSinceRemoval(events, place)
  }

  ghost predicate NoLostRemoval(ops: seq<Op>) {
    ops == []
    || (NoLostRemoval(ops[..|ops| - 1]) && !LosesRemoval(Run(EMPTY_TABLES, ops[..|ops| - 1]), ops[|ops| - 1]))
  }

  ghost predicate PositiveVersions(t: Tables) { forall p :: p in t.components ==> t.components[p].version >= 1 }

  lemma {:induction false} UpsertsStayPositive(components: map<Place, Component>, id: Id, cs: seq<(string, string)>)
    requires forall p :: p in components ==> components[p].version >= 1
    ensures forall p :: p in UpsertedAll(components, id, cs) ==> UpsertedAll(components, id, cs)[p].version >= 1
  {
    if cs != [] {
      UpsertsStayPositive(components, id, cs[..|cs| - 1]);
    }
  }

  /** From versions that count sets, a call keeps them counting unless, and only unless, it loses a removal. */
  lemma CallKeepsCounting(t: Tables, op: Op)
    requires FreshIds(t) && PositiveVersions(t) && Counts(t.components, t.events)
    ensures Counts(After(t, op).components, After(t, op).events) <==> !LosesRemoval(t, op)
  {
    CallsAppendOnce(t, op);
    if Fails(t, op) {
      assert t.events + [] == t.events;
    } else if LosesRemoval(t, op) {
      var place := Place(op.request.id, op.request.kind);
      assert t.events + [] == t.events;
      assert VersionOf(t.components, place) == SetsSinceRemoval(t.events, place);
      assert VersionOf(After(t, op).components, place) == 0;
    } else if Refusal(t, op.request).None? {
      match op.request {
        case Create(kind, name, parent, meta) => CreationCounts(t, kind, name, parent, meta, [], op.now);
        case CreateWithComponents(kind, name, parent, meta, cs) =>
          CreationCounts(t, kind, name, parent, meta, cs, op.now);
        case _ => SingleEventCounts(t, op);
      }
    }
  }

  lemma SingleEventCounts(t: Tables, op: Op)
    requires Counts(t.components, t.events) && !LosesRemoval(t, op) && Refusal(t, op.request).None? && !Fails(t, op)
    requires !op.request.Create? && !op.request.CreateWithComponents?
    ensures Counts(OutcomeOf(t, op.request, op.now).components, t.events + Added(t, op))
  {
    if Added(t, op) == [] {
      assert t.events + Added(t, op) == t.events;
    } else {
      var ev := Added(t, op)[0];
      assert Added(t, op) == [ev];
      CountAppend(t.events, ev);
    }
  }

  lemma CreationCounts(t: Tables, kind: string, name: string, parent: Option<Id>, meta: string,
                       cs: seq<(string, string)>, now: Time)
    requires Counts(t.components, t.events)
    ensures var o := Creation(t, kind, name, parent, meta, cs, now); Counts(o.components, t.events + o.written)
  {
    var ev := Event(t.nextId + 1, now, EntityCreated(t.nextId, kind, name, "active"));
    CountAppend(t.events, ev);
    ComponentsCount(t.events + [ev], t.components, t.nextId, cs, t.nextId + 2, now);
    var sets := SetEvents(t.nextId, cs, t.nextId + 2, now);
    assert t.events + ([ev] + sets) == t.events + [ev] + sets;
  }

  ghost function Counting(): seq<Op> -> bool {
    (ops: seq<Op>) => Counts(Run(EMPTY_TABLES, ops).components, Run(EMPTY_TABLES, ops).events)
  }

  lemma {:induction false} RunStaysPositive(ops: seq<Op>)
    ensures PositiveVersions(Run(EMPTY_TABLES, ops))
  {
    if ops != [] {
      RunStaysPositive(ops[..|ops| - 1]);
      var t, op := Run(EMPTY_TABLES, ops[..|ops| - 1]), ops[|ops| - 1];
      if op.request.CreateWithComponents? && Refusal(t, op.request).None? && !Fails(t, op) {
        UpsertsStayPositive(t.components, t.nextId, op.request.components);
      }
    }
  }

  /** At every moment of a run each component's version is the number of times it was set since its last removal, if and
      only if the run loses no removal. */
  lemma {:induction false} VersionsCountSets(ops: seq<Op>)
    ensures Always(Counting(), ops) <==> NoLostRemoval(ops)
  {
    AlwaysSplits(Counting(), ops);
    if ops != [] {
      var before := ops[..|ops| - 1];
      VersionsCountSets(before);
      EventIdsAreUnique(before);
      RunStaysPositive(before);
      AlwaysNow(Counting(), before);
      if Counting()(before) {
        CallKeepsCounting(Run(EMPTY_TABLES, before), ops[|ops| - 1]);
      }
    }
  }

  // ---------- Runs that lose an event ----------

  const ONE_ENTITY := Op(Create("order", "Order", None, ""), 0, true, true)

  const LOST_REMOVAL := [ONE_ENTITY, Op(SetComponent(0, "price", "10"), 0, true, true),
                         Op(DeleteComponent(0, "price"), 0, true, false)]

  const LOST_DELETION := [ONE_ENTITY, Op(Delete(0), 0, false, true)]

  lemma FirstEntity()
    ensures var t := Run(EMPTY_TABLES, [ONE_ENTITY]);
            0 in t.entities && !t.entities[0].deleted && t.components == map[]
    ensures NoLostEvent([ONE_ENTITY])
  {
    assert [ONE_ENTITY][..0] == [] && NoLostEvent([]);
    assert !LosesEvent(EMPTY_TABLES, ONE_ENTITY);
  }

  lemma LossEndsAgreement(before: seq<Op>, last: Op)
    requires NoLostEvent(before) && LosesEvent(Run(EMPTY_TABLES, before), last)
    ensures !Synced(Run(EMPTY_TABLES, before + [last]))
  {
    RunStaysSynced(before);
    AlwaysNow(InStep(), before);
    assert InStep()(before);
    EventIdsAreUnique(before);
    CallStaysSynced(Run(EMPTY_TABLES, before), last);
    assert (before + [last])[..|before|] == before;
  }

  /** A component is set and removed while the bus cannot store the removal: the replay still has it, and its version
      does not count. */
  lemma LostRemovalShows()
    ensures var t := Run(EMPTY_TABLES, LOST_REMOVAL);
            !Synced(t) && t.components == map[] && SetsSinceRemoval(t.events, Place(0, "price")) == 1
  {
    FirstEntity();
    var two := LOST_REMOVAL[..2];
    var t := Run(EMPTY_TABLES, two);
    assert two[..1] == [ONE_ENTITY] && [ONE_ENTITY][..0] == [];
    assert t == After(Run(EMPTY_TABLES, [ONE_ENTITY]), LOST_REMOVAL[1]);
    assert t.components == map[Place(0, "price") := Component("10", 1)];
    assert NoLostEvent(two);
    LossEndsAgreement(two, LOST_REMOVAL[2]);
    assert two + [LOST_REMOVAL[2]] == LOST_REMOVAL && LOST_REMOVAL[..2] == two;
    NoLossCounts(two);
    EventIdsAreUnique(two);
    CallsAppendOnce(t, LOST_REMOVAL[2]);
    assert t.events + [] == t.events;
    assert VersionOf(t.components, Place(0, "price")) == 1;
  }

  lemma {:induction false} NoLossCounts(ops: seq<Op>)
    requires NoLostEvent(ops)
    ensures Counts(Run(EMPTY_TABLES, ops).components, Run(EMPTY_TABLES, ops).events)
  {
    NoEventNoRemoval(ops);
    VersionsCountSets(ops);
    AlwaysNow(Counting(), ops);
    assert Counting()(ops);
  }

  lemma {:induction false} NoEventNoRemoval(ops: seq<Op>)
    requires NoLostEvent(ops)
    ensures NoLostRemoval(ops)
  {
    if ops != [] {
      NoEventNoRemoval(ops[..|ops| - 1]);
    }
  }

  /** An entity is deleted in a transaction that fails: its row stays marked and the replay does not know. */
  lemma LostDeletionShows()
    ensures !Synced(Run(EMPTY_TABLES, LOST_DELETION))
    ensures ErrorOf(Run(EMPTY_TABLES, LOST_DELETION[..1]), LOST_DELETION[1]) == Some(StorageError)
  {
    FirstEntity();
    assert LOST_DELETION[..1] == [ONE_ENTITY] && [ONE_ENTITY][..0] == [];
    LossEndsAgreement([ONE_ENTITY], LOST_DELETION[1]);
    assert [ONE_ENTITY] + [LOST_DELETION[1]] == LOST_DELETION;
  }

  // ---------- What the log does not say ----------

  /** The creation event leaves out parent and meta: entities created with different ones leave the same log, so no
      replay can tell them apart. */
  lemma CreationHidesParentAndMeta(t: Tables, kind: string, name: string, parent1: Option<Id>, meta1: string,
                                   parent2: Option<Id>, meta2: string, now: Time, persisted: bool)
    requires CreationRefusal(t, kind, name, parent1).None? && CreationRefusal(t, kind, name, parent2).None?
    requires parent1 != parent2 || meta1 != meta2
    ensures var one := After(t, Op(Create(kind, name, parent1, meta1), now, true, persisted));
            var two := After(t, Op(Create(kind, name, parent2, meta2), now, true, persisted));
            one.events == two.events && one.entities != two.entities
  {
    var one := After(t, Op(Create(kind, name, parent1, meta1), now, true, persisted));
    var two := After(t, Op(Create(kind, name, parent2, meta2), now, true, persisted));
    assert one.entities[t.nextId] != two.entities[t.nextId];
  }

  /** The last parent and meta that update events gave an entity. */
  function LoggedParent(events: seq<Event>, id: Id): Option<Id> {
    if events == [] then None
    else
      var p := events[|events| - 1].payload;
      if p.EntityUpdated? && p.entity == id && p.newParent.Some? then p.newParent
      else LoggedParent(events[..|events| - 1], id)
  }

  function LoggedMeta(events: seq<Event>, id: Id): Option<string> {
    if events == [] then None
    else
      var p := events[|events| - 1].payload;
      if p.EntityUpdated? && p.entity == id && p.newMeta.Some? then p.newMeta
      else LoggedMeta(events[..|events| - 1], id)
  }

  ghost predicate LinksLogged(t: Tables) {
    && (forall id: Id :: LoggedParent(t.events, id).Some? ==>
          id in t.entities && t.entities[id].parent == LoggedParent(t.events, id))
    && (forall id: Id :: LoggedMeta(t.events, id).Some? ==>
          id in t.entities && Some(t.entities[id].meta) == LoggedMeta(t.events, id))
  }

  /** An update that names a new parent or meta fails after having changed the row. */
  predicate LosesLink(t: Tables, op: Op) {
    Fails(t, op) && op.request.Update? && (op.request.change.parent.Some? || op.request.change.meta.Some?)
  }

  ghost predicate KeepsLinks(ops: seq<Op>) {
    ops == []
    || (KeepsLinks(ops[..|ops| - 1]) && !LosesLink(Run(EMPTY_TABLES, ops[..|ops| - 1]), ops[|ops| - 1]))
  }

  lemma LinksAppend(events: seq<Event>, ev: Event)
    ensures forall id: Id :: LoggedParent(events + [ev], id)
              == if ev.payload.EntityUpdated? && ev.payload.entity == id && ev.payload.newParent.Some?
                 then ev.payload.newParent else LoggedParent(events, id)
    ensures forall id: Id :: LoggedMeta(events + [ev], id)
              == if ev.payload.EntityUpdated? && ev.payload.entity == id && ev.payload.newMeta.Some?
                 then ev.payload.newMeta else LoggedMeta(events, id)
  {
    assert (events + [ev])[..|events|] == events;
  }

  lemma {:induction false} SetsLogNoLinks(events: seq<Event>, id: Id, cs: seq<(string, string)>, firstEventId: Id,
                                          now: Time)
    ensures forall e: Id :: LoggedParent(events + SetEvents(id, cs, firstEventId, now), e) == LoggedParent(events, e)
    ensures forall e: Id :: LoggedMeta(events + SetEvents(id, cs, firstEventId, now), e) == LoggedMeta(events, e)
  {
    var sets := SetEvents(id, cs, firstEventId, now);
    if cs == [] {
      assert events + sets == events;
    } else {
      var earlier := SetEvents(id, cs[..|cs| - 1], firstEventId, now);
      SetsLogNoLinks(events, id, cs[..|cs| - 1], firstEventId, now);
      assert events + sets == (events + earlier) + [sets[|cs| - 1]];
      LinksAppend(events + earlier, sets[|cs| - 1]);
    }
  }

  lemma CallKeepsLinks(t: Tables, op: Op)
    requires FreshIds(t) && LinksLogged(t) && !LosesLink(t, op)
    ensures LinksLogged(After(t, op))
  {
    CallsAppendOnce(t, op);
    if Fails(t, op) {
      assert t.events + [] == t.events;
    } else if Refusal(t, op.request).None? {
      match op.request {
        case Create(kind, name, parent, meta) => CreationLogsNoLinks(t, kind, name, parent, meta, [], op.now);
        case CreateWithComponents(kind, name, parent, meta, cs) =>
          CreationLogsNoLinks(t, kind, name, parent, meta, cs, op.now);
        case _ => SingleEventKeepsLinks(t, op);
      }
    }
  }

  lemma SingleEventKeepsLinks(t: Tables, op: Op)
    requires FreshIds(t) && LinksLogged(t) && Refusal(t, op.request).None? && !Fails(t, op)
    requires !op.request.Create? && !op.request.CreateWithComponents?
    requires After(t, op).events == t.events + Added(t, op)
    ensures LinksLogged(After(t, op))
  {
    if Added(t, op) == [] {
      assert t.events + [] == t.events;
    } else {
      OthersAddOne(t, op);
      assert Added(t, op) == [Added(t, op)[0]];
      LinksAppend(t.events, Added(t, op)[0]);
    }
    if !op.request.Update? {
      OthersLeaveLinks(t, op);
    }
  }

  /** Only updates and creations set a parent or meta or log one. */
  lemma OthersLeaveLinks(t: Tables, op: Op)
    requires !op.request.Create? && !op.request.CreateWithComponents? && !op.request.Update?
    ensures After(t, op).entities.Keys == t.entities.Keys
    ensures forall e :: e in t.entities ==>
              && After(t, op).entities[e].parent == t.entities[e].parent
              && After(t, op).entities[e].meta == t.entities[e].meta
    ensures forall i :: 0 <= i < |Added(t, op)| ==> !Added(t, op)[i].payload.EntityUpdated?
  {
  }

  lemma CreationLogsNoLinks(t: Tables, kind: string, name: string, parent: Option<Id>, meta: string,
                            cs: seq<(string, string)>, now: Time)
    ensures var o := Creation(t, kind, name, parent, meta, cs, now);
            forall id: Id :: LoggedParent(t.events + o.written, id) == LoggedParent(t.events, id)
                          && LoggedMeta(t.events + o.written, id) == LoggedMeta(t.events, id)
  {
    var ev := Event(t.nextId + 1, now, EntityCreated(t.nextId, kind, name, "active"));
    var sets := SetEvents(t.nextId, cs, t.nextId + 2, now);
    LinksAppend(t.events, ev);
    SetsLogNoLinks(t.events + [ev], t.nextId, cs, t.nextId + 2, now);
    assert t.events + ([ev] + sets) == t.events + [ev] + sets;
  }

  /** Once an update has set them, parent and meta can be read off the log, unless a later one got lost. */
  lemma {:induction false} UpdatesRevealLinks(ops: seq<Op>)
    requires KeepsLinks(ops)
    ensures LinksLogged(Run(EMPTY_TABLES, ops))
  {
    if ops != [] {
      UpdatesRevealLinks(ops[..|ops| - 1]);
      EventIdsAreUnique(ops[..|ops| - 1]);
      CallKeepsLinks(Run(EMPTY_TABLES, ops[..|ops| - 1]), ops[|ops| - 1]);
    }
  }

  // ---------- Exactly when the log determines parent and meta ----------

  datatype Link = ToParent(parent: Option<Id>) | ToMeta(meta: string)

  function Relinked(e: Entity, l: Link): Entity {
    match l
    case ToParent(parent) => e.(parent := parent)
    case ToMeta(meta) => e.(meta := meta)
  }

  predicate Logs(events: seq<Event>, id: Id, l: Link) {
    if l.ToParent? then LoggedParent(events, id).Some? else LoggedMeta(events, id).Some?
  }

  predicate Gives(r: Request, id: Id, l: Link) {
    r.Update? && r.id == id && (if l.ToParent? then r.change.parent.Some? else r.change.meta.Some?)
  }

  ghost predicate SameBut(t: Tables, t': Tables, id: Id, l: Link) {
    id in t.entities && t' == t.(entities := t.entities[id := Relinked(t.entities[id], l)])
  }

  lemma OutcomeStaysRelinked(t: Tables, t': Tables, r: Request, now: Time, id: Id, l: Link)
    requires id < t.nextId && SameBut(t, t', id, l)
    requires !Gives(r, id, l) && Refusal(t, r).None? && Refusal(t', r).None?
    ensures var o, o' := OutcomeOf(t, r, now), OutcomeOf(t', r, now);
            id in o.entities && o' == o.(entities := o.entities[id := Relinked(o.entities[id], l)])
  {
    var o, o' := OutcomeOf(t, r, now), OutcomeOf(t', r, now);
    assert o'.entities == o.entities[id := Relinked(o.entities[id], l)];
  }

  lemma CallStaysRelinked(t: Tables, t': Tables, op: Op, id: Id, l: Link)
    requires FreshIds(t) && SameBut(t, t', id, l)
    requires Gives(op.request, id, l) ==> Refusal(t, op.request).Some?
    ensures SameBut(After(t, op), After(t', op), id, l) && Fails(t', op) == Fails(t, op)
  {
    if Refusal(t, op.request).None? {
      OutcomeStaysRelinked(t, t', op.request, op.now, id, l);
    }
  }

  lemma {:induction false} StaysLogged(events: seq<Event>, more: seq<Event>, id: Id, l: Link)
    requires Logs(events, id, l)
    ensures Logs(events + more, id, l)
  {
    if more == [] {
      assert events + more == events;
    } else {
      StaysLogged(events, more[..|more| - 1], id, l);
      assert events + more == events + more[..|more| - 1] + [more[|more| - 1]];
      LinksAppend(events + more[..|more| - 1], more[|more| - 1]);
    }
  }

  lemma GivenIsLogged(t: Tables, op: Op, id: Id, l: Link)
    requires FreshIds(t) && !LosesLink(t, op)
    requires Gives(op.request, id, l) && Refusal(t, op.request).None?
    ensures Logs(After(t, op).events, id, l)
  {
    CallsAppendOnce(t, op);
    var ev := Added(t, op)[0];
    assert Added(t, op) == [ev];
    LinksAppend(t.events, ev);
  }

  /** The same creation with another parent or meta. */
  function OtherCreation(r: Request, l: Link): Request {
    match r
    case Create(kind, name, parent, meta) =>
      Create(kind, name, if l.ToParent? then l.parent else parent, if l.ToMeta? then l.meta else meta)
    case CreateWithComponents(kind, name, parent, meta, cs) =>
      CreateWithComponents(kind, name, if l.ToParent? then l.parent else parent, if l.ToMeta? then l.meta else meta, cs)
    case _ => r
  }

  /** The entities the log has seen created. */
  function Created(events: seq<Event>): set<Id> {
    if events == [] then {}
    else
      var p := events[|events| - 1].payload;
      Created(events[..|events| - 1]) + (if p.EntityCreated? then {p.entity} else {})
  }

  lemma CreatedAppends(events: seq<Event>, ev: Event)
    ensures Created(events + [ev]) == Created(events) + (if ev.payload.EntityCreated? then {ev.payload.entity} else {})
  {
    assert (events + [ev])[..|events|] == events;
  }

  lemma {:induction false} SetsCreateNothing(events: seq<Event>, id: Id, cs: seq<(string, string)>, firstEventId: Id,
                                             now: Time)
    ensures Created(events + SetEvents(id, cs, firstEventId, now)) == Created(events)
  {
    var sets := SetEvents(id, cs, firstEventId, now);
    if cs == [] {
      assert events + sets == events;
    } else {
      var earlier := SetEvents(id, cs[..|cs| - 1], firstEventId, now);
      SetsCreateNothing(events, id, cs[..|cs| - 1], firstEventId, now);
      assert sets == earlier + [sets[|cs| - 1]];
      Regroups(events, earlier, [sets[|cs| - 1]]);
      CreatedAppends(events + earlier, sets[|cs| - 1]);
    }
  }

  lemma CallLogsCreation(t: Tables, op: Op)
    requires FreshIds(t) && t.entities.Keys == Created(t.events)
    ensures After(t, op).entities.Keys == Created(After(t, op).events)
  {
    CallsAppendOnce(t, op);
    if Fails(t, op) || Refusal(t, op.request).Some? {
      NothingLogged(t, op);
    } else {
      OutcomeIsLogged(t, op);
    }
  }

  lemma OutcomeIsLogged(t: Tables, op: Op)
    requires Refusal(t, op.request).None? && !Fails(t, op) && t.entities.Keys == Created(t.events)
    ensures OutcomeOf(t, op.request, op.now).entities.Keys == Created(t.events + Added(t, op))
  {
    match op.request {
      case Create(kind, name, parent, meta) => CreationIsLogged(t, kind, name, parent, meta, [], op.now);
      case CreateWithComponents(kind, name, parent, meta, cs) =>
        CreationIsLogged(t, kind, name, parent, meta, cs, op.now);
      case _ =>
        OthersCreateNothing(t, op);
    }
  }

  lemma NothingLogged(t: Tables, op: Op)
    requires Fails(t, op) || Refusal(t, op.request).Some?
    ensures After(t, op).entities.Keys == t.entities.Keys && t.events + Added(t, op) == t.events
  {
  }

  /** All other calls add at most one event, and keep the set of entities. */
  lemma OthersAddOne(t: Tables, op: Op)
    requires Refusal(t, op.request).None? && !Fails(t, op)
    requires !op.request.Create? && !op.request.CreateWithComponents?
    ensures Added(t, op) == [] || (|Added(t, op)| == 1 && !Added(t, op)[0].payload.EntityCreated?)
  {
  }

  lemma OthersCreateNothing(t: Tables, op: Op)
    requires Refusal(t, op.request).None? && !Fails(t, op)
    requires !op.request.Create? && !op.request.CreateWithComponents?
    ensures Created(t.events + Added(t, op)) == Created(t.events)
  {
    OthersAddOne(t, op);
    if Added(t, op) == [] {
      assert t.events + [] == t.events;
    } else {
      var ev := Added(t, op)[0];
      assert Added(t, op) == [ev];
      CreatedAppends(t.events, ev);
    }
  }

  lemma CreationIsLogged(t: Tables, kind: string, name: string, parent: Option<Id>, meta: string,
                         cs: seq<(string, string)>, now: Time)
    requires t.entities.Keys == Created(t.events)
    ensures var o := Creation(t, kind, name, parent, meta, cs, now);
            o.entities.Keys == Created(t.events + o.written)
  {
    var ev := Event(t.nextId + 1, now, EntityCreated(t.nextId, kind, name, "active"));
    CreatedOnce(t.events, ev, t.nextId, cs, t.nextId + 2, now);
  }

  lemma CreatedOnce(events: seq<Event>, ev: Event, id: Id, cs: seq<(string, string)>, firstEventId: Id, now: Time)
    requires ev.payload.EntityCreated?
    ensures Created(events + ([ev] + SetEvents(id, cs, firstEventId, now))) == Created(events) + {ev.payload.entity}
  {
    CreatedAppends(events, ev);
    SetsCreateNothing(events + [ev], id, cs, firstEventId, now);
    Regroups(events, [ev], SetEvents(id, cs, firstEventId, now));
  }

  /** Parents that no update has named are older than their children. */
  ghost predicate ParentsOlder(t: Tables) {
    forall e :: e in t.entities && LoggedParent(t.events, e).None? && t.entities[e].parent.Some? ==>
      t.entities[e].parent.value in t.entities && t.entities[e].parent.value < e
  }

  lemma CallKeepsParentsOlder(t: Tables, op: Op)
    requires FreshIds(t) && ParentsOlder(t) && !LosesLink(t, op)
    ensures ParentsOlder(After(t, op))
  {
    var t' := After(t, op);
    forall e | e in t'.entities && LoggedParent(t'.events, e).None? && t'.entities[e].parent.Some?
      ensures t'.entities[e].parent.value in t'.entities && t'.entities[e].parent.value < e
    {
      if e in t.entities {
        UnnamedParentStays(t, op, e);
      } else {
        OnlyCreationsAdd(t, op, e);
      }
    }
  }

  lemma UnnamedParentStays(t: Tables, op: Op, e: Id)
    requires FreshIds(t) && !LosesLink(t, op) && e in t.entities
    requires LoggedParent(After(t, op).events, e).None?
    ensures LoggedParent(t.events, e).None?
    ensures e in After(t, op).entities && After(t, op).entities[e].parent == t.entities[e].parent
  {
    CallsAppendOnce(t, op);
    if LoggedParent(t.events, e).Some? {
      StaysLogged(t.events, Added(t, op), e, ToParent(None));
    }
    if Gives(op.request, e, ToParent(None)) && Refusal(t, op.request).None? {
      GivenIsLogged(t, op, e, ToParent(None));
    }
    UngivenParentStays(t, op, e);
  }

  lemma UngivenParentStays(t: Tables, op: Op, e: Id)
    requires FreshIds(t) && e in t.entities
    requires Refusal(t, op.request).Some? || !Gives(op.request, e, ToParent(None))
    ensures e in After(t, op).entities && After(t, op).entities[e].parent == t.entities[e].parent
  {
  }

  lemma {:induction false} RunKeepsParents(ops: seq<Op>)
    requires KeepsLinks(ops)
    ensures ParentsOlder(Run(EMPTY_TABLES, ops))
    ensures Run(EMPTY_TABLES, ops).entities.Keys == Created(Run(EMPTY_TABLES, ops).events)
  {
    if ops != [] {
      var before := ops[..|ops| - 1];
      RunKeepsParents(before);
      EventIdsAreUnique(before);
      CallKeepsParentsOlder(Run(EMPTY_TABLES, before), ops[|ops| - 1]);
      CallLogsCreation(Run(EMPTY_TABLES, before), ops[|ops| - 1]);
    }
  }

  lemma OnlyCreationsAdd(t: Tables, op: Op, id: Id)
    requires id !in t.entities && id in After(t, op).entities
    ensures op.request.Create? || op.request.CreateWithComponents?
    ensures id == t.nextId && Refusal(t, op.request).None? && !Fails(t, op)
  {
  }

  lemma CreationRelinked(t: Tables, op: Op, l: Link)
    requires op.request.Create? || op.request.CreateWithComponents?
    requires Refusal(t, op.request).None? && !Fails(t, op)
    requires l.ToParent? ==> !Dangling(t.entities, l.parent)
    ensures SameBut(After(t, op), After(t, op.(request := OtherCreation(op.request, l))), t.nextId, l)
  {
    var other := OtherCreation(op.request, l);
    var o, o' := OutcomeOf(t, op.request, op.now), OutcomeOf(t, other, op.now);
    assert o'.entities == o.entities[t.nextId := Relinked(o.entities[t.nextId], l)];
    assert o' == o.(entities := o'.entities);
  }

  /** The parent to be could have been given: there is none, or it is an older entity. */
  predicate Possible(t: Tables, id: Id, l: Link) {
    l.ToParent? && l.parent.Some? ==> l.parent.value in t.entities && l.parent.value < id
  }

  /** Entities older than one that is there, or just being created, are there already. */
  lemma OlderWereThere(t: Tables, op: Op, id: Id, l: Link)
    requires FreshIds(t) && id in After(t, op).entities && Possible(After(t, op), id, l)
    ensures Possible(t, id, l)
  {
    if l.ToParent? && l.parent.Some? && l.parent.value !in t.entities {
      OnlyCreationsAdd(t, op, l.parent.value);
    }
    if id !in t.entities {
      OnlyCreationsAdd(t, op, id);
    }
  }

  /** Short of an update that names it, an entity's parent could have been any older entity or none, and its meta
      anything, under the same log. */
  lemma {:induction false} OtherLink(ops: seq<Op>, id: Id, l: Link) returns (others: seq<Op>)
    requires KeepsLinks(ops) && id in Run(EMPTY_TABLES, ops).entities && !Logs(Run(EMPTY_TABLES, ops).events, id, l)
    requires Possible(Run(EMPTY_TABLES, ops), id, l)
    ensures KeepsLinks(others) && SameBut(Run(EMPTY_TABLES, ops), Run(EMPTY_TABLES, others), id, l)
  {
    var before, op := ops[..|ops| - 1], ops[|ops| - 1];
    var t := Run(EMPTY_TABLES, before);
    EventIdsAreUnique(before);
    OlderWereThere(t, op, id, l);
    if id in t.entities {
      CallsAppendOnce(t, op);
      if Logs(t.events, id, l) {
        StaysLogged(t.events, Added(t, op), id, l);
      }
      if Gives(op.request, id, l) && Refusal(t, op.request).None? {
        GivenIsLogged(t, op, id, l);
      }
      var earlier := OtherLink(before, id, l);
      others := earlier + [op];
      assert others[..|earlier|] == earlier;
      CallStaysRelinked(t, Run(EMPTY_TABLES, earlier), op, id, l);
    } else {
      OnlyCreationsAdd(t, op, id);
      CreationRelinked(t, op, l);
      others := before + [op.(request := OtherCreation(op.request, l))];
      assert others[..|before|] == before;
    }
  }

  ghost predicate ParentDetermined(ops: seq<Op>, id: Id)
    requires id in Run(EMPTY_TABLES, ops).entities
  {
    var t := Run(EMPTY_TABLES, ops);
    forall others: seq<Op> :: KeepsLinks(others) && Run(EMPTY_TABLES, others).events == t.events ==>
      id in Run(EMPTY_TABLES, others).entities
      && Run(EMPTY_TABLES, others).entities[id].parent == t.entities[id].parent
  }

  ghost predicate MetaDetermined(ops: seq<Op>, id: Id)
    requires id in Run(EMPTY_TABLES, ops).entities
  {
    var t := Run(EMPTY_TABLES, ops);
    forall others: seq<Op> :: KeepsLinks(others) && Run(EMPTY_TABLES, others).events == t.events ==>
      id in Run(EMPTY_TABLES, others).entities
      && Run(EMPTY_TABLES, others).entities[id].meta == t.entities[id].meta
  }

  /** No entity is older. */
  ghost predicate Oldest(t: Tables, id: Id) { forall e :: e in t.entities ==> id <= e }

  /** Over runs that lose no update of them, the log determines an entity's parent if and only if an update event names
      it or no entity is older, and its meta if and only if an update event names it. */
  lemma LogDeterminesLinks(ops: seq<Op>, id: Id)
    requires KeepsLinks(ops) && id in Run(EMPTY_TABLES, ops).entities
    ensures ParentDetermined(ops, id) <==>
              LoggedParent(Run(EMPTY_TABLES, ops).events, id).Some? || Oldest(Run(EMPTY_TABLES, ops), id)
    ensures MetaDetermined(ops, id) <==> LoggedMeta(Run(EMPTY_TABLES, ops).events, id).Some?
  {
    var t := Run(EMPTY_TABLES, ops);
    UpdatesRevealLinks(ops);
    RunKeepsParents(ops);
    forall others: seq<Op> | KeepsLinks(others) && Run(EMPTY_TABLES, others).events == t.events
      ensures var t' := Run(EMPTY_TABLES, others);
              LinksLogged(t') && ParentsOlder(t') && t'.entities.Keys == t.entities.Keys
    {
      UpdatesRevealLinks(others);
      RunKeepsParents(others);
    }
    if LoggedParent(t.events, id).None? && !Oldest(t, id) {
      ParentUndetermined(ops, id);
    }
    if LoggedMeta(t.events, id).None? {
      var others := OtherLink(ops, id, ToMeta(t.entities[id].meta + "x"));
      assert Run(EMPTY_TABLES, others).entities[id].meta == t.entities[id].meta + "x";
    }
  }

  lemma ParentUndetermined(ops: seq<Op>, id: Id)
    requires KeepsLinks(ops) && id in Run(EMPTY_TABLES, ops).entities
    requires LoggedParent(Run(EMPTY_TABLES, ops).events, id).None? && !Oldest(Run(EMPTY_TABLES, ops), id)
    ensures !ParentDetermined(ops, id)
  {
    var t := Run(EMPTY_TABLES, ops);
    var older :| older in t.entities && older < id;
    var other := if t.entities[id].parent.None? then Some(older) else None;
    var others := OtherLink(ops, id, ToParent(other));
    assert Run(EMPTY_TABLES, others).entities[id].parent == other;
  }
}
