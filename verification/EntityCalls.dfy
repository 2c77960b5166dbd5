/** What every single entity call stores, when it is accepted, and that deletion is for good. */
module EntityCalls {
  import opened Common
  import opened Entities

  /** When the calls are accepted. A refusal says that kind or name is missing, that the entity or component is, or that
      the parent has no row. */
  lemma AcceptedExactly(t: Tables, r: Request)
    ensures Refusal(t, r).None? <==>
              match r
              case Create(kind, name, parent, _) =>
                kind != "" && name != "" && (parent.Some? ==> parent.value in t.entities)
              case CreateWithComponents(kind, name, parent, _, _) =>
                kind != "" && name != "" && (parent.Some? ==> parent.value in t.entities)
              case Update(id, change) =>
                && id in t.entities && !t.entities[id].deleted
                && (change.parent.Some? ==> change.parent.value in t.entities)
              case Delete(id) => id in t.entities && !t.entities[id].deleted
              case SetComponent(id, _, _) => id in t.entities && !t.entities[id].deleted
              case DeleteComponent(id, kind) =>
                id in t.entities && !t.entities[id].deleted && Place(id, kind) in t.components
    ensures Refusal(t, r) == Some(BadRequest) ==>
              (r.Create? || r.CreateWithComponents?) && (r.kind == "" || r.name == "")
    ensures Refusal(t, r) == Some(NotFound) ==>
              !r.Create? && !r.CreateWithComponents?
              && (r.id !in t.entities || t.entities[r.id].deleted
                  || (r.DeleteComponent? && Place(r.id, r.kind) !in t.components))
    ensures Refusal(t, r) == Some(StorageError) ==>
              match r
              case Create(_, _, parent, _) => parent.Some? && parent.value !in t.entities
              case CreateWithComponents(_, _, parent, _, _) => parent.Some? && parent.value !in t.entities
              case Update(id, change) => change.parent.Some? && change.parent.value !in t.entities
              case _ => false
    ensures Refusal(t, r) != Some(Conflict)
  {
  }

  /** A creation that goes through stores the entity as asked for, active and not deleted; one whose transaction fails
      stores nothing. */
  lemma CreationIsStored(t: Tables, op: Op)
    ensures (op.request.Create? || op.request.CreateWithComponents?) && Refusal(t, op.request).None? ==>
              var r, t' := op.request, After(t, op);
              && (op.committed ==>
                    t'.entities == t.entities[t.nextId := Entity(r.kind, r.name, "active", r.parent, r.meta, 0, false)])
              && (!op.committed ==> t'.entities == t.entities && t'.components == t.components && t'.events == t.events)
              && (r.Create? ==> t'.components == t.components)
  {
    assert UpsertedAll(t.components, t.nextId, []) == t.components;
  }

  /** With several values for one type the last one stays, and no other place is touched. */
  lemma {:induction false} LastValueStays(components: map<Place, Component>, id: Id, cs: seq<(string, string)>, i: nat,
                                          place: Place)
    ensures i < |cs| && (forall j :: i < j < |cs| ==> cs[j].0 != cs[i].0) ==>
              Place(id, cs[i].0) in UpsertedAll(components, id, cs)
              && UpsertedAll(components, id, cs)[Place(id, cs[i].0)].data == cs[i].1
    ensures place.entity != id || (forall j :: 0 <= j < |cs| ==> cs[j].0 != place.kind) ==>
              && (place in UpsertedAll(components, id, cs) <==> place in components)
              && (place in components ==> UpsertedAll(components, id, cs)[place] == components[place])
  {
    if cs != [] {
      LastValueStays(components, id, cs[..|cs| - 1], i, place);
    }
  }

  /** An accepted update leaves the entity with every field given as given and every other field as it was, whether its
      transaction goes through or not; nothing else is touched. */
  lemma UpdateIsStored(t: Tables, op: Op)
    ensures op.request.Update? && Refusal(t, op.request).None? ==>
              var id, c, t' := op.request.id, op.request.change, After(t, op);
              && t'.components == t.components && id in t'.entities
              && (forall e :: e != id ==> (e in t'.entities <==> e in t.entities))
              && (forall e :: e in t.entities && e != id ==> t'.entities[e] == t.entities[e])
              && var a, b := t.entities[id], t'.entities[id];
                 && b.name == (if c.name.Some? then c.name.value else a.name)
                 && b.status == (if c.status.Some? then c.status.value else a.status)
                 && b.parent == (if c.parent.Some? then c.parent else a.parent)
                 && b.meta == (if c.meta.Some? then c.meta.value else a.meta)
                 && b.sortOrder == (if c.sortOrder.Some? then c.sortOrder.value else a.sortOrder)
                 && b.kind == a.kind && b.deleted == a.deleted
  {
  }

  /** Setting stores the data under the next version, removing takes the component away, deleting only marks the
      entity. */
  lemma ComponentIsStored(t: Tables, op: Op)
    ensures op.request.SetComponent? && Refusal(t, op.request).None? && op.committed ==>
              var place := Place(op.request.id, op.request.kind);
              && After(t, op).components
                 == t.components[place := Component(op.request.data,
                                            if place in t.components then t.components[place].version + 1 else 1)]
              && After(t, op).entities == t.entities
    ensures op.request.DeleteComponent? && Refusal(t, op.request).None? ==>
              After(t, op).components == t.components - {Place(op.request.id, op.request.kind)}
              && After(t, op).entities == t.entities
    ensures op.request.Delete? && Refusal(t, op.request).None? ==>
              After(t, op).components == t.components
              && After(t, op).entities == t.entities[op.request.id := t.entities[op.request.id].(deleted := true)]
  {
  }

  /** The events say what the call did: one for the call itself, and one for each component of a creation. */
  ghost predicate Tells(t: Tables, op: Op, events: seq<Event>) {
    var r := op.request;
    && (forall i :: 0 <= i < |events| ==> events[i].timestamp == op.now)
    && (r.Create? || r.CreateWithComponents? ==>
          |events| == 1 + (if r.Create? then 0 else |r.components|)
          && events[0].payload == EntityCreated(t.nextId, r.kind, r.name, "active"))
    && (r.CreateWithComponents? ==>
          forall i :: 0 < i < |events| ==>
            events[i].payload == ComponentSet(Place(t.nextId, r.components[i - 1].0), r.components[i - 1].1, None))
    && (r.Delete? && r.id in t.entities ==>
          |events| == 1 && events[0].payload == EntityDeleted(r.id, t.entities[r.id].kind))
    && (r.SetComponent? ==> |events| == 1 && events[0].payload == ComponentSet(Place(r.id, r.kind), r.data, None))
    && (r.DeleteComponent? ==> |events| == 1 && events[0].payload == ComponentRemoved(Place(r.id, r.kind)))
  }

  /** What every accepted call adds to the log when its transaction goes through and the bus stores its event. */
  lemma EventsAreStored(t: Tables, op: Op)
    requires FreshIds(t)
    ensures Refusal(t, op.request).None? && op.committed && op.persisted ==>
              exists more :: Tells(t, op, more) && After(t, op).events == t.events + more
  {
    CallsAppendOnce(t, op);
    AddedTells(t, op);
  }

  lemma AddedTells(t: Tables, op: Op)
    ensures Refusal(t, op.request).None? && op.committed && op.persisted ==> Tells(t, op, Added(t, op))
  {
  }

  // ---------- Deletion is for good ----------

  /** The entity is deleted and it and its components are as in `t`. */
  ghost predicate Frozen(t: Tables, t': Tables, id: Id)
    requires id in t.entities
  {
    && id in t'.entities && t'.entities[id] == t.entities[id] && t'.entities[id].deleted
    && forall p: Place :: p.entity == id ==>
         (p in t'.components <==> p in t.components) && (p in t.components ==> t'.components[p] == t.components[p])
  }

  lemma CallKeepsDeleted(t: Tables, t': Tables, op: Op, id: Id)
    requires id in t.entities && FreshIds(t') && Frozen(t, t', id)
    ensures Frozen(t, After(t', op), id)
  {
    if op.request.CreateWithComponents? && Refusal(t', op.request).None? {
      forall p: Place | p.entity == id
        ensures var all := UpsertedAll(t'.components, t'.nextId, op.request.components);
                (p in all <==> p in t'.components) && (p in t'.components ==> all[p] == t'.components[p])
      {
        LastValueStays(t'.components, t'.nextId, op.request.components, 0, p);
      }
    }
  }

  /** From a deletion on nothing changes the entity or its components any more, whatever is called. */
  lemma {:induction false} DeletionIsForGood(ops: seq<Op>, k: nat, id: Id)
    requires k <= |ops| && var t := Run(EMPTY_TABLES, ops[..k]); id in t.entities && t.entities[id].deleted
    ensures Frozen(Run(EMPTY_TABLES, ops[..k]), Run(EMPTY_TABLES, ops), id)
  {
    var n := |ops| - 1;
    if k > n {
      assert ops[..k] == ops;
    } else {
      assert ops[..n][..k] == ops[..k];
      DeletionIsForGood(ops[..n], k, id);
      EventIdsAreUnique(ops[..n]);
      CallKeepsDeleted(Run(EMPTY_TABLES, ops[..k]), Run(EMPTY_TABLES, ops[..n]), ops[n], id);
    }
  }
}
