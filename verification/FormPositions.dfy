/** Exactly when an accepted save stores the positions 1 to n, also when an input is updated twice. */
module FormPositions {
  import opened Wrappers
  import opened Sequences
  import opened Counting
  import opened FormInputs
  import opened FormSaving
  import opened FormTheorems

  // ----- the last update of an input wins -----

  function LastFor(updates: seq<Update>, id: int): Option<InputBody> {
    if updates == [] then None
    else
      var later := LastFor(updates[1..], id);
      if later.Some? then later else if updates[0].id == id then Some(updates[0].body) else None
  }

  lemma {:induction false} LastForSnoc(updates: seq<Update>, u: Update, id: int)
    ensures LastFor(updates + [u], id) == if u.id == id then Some(u.body) else LastFor(updates, id)
  {
    if updates == [] {
      assert ([] + [u])[1..] == [];
    } else {
      LastForSnoc(updates[1..], u, id);
      assert (updates + [u])[1..] == updates[1..] + [u];
    }
  }

  lemma {:induction false} LastForIff(updates: seq<Update>, id: int)
    ensures LastFor(updates, id).Some? <==> id in UpdateIds(updates)
  {
    if updates != [] {
      LastForIff(updates[1..], id);
      assert UpdateIds(updates) == [updates[0].id] + UpdateIds(updates[1..]);
    }
  }

  ghost predicate AllFound(t: map<int, Stored>, updates: seq<Update>, existing: seq<Stored>) {
    forall u | u in updates :: u.id in t && Find(existing, u.id).Some?
  }

  lemma {:induction false} AfterUpdatesAt(t: map<int, Stored>, updates: seq<Update>, existing: seq<Stored>, form: int,
                                          id: int)
    requires AllFound(t, updates, existing)
    ensures var r, last := AfterUpdates(t, updates, existing, form), LastFor(updates, id);
            && r.Keys == t.Keys
            && (id in t && last.None? ==> r[id] == t[id])
            && (id in t && last.Some? ==>
                  Find(existing, id).Some? && r[id] == ToRow(id, form, Find(existing, id).value.customId, last.value))
    decreases |updates|
  {
    if updates != [] {
      var n := |updates| - 1;
      var init, u := updates[..n], updates[n];
      assert updates == init + [u];
      AfterUpdatesAt(t, init, existing, form, id);
      LastForSnoc(init, u, id);
    }
  }

  // ----- what is known before the save -----

  predicate IsKept(e: Stored, delete: seq<int>) {
    e.id !in delete
  }

  /** The old positions of the kept rows that no update names. */
  function LeftOut(existing: seq<Stored>, delete: seq<int>, updates: seq<Update>): seq<int> {
    if existing == [] then []
    else
      (if IsKept(existing[0], delete) && existing[0].id !in UpdateIds(updates) then [existing[0].position] else [])
      + LeftOut(existing[1..], delete, updates)
  }

  /** The positions of the updates that a later one with the same id overrides. */
  function Overridden(updates: seq<Update>): seq<int> {
    if updates == [] then []
    else
      (if updates[0].id in UpdateIds(updates[1..]) then [updates[0].body.position] else []) + Overridden(updates[1..])
  }

  // ----- counting -----

  /** How many kept rows end up at position x because of an update. */
  function Placed(existing: seq<Stored>, delete: seq<int>, updates: seq<Update>, x: int): nat {
    if existing == [] then 0
    else
      var last := LastFor(updates, existing[0].id);
      (if IsKept(existing[0], delete) && last.Some? && last.value.position == x then 1 else 0)
      + Placed(existing[1..], delete, updates, x)
  }

  /** The first of the updates counts when its id is a kept row's and no later update has it. */
  lemma {:induction false} PlacedCons(existing: seq<Stored>, delete: seq<int>, u: Update, rest: seq<Update>, x: int)
    requires Distinct(Ids(existing)) && u.id !in delete
    ensures Placed(existing, delete, [u] + rest, x)
         == Placed(existing, delete, rest, x)
            + if u.id in Ids(existing) && u.id !in UpdateIds(rest) && u.body.position == x then 1 else 0
    decreases |existing|
  {
    assert ([u] + rest)[1..] == rest;
    if existing != [] {
      var e := existing[0];
      assert Ids(existing) == [e.id] + Ids(existing[1..]);
      DistinctCons(e.id, Ids(existing[1..]));
      PlacedCons(existing[1..], delete, u, rest, x);
      LastForIff(rest, e.id);
    }
  }

  lemma {:induction false} NothingPlaced(existing: seq<Stored>, delete: seq<int>, x: int)
    ensures Placed(existing, delete, [], x) == 0
  {
    if existing != [] {
      NothingPlaced(existing[1..], delete, x);
    }
  }

  lemma OverriddenCons(u: Update, rest: seq<Update>, x: int)
    ensures Occurs(Overridden([u] + rest), x)
         == Occurs(Overridden(rest), x) + if u.id in UpdateIds(rest) && u.body.position == x then 1 else 0
  {
    assert ([u] + rest)[1..] == rest;
    OccursConcat(if u.id in UpdateIds(rest) then [u.body.position] else [], Overridden(rest), x);
  }

  lemma UpdatePositionsOccur(u: Update, rest: seq<Update>, x: int)
    ensures Occurs(UpdatePositions([u] + rest), x)
         == Occurs(UpdatePositions(rest), x) + if u.body.position == x then 1 else 0
  {
    assert UpdatePositions([u] + rest) == [u.body.position] + UpdatePositions(rest);
    OccursConcat([u.body.position], UpdatePositions(rest), x);
  }

  /** Every update places a row or is overridden. */
  lemma {:induction false} PlacedOrOverridden(existing: seq<Stored>, delete: seq<int>, updates: seq<Update>, x: int)
    requires Distinct(Ids(existing)) && forall u | u in updates :: u.id in Ids(existing) && u.id !in delete
    ensures Placed(existing, delete, updates, x) + Occurs(Overridden(updates), x) == Occurs(UpdatePositions(updates), x)
    decreases |updates|
  {
    if updates == [] {
      NothingPlaced(existing, delete, x);
    } else {
      var u, rest := updates[0], updates[1..];
      assert updates == [u] + rest;
      PlacedOrOverridden(existing, delete, rest, x);
      PlacedCons(existing, delete, u, rest, x);
      OverriddenCons(u, rest, x);
      UpdatePositionsOccur(u, rest, x);
    }
  }

  /** The position a kept row has in the end. */
  function FinalPosition(e: Stored, updates: seq<Update>): int {
    var last := LastFor(updates, e.id);
    if last.Some? then last.value.position else e.position
  }

  lemma {:induction false} KeptPositions(s: Db, existing: seq<Stored>, delete: seq<int>, updates: seq<Update>, x: int)
    requires forall e | e in existing && IsKept(e, delete) :: PositionAt(s, e.id) == FinalPosition(e, updates)
    ensures Occurs(PositionsAt(s, Remaining(existing, delete)), x)
         == Placed(existing, delete, updates, x) + Occurs(LeftOut(existing, delete, updates), x)
  {
    if existing != [] {
      var e, rest := existing[0], existing[1..];
      KeptPositions(s, rest, delete, updates, x);
      LastForIff(updates, e.id);
      var one := if IsKept(e, delete) then [e.id] else [];
      assert PositionsAt(s, one + Remaining(rest, delete))
             == PositionsAt(s, one) + PositionsAt(s, Remaining(rest, delete));
      OccursConcat(PositionsAt(s, one), PositionsAt(s, Remaining(rest, delete)), x);
      OccursConcat(if IsKept(e, delete) && e.id !in UpdateIds(updates) then [e.position] else [],
                   LeftOut(rest, delete, updates), x);
      assert IsKept(e, delete) ==> PositionsAt(s, one) == [FinalPosition(e, updates)];
    }
  }

  // ----- the saved table -----

  ghost predicate Accepted(db: Db, form: int, req: Request, existing: seq<Stored>) {
    WellFormed(db) && Lists(existing, db, form) && FirstFailure(req, existing).None?
  }

  lemma UpdatesAreKept(db: Db, form: int, req: Request, existing: seq<Stored>)
    requires Accepted(db, form, req, existing)
    ensures forall u | u in req.update :: u.id in Ids(existing) && u.id !in req.delete
    ensures AllFound(AfterDeletes(db.inputs, req.delete, form), req.update, existing)
  {
    RemainingIs(existing, req.delete);
    AfterDeletesIs(db.inputs, req.delete, form);
    forall u | u in req.update
      ensures u.id in Ids(existing) && u.id !in req.delete && Find(existing, u.id).Some? && u.id in db.inputs
    {
      var k :| 0 <= k < |req.update| && req.update[k] == u;
      assert UpdateIds(req.update)[k] == u.id;
      assert u.id in UpdateIds(req.update);
      assert u.id in Remaining(existing, req.delete);
    }
  }

  /** Before the creates: the kept rows, each where its last update puts it, and the rows of other forms. */
  lemma MiddleAt(db: Db, form: int, req: Request, existing: seq<Stored>, id: int)
    requires Accepted(db, form, req, existing)
    ensures var t := Middle(db, form, req, existing);
            && (id in t ==> id in db.inputs && t[id].id == id)
            && (id in t && t[id].form == form <==> id in Remaining(existing, req.delete))
    ensures forall e | e in existing && e.id == id && IsKept(e, req.delete) ::
              var t := Middle(db, form, req, existing);
              id in t && t[id].position == FinalPosition(e, req.update) && t[id].customId == e.customId
  {
    UpdatesAreKept(db, form, req, existing);
    RemainingIs(existing, req.delete);
    AfterDeletesIs(db.inputs, req.delete, form);
    AfterUpdatesAt(AfterDeletes(db.inputs, req.delete, form), req.update, existing, form, id);
    LastForIff(req.update, id);
  }

  /** The ids of the form's rows after the save: the kept ones, then the created ones. */
  function StoredIds(db: Db, req: Request, existing: seq<Stored>): (ids: seq<int>) {
    Remaining(existing, req.delete) + CreatedIds(db, req)
  }

  function CreatedIds(db: Db, req: Request): (ids: seq<int>)
    ensures |ids| == |req.create| && forall k | 0 <= k < |ids| :: ids[k] == db.nextId + k
  {
    seq(|req.create|, k requires 0 <= k < |req.create| => db.nextId + k)
  }

  /** The creates leave the table before them alone. */
  lemma SavedOnMiddle(db: Db, form: int, req: Request, existing: seq<Stored>, customIds: seq<string>)
    requires Accepted(db, form, req, existing) && |customIds| == |req.create|
    ensures var s, t := Saved(db, form, req, existing, customIds), Middle(db, form, req, existing);
            && s.nextId == db.nextId + |req.create|
            && (forall id | id in t :: id in s.inputs && s.inputs[id] == t[id])
            && (forall id :: id in s.inputs && s.inputs[id].form == form <==>
                             (id in t && t[id].form == form) || db.nextId <= id < s.nextId)
            && (forall k | 0 <= k < |req.create| ::
                  db.nextId + k in s.inputs
                  && s.inputs[db.nextId + k] == ToRow(db.nextId + k, form, customIds[k], req.create[k]))
  {
    MiddleIsWellFormed(db, form, req, existing);
    CreatesOnTop(Db(Middle(db, form, req, existing), db.nextId), req.create, customIds, form);
  }

  lemma MiddleIsWellFormed(db: Db, form: int, req: Request, existing: seq<Stored>)
    requires Accepted(db, form, req, existing)
    ensures WellFormed(Db(Middle(db, form, req, existing), db.nextId))
  {
    var t := Middle(db, form, req, existing);
    forall id | id in t
      ensures id < db.nextId && t[id].id == id
    {
      MiddleAt(db, form, req, existing, id);
    }
  }

  lemma CreatedPositions(db: Db, form: int, req: Request, existing: seq<Stored>, customIds: seq<string>)
    requires Accepted(db, form, req, existing) && |customIds| == |req.create|
    ensures PositionsAt(Saved(db, form, req, existing, customIds), CreatedIds(db, req)) == CreatePositions(req.create)
  {
    SavedOnMiddle(db, form, req, existing, customIds);
  }

  /** A kept row is where its last update puts it, under its old custom id. */
  lemma StoredKept(db: Db, form: int, req: Request, existing: seq<Stored>, customIds: seq<string>, e: Stored)
    requires Accepted(db, form, req, existing) && |customIds| == |req.create|
    requires e in existing && IsKept(e, req.delete)
    ensures var s := Saved(db, form, req, existing, customIds);
            PositionAt(s, e.id) == FinalPosition(e, req.update) && e.id in s.inputs
              && s.inputs[e.id].customId == e.customId
  {
    MiddleAt(db, form, req, existing, e.id);
    SavedOnMiddle(db, form, req, existing, customIds);
  }

  lemma StoredMember(db: Db, form: int, req: Request, existing: seq<Stored>, customIds: seq<string>, id: int)
    requires Accepted(db, form, req, existing) && |customIds| == |req.create|
    ensures var s := Saved(db, form, req, existing, customIds);
            id in StoredIds(db, req, existing) <==> id in s.inputs && s.inputs[id].form == form
  {
    MiddleAt(db, form, req, existing, id);
    SavedOnMiddle(db, form, req, existing, customIds);
    if db.nextId <= id < db.nextId + |req.create| {
      assert CreatedIds(db, req)[id - db.nextId] == id;
    }
  }

  lemma StoredDistinct(db: Db, form: int, req: Request, existing: seq<Stored>)
    requires Accepted(db, form, req, existing)
    ensures Distinct(StoredIds(db, req, existing))
  {
    var kept, ids := Remaining(existing, req.delete), StoredIds(db, req, existing);
    RemainingIs(existing, req.delete);
    forall i, j | 0 <= i < j < |ids|
      ensures ids[i] != ids[j]
    {
      if i < |kept| <= j {
        assert kept[i] in kept && kept[i] in Ids(existing);
        var k :| 0 <= k < |existing| && Ids(existing)[k] == kept[i];
        assert existing[k] in existing && existing[k].id < db.nextId;
      }
    }
  }

  lemma SplitPositions(s: Db, db: Db, req: Request, existing: seq<Stored>, x: int)
    ensures Occurs(PositionsAt(s, StoredIds(db, req, existing)), x)
         == Occurs(PositionsAt(s, Remaining(existing, req.delete)), x) + Occurs(PositionsAt(s, CreatedIds(db, req)), x)
  {
    var kept := Remaining(existing, req.delete);
    assert PositionsAt(s, StoredIds(db, req, existing)) == PositionsAt(s, kept) + PositionsAt(s, CreatedIds(db, req));
    OccursConcat(PositionsAt(s, kept), PositionsAt(s, CreatedIds(db, req)), x);
  }

  /** Compared with the requested positions, the stored ones miss the overridden ones and add those left out. */
  lemma StoredOccur(db: Db, form: int, req: Request, existing: seq<Stored>, customIds: seq<string>, x: int)
    requires Accepted(db, form, req, existing) && |customIds| == |req.create|
    ensures Occurs(PositionsAt(Saved(db, form, req, existing, customIds), StoredIds(db, req, existing)), x)
            + Occurs(Overridden(req.update), x)
         == Occurs(Positions(req), x) + Occurs(LeftOut(existing, req.delete, req.update), x)
  {
    var s := Saved(db, form, req, existing, customIds);
    forall e | e in existing && IsKept(e, req.delete)
      ensures PositionAt(s, e.id) == FinalPosition(e, req.update)
    {
      StoredKept(db, form, req, existing, customIds, e);
    }
    CreatedPositions(db, form, req, existing, customIds);
    UpdatesAreKept(db, form, req, existing);
    KeptPositions(s, existing, req.delete, req.update, x);
    PlacedOrOverridden(existing, req.delete, req.update, x);
    SplitPositions(s, db, req, existing, x);
    OccursConcat(CreatePositions(req.create), UpdatePositions(req.update), x);
  }

  lemma EqualFromCounts(a: seq<int>, b: seq<int>)
    requires forall x :: Occurs(a, x) == Occurs(b, x)
    ensures multiset(a) == multiset(b)
  {
    forall x
      ensures multiset(a)[x] == multiset(b)[x]
    {
      OccursIsMultiset(a, x);
      OccursIsMultiset(b, x);
      assert Occurs(a, x) == Occurs(b, x);
    }
  }

  lemma CancelCounts(a: seq<int>, over: seq<int>, b: seq<int>, left: seq<int>)
    requires forall x :: Occurs(a, x) + Occurs(over, x) == Occurs(b, x) + Occurs(left, x)
    ensures multiset(a) == multiset(b) <==> multiset(left) == multiset(over)
  {
    forall x | multiset(a) == multiset(b)
      ensures Occurs(left, x) == Occurs(over, x)
    {
      OccursIsMultiset(a, x);
      OccursIsMultiset(b, x);
      assert Occurs(a, x) + Occurs(over, x) == Occurs(b, x) + Occurs(left, x);
    }
    forall x | multiset(left) == multiset(over)
      ensures Occurs(a, x) == Occurs(b, x)
    {
      OccursIsMultiset(left, x);
      OccursIsMultiset(over, x);
      assert Occurs(a, x) + Occurs(over, x) == Occurs(b, x) + Occurs(left, x);
    }
    if multiset(a) == multiset(b) {
      EqualFromCounts(left, over);
    } else if multiset(left) == multiset(over) {
      EqualFromCounts(a, b);
    }
  }

  lemma StoredSize(db: Db, form: int, req: Request, existing: seq<Stored>)
    requires Accepted(db, form, req, existing)
    ensures var n := |StoredIds(db, req, existing)|;
            1 <= n <= 5 && multiset(Positions(req)) == multiset(OneTo(n))
  {
  }

  /**
   After any accepted save the form has 1 to 5 rows, and their positions are 1 to n in some order if and only if the
   old positions of the rows left out of the update are the overridden positions, each as often.
   */
  lemma StoredPositionsIff(db: Db, form: int, req: Request, existing: seq<Stored>, customIds: seq<string>)
    requires Accepted(db, form, req, existing) && |customIds| == |req.create|
    ensures var s, ids := Saved(db, form, req, existing, customIds), StoredIds(db, req, existing);
            && Distinct(ids) && 1 <= |ids| <= 5
            && (forall id :: id in ids <==> id in s.inputs && s.inputs[id].form == form)
            && (multiset(PositionsAt(s, ids)) == multiset(OneTo(|ids|)) <==>
                multiset(LeftOut(existing, req.delete, req.update)) == multiset(Overridden(req.update)))
  {
    var s, ids := Saved(db, form, req, existing, customIds), StoredIds(db, req, existing);
    StoredDistinct(db, form, req, existing);
    StoredSize(db, form, req, existing);
    forall id
      ensures id in ids <==> id in s.inputs && s.inputs[id].form == form
    {
      StoredMember(db, form, req, existing, customIds, id);
    }
    forall x
      ensures Occurs(PositionsAt(s, ids), x) + Occurs(Overridden(req.update), x)
           == Occurs(Positions(req), x) + Occurs(LeftOut(existing, req.delete, req.update), x)
    {
      StoredOccur(db, form, req, existing, customIds, x);
    }
    CancelCounts(PositionsAt(s, ids), Overridden(req.update), Positions(req),
                 LeftOut(existing, req.delete, req.update));
  }

  lemma {:induction false} NothingOverridden(updates: seq<Update>)
    requires Distinct(UpdateIds(updates))
    ensures Overridden(updates) == []
  {
    if updates != [] {
      assert UpdateIds(updates) == [updates[0].id] + UpdateIds(updates[1..]);
      DistinctCons(updates[0].id, UpdateIds(updates[1..]));
      NothingOverridden(updates[1..]);
    }
  }

  lemma {:induction false} NothingLeftOut(existing: seq<Stored>, delete: seq<int>, updates: seq<Update>)
    requires forall e | e in existing && IsKept(e, delete) :: e.id in UpdateIds(updates)
    ensures LeftOut(existing, delete, updates) == []
  {
    if existing != [] {
      NothingLeftOut(existing[1..], delete, updates);
    }
  }

  /** Distinct update ids leave nothing out and override nothing, so they meet the condition. */
  lemma DistinctUpdatesSuffice(db: Db, form: int, req: Request, existing: seq<Stored>, customIds: seq<string>)
    requires Accepted(db, form, req, existing) && |customIds| == |req.create| && Distinct(UpdateIds(req.update))
    ensures LeftOut(existing, req.delete, req.update) == [] == Overridden(req.update)
    ensures var ids := StoredIds(db, req, existing);
            multiset(PositionsAt(Saved(db, form, req, existing, customIds), ids)) == multiset(OneTo(|ids|))
  {
    AcceptedCoversIffDistinct(req, existing);
    forall e | e in existing && IsKept(e, req.delete)
      ensures e.id in UpdateIds(req.update)
    {
      var k :| 0 <= k < |existing| && existing[k] == e;
      assert Ids(existing)[k] == e.id;
      assert e.id in Ids(existing);
    }
    NothingLeftOut(existing, req.delete, req.update);
    NothingOverridden(req.update);
    StoredPositionsIff(db, form, req, existing, customIds);
  }
}
