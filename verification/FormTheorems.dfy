/** What a committed save leaves in the form-input table. */
module FormTheorems {
  import opened Wrappers
  import opened Sequences
  import opened FormInputs
  import opened FormSaving

  lemma {:induction false} AfterDeletesIs(t: map<int, Stored>, ids: seq<int>, form: int)
    ensures var r := AfterDeletes(t, ids, form);
            && (forall id :: id in r <==> id in t && !(id in ids && t[id].form == form))
            && (forall id | id in r :: r[id] == t[id])
    decreases |ids|
  {
    if ids != [] {
      AfterDeletesIs(t, ids[..|ids| - 1], form);
      assert ids == ids[..|ids| - 1] + [ids[|ids| - 1]];
    }
  }

  lemma {:induction false} AfterUpdatesIs(t: map<int, Stored>, updates: seq<Update>, existing: seq<Stored>, form: int)
    requires Distinct(UpdateIds(updates))
    requires forall k | 0 <= k < |updates| :: updates[k].id in t && Find(existing, updates[k].id).Some?
    ensures var r := AfterUpdates(t, updates, existing, form);
            && r.Keys == t.Keys
            && (forall k | 0 <= k < |updates| ::
                  r[updates[k].id]
                    == ToRow(updates[k].id, form, Find(existing, updates[k].id).value.customId, updates[k].body))
            && (forall id | id in t && id !in UpdateIds(updates) :: r[id] == t[id])
    decreases |updates|
  {
    if updates != [] {
      var n := |updates| - 1;
      var init, last := updates[..n], updates[n];
      assert UpdateIds(updates) == UpdateIds(init) + [last.id];
      assert forall k | 0 <= k < n :: UpdateIds(init)[k] == UpdateIds(updates)[k];
      AfterUpdatesIs(t, init, existing, form);
      var was := AfterUpdates(t, init, existing, form);
      var r := AfterUpdate(was, last, existing, form);
      forall k | 0 <= k < n
        ensures r[updates[k].id] == was[updates[k].id]
      {
        assert UpdateIds(updates)[k] != UpdateIds(updates)[n];
      }
    }
  }

  lemma {:induction false} AfterCreatesIs(db: Db, create: seq<InputBody>, customIds: seq<string>, form: int)
    requires |customIds| == |create| && forall id | id in db.inputs :: id < db.nextId
    ensures var r := AfterCreates(db, create, customIds, form);
            && r.nextId == db.nextId + |create|
            && (forall id :: id in r.inputs <==> id in db.inputs || db.nextId <= id < r.nextId)
            && (forall id | id in db.inputs :: r.inputs[id] == db.inputs[id])
            && (forall k | 0 <= k < |create| ::
                  r.inputs[db.nextId + k] == ToRow(db.nextId + k, form, customIds[k], create[k]))
    decreases |create|
  {
    if create != [] {
      var n := |create| - 1;
      AfterCreatesIs(db, create[..n], customIds[..n], form);
    }
  }

  /** The rows a save leaves for its form: the updated ones, then the created ones. */
  function SavedIds(db: Db, req: Request): (ids: seq<int>)
    ensures |ids| == |req.update| + |req.create|
  {
    UpdateIds(req.update) + seq(|req.create|, k requires 0 <= k < |req.create| => db.nextId + k)
  }

  ghost predicate AcceptedSave(db: Db, form: int, req: Request, existing: seq<Stored>) {
    && WellFormed(db) && Lists(existing, db, form)
    && FirstFailure(req, existing).None?
    && Distinct(UpdateIds(req.update))
  }

  lemma UpdatesSurviveDeletes(db: Db, form: int, req: Request, existing: seq<Stored>)
    requires AcceptedSave(db, form, req, existing)
    ensures var deleted := AfterDeletes(db.inputs, req.delete, form);
            && (forall k | 0 <= k < |req.update| ::
                  var id := req.update[k].id;
                  id in db.inputs && id in deleted && deleted[id].form == form
                    && Find(existing, id) == Some(db.inputs[id]))
            && (forall id | id in deleted && deleted[id].form == form :: id in UpdateIds(req.update))
  {
    AfterDeletesIs(db.inputs, req.delete, form);
    AcceptedCoversIffDistinct(req, existing);
    forall k | 0 <= k < |req.update|
      ensures var id := req.update[k].id;
              id in db.inputs && db.inputs[id].form == form && id !in req.delete
                && Find(existing, id) == Some(db.inputs[id])
    {
      var id := UpdateIds(req.update)[k];
      assert id in UpdateIds(req.update);
      assert id in Ids(existing);
      assert Find(existing, id).Some?;
    }
  }

  function Middle(db: Db, form: int, req: Request, existing: seq<Stored>): map<int, Stored> {
    AfterUpdates(AfterDeletes(db.inputs, req.delete, form), req.update, existing, form)
  }

  /** The table after the deletes and updates. */
  lemma MiddleRows(db: Db, form: int, req: Request, existing: seq<Stored>)
    requires AcceptedSave(db, form, req, existing)
    ensures var t := Middle(db, form, req, existing);
            && (forall id | id in t :: id in db.inputs && t[id].id == id)
            && (forall id :: id in t && t[id].form == form <==> id in UpdateIds(req.update))
            && (forall id | id in db.inputs && db.inputs[id].form != form :: id in t && t[id] == db.inputs[id])
            && (forall k | 0 <= k < |req.update| ::
                  var id := req.update[k].id;
                  id in t && id in db.inputs && t[id] == ToRow(id, form, db.inputs[id].customId, req.update[k].body))
  {
    var deleted := AfterDeletes(db.inputs, req.delete, form);
    AfterDeletesIs(db.inputs, req.delete, form);
    UpdatesSurviveDeletes(db, form, req, existing);
    AfterUpdatesIs(deleted, req.update, existing, form);
    var t := Middle(db, form, req, existing);
    forall id | id in UpdateIds(req.update)
      ensures id in t && id in deleted && deleted[id].form == form && t[id].form == form && t[id].id == id
    {
      var k :| 0 <= k < |req.update| && UpdateIds(req.update)[k] == id;
      assert req.update[k].id == id;
    }
  }

  lemma CreatesOnTop(base: Db, create: seq<InputBody>, customIds: seq<string>, form: int)
    requires WellFormed(base) && |customIds| == |create|
    ensures var s := AfterCreates(base, create, customIds, form);
            && WellFormed(s) && s.nextId == base.nextId + |create|
            && (forall id | id in base.inputs :: id in s.inputs && s.inputs[id] == base.inputs[id])
            && (forall id :: id in s.inputs && s.inputs[id].form == form <==>
                             (id in base.inputs && base.inputs[id].form == form) || base.nextId <= id < s.nextId)
            && (forall k | 0 <= k < |create| ::
                  base.nextId + k in s.inputs
                  && s.inputs[base.nextId + k] == ToRow(base.nextId + k, form, customIds[k], create[k]))
  {
    AfterCreatesIs(base, create, customIds, form);
    var s := AfterCreates(base, create, customIds, form);
    forall id | base.nextId <= id < s.nextId
      ensures id in s.inputs && s.inputs[id].id == id && s.inputs[id].form == form
    {
      assert s.inputs[base.nextId + (id - base.nextId)].id == id;
    }
  }

  /** The table after an accepted save, row by row. */
  lemma SavedRows(db: Db, form: int, req: Request, existing: seq<Stored>, customIds: seq<string>)
    requires AcceptedSave(db, form, req, existing) && |customIds| == |req.create|
    ensures var s := Saved(db, form, req, existing, customIds);
            && s.nextId == db.nextId + |req.create| && WellFormed(s)
            && (forall id :: id in s.inputs && s.inputs[id].form == form <==>
                             id in UpdateIds(req.update) || db.nextId <= id < s.nextId)
            && (forall id | id in db.inputs && db.inputs[id].form != form ::
                  id in s.inputs && s.inputs[id] == db.inputs[id])
            && (forall k | 0 <= k < |req.update| ::
                  var id := req.update[k].id;
                  id in s.inputs && id in db.inputs
                  && s.inputs[id] == ToRow(id, form, db.inputs[id].customId, req.update[k].body))
            && (forall k | 0 <= k < |req.create| ::
                  db.nextId + k in s.inputs
                  && s.inputs[db.nextId + k] == ToRow(db.nextId + k, form, customIds[k], req.create[k]))
  {
    var base := Db(Middle(db, form, req, existing), db.nextId);
    MiddleRows(db, form, req, existing);
    CreatesOnTop(base, req.create, customIds, form);
    assert Saved(db, form, req, existing, customIds) == AfterCreates(base, req.create, customIds, form);
  }

  /** What is stored of an input's lengths: nothing for a radio group, else what fits its choices. */
  ghost predicate LengthsStored(row: Stored, b: InputBody) {
    if b.kind == 21 then row.lengths.None?
    else row.lengths.Some? && StoresLengths(b.kind, b.minLength, b.maxLength, |b.options|, row.lengths.value)
  }

  lemma RowLengths(id: int, form: int, customId: string, b: InputBody)
    requires IsUint16(b.minLength) && IsUint16(b.maxLength)
    ensures LengthsStored(ToRow(id, form, customId, b), b)
  {
    ClampedStoresLengths(b.kind, b.minLength, b.maxLength, |b.options|);
  }

  /** No stored select asks for more choices than it offers, and no other input's lengths are changed. */
  lemma SavedLengths(db: Db, form: int, req: Request, existing: seq<Stored>, customIds: seq<string>)
    requires AcceptedSave(db, form, req, existing) && |customIds| == |req.create|
    requires forall u | u in req.update :: IsUint16(u.body.minLength) && IsUint16(u.body.maxLength)
    requires forall b | b in req.create :: IsUint16(b.minLength) && IsUint16(b.maxLength)
    ensures var s := Saved(db, form, req, existing, customIds);
            && (forall k | 0 <= k < |req.update| ::
                  req.update[k].id in s.inputs && LengthsStored(s.inputs[req.update[k].id], req.update[k].body))
            && (forall k | 0 <= k < |req.create| ::
                  db.nextId + k in s.inputs && LengthsStored(s.inputs[db.nextId + k], req.create[k]))
  {
    SavedRows(db, form, req, existing, customIds);
    var s := Saved(db, form, req, existing, customIds);
    forall k | 0 <= k < |req.update|
      ensures req.update[k].id in s.inputs && LengthsStored(s.inputs[req.update[k].id], req.update[k].body)
    {
      var u := req.update[k];
      assert u in req.update;
      RowLengths(u.id, form, db.inputs[u.id].customId, u.body);
    }
    forall k | 0 <= k < |req.create|
      ensures db.nextId + k in s.inputs && LengthsStored(s.inputs[db.nextId + k], req.create[k])
    {
      assert req.create[k] in req.create;
      RowLengths(db.nextId + k, form, customIds[k], req.create[k]);
    }
  }

  lemma SavedIdsAre(db: Db, req: Request, id: int)
    ensures id in SavedIds(db, req) <==> id in UpdateIds(req.update) || db.nextId <= id < db.nextId + |req.create|
  {
    var ids := SavedIds(db, req);
    if db.nextId <= id < db.nextId + |req.create| {
      assert ids[|req.update| + (id - db.nextId)] == id;
    }
  }

  lemma SavedIdsDistinct(db: Db, form: int, req: Request, existing: seq<Stored>)
    requires AcceptedSave(db, form, req, existing)
    ensures Distinct(SavedIds(db, req))
  {
    UpdatesSurviveDeletes(db, form, req, existing);
    var ids := SavedIds(db, req);
    forall i, j | 0 <= i < j < |ids|
      ensures ids[i] != ids[j]
    {
      if j < |req.update| {
        assert UpdateIds(req.update)[i] != UpdateIds(req.update)[j];
      } else if i < |req.update| {
        assert ids[i] == req.update[i].id < db.nextId;
      }
    }
  }

  /** Position of a row, and 0 where there is none. */
  function PositionAt(s: Db, id: int): int {
    if id in s.inputs then s.inputs[id].position else 0
  }

  function PositionsAt(s: Db, ids: seq<int>): seq<int> {
    seq(|ids|, i requires 0 <= i < |ids| => PositionAt(s, ids[i]))
  }

  lemma SwapParts<T>(a: seq<T>, b: seq<T>)
    ensures multiset(a + b) == multiset(b + a)
  {
  }

  lemma PositionsFollow(s: Db, db: Db, req: Request)
    requires forall k | 0 <= k < |req.update| :: PositionAt(s, req.update[k].id) == req.update[k].body.position
    requires forall k | 0 <= k < |req.create| :: PositionAt(s, db.nextId + k) == req.create[k].position
    ensures multiset(PositionsAt(s, SavedIds(db, req))) == multiset(Positions(req))
  {
    var n := |req.create|;
    var created, updated := Positions(req)[..n], Positions(req)[n..];
    assert PositionsAt(s, SavedIds(db, req)) == updated + created;
    assert Positions(req) == created + updated;
    SwapParts(created, updated);
  }

  lemma SavedPositions(db: Db, form: int, req: Request, existing: seq<Stored>, customIds: seq<string>)
    requires AcceptedSave(db, form, req, existing) && |customIds| == |req.create|
    ensures multiset(PositionsAt(Saved(db, form, req, existing, customIds), SavedIds(db, req)))
            == multiset(Positions(req))
  {
    SavedRows(db, form, req, existing, customIds);
    PositionsFollow(Saved(db, form, req, existing, customIds), db, req);
  }

  /**
   After an accepted save with distinct update ids the form has between one and five rows, their
   positions are 1 to n in some order, and every kept input still has its custom id.
   */
  lemma SavedFormIsNumbered(db: Db, form: int, req: Request, existing: seq<Stored>, customIds: seq<string>)
    requires AcceptedSave(db, form, req, existing) && |customIds| == |req.create|
    ensures var s, ids := Saved(db, form, req, existing, customIds), SavedIds(db, req);
            && Distinct(ids) && 1 <= |ids| <= 5
            && (forall id :: id in ids <==> id in s.inputs && s.inputs[id].form == form)
            && multiset(PositionsAt(s, ids)) == multiset(OneTo(|ids|))
            && (forall k | 0 <= k < |req.update| ::
                  var id := req.update[k].id;
                  id in db.inputs && id in s.inputs && s.inputs[id].customId == db.inputs[id].customId)
  {
    SavedRows(db, form, req, existing, customIds);
    SavedIdsDistinct(db, form, req, existing);
    SavedPositions(db, form, req, existing, customIds);
    forall id
      ensures id in SavedIds(db, req) <==> id in UpdateIds(req.update) || db.nextId <= id < db.nextId + |req.create|
    {
      SavedIdsAre(db, req, id);
    }
  }

  /**
   Updating row 1 twice over rows 1 and 2 is accepted. Row 2 keeps its old position, so the stored positions are
   1 and 2 only if that was 1.
   */
  lemma RepeatedUpdateSpoilsPositions(one: Stored, two: Stored, body: InputBody)
    requires one.id == 1 && two.id == 2 && one.form == two.form == 7 && !NeedsOptions(body.kind)
    ensures var req := Request([], [Update(1, body.(position := 1)), Update(1, body.(position := 2))], []);
            var db := Db(map[1 := one, 2 := two], 3);
            && WellFormed(db) && Lists([one, two], db, 7) && FirstFailure(req, [one, two]).None?
            && var s := Saved(db, 7, req, [one, two], []);
               s.inputs.Keys == {1, 2} && PositionsAt(s, [1, 2]) == [2, two.position]
    ensures multiset([2, two.position]) == multiset(OneTo(2)) <==> two.position == 1
  {
    RepeatedUpdateIsAccepted(one, two, body);
    var u1, u2 := Update(1, body.(position := 1)), Update(1, body.(position := 2));
    var req := Request([], [u1, u2], []);
    var db := Db(map[1 := one, 2 := two], 3);
    assert Ids([one, two]) == [1, 2];
    assert [1, 2][0] == 1 && [1, 2][1] == 2;
    assert [u1, u2][..1] == [u1] && [u1][..0] == [];
    assert AfterUpdates(db.inputs, [u1], [one, two], 7) == AfterUpdate(db.inputs, u1, [one, two], 7);
    var s := Saved(db, 7, req, [one, two], []);
    assert s.inputs == AfterUpdate(AfterUpdate(db.inputs, u1, [one, two], 7), u2, [one, two], 7);
    assert s.inputs[1].position == 2 && s.inputs[2] == two;
    assert OneTo(2) == [1, 2] && multiset(OneTo(2)) == multiset{1, 2};
    assert multiset([2, two.position]) == multiset{2, two.position};
    assert multiset{2, two.position}[1] == if two.position == 1 then 1 else 0;
  }
}
