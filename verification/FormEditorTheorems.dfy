/** The editor and the server agree: whatever is edited, the payload is accepted and stores what was shown. */
module FormEditorTheorems {
  import opened Wrappers
  import opened Sequences
  import opened Counting
  import opened FormInputs
  import opened FormSaving
  import opened FormTheorems
  import opened FormEditor

  ghost predicate Numbered(items: seq<Item>) {
    forall i | 0 <= i < |items| :: items[i].position == i + 1
  }

  /** How many items of the list are the stored input `id`. */
  function Keeps(items: seq<Item>, id: int): nat {
    if items == [] then 0 else (if items[0].id == Some(id) then 1 else 0) + Keeps(items[1..], id)
  }

  /** Positions follow the list, and every stored input is either kept or marked for deletion, once. */
  ghost predicate Consistent(d: Draft, existing: seq<Stored>) {
    && |d.items| <= MAX_INPUTS && Numbered(d.items)
    && Distinct(Ids(existing))
    && forall id :: Keeps(d.items, id) + Occurs(d.toDelete, id) == Occurs(Ids(existing), id)
  }

  /** A freshly loaded form: the stored inputs in position order, and nothing to delete. */
  ghost predicate Loaded(d: Draft, existing: seq<Stored>) {
    Consistent(d, existing) && d.toDelete == []
  }

  // ----- what an edit does to the list -----

  /** A deletion takes out item i, keeps the order of the others and moves the later ones up. */
  lemma RemovedIs(items: seq<Item>, i: nat, k: nat)
    requires i < |items| && k < |items| - 1
    ensures var was := items[if k < i then k else k + 1];
            Removed(items, i)[k] == Item(was.id, if k < i then was.position else was.position - 1, was.content)
  {
  }

  /** A swap exchanges inputs and contents of two neighbours, and positions stay with their places. */
  lemma SwappedIs(items: seq<Item>, i: nat, k: nat)
    requires i + 1 < |items| && k < |items|
    ensures |Swapped(items, i)| == |items|
    ensures var was := items[if k == i then i + 1 else if k == i + 1 then i else k];
            Swapped(items, i)[k] == Item(was.id, items[k].position, was.content)
  {
  }

  /** Up to five inputs, a new one comes last, without an id. */
  lemma AddedIs(items: seq<Item>)
    ensures |items| >= 5 ==> Added(items) == items
    ensures |items| < 5 ==>
              Added(items) == items + [Item(None, |items| + 1, Content(4, "", 0, 255, []))]
  {
  }

  /** What is sent of an input is what it shows; an unset maximum of a string select with options is their number. */
  lemma BodyIs(item: Item)
    ensures var b, c := ToBody(item), item.content;
            && b.kind == c.kind && b.position == item.position && b.title == c.title && b.options == c.options
            && b.minLength == c.minLength
            && b.maxLength == (if c.kind == 3 && c.maxLength == 0 && c.options != [] then |c.options| else c.maxLength)
  {
  }

  // ----- kept inputs under the edits -----

  lemma {:induction false} KeepsConcat(a: seq<Item>, b: seq<Item>, id: int)
    ensures Keeps(a + b, id) == Keeps(a, id) + Keeps(b, id)
  {
    if a == [] {
      assert a + b == b;
    } else {
      KeepsConcat(a[1..], b, id);
      assert (a + b)[1..] == a[1..] + b;
    }
  }

  lemma {:induction false} KeepsSameIds(a: seq<Item>, b: seq<Item>, id: int)
    requires |a| == |b| && forall i | 0 <= i < |a| :: a[i].id == b[i].id
    ensures Keeps(a, id) == Keeps(b, id)
  {
    if a != [] {
      KeepsSameIds(a[1..], b[1..], id);
    }
  }

  lemma KeepsSplit(items: seq<Item>, i: nat, id: int)
    requires i < |items|
    ensures Keeps(items, id)
         == Keeps(items[..i], id) + (if items[i].id == Some(id) then 1 else 0) + Keeps(items[i + 1..], id)
  {
    var rest := items[i..];
    KeepsConcat(items[..i], rest, id);
    assert items == items[..i] + rest;
    assert rest[1..] == items[i + 1..];
  }

  lemma KeepsAfterRemove(items: seq<Item>, i: nat, id: int)
    requires i < |items|
    ensures Keeps(Removed(items, i), id) + (if items[i].id == Some(id) then 1 else 0) == Keeps(items, id)
  {
    var r := Removed(items, i);
    KeepsSplit(items, i, id);
    KeepsConcat(items[..i], r[i..], id);
    assert r == items[..i] + r[i..];
    KeepsSameIds(r[i..], items[i + 1..], id);
  }

  lemma KeepsAfterSwap(items: seq<Item>, i: nat, id: int)
    requires i + 1 < |items|
    ensures Keeps(Swapped(items, i), id) == Keeps(items, id)
  {
    var r := Swapped(items, i);
    KeepsSplit(items, i, id);
    KeepsSplit(r, i, id);
    KeepsSplit(items[i + 1..], 0, id);
    KeepsSplit(r[i + 1..], 0, id);
    assert items[..i] == r[..i];
    assert items[i + 1..][1..] == r[i + 1..][1..];
  }

  lemma KeepsAfterEdit(d: Draft, e: Edit, id: int)
    requires InRange(d, e)
    ensures var d' := Apply(d, e);
            Keeps(d'.items, id) + Occurs(d'.toDelete, id) == Keeps(d.items, id) + Occurs(d.toDelete, id)
  {
    match e
    case Add =>
      var last := [Item(None, |d.items| + 1, NEW_CONTENT)];
      KeepsConcat(d.items, last, id);
    case Delete(i) =>
      KeepsAfterRemove(d.items, i, id);
      if d.items[i].id.Some? {
        OccursConcat(d.toDelete, [d.items[i].id.value], id);
      }
    case Up(i) => KeepsAfterSwap(d.items, i - 1, id);
    case Down(i) => KeepsAfterSwap(d.items, i, id);
    case Retype(i, content) => KeepsSameIds(d.items, Apply(d, e).items, id);
  }

  lemma EditKeepsConsistent(d: Draft, e: Edit, existing: seq<Stored>)
    requires Consistent(d, existing) && InRange(d, e)
    ensures Consistent(Apply(d, e), existing)
  {
    forall id
      ensures Keeps(Apply(d, e).items, id) + Occurs(Apply(d, e).toDelete, id) == Occurs(Ids(existing), id)
    {
      KeepsAfterEdit(d, e, id);
    }
  }

  /** Any sequence of in-range edits keeps inputs[i].position == i + 1 and accounts for every stored input. */
  lemma {:induction false} EditsKeepConsistent(d: Draft, edits: seq<Edit>, existing: seq<Stored>)
    requires Consistent(d, existing) && AllInRange(d, edits)
    ensures Consistent(ApplyAll(d, edits), existing)
    decreases |edits|
  {
    if edits != [] {
      EditKeepsConsistent(d, edits[0], existing);
      EditsKeepConsistent(Apply(d, edits[0]), edits[1..], existing);
    }
  }

  // ----- the payload against the server's checks -----

  lemma {:induction false} PayloadSize(items: seq<Item>)
    ensures |Creates(items)| + |Updates(items)| == |items|
  {
    if items != [] {
      PayloadSize(items[1..]);
    }
  }

  lemma {:induction false} UpdatesKeep(items: seq<Item>, id: int)
    ensures Occurs(UpdateIds(Updates(items)), id) == Keeps(items, id)
  {
    if items != [] {
      UpdatesKeep(items[1..], id);
      if items[0].id.Some? {
        assert UpdateIds(Updates(items))[1..] == UpdateIds(Updates(items[1..]));
      } else {
        assert Updates(items) == Updates(items[1..]);
      }
    }
  }

  function ItemPositions(items: seq<Item>): seq<int> {
    seq(|items|, i requires 0 <= i < |items| => items[i].position)
  }

  lemma CreatePositionsCons(b: InputBody, rest: seq<InputBody>)
    ensures CreatePositions([b] + rest) == [b.position] + CreatePositions(rest)
  {
  }

  lemma UpdatePositionsCons(u: Update, rest: seq<Update>)
    ensures UpdatePositions([u] + rest) == [u.body.position] + UpdatePositions(rest)
  {
  }

  lemma ItemPositionsCons(items: seq<Item>)
    requires items != []
    ensures ItemPositions(items) == [items[0].position] + ItemPositions(items[1..])
  {
  }

  lemma {:induction false} PayloadPositions(items: seq<Item>, x: int)
    ensures Occurs(CreatePositions(Creates(items)), x) + Occurs(UpdatePositions(Updates(items)), x)
         == Occurs(ItemPositions(items), x)
  {
    if items != [] {
      var rest, one := items[1..], [items[0].position];
      PayloadPositions(rest, x);
      ItemPositionsCons(items);
      OccursConcat(one, ItemPositions(rest), x);
      if items[0].id.Some? {
        var u := Update(items[0].id.value, ToBody(items[0]));
        assert Creates(items) == Creates(rest) && Updates(items) == [u] + Updates(rest);
        UpdatePositionsCons(u, Updates(rest));
        OccursConcat(one, UpdatePositions(Updates(rest)), x);
      } else {
        assert Updates(items) == Updates(rest) && Creates(items) == [ToBody(items[0])] + Creates(rest);
        CreatePositionsCons(ToBody(items[0]), Creates(rest));
        OccursConcat(one, CreatePositions(Creates(rest)), x);
      }
    }
  }

  lemma KeptPlusDeleted(d: Draft, existing: seq<Stored>)
    requires Consistent(d, existing)
    ensures var kept := UpdateIds(Updates(d.items));
            && Distinct(kept)
            && (forall id :: id in Ids(existing) <==> id in kept || id in d.toDelete)
            && (forall id | id in d.toDelete :: id !in kept)
  {
    var kept, all := UpdateIds(Updates(d.items)), Ids(existing);
    OccursTells(kept);
    OccursTells(all);
    OccursTells(d.toDelete);
    forall id
      ensures Occurs(kept, id) <= 1
      ensures id in all <==> id in kept || id in d.toDelete
      ensures id in d.toDelete ==> id !in kept
    {
      UpdatesKeep(d.items, id);
      OccursAtMostOnce(all, id);
      assert Occurs(all, id) == Occurs(kept, id) + Occurs(d.toDelete, id);
    }
  }

  lemma KeptFillRemaining(d: Draft, existing: seq<Stored>)
    requires Consistent(d, existing)
    ensures |Remaining(existing, d.toDelete)| == |Updates(d.items)|
    ensures Includes(Remaining(existing, d.toDelete), UpdateIds(Updates(d.items)))
  {
    var remaining, kept := Remaining(existing, d.toDelete), UpdateIds(Updates(d.items));
    KeptPlusDeleted(d, existing);
    RemainingIs(existing, d.toDelete);
    DistinctSize(remaining);
    DistinctSize(kept);
    assert ToSet(remaining) == ToSet(kept);
  }

  lemma DraftPositionsOk(d: Draft)
    requires Numbered(d.items)
    ensures PositionsOk(Payload(d)) && |Positions(Payload(d))| == |d.items|
  {
    PayloadSize(d.items);
    var positions := Positions(Payload(d));
    var c, u := CreatePositions(Creates(d.items)), UpdatePositions(Updates(d.items));
    assert ItemPositions(d.items) == OneTo(|d.items|);
    assert positions == c + u;
    forall x
      ensures multiset(positions)[x] == multiset(OneTo(|d.items|))[x]
    {
      PayloadPositions(d.items, x);
      OccursConcat(c, u, x);
      OccursIsMultiset(positions, x);
      OccursIsMultiset(OneTo(|d.items|), x);
    }
  }

  /** The payload of a non-empty draft passes every structural check; only option lists can still be refused. */
  lemma PayloadIsAccepted(d: Draft, existing: seq<Stored>)
    requires Consistent(d, existing) && d.items != []
    ensures FirstFailure(Payload(d), existing) == if AllOptionsOk(Payload(d)) then None else Some(BadOptions)
    ensures Distinct(UpdateIds(Payload(d).update))
  {
    PayloadSize(d.items);
    KeptPlusDeleted(d, existing);
    KeptFillRemaining(d, existing);
    DraftPositionsOk(d);
  }

  /** From load to save: any in-range edits of a loaded form, then a payload the server accepts. */
  lemma EditedFormIsAccepted(d: Draft, edits: seq<Edit>, existing: seq<Stored>)
    requires Loaded(d, existing) && AllInRange(d, edits)
    requires ApplyAll(d, edits).items != [] && AllOptionsOk(Payload(ApplyAll(d, edits)))
    ensures Numbered(ApplyAll(d, edits).items)
    ensures FirstFailure(Payload(ApplyAll(d, edits)), existing).None?
  {
    EditsKeepConsistent(d, edits, existing);
    PayloadIsAccepted(ApplyAll(d, edits), existing);
  }

  // ----- closing the loop: what is stored is what was shown -----

  function NewBefore(items: seq<Item>, i: nat): nat
    requires i <= |items|
  {
    |Creates(items[..i])|
  }

  /** The row that stores item i of the draft. */
  function RowOf(items: seq<Item>, nextId: int, i: nat): int
    requires i < |items|
  {
    if items[i].id.Some? then items[i].id.value else nextId + NewBefore(items, i)
  }

  function KeptBefore(items: seq<Item>, i: nat): nat
    requires i <= |items|
  {
    |Updates(items[..i])|
  }

  /** Where item i stands in the payload. */
  lemma {:induction false} PayloadEntry(items: seq<Item>, i: nat)
    requires i < |items|
    ensures items[i].id.Some? ==>
              KeptBefore(items, i) < |Updates(items)|
              && Updates(items)[KeptBefore(items, i)] == Update(items[i].id.value, ToBody(items[i]))
    ensures items[i].id.None? ==>
              NewBefore(items, i) < |Creates(items)|
              && Creates(items)[NewBefore(items, i)] == ToBody(items[i])
  {
    if i > 0 {
      PayloadEntry(items[1..], i - 1);
      assert items[..i][1..] == items[1..][..i - 1];
    }
  }

  lemma RowOfUpdate(db: Db, form: int, req: Request, existing: seq<Stored>, customIds: seq<string>, k: nat)
    requires AcceptedSave(db, form, req, existing) && |customIds| == |req.create| && k < |req.update|
    ensures var s, id := Saved(db, form, req, existing, customIds), req.update[k].id;
            id in s.inputs && id in db.inputs
            && s.inputs[id] == ToRow(id, form, db.inputs[id].customId, req.update[k].body)
  {
    SavedRows(db, form, req, existing, customIds);
  }

  lemma RowOfCreate(db: Db, form: int, req: Request, existing: seq<Stored>, customIds: seq<string>, k: nat)
    requires AcceptedSave(db, form, req, existing) && |customIds| == |req.create| && k < |req.create|
    ensures var s := Saved(db, form, req, existing, customIds);
            db.nextId + k in s.inputs
            && s.inputs[db.nextId + k] == ToRow(db.nextId + k, form, customIds[k], req.create[k])
  {
    SavedRows(db, form, req, existing, customIds);
  }

  lemma DraftIsAcceptedSave(d: Draft, db: Db, form: int, existing: seq<Stored>)
    requires WellFormed(db) && Lists(existing, db, form)
    requires Consistent(d, existing) && d.items != [] && AllOptionsOk(Payload(d))
    ensures AcceptedSave(db, form, Payload(d), existing)
  {
    PayloadIsAccepted(d, existing);
  }

  /** Row `id` of the table is what the item shows. */
  ghost predicate Shows(s: Db, id: int, form: int, item: Item) {
    && id in s.inputs && s.inputs[id].form == form && s.inputs[id].position == item.position
    && s.inputs[id].title == item.content.title && s.inputs[id].kind == item.content.kind
    && (item.content.kind !in {3, 5, 6, 7, 8, 21, 22} ==>
          s.inputs[id].lengths == Some((item.content.minLength, item.content.maxLength)))
  }

  lemma CreatedItemIsStored(db: Db, form: int, req: Request, existing: seq<Stored>, customIds: seq<string>, k: nat,
                            item: Item)
    requires AcceptedSave(db, form, req, existing) && |customIds| == |req.create|
    requires k < |req.create| && req.create[k] == ToBody(item)
    ensures Shows(Saved(db, form, req, existing, customIds), db.nextId + k, form, item)
  {
    RowOfCreate(db, form, req, existing, customIds, k);
  }

  lemma NewItemIsStored(d: Draft, db: Db, form: int, existing: seq<Stored>, customIds: seq<string>, i: nat)
    requires AcceptedSave(db, form, Payload(d), existing) && |customIds| == |Creates(d.items)|
    requires i < |d.items| && d.items[i].id.None?
    ensures Shows(Saved(db, form, Payload(d), existing, customIds), RowOf(d.items, db.nextId, i), form, d.items[i])
  {
    var req, k := Payload(d), NewBefore(d.items, i);
    assert k < |req.create| && req.create[k] == ToBody(d.items[i]) by {
      PayloadEntry(d.items, i);
    }
    CreatedItemIsStored(db, form, req, existing, customIds, k, d.items[i]);
    assert RowOf(d.items, db.nextId, i) == db.nextId + k;
  }

  lemma KeptItemIsStored(d: Draft, db: Db, form: int, existing: seq<Stored>, customIds: seq<string>, i: nat)
    requires AcceptedSave(db, form, Payload(d), existing) && |customIds| == |Creates(d.items)|
    requires i < |d.items| && d.items[i].id.Some?
    ensures var s, id := Saved(db, form, Payload(d), existing, customIds), d.items[i].id.value;
            Shows(s, id, form, d.items[i]) && id in db.inputs && s.inputs[id].customId == db.inputs[id].customId
  {
    PayloadEntry(d.items, i);
    RowOfUpdate(db, form, Payload(d), existing, customIds, KeptBefore(d.items, i));
  }

  /**
   After a committed save of an accepted draft, the row that stores item i sits at position i + 1 with the
   item's title and type, and keeps its custom id if it existed.
   */
  lemma SavedFormShowsDraft(d: Draft, db: Db, form: int, existing: seq<Stored>, customIds: seq<string>, i: nat)
    requires WellFormed(db) && Lists(existing, db, form)
    requires Consistent(d, existing) && i < |d.items| && AllOptionsOk(Payload(d)) && |customIds| == |Creates(d.items)|
    ensures var s, id := Saved(db, form, Payload(d), existing, customIds), RowOf(d.items, db.nextId, i);
            && Shows(s, id, form, d.items[i]) && s.inputs[id].position == i + 1
            && (d.items[i].id.Some? ==> id in db.inputs && s.inputs[id].customId == db.inputs[id].customId)
  {
    DraftIsAcceptedSave(d, db, form, existing);
    if d.items[i].id.Some? {
      KeptItemIsStored(d, db, form, existing, customIds, i);
    } else {
      NewItemIsStored(d, db, form, existing, customIds, i);
    }
  }

  /** The form stores one row per item and no other. */
  lemma SavedFormHasNoOtherRows(d: Draft, db: Db, form: int, existing: seq<Stored>, customIds: seq<string>)
    requires WellFormed(db) && Lists(existing, db, form)
    requires Consistent(d, existing) && d.items != [] && AllOptionsOk(Payload(d)) && |customIds| == |Creates(d.items)|
    ensures var s, ids := Saved(db, form, Payload(d), existing, customIds), SavedIds(db, Payload(d));
            && |ids| == |d.items| && Distinct(ids)
            && forall id :: id in s.inputs && s.inputs[id].form == form <==> id in ids
  {
    DraftIsAcceptedSave(d, db, form, existing);
    PayloadSize(d.items);
    SavedFormIsNumbered(db, form, Payload(d), existing, customIds);
  }
}
