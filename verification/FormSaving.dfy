/** The save transaction of a form's inputs. */
module FormSaving {
  import opened Wrappers
  import opened Sequences
  import opened FormInputs

  // ----- length clamping -----

  predicate IsSelect(kind: int) {
    kind == STRING_SELECT || 5 <= kind <= 8 || kind == CHECKBOX_GROUP
  }

  /** The most choices a select input may allow; the option count is truncated to 16 bits. */
  function LengthCap(kind: int, optionCount: nat): nat {
    if (kind == STRING_SELECT || kind == CHECKBOX_GROUP) && optionCount % MAX_UINT16 > 0
    then optionCount % MAX_UINT16 else 25
  }

  function Min(a: int, b: int): int {
    if a <= b then a else b
  }

  /** The largest pair within the caps; an unset maximum means the cap. */
  function Clamped(kind: int, minLength: int, maxLength: int, optionCount: nat): (int, int) {
    if !IsSelect(kind) then (minLength, maxLength)
    else
      var most := if maxLength == 0 then LengthCap(kind, optionCount) else Min(maxLength, LengthCap(kind, optionCount));
      (Min(Min(minLength, 25), most), most)
  }

  /**
   The maximum is as requested when 1 to `offered` choices are, else all of them; the minimum is cut to 25 and to it.
   */
  ghost predicate FitsInto(offered: int, minIn: int, maxIn: int, lengths: (int, int)) {
    var (lo, hi) := lengths;
    && (1 <= maxIn <= offered ==> hi == maxIn) && (maxIn == 0 || maxIn > offered ==> hi == offered)
    && lo <= minIn && lo <= 25 && lo <= hi && (lo == minIn || lo == 25 || lo == hi)
  }

  /**
   String selects and checkbox groups offer their options, 16 bits of their number; other selects offer 25 choices.
   */
  ghost predicate StoresLengths(kind: int, minIn: int, maxIn: int, optionCount: nat, lengths: (int, int)) {
    if kind == 3 || kind == 22 then
      && (0 < optionCount < 65536 ==> FitsInto(optionCount, minIn, maxIn, lengths) && lengths.1 <= optionCount)
      && (optionCount % 65536 == 0 ==> FitsInto(25, minIn, maxIn, lengths))
      && (optionCount % 65536 != 0 ==> FitsInto(optionCount % 65536, minIn, maxIn, lengths))
    else if 5 <= kind <= 8 then FitsInto(25, minIn, maxIn, lengths)
    else lengths == (minIn, maxIn)
  }

  lemma ClampedStoresLengths(kind: int, minIn: int, maxIn: int, optionCount: nat)
    requires 0 <= minIn && 0 <= maxIn
    ensures StoresLengths(kind, minIn, maxIn, optionCount, Clamped(kind, minIn, maxIn, optionCount))
  {
  }

  method ClampLengths(kind: int, minIn: int, maxIn: int, optionCount: nat) returns (minLength: int, maxLength: int)
    requires 0 <= minIn < MAX_UINT16 && 0 <= maxIn < MAX_UINT16
    ensures (minLength, maxLength) == Clamped(kind, minIn, maxIn, optionCount)
    ensures StoresLengths(kind, minIn, maxIn, optionCount, (minLength, maxLength))
  {
    ClampedStoresLengths(kind, minIn, maxIn, optionCount);
    minLength, maxLength := minIn, maxIn;
    if kind == STRING_SELECT || (kind >= 5 && kind <= 8) || kind == CHECKBOX_GROUP {
      if minLength < 0 {
        minLength := 0;
      } else if minLength > 25 {
        minLength := 25;
      }
      if kind == STRING_SELECT || kind == CHECKBOX_GROUP {
        var optionsLength := optionCount % MAX_UINT16;
        if optionsLength > 0 {
          if maxLength == 0 || maxLength > optionsLength {
            maxLength := optionsLength;
          }
        } else {
          if maxLength == 0 || maxLength > 25 {
            maxLength := 25;
          }
        }
      } else {
        if maxLength == 0 || maxLength > 25 {
          maxLength := 25;
        }
      }
      if maxLength < 1 {
        maxLength := 1;
      }
      if minLength > maxLength {
        minLength := maxLength;
      }
    }
  }

  /** A stored select input can be answered, and saving the stored lengths again changes nothing. */
  lemma ClampedIsStable(kind: int, minLength: int, maxLength: int, optionCount: nat)
    requires IsSelect(kind) && 0 <= minLength && 0 <= maxLength
    ensures var (lo, hi) := Clamped(kind, minLength, maxLength, optionCount);
            && 0 <= lo <= hi && 1 <= hi <= LengthCap(kind, optionCount) && lo <= 25
            && Clamped(kind, lo, hi, optionCount) == (lo, hi)
    ensures Clamped(kind, minLength, maxLength, optionCount) == (minLength, maxLength) <==>
            minLength <= Min(25, maxLength) && 1 <= maxLength <= LengthCap(kind, optionCount)
  {
  }

  // ----- the table -----

  datatype Db = Db(inputs: map<int, Stored>, nextId: int)

  ghost predicate WellFormed(db: Db) {
    forall id | id in db.inputs :: id < db.nextId && db.inputs[id].id == id
  }

  /** What GetInputs returns: every row of the form, once. */
  ghost predicate Lists(existing: seq<Stored>, db: Db, form: int) {
    && Distinct(Ids(existing))
    && (forall e | e in existing :: e.id in db.inputs && db.inputs[e.id] == e && e.form == form)
    && (forall id | id in db.inputs && db.inputs[id].form == form :: id in Ids(existing))
  }

  function Find(existing: seq<Stored>, id: int): (r: Option<Stored>)
    ensures r.Some? ==> r.value in existing && r.value.id == id
    ensures r.None? ==> id !in Ids(existing)
  {
    if existing == [] then None
    else if existing[0].id == id then Some(existing[0])
    else
      var r := Find(existing[1..], id);
      assert forall k | 1 <= k < |existing| :: Ids(existing)[k] == Ids(existing[1..])[k - 1];
      r
  }

  function ToRow(id: int, form: int, customId: string, b: InputBody): Stored {
    Stored(id, form, b.position, customId, b.kind, b.title,
           if b.kind == RADIO_GROUP then None else Some(Clamped(b.kind, b.minLength, b.maxLength, |b.options|)))
  }

  function AfterDelete(t: map<int, Stored>, id: int, form: int): map<int, Stored> {
    if id in t && t[id].form == form then t - {id} else t
  }

  function AfterDeletes(t: map<int, Stored>, ids: seq<int>, form: int): map<int, Stored>
    decreases |ids|
  {
    if ids == [] then t else AfterDelete(AfterDeletes(t, ids[..|ids| - 1], form), ids[|ids| - 1], form)
  }

  function AfterUpdate(t: map<int, Stored>, u: Update, existing: seq<Stored>, form: int): map<int, Stored> {
    if u.id in t && Find(existing, u.id).Some?
    then t[u.id := ToRow(u.id, form, Find(existing, u.id).value.customId, u.body)] else t
  }

  function AfterUpdates(t: map<int, Stored>, updates: seq<Update>, existing: seq<Stored>, form: int): map<int, Stored>
    decreases |updates|
  {
    if updates == [] then t
    else AfterUpdate(AfterUpdates(t, updates[..|updates| - 1], existing, form), updates[|updates| - 1], existing, form)
  }

  function AfterCreates(db: Db, create: seq<InputBody>, customIds: seq<string>, form: int): Db
    requires |customIds| == |create|
    decreases |create|
  {
    if create == [] then db
    else
      var n := |create| - 1;
      var was := AfterCreates(db, create[..n], customIds[..n], form);
      Db(was.inputs[was.nextId := ToRow(was.nextId, form, customIds[n], create[n])], was.nextId + 1)
  }

  function Saved(db: Db, form: int, req: Request, existing: seq<Stored>, customIds: seq<string>): Db
    requires |customIds| == |req.create|
  {
    var deleted := AfterDeletes(db.inputs, req.delete, form);
    var updated := AfterUpdates(deleted, req.update, existing, form);
    AfterCreates(Db(updated, db.nextId), req.create, customIds, form)
  }

  // ----- the three loops -----

  /** The call numbered `failAt` fails; `calls` have been made. */
  method DeleteInputs(t: map<int, Stored>, ids: seq<int>, form: int, calls: nat, failAt: nat)
    returns (ok: bool, tx: map<int, Stored>)
    requires calls <= failAt
    ensures ok <==> calls + |ids| <= failAt
    ensures ok ==> tx == AfterDeletes(t, ids, form)
  {
    tx := t;
    for i := 0 to |ids|
      invariant calls + i <= failAt && tx == AfterDeletes(t, ids[..i], form)
    {
      if calls + i == failAt {
        return false, tx;
      }
      assert ids[..i + 1][..i] == ids[..i];
      tx := AfterDelete(tx, ids[i], form);
    }
    assert ids[..|ids|] == ids;
    ok := true;
  }

  predicate IsUint16(n: int) {
    0 <= n < MAX_UINT16
  }

  method UpdateInput(t: map<int, Stored>, input: Update, found: Stored, form: int) returns (tx: map<int, Stored>)
    requires IsUint16(input.body.minLength) && IsUint16(input.body.maxLength)
    ensures tx == if input.id in t then t[input.id := ToRow(input.id, form, found.customId, input.body)] else t
  {
    var minLength, maxLength :=
      ClampLengths(input.body.kind, input.body.minLength, input.body.maxLength, |input.body.options|);
    var wrapped := Stored(input.id, form, input.body.position, found.customId, input.body.kind, input.body.title,
                          if input.body.kind != RADIO_GROUP then Some((minLength, maxLength)) else None);
    tx := if input.id in t then t[input.id := wrapped] else t;
  }

  method UpdateInputs(t: map<int, Stored>, updates: seq<Update>, existing: seq<Stored>, form: int, calls: nat,
                      failAt: nat)
    returns (ok: bool, tx: map<int, Stored>)
    requires calls <= failAt && forall u | u in updates :: IsUint16(u.body.minLength) && IsUint16(u.body.maxLength)
    ensures ok <==> Includes(Ids(existing), UpdateIds(updates)) && calls + |updates| <= failAt
    ensures ok ==> tx == AfterUpdates(t, updates, existing, form)
  {
    tx := t;
    for i := 0 to |updates|
      invariant calls + i <= failAt && tx == AfterUpdates(t, updates[..i], existing, form)
      invariant forall k | 0 <= k < i :: updates[k].id in Ids(existing)
    {
      var found := Find(existing, updates[i].id);
      if found.None? {
        assert UpdateIds(updates)[i] in UpdateIds(updates);
        return false, tx;
      }
      FoundIsListed(existing, updates[i].id);
      if calls + i == failAt {
        return false, tx;
      }
      assert updates[..i + 1][..i] == updates[..i];
      tx := UpdateInput(tx, updates[i], found.value, form);
    }
    assert updates[..|updates|] == updates;
    ok := true;
  }

  /** Two calls each: drawing the custom id, and the insert. */
  method CreateInputs(db: Db, create: seq<InputBody>, customIds: seq<string>, form: int, calls: nat, failAt: nat)
    returns (ok: bool, tx: Db)
    requires calls <= failAt && |customIds| == |create|
    requires forall b | b in create :: IsUint16(b.minLength) && IsUint16(b.maxLength)
    ensures ok <==> calls + 2 * |create| <= failAt
    ensures ok ==> tx == AfterCreates(db, create, customIds, form)
  {
    tx := db;
    for i := 0 to |create|
      invariant calls + 2 * i <= failAt && tx == AfterCreates(db, create[..i], customIds[..i], form)
    {
      if failAt < calls + 2 * i + 2 {
        return false, tx;  // RandString or CreateTx
      }
      var input := create[i];
      var minLength, maxLength := ClampLengths(input.kind, input.minLength, input.maxLength, |input.options|);
      var row := Stored(tx.nextId, form, input.position, customIds[i], input.kind, input.title,
                        if input.kind != RADIO_GROUP then Some((minLength, maxLength)) else None);
      assert create[..i + 1][..i] == create[..i] && customIds[..i + 1][..i] == customIds[..i];
      tx := Db(tx.inputs[tx.nextId := row], tx.nextId + 1);
    }
    assert create[..|create|] == create && customIds[..|create|] == customIds;
    ok := true;
  }

  class FormStore {
    var db: Db

    /**
     One transaction; the call numbered `failAt` fails, if there are that many. `customIds` are
     the random strings drawn for the created inputs.
     */
    method SaveInputs(form: int, req: Request, existing: seq<Stored>, customIds: seq<string>, failAt: nat)
      returns (ok: bool)
      requires |customIds| == |req.create|
      requires forall u | u in req.update :: IsUint16(u.body.minLength) && IsUint16(u.body.maxLength)
      requires forall b | b in req.create :: IsUint16(b.minLength) && IsUint16(b.maxLength)
      modifies this
      ensures db == if ok then Saved(old(db), form, req, existing, customIds) else old(db)
      ensures ok <==> Includes(Ids(existing), UpdateIds(req.update))
                      && failAt >= 2 + |req.delete| + |req.update| + 2 * |req.create|
    {
      if failAt == 0 {
        return false;  // BeginTx
      }
      var calls := 1;
      var tx := db;
      ok, tx := DeleteThenUpdate(form, req, existing, failAt);
      if !ok {
        return;
      }
      calls := calls + |req.delete| + |req.update|;
      ok, tx := CreateInputs(tx, req.create, customIds, form, calls, failAt);
      if !ok {
        return;
      }
      calls := calls + 2 * |req.create|;
      if calls == failAt {
        return false;  // Commit
      }
      db := tx;
    }

    method DeleteThenUpdate(form: int, req: Request, existing: seq<Stored>, failAt: nat) returns (ok: bool, tx: Db)
      requires 1 <= failAt && forall u | u in req.update :: IsUint16(u.body.minLength) && IsUint16(u.body.maxLength)
      ensures ok <==> Includes(Ids(existing), UpdateIds(req.update)) && 1 + |req.delete| + |req.update| <= failAt
      ensures ok ==>
                tx == Db(AfterUpdates(AfterDeletes(db.inputs, req.delete, form), req.update, existing, form), db.nextId)
    {
      tx := db;
      var inputs;
      ok, inputs := DeleteInputs(tx.inputs, req.delete, form, 1, failAt);
      if !ok {
        return;
      }
      ok, inputs := UpdateInputs(inputs, req.update, existing, form, 1 + |req.delete|, failAt);
      tx := tx.(inputs := inputs);
    }
  }

  lemma FoundIsListed(existing: seq<Stored>, id: int)
    ensures Find(existing, id).Some? ==> id in Ids(existing)
  {
  }
}
