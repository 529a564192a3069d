/** Edit, save, load again: the loop between the editor and the server closes, for any number of rounds. */
module FormRounds {
  import opened Wrappers
  import opened Sequences
  import opened Counting
  import opened Sorting
  import opened FormInputs
  import opened FormSaving
  import opened FormTheorems
  import opened FormEditor
  import opened FormEditorTheorems

  /** These are the form's rows, each once, and their positions are 1 to n in some order. */
  ghost predicate NumberedBy(db: Db, form: int, ids: seq<int>) {
    && Distinct(ids) && |ids| <= MAX_INPUTS
    && (forall id :: id in ids <==> id in db.inputs && db.inputs[id].form == form)
    && multiset(PositionsAt(db, ids)) == multiset(OneTo(|ids|))
  }

  ghost predicate Ready(db: Db, form: int) {
    WellFormed(db) && exists ids :: NumberedBy(db, form, ids)
  }

  ghost predicate ByPosition(rows: seq<Stored>) {
    forall i, j | 0 <= i < j < |rows| :: rows[i].position <= rows[j].position
  }

  // ----- what is loaded -----

  lemma PositionsWithout(db: Db, b: seq<int>, j: nat)
    requires j < |b|
    ensures multiset(PositionsAt(db, b))
         == multiset{PositionAt(db, b[j])} + multiset(PositionsAt(db, b[..j] + b[j + 1..]))
  {
    var before, after, p := PositionsAt(db, b[..j]), PositionsAt(db, b[j + 1..]), [PositionAt(db, b[j])];
    assert PositionsAt(db, b) == before + p + after;
    assert PositionsAt(db, b[..j] + b[j + 1..]) == before + after;
  }

  lemma PositionsHead(db: Db, a: seq<int>)
    requires a != []
    ensures multiset(PositionsAt(db, a)) == multiset{PositionAt(db, a[0])} + multiset(PositionsAt(db, a[1..]))
  {
    assert PositionsAt(db, a) == [PositionAt(db, a[0])] + PositionsAt(db, a[1..]);
  }

  lemma TailMembers(a: seq<int>)
    requires a != [] && Distinct(a)
    ensures a[0] in a && Distinct(a[1..]) && forall x :: x in a[1..] <==> x in a && x != a[0]
  {
    DistinctCons(a[0], a[1..]);
    assert a == [a[0]] + a[1..];
  }

  lemma SameMembersSameSize(a: seq<int>, b: seq<int>)
    requires Distinct(a) && Distinct(b) && forall id :: id in a <==> id in b
    ensures |a| == |b|
  {
    DistinctSize(a);
    DistinctSize(b);
    assert ToSet(a) == ToSet(b);
  }

  lemma {:induction false} SameMembersSamePositions(db: Db, a: seq<int>, b: seq<int>)
    requires Distinct(a) && Distinct(b) && forall id :: id in a <==> id in b
    ensures multiset(PositionsAt(db, a)) == multiset(PositionsAt(db, b))
    decreases |a|
  {
    SameMembersSameSize(a, b);
    if a != [] {
      TailMembers(a);
      var j :| 0 <= j < |b| && b[j] == a[0];
      CutOne(b, j);
      PositionsHead(db, a);
      PositionsWithout(db, b, j);
      SameMembersSamePositions(db, a[1..], b[..j] + b[j + 1..]);
    }
  }

  lemma CutOne(b: seq<int>, j: nat)
    requires Distinct(b) && j < |b|
    ensures var b' := b[..j] + b[j + 1..]; Distinct(b') && forall x :: x in b' <==> x in b && x != b[j]
  {
    var b' := b[..j] + b[j + 1..];
    forall x
      ensures x in b' <==> x in b && x != b[j]
    {
      if x in b && x != b[j] {
        var i :| 0 <= i < |b| && b[i] == x;
        assert b'[if i < j then i else i - 1] == x;
      }
      if x in b' {
        var i :| 0 <= i < |b'| && b'[i] == x;
        assert b[if i < j then i else i + 1] == x;
      }
    }
  }

  /** Listed by position, the rows of a numbered form stand at 1, 2, 3 and so on. */
  lemma ListingIsNumbered(db: Db, form: int, ids: seq<int>, rows: seq<Stored>)
    requires NumberedBy(db, form, ids) && Lists(rows, db, form) && ByPosition(rows)
    ensures |rows| == |ids| && forall i | 0 <= i < |rows| :: rows[i].position == i + 1
  {
    forall id
      ensures id in ids <==> id in Ids(rows)
    {
      if id in Ids(rows) {
        var k :| 0 <= k < |rows| && Ids(rows)[k] == id;
        assert rows[k] in rows;
      }
    }
    SameMembersSamePositions(db, ids, Ids(rows));
    var p := PositionsAt(db, Ids(rows));
    forall i | 0 <= i < |rows|
      ensures p[i] == rows[i].position
    {
      assert rows[i] in rows;
    }
    assert multiset(p) == multiset(OneTo(|ids|));
    assert |p| == |multiset(p)| == |ids|;
    SortedIsUnique(OneTo(|ids|), p, Self);
  }

  /** The editor's items for the listed rows; the option lists come from another table. */
  function DraftOf(rows: seq<Stored>, contents: seq<Content>): (d: Draft)
    requires |contents| == |rows|
    ensures |d.items| == |rows|
  {
    Draft(seq(|rows|, i requires 0 <= i < |rows| => Item(Some(rows[i].id), rows[i].position, contents[i])), [])
  }

  lemma {:induction false} KeepsAll(rows: seq<Stored>, contents: seq<Content>, id: int)
    requires |contents| == |rows|
    ensures Keeps(DraftOf(rows, contents).items, id) == Occurs(Ids(rows), id)
  {
    if rows != [] {
      KeepsAll(rows[1..], contents[1..], id);
      assert DraftOf(rows, contents).items[1..] == DraftOf(rows[1..], contents[1..]).items;
      assert Ids(rows)[1..] == Ids(rows[1..]);
    }
  }

  /** What the editor loads from a ready table is a loaded draft, whatever the contents. */
  lemma LoadsReady(db: Db, form: int, rows: seq<Stored>, contents: seq<Content>)
    requires Ready(db, form) && Lists(rows, db, form) && ByPosition(rows) && |contents| == |rows|
    ensures Loaded(DraftOf(rows, contents), rows)
  {
    var ids :| NumberedBy(db, form, ids);
    ListingIsNumbered(db, form, ids, rows);
    forall id
      ensures Keeps(DraftOf(rows, contents).items, id) + Occurs([], id) == Occurs(Ids(rows), id)
    {
      KeepsAll(rows, contents, id);
    }
  }

  // ----- one save -----

  datatype Reload = Reload(rows: seq<Stored>, contents: seq<Content>)

  /**
   Edit and save. `listed` is what the server reads for its checks, `customIds` are drawn for the created inputs;
   after an accepted save the form is loaded again, or that fails.
   */
  datatype Round = Round(edits: seq<Edit>, listed: seq<Stored>, customIds: seq<string>, reload: Option<Reload>)

  /** The table, and what the editor holds. */
  datatype World = World(db: Db, draft: Draft)

  /** The user leaves at least one input, and option lists the server takes. */
  ghost predicate CanSave(w: World, form: int, r: Round) {
    && AllInRange(w.draft, r.edits) && Lists(r.listed, w.db, form)
    && (r.reload.Some? ==> |r.reload.value.contents| == |r.reload.value.rows|)
    && var d := ApplyAll(w.draft, r.edits);
    d.items != [] && AllOptionsOk(Payload(d)) && |r.customIds| == |Payload(d).create|
  }

  function Edited(w: World, r: Round): Draft
    requires AllInRange(w.draft, r.edits)
  {
    ApplyAll(w.draft, r.edits)
  }

  ghost predicate IsAccepted(w: World, r: Round)
    requires AllInRange(w.draft, r.edits)
  {
    FirstFailure(Payload(Edited(w, r)), r.listed).None?
  }

  /** A refused save changes nothing; an accepted one clears the deletions even when the reload fails. */
  ghost function After(w: World, form: int, r: Round): World
    requires CanSave(w, form, r)
  {
    var d := Edited(w, r);
    if !IsAccepted(w, r) then World(w.db, d)
    else
      World(Saved(w.db, form, Payload(d), r.listed, r.customIds),
            if r.reload.Some? then DraftOf(r.reload.value.rows, r.reload.value.contents) else Draft(d.items, []))
  }

  ghost predicate IsRound(w: World, form: int, r: Round) {
    && CanSave(w, form, r)
    && (r.reload.Some? ==>
          Lists(r.reload.value.rows, After(w, form, r).db, form) && ByPosition(r.reload.value.rows))
  }

  /** The form is numbered, and the draft accounts for its rows. */
  ghost predicate InStep(w: World, form: int) {
    Ready(w.db, form) && exists rows :: Lists(rows, w.db, form) && Consistent(w.draft, rows)
  }

  lemma ListingsAgree(db: Db, form: int, a: seq<Stored>, b: seq<Stored>, d: Draft)
    requires Lists(a, db, form) && Lists(b, db, form) && Consistent(d, a)
    ensures Consistent(d, b)
  {
    forall id
      ensures Occurs(Ids(a), id) == Occurs(Ids(b), id)
    {
      ListedIds(db, form, a, id);
      ListedIds(db, form, b, id);
    }
  }

  lemma ListedIds(db: Db, form: int, rows: seq<Stored>, id: int)
    requires Lists(rows, db, form)
    ensures Occurs(Ids(rows), id) == if id in db.inputs && db.inputs[id].form == form then 1 else 0
  {
    OccursTells(Ids(rows));
    OccursAtMostOnce(Ids(rows), id);
    if id in Ids(rows) {
      var k :| 0 <= k < |Ids(rows)| && Ids(rows)[k] == id;
      assert rows[k] in rows;
    }
  }

  /** The save of a draft in step is accepted and leaves the form numbered. */
  lemma RoundIsAccepted(w: World, form: int, r: Round)
    requires InStep(w, form) && IsRound(w, form, r)
    ensures IsAccepted(w, r) && Ready(After(w, form, r).db, form)
    ensures Consistent(Edited(w, r), r.listed) && AcceptedSave(w.db, form, Payload(Edited(w, r)), r.listed)
  {
    var rows :| Lists(rows, w.db, form) && Consistent(w.draft, rows);
    ListingsAgree(w.db, form, rows, r.listed, w.draft);
    EditsKeepConsistent(w.draft, r.edits, r.listed);
    DraftIsAcceptedSave(Edited(w, r), w.db, form, r.listed);
    var req := Payload(Edited(w, r));
    SavedRows(w.db, form, req, r.listed, r.customIds);
    SavedFormIsNumbered(w.db, form, req, r.listed, r.customIds);
    assert NumberedBy(After(w, form, r).db, form, SavedIds(w.db, req));
  }

  // ----- the draft after a failed reload -----

  /** The rows of the kept inputs. */
  function RowsOf(s: Db, ids: seq<int>): (rows: seq<Stored>)
    requires forall k | 0 <= k < |ids| :: ids[k] in s.inputs
    ensures |rows| == |ids| && forall k | 0 <= k < |ids| :: rows[k] == s.inputs[ids[k]]
  {
    seq(|ids|, k requires 0 <= k < |ids| => s.inputs[ids[k]])
  }

  /** A draft whose deletions are cleared accounts for the rows of its kept inputs. */
  lemma KeptIsConsistent(d: Draft, s: Db)
    requires |d.items| <= MAX_INPUTS && Numbered(d.items)
    requires var kept := UpdateIds(Updates(d.items));
             Distinct(kept) && forall k | 0 <= k < |kept| :: kept[k] in s.inputs && s.inputs[kept[k]].id == kept[k]
    ensures var kept := UpdateIds(Updates(d.items));
            Ids(RowsOf(s, kept)) == kept && Consistent(Draft(d.items, []), RowsOf(s, kept))
  {
    var kept := UpdateIds(Updates(d.items));
    assert Ids(RowsOf(s, kept)) == kept;
    forall id
      ensures Keeps(d.items, id) + Occurs([], id) == Occurs(kept, id)
    {
      UpdatesKeep(d.items, id);
    }
  }

  /** After an accepted save the form has the rows of the kept inputs and those of the created ones. */
  lemma KeptAndCreated(w: World, form: int, r: Round)
    requires InStep(w, form) && IsRound(w, form, r)
    ensures var s, kept := After(w, form, r).db, UpdateIds(Updates(Edited(w, r).items));
            && WellFormed(s) && Distinct(kept)
            && (forall k | 0 <= k < |kept| :: kept[k] in s.inputs && s.inputs[kept[k]].id == kept[k] < w.db.nextId)
            && (forall id :: id in s.inputs && s.inputs[id].form == form <==>
                  id in kept || w.db.nextId <= id < w.db.nextId + |Creates(Edited(w, r).items)|)
  {
    RoundIsAccepted(w, form, r);
    var req := Payload(Edited(w, r));
    SavedRows(w.db, form, req, r.listed, r.customIds);
    var kept := UpdateIds(req.update);
    forall k | 0 <= k < |kept|
      ensures kept[k] in w.db.inputs
    {
      assert req.update[k].id == kept[k];
    }
  }

  /** So the editor still accounts for the kept inputs, but for none of those just created. */
  lemma KeptDraftIsConsistent(w: World, form: int, r: Round)
    requires InStep(w, form) && IsRound(w, form, r) && r.reload.None?
    ensures var a, kept := After(w, form, r), UpdateIds(Updates(Edited(w, r).items));
            && (forall k | 0 <= k < |kept| :: kept[k] in a.db.inputs)
            && Ids(RowsOf(a.db, kept)) == kept && Consistent(a.draft, RowsOf(a.db, kept))
  {
    RoundIsAccepted(w, form, r);
    KeptAndCreated(w, form, r);
    KeptIsConsistent(Edited(w, r), After(w, form, r).db);
  }

  /** Without created inputs those are all the rows, so the draft is in step. */
  lemma InStepAfterFailedReload(w: World, form: int, r: Round)
    requires InStep(w, form) && IsRound(w, form, r) && r.reload.None? && Creates(Edited(w, r).items) == []
    ensures InStep(After(w, form, r), form)
  {
    RoundIsAccepted(w, form, r);
    KeptAndCreated(w, form, r);
    KeptDraftIsConsistent(w, form, r);
    var a, kept := After(w, form, r), UpdateIds(Updates(Edited(w, r).items));
    var rows := RowsOf(a.db, kept);
    forall e | e in rows
      ensures e.id in a.db.inputs && a.db.inputs[e.id] == e && e.form == form
    {
      var k :| 0 <= k < |rows| && rows[k] == e;
      assert kept[k] in kept;
    }
    assert Lists(rows, a.db, form);
  }

  /** Otherwise the next save is refused, whatever is edited in between. */
  lemma RefusedAfterFailedReload(w: World, form: int, r: Round, next: Round)
    requires InStep(w, form) && IsRound(w, form, r) && r.reload.None? && Creates(Edited(w, r).items) != []
    requires CanSave(After(w, form, r), form, next)
    ensures FirstFailure(Payload(Edited(After(w, form, r), next)), next.listed) == Some(WrongSize)
  {
    KeptAndCreated(w, form, r);
    KeptDraftIsConsistent(w, form, r);
    var a, kept := After(w, form, r), UpdateIds(Updates(Edited(w, r).items));
    var rows, d := RowsOf(a.db, kept), Edited(a, next);
    EditsKeepConsistent(a.draft, next.edits, rows);
    assert w.db.nextId !in kept;
    assert w.db.nextId in Ids(next.listed);
    forall id | id in kept
      ensures id in Ids(next.listed)
    {
      assert id in a.db.inputs && a.db.inputs[id].form == form;
    }
    UnknownRowIsWrongSize(d, rows, next.listed, w.db.nextId);
  }

  /** A draft consistent with some of the listed rows only has too few updates. */
  lemma UnknownRowIsWrongSize(d: Draft, rows: seq<Stored>, listed: seq<Stored>, unknown: int)
    requires Consistent(d, rows) && d.items != [] && Distinct(Ids(listed))
    requires (forall id | id in Ids(rows) :: id in Ids(listed)) && unknown in Ids(listed) && unknown !in Ids(rows)
    ensures FirstFailure(Payload(d), listed) == Some(WrongSize)
  {
    KeptPlusDeleted(d, rows);
    KeptFillRemaining(d, rows);
    PayloadSize(d.items);
    var a, b := Remaining(rows, d.toDelete), Remaining(listed, d.toDelete);
    RemainingIs(rows, d.toDelete);
    RemainingIs(listed, d.toDelete);
    DistinctSize(a);
    DistinctSize(b);
    assert ToSet(a) <= ToSet(b) && unknown in ToSet(b) && unknown !in ToSet(a);
    if |ToSet(a)| == |ToSet(b)| {
      SubsetOfSameSize(ToSet(a), ToSet(b));
    }
  }

  // ----- any number of saves -----

  ghost predicate IsSession(w: World, form: int, rounds: seq<Round>)
    decreases |rounds|
  {
    rounds == [] || (IsRound(w, form, rounds[0]) && IsSession(After(w, form, rounds[0]), form, rounds[1..]))
  }

  ghost predicate AllAccepted(w: World, form: int, rounds: seq<Round>)
    requires IsSession(w, form, rounds)
    decreases |rounds|
  {
    rounds == [] || (IsAccepted(w, rounds[0]) && AllAccepted(After(w, form, rounds[0]), form, rounds[1..]))
  }

  /** Every save but the last that created an input was followed by a reload. */
  ghost predicate ReloadsAfterCreating(w: World, form: int, rounds: seq<Round>)
    requires IsSession(w, form, rounds)
    decreases |rounds|
  {
    |rounds| < 2
    || ((rounds[0].reload.Some? || Creates(Edited(w, rounds[0]).items) == [])
        && ReloadsAfterCreating(After(w, form, rounds[0]), form, rounds[1..]))
  }

  /**
   From a draft in step: every save of any number is accepted if and only if no reload fails after one that created.
   */
  lemma {:induction false} SessionIsAcceptedIff(w: World, form: int, rounds: seq<Round>)
    requires InStep(w, form) && IsSession(w, form, rounds)
    ensures AllAccepted(w, form, rounds) <==> ReloadsAfterCreating(w, form, rounds)
    decreases |rounds|
  {
    if rounds != [] {
      var r, rest := rounds[0], rounds[1..];
      RoundIsAccepted(w, form, r);
      if r.reload.Some? || Creates(Edited(w, r).items) == [] {
        StaysInStep(w, form, r);
        SessionIsAcceptedIff(After(w, form, r), form, rest);
      } else if rest != [] {
        RefusedAfterFailedReload(w, form, r, rest[0]);
      }
    }
  }

  lemma StaysInStep(w: World, form: int, r: Round)
    requires InStep(w, form) && IsRound(w, form, r) && (r.reload.Some? || Creates(Edited(w, r).items) == [])
    ensures InStep(After(w, form, r), form)
  {
    RoundIsAccepted(w, form, r);
    if r.reload.Some? {
      LoadedIsInStep(After(w, form, r).db, form, r.reload.value.rows, r.reload.value.contents);
    } else {
      InStepAfterFailedReload(w, form, r);
    }
  }

  /** The editor starts in step: it loads the rows of a numbered form. */
  lemma LoadedIsInStep(db: Db, form: int, rows: seq<Stored>, contents: seq<Content>)
    requires Ready(db, form) && Lists(rows, db, form) && ByPosition(rows) && |contents| == |rows|
    ensures InStep(World(db, DraftOf(rows, contents)), form)
  {
    LoadsReady(db, form, rows, contents);
  }

  lemma EmptyFormIsReady(db: Db, form: int)
    requires WellFormed(db) && forall id | id in db.inputs :: db.inputs[id].form != form
    ensures Ready(db, form)
  {
    assert PositionsAt(db, []) == [] == OneTo(0);
    assert NumberedBy(db, form, []);
  }

  const BLANK := World(Db(map[], 0), Draft([], []))
  const ADD_ONE := Round([Add], [], ["c"], None)
  const ADDED_ROW := Stored(0, 1, 1, "c", 4, "", Some((0, 255)))

  lemma BlankIsInStep()
    ensures InStep(BLANK, 1)
  {
    EmptyFormIsReady(BLANK.db, 1);
    LoadedIsInStep(BLANK.db, 1, [], []);
    assert DraftOf([], []) == BLANK.draft;
  }

  lemma OneIsAdded()
    ensures CanSave(BLANK, 1, ADD_ONE) && Edited(BLANK, ADD_ONE) == Draft([Item(None, 1, NEW_CONTENT)], [])
    ensures Payload(Edited(BLANK, ADD_ONE)) == Request([ToBody(Item(None, 1, NEW_CONTENT))], [], [])
  {
    var d := BLANK.draft;
    assert ApplyAll(d, [Add]) == ApplyAll(Apply(d, Add), []) == Apply(d, Add) by {
      assert [Add][0] == Add && [Add][1..] == [];
    }
  }

  lemma OneIsSaved()
    ensures Saved(BLANK.db, 1, Request([ToBody(Item(None, 1, NEW_CONTENT))], [], []), [], ["c"])
         == Db(map[0 := ADDED_ROW], 1)
  {
    var create, n := [ToBody(Item(None, 1, NEW_CONTENT))], 0;
    assert create[..n] == [] && ["c"][..n] == [];
    assert AfterCreates(BLANK.db, create[..n], ["c"][..n], 1) == BLANK.db;
    var s := AfterCreates(BLANK.db, create, ["c"], 1);
    assert n == |create| - 1 && s.inputs == map[0 := ToRow(0, 1, ["c"][n], create[n])];
    assert Saved(BLANK.db, 1, Request(create, [], []), [], ["c"]) == s;
  }

  lemma TheRowIsListed()
    ensures Lists([ADDED_ROW], Db(map[0 := ADDED_ROW], 1), 1)
  {
    assert Ids([ADDED_ROW])[0] == 0;
  }

  /** It happens: an input is added to an empty form and saved, the reload fails, and the user saves again. */
  lemma SavedAgainIsRefused()
    ensures InStep(BLANK, 1) && IsRound(BLANK, 1, ADD_ONE) && IsAccepted(BLANK, ADD_ONE)
    ensures var a := After(BLANK, 1, ADD_ONE);
            && a.db == Db(map[0 := ADDED_ROW], 1)
            && FirstFailure(Payload(a.draft), [ADDED_ROW]) == Some(WrongSize)
  {
    BlankIsInStep();
    OneIsAdded();
    RoundIsAccepted(BLANK, 1, ADD_ONE);
    OneIsSaved();
    TheRowIsListed();
    var a, again := After(BLANK, 1, ADD_ONE), Round([], [ADDED_ROW], ["d"], None);
    assert Edited(a, again) == a.draft == Edited(BLANK, ADD_ONE);
    RefusedAfterFailedReload(BLANK, 1, ADD_ONE, again);
  }
}
