/** The update of a form's inputs on the server: the checks, and the transaction that saves them. */
module FormInputs {
  import opened Wrappers
  import opened Sequences
  import opened Sorting

  const MAX_UINT16 := 65536
  const STRING_SELECT := 3
  const RADIO_GROUP := 21
  const CHECKBOX_GROUP := 22

  datatype InputBody = InputBody(
    kind: int, position: int, title: string, minLength: int, maxLength: int, options: seq<string>)

  datatype Update = Update(id: int, body: InputBody)

  datatype Request = Request(create: seq<InputBody>, update: seq<Update>, delete: seq<int>)

  /** A row of the form-input table; radio groups store no lengths. */
  datatype Stored = Stored(
    id: int, form: int, position: int, customId: string, kind: int, title: string, lengths: Option<(int, int)>)

  datatype Rejection =
    | BadCount | UnknownUpdate | UnknownDelete | Overlap | WrongSize | NotIncluded | BadPositions | BadOptions

  function Ids(rows: seq<Stored>): (ids: seq<int>)
    ensures |ids| == |rows| && forall i | 0 <= i < |ids| :: ids[i] == rows[i].id
  {
    seq(|rows|, i requires 0 <= i < |rows| => rows[i].id)
  }

  function UpdateIds(updates: seq<Update>): (ids: seq<int>)
    ensures |ids| == |updates| && forall i | 0 <= i < |ids| :: ids[i] == updates[i].id
  {
    seq(|updates|, i requires 0 <= i < |updates| => updates[i].id)
  }

  /** The existing ids that are not deleted, in table order. */
  function Remaining(existing: seq<Stored>, delete: seq<int>): seq<int> {
    if existing == [] then []
    else (if existing[0].id in delete then [] else [existing[0].id]) + Remaining(existing[1..], delete)
  }

  function CreatePositions(create: seq<InputBody>): (s: seq<int>)
    ensures |s| == |create|
  {
    seq(|create|, i requires 0 <= i < |create| => create[i].position)
  }

  function UpdatePositions(updates: seq<Update>): (s: seq<int>)
    ensures |s| == |updates|
  {
    seq(|updates|, i requires 0 <= i < |updates| => updates[i].body.position)
  }

  /** Positions of the created inputs, then of the updated ones. */
  function Positions(req: Request): (s: seq<int>)
    ensures |s| == |req.create| + |req.update|
  {
    CreatePositions(req.create) + UpdatePositions(req.update)
  }

  function OneTo(n: nat): (s: seq<int>)
    ensures |s| == n && forall i | 0 <= i < n :: s[i] == i + 1
  {
    seq(n, i => i + 1)
  }

  predicate Includes(ids: seq<int>, wanted: seq<int>) {
    forall id | id in wanted :: id in ids
  }

  predicate CountOk(req: Request) {
    0 < |req.create| + |req.update| <= 5
  }

  predicate NoOverlap(req: Request) {
    forall id | id in req.delete :: id !in UpdateIds(req.update)
  }

  ghost predicate PositionsOk(req: Request) {
    multiset(Positions(req)) == multiset(OneTo(|Positions(req)|))
  }

  predicate NeedsOptions(kind: int) {
    kind == STRING_SELECT || kind == RADIO_GROUP || kind == CHECKBOX_GROUP
  }

  /** Option counts by type, and no value used twice; empty values are not compared. */
  ghost predicate OptionsOk(b: InputBody) {
    NeedsOptions(b.kind) ==>
      && (if b.kind == RADIO_GROUP then 2 else 1) <= |b.options|
      && (b.kind != STRING_SELECT ==> |b.options| <= 10)
      && forall i, j | 0 <= i < j < |b.options| && b.options[i] != "" :: b.options[i] != b.options[j]
  }

  ghost predicate AllOptionsOk(req: Request) {
    && (forall b | b in req.create :: OptionsOk(b))
    && (forall u | u in req.update :: OptionsOk(u.body))
  }

  /** The first check a request fails, in the order they are made. */
  ghost function FirstFailure(req: Request, existing: seq<Stored>): Option<Rejection> {
    var remaining := Remaining(existing, req.delete);
    if !CountOk(req) then Some(BadCount)
    else if !Includes(Ids(existing), UpdateIds(req.update)) then Some(UnknownUpdate)
    else if !Includes(Ids(existing), req.delete) then Some(UnknownDelete)
    else if !NoOverlap(req) then Some(Overlap)
    else if |remaining| != |req.update| then Some(WrongSize)
    else if !Includes(remaining, UpdateIds(req.update)) then Some(NotIncluded)
    else if !PositionsOk(req) then Some(BadPositions)
    else if !AllOptionsOk(req) then Some(BadOptions)
    else None
  }

  // ----- the checks as they run -----

  /** utils.Exists for every wanted id. */
  method FindAll(ids: seq<int>, wanted: seq<int>) returns (ok: bool)
    ensures ok == Includes(ids, wanted)
  {
    for i := 0 to |wanted|
      invariant forall k | 0 <= k < i :: wanted[k] in ids
    {
      var id := wanted[i];
      if id !in ids {
        assert id in wanted;
        return false;
      }
    }
    return true;
  }

  method RemainingIds(existing: seq<Stored>, delete: seq<int>) returns (r: seq<int>)
    ensures r == Remaining(existing, delete)
  {
    r := [];
    for i := 0 to |existing|
      invariant r + Remaining(existing[i..], delete) == Remaining(existing, delete)
    {
      assert existing[i..][1..] == existing[i + 1..];
      if existing[i].id !in delete {
        r := r + [existing[i].id];
      }
    }
  }

  function Self(x: int): int {
    x
  }

  /** Sorted, the positions read 1, 2, 3 and so on exactly when they are these numbers in some order. */
  lemma SortedPositions(s: seq<int>)
    ensures |Sort(s, Self)| == |s|
    ensures Sort(s, Self) == OneTo(|s|) <==> multiset(s) == multiset(OneTo(|s|))
  {
    var r := Sort(s, Self);
    assert |r| == |multiset(r)| == |s|;
    if multiset(s) == multiset(OneTo(|s|)) {
      SortSorts(s, Self);
      SortedIsUnique(OneTo(|s|), r, Self);
    }
  }

  method CollectPositions(req: Request) returns (positions: seq<int>)
    ensures positions == Positions(req)
  {
    positions := [];
    for i := 0 to |req.create|
      invariant |positions| == i && forall k | 0 <= k < i :: positions[k] == req.create[k].position
    {
      positions := positions + [req.create[i].position];
    }
    for i := 0 to |req.update|
      invariant |positions| == |req.create| + i
      invariant forall k | 0 <= k < |positions| :: positions[k] == Positions(req)[k]
    {
      positions := positions + [req.update[i].body.position];
    }
  }

  method CountsUp(positions: seq<int>) returns (ok: bool)
    ensures ok <==> positions == OneTo(|positions|)
  {
    for i := 0 to |positions|
      invariant forall k | 0 <= k < i :: positions[k] == k + 1
    {
      if i + 1 != positions[i] {
        assert positions[i] != OneTo(|positions|)[i];
        return false;
      }
    }
    return true;
  }

  method ArePositionsCorrect(req: Request) returns (ok: bool)
    ensures ok <==> PositionsOk(req)
  {
    var positions := CollectPositions(req);
    SortedPositions(positions);
    ok := CountsUp(Sort(positions, Self));
  }

  /** The values that occur more than once among the non-empty ones; none when the values are unique. */
  method DuplicateValues(options: seq<string>) returns (duplicates: set<string>)
    ensures forall v :: v in duplicates <==>
            v != "" && exists i, j | 0 <= i < j < |options| :: options[i] == v && options[j] == v
  {
    var valueSet: set<string> := {};
    duplicates := {};
    for k := 0 to |options|
      invariant forall v :: v in valueSet <==> v != "" && v in options[..k]
      invariant forall v :: v in duplicates <==>
                  v != "" && exists i, j | 0 <= i < j < k :: options[i] == v && options[j] == v
    {
      var value := options[k];
      assert options[..k + 1] == options[..k] + [value];
      if value == "" {
        continue;
      }
      if value in valueSet {
        var i :| 0 <= i < k && options[..k][i] == value;
        assert options[i] == value && options[k] == value;
        duplicates := duplicates + {value};
      } else {
        assert forall i | 0 <= i < k :: options[i] != value by {
          assert forall i | 0 <= i < k :: options[i] == options[..k][i];
        }
        valueSet := valueSet + {value};
      }
    }
  }

  method ValidateOptions(b: InputBody) returns (ok: bool)
    ensures ok <==> OptionsOk(b)
  {
    if !NeedsOptions(b.kind) {
      return true;
    }
    if b.kind == RADIO_GROUP {
      if |b.options| < 2 || |b.options| > 10 {
        return false;
      }
    } else if b.kind == CHECKBOX_GROUP {
      if |b.options| == 0 || |b.options| > 10 {
        return false;
      }
    } else if |b.options| == 0 {
      return false;
    }
    var duplicates := DuplicateValues(b.options);
    if i, j :| 0 <= i < j < |b.options| && b.options[i] != "" && b.options[i] == b.options[j] {
      assert b.options[i] in duplicates;
    }
    ok := duplicates == {};
    if !ok {
      var v :| v in duplicates;
    }
  }

  method NothingOverlaps(req: Request) returns (ok: bool)
    ensures ok <==> NoOverlap(req)
  {
    for i := 0 to |req.delete|
      invariant forall k | 0 <= k < i :: req.delete[k] !in UpdateIds(req.update)
    {
      var id := req.delete[i];
      if id in UpdateIds(req.update) {
        assert id in req.delete;
        return false;
      }
    }
    return true;
  }

  method ValidateAllOptions(req: Request) returns (ok: bool)
    ensures ok <==> AllOptionsOk(req)
  {
    for i := 0 to |req.create|
      invariant forall k | 0 <= k < i :: OptionsOk(req.create[k])
    {
      ok := ValidateOptions(req.create[i]);
      if !ok {
        assert req.create[i] in req.create;
        return;
      }
    }
    for i := 0 to |req.update|
      invariant forall k | 0 <= k < i :: OptionsOk(req.update[k].body)
    {
      ok := ValidateOptions(req.update[i].body);
      if !ok {
        assert req.update[i] in req.update;
        return;
      }
    }
    return true;
  }

  /** UpdateInputs up to the save: the first failing check decides the answer. */
  method ValidateInputs(req: Request, existing: seq<Stored>) returns (r: Option<Rejection>)
    ensures r == FirstFailure(req, existing)
  {
    var fieldCount := |req.create| + |req.update|;
    if fieldCount <= 0 || fieldCount > 5 {
      return Some(BadCount);
    }
    var ok := FindAll(Ids(existing), UpdateIds(req.update));
    if !ok {
      return Some(UnknownUpdate);
    }
    ok := FindAll(Ids(existing), req.delete);
    if !ok {
      return Some(UnknownDelete);
    }
    ok := NothingOverlaps(req);
    if !ok {
      return Some(Overlap);
    }
    var remainingExisting := RemainingIds(existing, req.delete);
    if |remainingExisting| != |req.update| {
      return Some(WrongSize);
    }
    ok := FindAll(remainingExisting, UpdateIds(req.update));
    if !ok {
      return Some(NotIncluded);
    }
    ok := ArePositionsCorrect(req);
    if !ok {
      return Some(BadPositions);
    }
    ok := ValidateAllOptions(req);
    return if ok then None else Some(BadOptions);
  }

  // ----- what acceptance means -----

  lemma {:induction false} RemainingIs(existing: seq<Stored>, delete: seq<int>)
    ensures forall id :: id in Remaining(existing, delete) <==> id in Ids(existing) && id !in delete
    ensures Distinct(Ids(existing)) ==> Distinct(Remaining(existing, delete))
  {
    if existing != [] {
      RemainingIs(existing[1..], delete);
      assert Ids(existing) == [existing[0].id] + Ids(existing[1..]);
      assert Distinct(Ids(existing)) ==> Distinct(Ids(existing[1..])) && existing[0].id !in Ids(existing[1..]) by {
        assert forall k | 0 <= k < |Ids(existing[1..])| :: Ids(existing[1..])[k] == Ids(existing)[k + 1];
      }
    }
  }

  /** The update ids are the existing ids minus the deleted ones. */
  ghost predicate CoversRemaining(req: Request, existing: seq<Stored>) {
    forall id :: id in UpdateIds(req.update) <==> id in Ids(existing) && id !in req.delete
  }

  /** An accepted request updates every remaining input if and only if its update ids are distinct. */
  lemma AcceptedCoversIffDistinct(req: Request, existing: seq<Stored>)
    requires Distinct(Ids(existing)) && FirstFailure(req, existing).None?
    ensures CoversRemaining(req, existing) <==> Distinct(UpdateIds(req.update))
  {
    var remaining, updated := Remaining(existing, req.delete), UpdateIds(req.update);
    RemainingIs(existing, req.delete);
    DistinctSize(remaining);
    DistinctSize(updated);
    assert ToSet(updated) <= ToSet(remaining);
    if Distinct(updated) {
      SubsetOfSameSize(ToSet(updated), ToSet(remaining));
      forall id
        ensures id in updated <==> id in Ids(existing) && id !in req.delete
      {
        assert id in updated <==> id in ToSet(updated);
        assert id in remaining <==> id in ToSet(remaining);
      }
    }
    if CoversRemaining(req, existing) {
      assert ToSet(updated) == ToSet(remaining);
    }
  }

  /** Repeating one update id passes every check and leaves an input out. */
  lemma RepeatedUpdateIsAccepted(one: Stored, two: Stored, body: InputBody)
    requires one.id == 1 && two.id == 2 && !NeedsOptions(body.kind)
    ensures var first, second := body.(position := 1), body.(position := 2);
            var req := Request([], [Update(1, first), Update(1, second)], []);
            && FirstFailure(req, [one, two]).None?
            && 2 in Ids([one, two]) && 2 !in UpdateIds(req.update)
  {
    var req := Request([], [Update(1, body.(position := 1)), Update(1, body.(position := 2))], []);
    assert Positions(req) == OneTo(2);
    assert [one, two][1..] == [two] && [two][1..] == [];
    assert Remaining([two], []) == [2];
    assert Remaining([one, two], []) == [1, 2];
    assert 1 in [1, 2] by { assert [1, 2][0] == 1; }
    assert Ids([one, two]) == [1, 2] && UpdateIds(req.update) == [1, 1];
    assert forall b | b in req.create :: OptionsOk(b);
    assert forall u | u in req.update :: u.body.kind == body.kind;
    assert 2 in [1, 2] by { assert [1, 2][1] == 2; }
  }

  /** Each check on its own. */
  ghost predicate Fails(req: Request, existing: seq<Stored>, r: Rejection) {
    match r
    case BadCount => !CountOk(req)
    case UnknownUpdate => !Includes(Ids(existing), UpdateIds(req.update))
    case UnknownDelete => !Includes(Ids(existing), req.delete)
    case Overlap => !NoOverlap(req)
    case WrongSize => |Remaining(existing, req.delete)| != |req.update|
    case NotIncluded => !Includes(Remaining(existing, req.delete), UpdateIds(req.update))
    case BadPositions => !PositionsOk(req)
    case BadOptions => !AllOptionsOk(req)
  }

  /** The checks in the order they are made. */
  function Order(r: Rejection): nat {
    match r
    case BadCount => 0
    case UnknownUpdate => 1
    case UnknownDelete => 2
    case Overlap => 3
    case WrongSize => 4
    case NotIncluded => 5
    case BadPositions => 6
    case BadOptions => 7
  }

  /** The answer names the first check that fails; there is none exactly when no check fails. */
  lemma FirstFailureIsFirst(req: Request, existing: seq<Stored>, r: Rejection)
    ensures FirstFailure(req, existing) == Some(r) <==>
            Fails(req, existing, r) && forall q | Order(q) < Order(r) :: !Fails(req, existing, q)
  {
    if FirstFailure(req, existing) == Some(r) {
      forall q | Order(q) < Order(r)
        ensures !Fails(req, existing, q)
      {
      }
    }
    if Fails(req, existing, r) && forall q | Order(q) < Order(r) :: !Fails(req, existing, q) {
      assert Order(BadCount) < Order(r) ==> !Fails(req, existing, BadCount);
      assert Order(UnknownUpdate) < Order(r) ==> !Fails(req, existing, UnknownUpdate);
      assert Order(UnknownDelete) < Order(r) ==> !Fails(req, existing, UnknownDelete);
      assert Order(Overlap) < Order(r) ==> !Fails(req, existing, Overlap);
      assert Order(WrongSize) < Order(r) ==> !Fails(req, existing, WrongSize);
      assert Order(NotIncluded) < Order(r) ==> !Fails(req, existing, NotIncluded);
      assert Order(BadPositions) < Order(r) ==> !Fails(req, existing, BadPositions);
    }
  }

  // ----- the same, without the order and the helpers of the checks -----

  /** The positions are 1 to n in some order: they differ, and each is one of these. */
  ghost predicate NumberedOnce(req: Request) {
    Distinct(Positions(req)) && forall p | p in Positions(req) :: 1 <= p <= |req.create| + |req.update|
  }

  lemma PositionsOkIff(req: Request)
    ensures PositionsOk(req) <==> NumberedOnce(req)
  {
    var s, all := Positions(req), OneTo(|Positions(req)|);
    if PositionsOk(req) {
      SameMembers(s, all);
      DistinctSize(s);
      DistinctSize(all);
      assert ToSet(s) == ToSet(all);
    }
    if Distinct(s) && forall p | p in s :: 1 <= p <= |s| {
      forall p | p in s
        ensures p in all
      {
        assert all[p - 1] == p;
      }
      DistinctSize(s);
      DistinctSize(all);
      SubsetOfSameSize(ToSet(s), ToSet(all));
      SameMultiset(s, all);
    }
  }

  lemma SameMembers(a: seq<int>, b: seq<int>)
    requires multiset(a) == multiset(b)
    ensures forall x :: x in a <==> x in b
  {
    forall x
      ensures x in a <==> x in b
    {
      MemberOfMultiset(a, b, x);
    }
  }

  lemma {:induction false} DistinctCountsOnce(s: seq<int>, x: int)
    requires Distinct(s)
    ensures multiset(s)[x] == if x in s then 1 else 0
  {
    if s != [] {
      DistinctCons(s[0], s[1..]);
      assert s == [s[0]] + s[1..];
      DistinctCountsOnce(s[1..], x);
    }
  }

  lemma SameMultiset(a: seq<int>, b: seq<int>)
    requires Distinct(a) && Distinct(b) && ToSet(a) == ToSet(b)
    ensures multiset(a) == multiset(b)
  {
    forall x
      ensures multiset(a)[x] == multiset(b)[x]
    {
      DistinctCountsOnce(a, x);
      DistinctCountsOnce(b, x);
      assert x in a <==> x in ToSet(a);
      assert x in b <==> x in ToSet(b);
    }
  }

  /** A string select has an option, a radio group 2 to 10, a checkbox group 1 to 10; non-empty values differ. */
  ghost predicate HasItsOptions(b: InputBody) {
    && (b.kind == 3 ==> |b.options| >= 1)
    && (b.kind == 21 ==> 2 <= |b.options| <= 10)
    && (b.kind == 22 ==> 1 <= |b.options| <= 10)
    && (b.kind in {3, 21, 22} ==>
          forall i, j | 0 <= i < j < |b.options| && b.options[i] == b.options[j] :: b.options[i] == "")
  }

  lemma OptionsOkIff(b: InputBody)
    ensures OptionsOk(b) <==> HasItsOptions(b)
  {
  }

  ghost predicate AllHaveOptions(req: Request) {
    && (forall b | b in req.create :: HasItsOptions(b))
    && (forall u | u in req.update :: HasItsOptions(u.body))
  }

  lemma AllOptionsOkIff(req: Request)
    ensures AllOptionsOk(req) <==> AllHaveOptions(req)
  {
    forall b: InputBody
      ensures OptionsOk(b) <==> HasItsOptions(b)
    {
      OptionsOkIff(b);
    }
  }

  /** The stored inputs that the request does not delete. */
  ghost function KeptIds(existing: seq<Stored>, delete: seq<int>): set<int> {
    set e | e in existing && e.id !in delete :: e.id
  }

  lemma RemainingIsKept(existing: seq<Stored>, delete: seq<int>)
    requires Distinct(Ids(existing))
    ensures ToSet(Remaining(existing, delete)) == KeptIds(existing, delete)
    ensures |Remaining(existing, delete)| == |KeptIds(existing, delete)|
  {
    RemainingIs(existing, delete);
    DistinctSize(Remaining(existing, delete));
    forall id
      ensures id in Ids(existing) <==> exists e | e in existing :: e.id == id
    {
      if id in Ids(existing) {
        var k :| 0 <= k < |existing| && Ids(existing)[k] == id;
        assert existing[k] in existing;
      }
      if e :| e in existing && e.id == id {
        var k :| 0 <= k < |existing| && existing[k] == e;
        assert Ids(existing)[k] == id;
      }
    }
  }

  /**
   A request is accepted if and only if: it leaves one to five inputs; it deletes stored inputs only; it has as many
   updates as stored inputs remain, each for one of these; the positions are 1 to n in some order; and every input has
   the options its type asks for.
   */
  lemma AcceptedIff(req: Request, existing: seq<Stored>)
    requires Distinct(Ids(existing))
    ensures FirstFailure(req, existing).None? <==>
            && 1 <= |req.create| + |req.update| <= 5
            && (forall id | id in req.delete :: id in Ids(existing))
            && |req.update| == |KeptIds(existing, req.delete)| && UpdatesKept(req, existing)
            && NumberedOnce(req) && AllHaveOptions(req)
  {
    RemainingIsKept(existing, req.delete);
    PositionsOkIff(req);
    AllOptionsOkIff(req);
    UpdatesIncluded(req, existing);
  }

  ghost predicate UpdatesKept(req: Request, existing: seq<Stored>) {
    forall u | u in req.update :: u.id in KeptIds(existing, req.delete)
  }

  lemma UpdatesIncluded(req: Request, existing: seq<Stored>)
    requires Distinct(Ids(existing))
    ensures UpdatesKept(req, existing) <==>
            && Includes(Ids(existing), UpdateIds(req.update)) && NoOverlap(req)
            && Includes(Remaining(existing, req.delete), UpdateIds(req.update))
  {
    RemainingIs(existing, req.delete);
    RemainingIsKept(existing, req.delete);
    var r := Remaining(existing, req.delete);
    forall u | u in req.update
      ensures u.id in UpdateIds(req.update)
    {
      var k :| 0 <= k < |req.update| && req.update[k] == u;
      assert UpdateIds(req.update)[k] == u.id;
    }
    forall id | id in UpdateIds(req.update)
      ensures exists u | u in req.update :: u.id == id
    {
      var k :| 0 <= k < |req.update| && UpdateIds(req.update)[k] == id;
      assert req.update[k] in req.update;
    }
    assert forall id :: id in r <==> id in KeptIds(existing, req.delete) by {
      assert forall id :: id in r <==> id in ToSet(r);
    }
  }
}
