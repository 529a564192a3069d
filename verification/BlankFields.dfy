/** Removing blank values from the JSON tree of an embed before it is sent. */
module BlankFields {
  import opened Wrappers

  /** A container holds its own keys in order; an array also has a length, and may have holes. */
  datatype Json =
    | Null
    | Undefined
    | Text(text: string)
    | Scalar(number: int)
    | Node(length: Option<nat>, fields: seq<Field>)

  datatype Field = Field(key: string, value: Json)

  predicate IsBlank(v: Json) {
    v.Null? || v.Undefined? || v == Text("")
  }

  predicate IsEmpty(v: Json) {
    v.Node? && v.fields == []
  }

  // ----- what the two helpers leave -----

  function Pruned(v: Json): Json
    decreases v
  {
    if v.Node? then v.(fields := PrunedFields(v.fields)) else v
  }

  /** The field with its pruned value, unless that is blank or empty. */
  function Kept(f: Field): seq<Field>
    decreases f
  {
    var v := Pruned(f.value);
    if IsBlank(v) || IsEmpty(v) then [] else [Field(f.key, v)]
  }

  function PrunedFields(fields: seq<Field>): seq<Field>
    decreases fields
  {
    if fields == [] then [] else PrunedFields(fields[..|fields| - 1]) + Kept(fields[|fields| - 1])
  }

  function Nulled(v: Json): Json
    decreases v
  {
    if v == Text("") || v == Text("null") then Null
    else if v.Node? then v.(fields := NulledFields(v.fields))
    else v
  }

  function NulledFields(fields: seq<Field>): seq<Field>
    decreases fields
  {
    if fields == [] then []
    else
      var n := |fields| - 1;
      NulledFields(fields[..n]) + [Field(fields[n].key, Nulled(fields[n].value))]
  }

  // ----- the loops -----

  /** An array of length zero has no keys. */
  ghost predicate WellFormed(fields: seq<Field>)
    decreases fields
  {
    forall i | 0 <= i < |fields| && fields[i].value.Node? ::
      (fields[i].value.length == Some(0) ==> fields[i].value.fields == []) && WellFormed(fields[i].value.fields)
  }

  function WithoutEmpty(fields: seq<Field>): seq<Field>
    decreases |fields|
  {
    if fields == [] then []
    else
      var n := |fields| - 1;
      WithoutEmpty(fields[..n]) + if IsEmpty(fields[n].value) then [] else [fields[n]]
  }

  lemma WithoutEmptySnoc(fields: seq<Field>, f: Field)
    ensures WithoutEmpty(fields + [f]) == WithoutEmpty(fields) + if IsEmpty(f.value) then [] else [f]
  {
  }

  lemma PrunedStep(fields: seq<Field>, i: nat)
    requires i < |fields|
    ensures PrunedFields(fields[..i + 1]) == PrunedFields(fields[..i]) + Kept(fields[i])
    ensures Kept(fields[i]) == [] ==> PrunedFields(fields[..i + 1]) == PrunedFields(fields[..i])
  {
    assert fields[..i + 1][..i] == fields[..i];
    assert PrunedFields(fields[..i]) + [] == PrunedFields(fields[..i]);
  }

  method RemoveBlankEmbedFields(fields: seq<Field>) returns (r: seq<Field>)
    requires WellFormed(fields)
    ensures r == PrunedFields(fields)
    decreases fields
  {
    var first: seq<Field> := [];
    for i := 0 to |fields|
      invariant WithoutEmpty(first) == PrunedFields(fields[..i])
    {
      PrunedStep(fields, i);
      var f := fields[i];
      if f.value.Null? || f.value.Undefined? {
        continue;
      }
      if f.value == Text("") {
        continue;
      }
      var value := f.value;
      if value.Node? {
        var inner := RemoveBlankEmbedFields(value.fields);
        value := value.(fields := inner);
      }
      assert value == Pruned(f.value);
      if value.Node? && value.length == Some(0) {
        assert PrunedFields([]) == [];
        continue;
      }
      WithoutEmptySnoc(first, Field(f.key, value));
      first := first + [Field(f.key, value)];
    }
    assert fields[..|fields|] == fields;
    r := [];
    for i := 0 to |first|
      invariant r == WithoutEmpty(first[..i])
    {
      assert first[..i + 1][..i] == first[..i];
      if first[i].value.Node? && |first[i].value.fields| == 0 {
        continue;
      }
      r := r + [first[i]];
    }
    assert first[..|first|] == first;
  }

  method SetBlankStringsToNull(fields: seq<Field>) returns (r: seq<Field>)
    ensures r == NulledFields(fields)
    decreases fields
  {
    r := [];
    for i := 0 to |fields|
      invariant r == NulledFields(fields[..i])
    {
      assert fields[..i + 1][..i] == fields[..i];
      var value := fields[i].value;
      if value == Text("") || value == Text("null") {
        value := Null;
      } else if value.Node? {
        var inner := SetBlankStringsToNull(value.fields);
        value := value.(fields := inner);
      }
      r := r + [Field(fields[i].key, value)];
    }
    assert fields[..|fields|] == fields;
  }

  // ----- leaves and paths -----

  /** A leaf v stands at the path below these fields. */
  ghost predicate LeafAt(fields: seq<Field>, path: seq<string>, v: Json)
    decreases |path|
  {
    path != [] && exists i | 0 <= i < |fields| :: LeafIn(fields[i], path, v)
  }

  ghost predicate LeafIn(f: Field, path: seq<string>, v: Json)
    requires path != []
    decreases |path|, 0
  {
    f.key == path[0] &&
    if f.value.Node? then LeafAt(f.value.fields, path[1..], v) else |path| == 1 && f.value == v
  }

  lemma LeafSnoc(fields: seq<Field>, f: Field, path: seq<string>, v: Json)
    ensures LeafAt(fields + [f], path, v) <==> LeafAt(fields, path, v) || (path != [] && LeafIn(f, path, v))
  {
    var all := fields + [f];
    if LeafAt(fields, path, v) {
      var i :| 0 <= i < |fields| && LeafIn(fields[i], path, v);
      assert LeafIn(all[i], path, v);
    }
    if path != [] && LeafIn(f, path, v) {
      assert LeafIn(all[|fields|], path, v);
    }
  }

  /** Pruning keeps exactly the leaves that are neither null nor undefined nor the empty text, at their paths. */
  lemma {:induction false} PruningKeepsLeaves(fields: seq<Field>, path: seq<string>, v: Json)
    ensures LeafAt(PrunedFields(fields), path, v) <==>
            LeafAt(fields, path, v) && v != Null && v != Undefined && v != Text("")
    decreases fields
  {
    if fields != [] {
      var n := |fields| - 1;
      var init, f := fields[..n], fields[n];
      PruningKeepsLeaves(init, path, v);
      assert fields == init + [f];
      LeafSnoc(init, f, path, v);
      if path != [] && f.value.Node? {
        PruningKeepsLeaves(f.value.fields, path[1..], v);
      }
      KeptLeaf(f, path, v);
      PrunedStep(fields, n);
      assert fields[..n + 1] == fields;
      if Kept(f) != [] {
        LeafSnoc(PrunedFields(init), Kept(f)[0], path, v);
        assert Kept(f) == [Kept(f)[0]];
      }
    }
  }

  lemma KeptLeaf(f: Field, path: seq<string>, v: Json)
    requires f.value.Node? && path != [] ==>
               (LeafAt(PrunedFields(f.value.fields), path[1..], v) <==>
                  LeafAt(f.value.fields, path[1..], v) && !IsBlank(v))
    ensures path != [] ==>
              ((Kept(f) != [] && LeafIn(Kept(f)[0], path, v)) <==> LeafIn(f, path, v) && !IsBlank(v))
  {
  }

  /** No blank value, and no empty container, at any depth. */
  ghost predicate Clean(fields: seq<Field>)
    decreases fields
  {
    forall i | 0 <= i < |fields| ::
      && fields[i].value != Null && fields[i].value != Undefined && fields[i].value != Text("")
      && (fields[i].value.Node? ==> fields[i].value.fields != [] && Clean(fields[i].value.fields))
  }

  lemma CleanSnoc(fields: seq<Field>, f: Field)
    ensures Clean(fields + [f]) <==>
            Clean(fields) && !IsBlank(f.value) && !IsEmpty(f.value) && (f.value.Node? ==> Clean(f.value.fields))
  {
    var all := fields + [f];
    assert forall i | 0 <= i < |fields| :: all[i] == fields[i];
    assert all[|fields|] == f;
  }

  /** What is left is clean below the root. */
  lemma {:induction false} PrunedIsClean(fields: seq<Field>)
    ensures Clean(PrunedFields(fields))
    decreases fields
  {
    if fields != [] {
      var n := |fields| - 1;
      PrunedIsClean(fields[..n]);
      var f := fields[n];
      if f.value.Node? {
        PrunedIsClean(f.value.fields);
      }
      PrunedStep(fields, n);
      assert fields[..n + 1] == fields;
      if Kept(f) != [] {
        CleanSnoc(PrunedFields(fields[..n]), Kept(f)[0]);
        assert Kept(f) == [Kept(f)[0]];
      }
    }
  }

  lemma {:induction false} CleanIsUnchanged(fields: seq<Field>)
    requires Clean(fields)
    ensures PrunedFields(fields) == fields
    decreases fields
  {
    if fields != [] {
      var n := |fields| - 1;
      var f := fields[n];
      assert fields == fields[..n] + [f];
      CleanSnoc(fields[..n], f);
      CleanIsUnchanged(fields[..n]);
      if f.value.Node? {
        CleanIsUnchanged(f.value.fields);
      }
      assert Pruned(f.value) == f.value && Kept(f) == [f];
    }
  }

  /** A tree is unchanged if and only if it is clean; so a second pass changes nothing. */
  lemma UnchangedIffClean(fields: seq<Field>)
    ensures PrunedFields(fields) == fields <==> Clean(fields)
    ensures PrunedFields(PrunedFields(fields)) == PrunedFields(fields)
  {
    PrunedIsClean(fields);
    CleanIsUnchanged(PrunedFields(fields));
    if Clean(fields) {
      CleanIsUnchanged(fields);
    }
  }

  /** Nulling turns the empty text and the text "null" into null, and keeps every other leaf where it is. */
  lemma {:induction false} NullingKeepsLeaves(fields: seq<Field>, path: seq<string>, v: Json)
    ensures LeafAt(NulledFields(fields), path, v) <==>
            if v == Null then
              LeafAt(fields, path, Null) || LeafAt(fields, path, Text("")) || LeafAt(fields, path, Text("null"))
            else LeafAt(fields, path, v) && v != Text("") && v != Text("null")
    decreases fields
  {
    if fields != [] {
      var n := |fields| - 1;
      var init, f := fields[..n], fields[n];
      NullingKeepsLeaves(init, path, v);
      assert fields == init + [f];
      LeafSnoc(init, f, path, v);
      if path != [] && f.value.Node? {
        NullingKeepsLeaves(f.value.fields, path[1..], v);
      }
      LeafSnoc(init, f, path, Null);
      LeafSnoc(init, f, path, Text(""));
      LeafSnoc(init, f, path, Text("null"));
      LeafSnoc(NulledFields(init), Field(f.key, Nulled(f.value)), path, v);
    }
  }

  /** And keeps the keys in their order. */
  lemma {:induction false} NullingKeepsKeys(fields: seq<Field>)
    ensures |NulledFields(fields)| == |fields|
    ensures forall i | 0 <= i < |fields| :: NulledFields(fields)[i].key == fields[i].key
    decreases |fields|
  {
    if fields != [] {
      NullingKeepsKeys(fields[..|fields| - 1]);
    }
  }

  /** The two helpers one after the other, as the multi-panel pages call them. */
  lemma SubmittedLeaves(fields: seq<Field>, path: seq<string>, v: Json)
    ensures LeafAt(PrunedFields(NulledFields(fields)), path, v) <==>
            LeafAt(fields, path, v) && v != Null && v != Undefined && v != Text("") && v != Text("null")
  {
    PruningKeepsLeaves(NulledFields(fields), path, v);
    NullingKeepsLeaves(fields, path, v);
  }
}
