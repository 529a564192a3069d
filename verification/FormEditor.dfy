/** The form editor of the web client: a list of inputs edited in place, then sent as one request. */
module FormEditor {
  import opened Wrappers
  import opened Sequences
  import opened FormInputs

  /** The fields of an input the user types in. */
  datatype Content = Content(kind: int, title: string, minLength: int, maxLength: int, options: seq<string>)

  /** One input as a value; new inputs have no id yet. */
  datatype Item = Item(id: Option<int>, position: int, content: Content)

  const MAX_INPUTS := 5
  const NEW_CONTENT := Content(4, "", 0, 255, [])

  // ----- the edits on values -----

  function Added(items: seq<Item>): seq<Item> {
    if |items| >= MAX_INPUTS then items else items + [Item(None, |items| + 1, NEW_CONTENT)]
  }

  /** The item is removed and every later one moves up by one. */
  function Removed(items: seq<Item>, i: nat): (r: seq<Item>)
    requires i < |items|
    ensures |r| == |items| - 1
  {
    items[..i] + seq(|items| - i - 1, k requires 0 <= k < |items| - i - 1 =>
                       items[i + 1 + k].(position := items[i + 1 + k].position - 1))
  }

  /** Items i and i + 1 change places and exchange their positions. */
  function Swapped(items: seq<Item>, i: nat): seq<Item>
    requires i + 1 < |items|
  {
    items[i := items[i + 1].(position := items[i].position)][i + 1 := items[i].(position := items[i + 1].position)]
  }

  // ----- the editor as it runs -----

  class Input {
    const id: Option<int>
    var position: int
    var content: Content

    constructor (id: Option<int>, position: int, content: Content)
      ensures this.id == id && this.position == position && this.content == content
    {
      this.id, this.position, this.content := id, position, content;
    }

    function View(): Item
      reads this
    {
      Item(id, position, content)
    }
  }

  class Editor {
    var inputs: seq<Input>
    var toDelete: seq<int>

    function View(): (items: seq<Item>)
      reads this, inputs
      ensures |items| == |inputs|
    {
      seq(|inputs|, i requires 0 <= i < |inputs| reads this, inputs => inputs[i].View())
    }

    constructor (loaded: seq<Input>)
      requires Distinct(loaded)
      ensures inputs == loaded && toDelete == []
    {
      inputs, toDelete := loaded, [];
    }

    method AddInput()
      requires Distinct(inputs)
      modifies this`inputs
      ensures Distinct(inputs) && View() == Added(old(View()))
    {
      if |inputs| >= MAX_INPUTS {
        return;
      }
      var input := new Input(None, |inputs| + 1, NEW_CONTENT);
      inputs := inputs + [input];
    }

    method FindIndex(input: Input) returns (i: nat)
      requires input in inputs
      ensures i < |inputs| && inputs[i] == input
    {
      i := 0;
      assert inputs[..|inputs|] == inputs;
      while inputs[i] != input
        invariant i < |inputs| && input !in inputs[..i]
        decreases |inputs| - i
      {
        assert inputs[..i + 1] == inputs[..i] + [inputs[i]];
        i := i + 1;
      }
    }

    /** Decrements every position from the index on. */
    method Decrement(from: nat)
      requires Distinct(inputs) && from <= |inputs|
      modifies inputs
      ensures forall k | 0 <= k < |inputs| :: inputs[k].content == old(inputs[k].content)
      ensures forall k | 0 <= k < from :: inputs[k].position == old(inputs[k].position)
      ensures forall k | from <= k < |inputs| :: inputs[k].position == old(inputs[k].position) - 1
    {
      for i := from to |inputs|
        invariant forall k | 0 <= k < |inputs| :: inputs[k].content == old(inputs[k].content)
        invariant forall k | 0 <= k < from || i <= k < |inputs| :: inputs[k].position == old(inputs[k].position)
        invariant forall k | from <= k < i :: inputs[k].position == old(inputs[k].position) - 1
      {
        inputs[i].position := inputs[i].position - 1;
      }
    }

    method DeleteInput(input: Input, ghost at: nat)
      requires Distinct(inputs) && at < |inputs| && inputs[at] == input
      modifies this, inputs
      ensures Distinct(inputs) && View() == Removed(old(View()), at)
      ensures toDelete == if input.id.Some? then old(toDelete) + [input.id.value] else old(toDelete)
    {
      var idx := FindIndex(input);
      assert idx == at;
      inputs := inputs[..idx] + inputs[idx + 1..];
      Decrement(idx);
      if input.id.Some? {
        toDelete := toDelete + [input.id.value];
      }
    }

    /** Moves an input one place up or down; the buttons at the ends of the list are out of range. */
    method ChangePosition(input: Input, up: bool, ghost at: nat)
      requires Distinct(inputs) && at < |inputs| && inputs[at] == input
      requires if up then at > 0 else at + 1 < |inputs|
      modifies this`inputs, inputs
      ensures Distinct(inputs) && View() == Swapped(old(View()), if up then at - 1 else at)
    {
      var idx := FindIndex(input);
      assert idx == at;
      var i := if up then idx - 1 else idx;
      var a, b := inputs[i], inputs[i + 1];
      a.position, b.position := b.position, a.position;
      inputs := inputs[i := b][i + 1 := a];
    }
  }

  // ----- edit sequences -----

  datatype Draft = Draft(items: seq<Item>, toDelete: seq<int>)

  datatype Edit = Add | Delete(i: nat) | Up(i: nat) | Down(i: nat) | Retype(i: nat, content: Content)

  predicate InRange(d: Draft, e: Edit) {
    match e
    case Add => true
    case Delete(i) => i < |d.items|
    case Up(i) => 0 < i < |d.items|
    case Down(i) => i + 1 < |d.items|
    case Retype(i, _) => i < |d.items|
  }

  function Apply(d: Draft, e: Edit): Draft
    requires InRange(d, e)
  {
    match e
    case Add => d.(items := Added(d.items))
    case Delete(i) =>
      Draft(Removed(d.items, i), if d.items[i].id.Some? then d.toDelete + [d.items[i].id.value] else d.toDelete)
    case Up(i) => d.(items := Swapped(d.items, i - 1))
    case Down(i) => d.(items := Swapped(d.items, i))
    case Retype(i, content) => d.(items := d.items[i := d.items[i].(content := content)])
  }

  ghost predicate AllInRange(d: Draft, edits: seq<Edit>)
    decreases |edits|
  {
    edits == [] || (InRange(d, edits[0]) && AllInRange(Apply(d, edits[0]), edits[1..]))
  }

  function ApplyAll(d: Draft, edits: seq<Edit>): Draft
    requires AllInRange(d, edits)
    decreases |edits|
  {
    if edits == [] then d else ApplyAll(Apply(d, edits[0]), edits[1..])
  }

  // ----- the save payload -----

  function ToBody(item: Item): InputBody {
    var c := item.content;
    InputBody(c.kind, item.position, c.title, c.minLength,
              if c.kind == STRING_SELECT && c.maxLength == 0 && |c.options| > 0 then |c.options| else c.maxLength,
              c.options)
  }

  function Creates(items: seq<Item>): seq<InputBody> {
    if items == [] then []
    else (if items[0].id.None? then [ToBody(items[0])] else []) + Creates(items[1..])
  }

  function Updates(items: seq<Item>): seq<Update> {
    if items == [] then []
    else (if items[0].id.Some? then [Update(items[0].id.value, ToBody(items[0]))] else []) + Updates(items[1..])
  }

  function Payload(d: Draft): Request {
    Request(Creates(d.items), Updates(d.items), d.toDelete)
  }
}
