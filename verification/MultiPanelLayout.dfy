/** The panels of a multi-panel request: resolving them, pairing them with their configurations, and the button rows. */
module MultiPanelLayout {
  import opened Wrappers
  import opened Sequences

  datatype Panel = Panel(id: nat, title: string)

  datatype Config = Config(panelId: nat, customLabel: Option<string>, description: Option<string>)

  /** One entry of the sent message. */
  datatype Entry = Entry(panel: Panel, customLabel: Option<string>, description: Option<string>)

  // ----- validatePanels -----

  function Ids(panels: seq<Panel>): (ids: seq<nat>)
    ensures |ids| == |panels| && forall i | 0 <= i < |ids| :: ids[i] == panels[i].id
  {
    seq(|panels|, i requires 0 <= i < |panels| => panels[i].id)
  }

  /** Every stored panel with the id, in table order. */
  function WithId(existing: seq<Panel>, id: nat): seq<Panel>
    decreases |existing|
  {
    if existing == [] then []
    else
      var n := |existing| - 1;
      WithId(existing[..n], id) + if existing[n].id == id then [existing[n]] else []
  }

  function AllWithIds(existing: seq<Panel>, configs: seq<Config>): seq<Panel>
    decreases |configs|
  {
    if configs == [] then []
    else
      var n := |configs| - 1;
      AllWithIds(existing, configs[..n]) + WithId(existing, configs[n].panelId)
  }

  lemma {:induction false} WithIdFinds(existing: seq<Panel>, id: nat)
    ensures WithId(existing, id) != [] <==> id in Ids(existing)
    decreases |existing|
  {
    if existing != [] {
      var n := |existing| - 1;
      WithIdFinds(existing[..n], id);
      assert Ids(existing) == Ids(existing[..n]) + [existing[n].id];
    }
  }

  /** Appends every stored panel with the id. */
  method AppendWithId(existing: seq<Panel>, id: nat, before: seq<Panel>) returns (valid: bool, found: seq<Panel>)
    ensures found == before + WithId(existing, id) && (valid <==> id in Ids(existing))
  {
    valid, found := false, before;
    for j := 0 to |existing|
      invariant found == before + WithId(existing[..j], id)
      invariant valid <==> WithId(existing[..j], id) != []
    {
      assert existing[..j + 1][..j] == existing[..j];
      if existing[j].id == id {
        valid := true;
        found := found + [existing[j]];
      }
    }
    assert existing[..|existing|] == existing;
    WithIdFinds(existing, id);
  }

  /** `existing`: the guild's panels, None when they cannot be read. */
  method ValidatePanels(configs: seq<Config>, existing: Option<seq<Panel>>) returns (panels: Option<seq<Panel>>)
    ensures panels.Some? <==>
            2 <= |configs| <= 15 && existing.Some? && forall c | c in configs :: c.panelId in Ids(existing.value)
    ensures panels.Some? ==> panels.value == AllWithIds(existing.value, configs)
  {
    if |configs| < 2 || |configs| > 15 || existing.None? {
      return None;
    }
    var found: seq<Panel> := [];
    for i := 0 to |configs|
      invariant found == AllWithIds(existing.value, configs[..i])
      invariant forall k | 0 <= k < i :: configs[k].panelId in Ids(existing.value)
    {
      var valid;
      valid, found := AppendWithId(existing.value, configs[i].panelId, found);
      if !valid {
        assert configs[i] in configs;
        return None;
      }
      assert configs[..i + 1][..i] == configs[..i];
    }
    assert configs[..|configs|] == configs;
    return Some(found);
  }

  lemma {:induction false} WithUniqueId(existing: seq<Panel>, id: nat)
    requires Distinct(Ids(existing)) && id in Ids(existing)
    ensures |WithId(existing, id)| == 1 && WithId(existing, id)[0] in existing && WithId(existing, id)[0].id == id
    decreases |existing|
  {
    var n := |existing| - 1;
    var init := existing[..n];
    assert Ids(existing) == Ids(init) + [existing[n].id];
    DistinctSnoc(Ids(init), existing[n].id);
    WithIdFinds(init, id);
    if existing[n].id != id {
      WithUniqueId(init, id);
    }
  }

  /** Panels and configurations correspond index by index. */
  ghost predicate Correspond(panels: seq<Panel>, configs: seq<Config>, existing: seq<Panel>) {
    |panels| == |configs| && forall i | 0 <= i < |panels| :: panels[i].id == configs[i].panelId && panels[i] in existing
  }

  lemma CorrespondSnoc(panels: seq<Panel>, configs: seq<Config>, existing: seq<Panel>, p: Panel, c: Config)
    requires Correspond(panels, configs, existing) && p.id == c.panelId && p in existing
    ensures Correspond(panels + [p], configs + [c], existing)
  {
  }

  /** When stored ids are unique, each accepted configuration gets its own panel. */
  lemma {:induction false} PanelsMatchConfigs(existing: seq<Panel>, configs: seq<Config>)
    requires Distinct(Ids(existing)) && forall i | 0 <= i < |configs| :: configs[i].panelId in Ids(existing)
    ensures Correspond(AllWithIds(existing, configs), configs, existing)
    decreases |configs|
  {
    if configs != [] {
      var n := |configs| - 1;
      var init, c := configs[..n], configs[n];
      PanelsMatchConfigs(existing, init);
      WithUniqueId(existing, c.panelId);
      var w := WithId(existing, c.panelId);
      CorrespondSnoc(AllWithIds(existing, init), init, existing, w[0], c);
      assert configs == init + [c] && w == [w[0]];
    }
  }

  // ----- pairing -----

  /** The message pairs by position; the configuration list must not be shorter. */
  method Pair(panels: seq<Panel>, configs: seq<Config>) returns (entries: seq<Entry>)
    requires |panels| <= |configs|
    ensures |entries| == |panels|
    ensures forall i | 0 <= i < |panels| ::
              entries[i] == Entry(panels[i], configs[i].customLabel, configs[i].description)
  {
    entries := [];
    for i := 0 to |panels|
      invariant |entries| == i
      invariant forall k | 0 <= k < i :: entries[k] == Entry(panels[k], configs[k].customLabel, configs[k].description)
    {
      entries := entries + [Entry(panels[i], configs[i].customLabel, configs[i].description)];
    }
  }

  /**
   The accepted request: entry i shows the stored panel that configuration i names, with that configuration's texts.
   */
  method Resolve(configs: seq<Config>, existing: Option<seq<Panel>>) returns (entries: Option<seq<Entry>>)
    requires existing.Some? ==> Distinct(Ids(existing.value))
    ensures entries.Some? <==>
            2 <= |configs| <= 15 && existing.Some? && forall c | c in configs :: c.panelId in Ids(existing.value)
    ensures entries.Some? ==>
              && |entries.value| == |configs|
              && forall i | 0 <= i < |configs| ::
                   && entries.value[i] == Entry(entries.value[i].panel, configs[i].customLabel, configs[i].description)
                   && entries.value[i].panel.id == configs[i].panelId && entries.value[i].panel in existing.value
  {
    var panels := ValidatePanels(configs, existing);
    if panels.None? {
      return None;
    }
    PanelsMatchConfigs(existing.value, configs);
    var paired := Pair(panels.value, configs);
    return Some(paired);
  }

  /** The stored target rows look the configuration up by panel id instead: the first one counts. */
  function ConfigFor(configs: seq<Config>, id: nat): Option<Config> {
    if configs == [] then None
    else if configs[0].panelId == id then Some(configs[0])
    else ConfigFor(configs[1..], id)
  }

  lemma {:induction false} ConfigForIsFirst(configs: seq<Config>, i: nat)
    requires i < |configs|
    ensures exists j ::
              && 0 <= j <= i && configs[j].panelId == configs[i].panelId
              && ConfigFor(configs, configs[i].panelId) == Some(configs[j])
  {
    if configs[0].panelId == configs[i].panelId {
    } else {
      ConfigForIsFirst(configs[1..], i - 1);
      var j :| 0 <= j <= i - 1 && configs[1..][j].panelId == configs[1..][i - 1].panelId
               && ConfigFor(configs[1..], configs[1..][i - 1].panelId) == Some(configs[1..][j]);
      assert configs[j + 1] == configs[1..][j];
    }
  }

  /** Message and target rows agree if and only if configurations of one panel are equal. */
  lemma RowsAgreeWithMessageIff(configs: seq<Config>)
    ensures (forall i | 0 <= i < |configs| :: ConfigFor(configs, configs[i].panelId) == Some(configs[i])) <==>
            (forall i, j | 0 <= i < |configs| && 0 <= j < |configs| && configs[i].panelId == configs[j].panelId ::
               configs[i] == configs[j])
  {
  }

  /** It happens: one panel configured twice with different labels; its second row stores the first label. */
  lemma RowsDisagree()
    ensures var a, b := Config(1, Some("a"), None), Config(1, Some("b"), None);
            ConfigFor([a, b], [a, b][1].panelId) == Some(a) && a != b
  {
    assert "a"[0] != "b"[0];
  }

  // ----- button rows -----

  function Concat<T>(rows: seq<seq<T>>): seq<T>
    decreases |rows|
  {
    if rows == [] then [] else Concat(rows[..|rows| - 1]) + rows[|rows| - 1]
  }

  /** The rows hold every button once, in order; all are full but the last, which is not empty. */
  method ButtonRows<T>(buttons: seq<T>) returns (rows: seq<seq<T>>)
    ensures Concat(rows) == buttons
    ensures |rows| == (|buttons| + 4) / 5
    ensures forall r | r in rows :: 1 <= |r| <= 5
    ensures forall i | 0 <= i < |rows| - 1 :: |rows[i]| == 5
    ensures |buttons| <= 15 ==> |rows| <= 3
  {
    rows := [];
    var i := 0;
    while i <= |buttons| / 5
      invariant |rows| == i && 5 * i <= |buttons| + 5
      invariant Concat(rows) == buttons[..if 5 * i < |buttons| then 5 * i else |buttons|]
      invariant forall r | r in rows :: 1 <= |r| <= 5
      invariant forall k | 0 <= k < |rows| && 5 * (k + 1) <= |buttons| :: |rows[k]| == 5
      invariant i > 0 ==> 5 * (i - 1) < |buttons|
    {
      var lb := i * 5;
      var ub := lb + 5;
      if ub >= |buttons| {
        ub := |buttons|;
      }
      if lb >= ub {
        break;
      }
      var row := buttons[lb..ub];
      assert (rows + [row])[..i] == rows;
      assert buttons[..lb] + row == buttons[..ub];
      rows := rows + [row];
      i := i + 1;
    }
    assert buttons[..|buttons|] == buttons;
  }
}
