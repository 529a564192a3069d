/** What any number of committed choices leaves: entitlements whose link an SKU switch dropped stay, and count. */
module ActiveGuildsHistory {
  import opened ActiveGuilds
  import opened ActiveGuildsTheorems

  ghost predicate IsLinked(db: Db, id: nat) {
    exists l | l in db.links :: l.entitlement == id
  }

  /** A live entitlement of the user that no link names any more. */
  ghost predicate IsLoose(db: Db, user: nat, id: nat) {
    id in db.entitlements && db.entitlements[id].user == user && !IsLinked(db, id)
  }

  ghost function LooseGuilds(db: Db, user: nat): set<nat> {
    set id | id in db.entitlements && IsLoose(db, user, id) :: db.entitlements[id].guild
  }

  /** No guild has two live entitlements of the user, linked or not. */
  ghost predicate OnePerGuild(db: Db, user: nat) {
    forall i, j | i in db.entitlements && j in db.entitlements
      && db.entitlements[i].user == db.entitlements[j].user == user
      && db.entitlements[i].guild == db.entitlements[j].guild :: i == j
  }

  function SwitchedGuilds(db: Db, existing: seq<Link>, selected: seq<nat>, sku: int): set<nat> {
    set l | l in existing && Switches(l, db, selected, sku) :: l.guild
  }

  // ----- one run -----

  lemma OldStaysLoose(db: Db, existing: seq<Link>, selected: seq<nat>, user: nat, sku: int,
                      added: seq<nat>, sw: seq<Link>, r: Db, id: nat)
    requires Live(db) && ListsFor(existing, db, user) && (forall l | l in sw :: l in existing)
    requires Settled(db, Stale(existing, selected), added, sw, user, sku, r) && id < db.nextId
    ensures IsLoose(r, user, id) <==> IsLoose(db, user, id)
  {
    forall l | l in existing
      ensures l in db.links && l.user == user
    {
    }
    if IsLoose(db, user, id) {
      assert id !in Ids(Stale(existing, selected)) && id !in IdsIn(sw);
      forall l | l in r.links
        ensures l.entitlement != id
      {
        assert l in db.links ==> l.entitlement != id;
      }
    }
    forall l | l in db.links && l.entitlement == id && l.user == user && id in r.entitlements
      ensures l in r.links
    {
      assert id !in Ids(Stale(existing, selected)) && id !in IdsIn(sw);
      assert l in existing && l !in Stale(existing, selected) && l !in sw;
    }
  }

  lemma NewIsLooseIff(db: Db, existing: seq<Link>, selected: seq<nat>, user: nat, sku: int,
                      added: seq<nat>, sw: seq<Link>, r: Db, id: nat)
    requires Live(db) && Settled(db, Stale(existing, selected), added, sw, user, sku, r) && db.nextId <= id < r.nextId
    ensures IsLoose(r, user, id) <==> db.nextId + |added| <= id
    ensures r.entitlements[id].user == user
    ensures r.entitlements[id].guild ==
            if id < db.nextId + |added| then added[id - db.nextId] else sw[id - db.nextId - |added|].guild
  {
    var k := id - db.nextId;
    if k < |added| {
      var l := Link(user, added[k], id);
      assert IsNewLink(l, db.nextId, added, user) && l in r.links && l.entitlement == id;
      assert r.entitlements[db.nextId + k].user == user;
    } else {
      var n := k - |added|;
      assert r.entitlements[db.nextId + |added| + n].guild == sw[n].guild;
      forall l | l in r.links
        ensures l.entitlement != id
      {
        assert IsNewLink(l, db.nextId, added, user) || l in db.links;
      }
    }
  }

  /** A guild has a loose entitlement after a run if and only if it had one before or the run switched its SKU. */
  lemma LooseAfterRun(db: Db, existing: seq<Link>, selected: seq<nat>, user: nat, sku: int)
    requires Live(db) && ListsFor(existing, db, user)
    ensures LooseGuilds(Reconciled(db, existing, selected, user, sku), user)
         == LooseGuilds(db, user) + SwitchedGuilds(db, existing, selected, sku)
  {
    ReconciledSettles(db, existing, selected, user, sku);
    ToSwitchAre(db, existing, selected, user, sku);
    var r := Reconciled(db, existing, selected, user, sku);
    var added, sw := ToAdd(existing, selected), ToSwitch(db, existing, selected, user, sku);
    forall g
      ensures g in LooseGuilds(r, user) <==>
              g in LooseGuilds(db, user) || g in SwitchedGuilds(db, existing, selected, sku)
    {
      LooseGuildIff(db, existing, selected, user, sku, added, sw, r, g);
    }
  }

  lemma LooseGuildIff(db: Db, existing: seq<Link>, selected: seq<nat>, user: nat, sku: int,
                      added: seq<nat>, sw: seq<Link>, r: Db, g: nat)
    requires Live(db) && ListsFor(existing, db, user)
    requires forall l :: l in sw <==> l in existing && Switches(l, db, selected, sku)
    requires Settled(db, Stale(existing, selected), added, sw, user, sku, r)
    ensures g in LooseGuilds(r, user) <==>
            g in LooseGuilds(db, user) || g in SwitchedGuilds(db, existing, selected, sku)
  {
    if g in LooseGuilds(r, user) {
      var id :| id in r.entitlements && IsLoose(r, user, id) && r.entitlements[id].guild == g;
      if id < db.nextId {
        OldStaysLoose(db, existing, selected, user, sku, added, sw, r, id);
        assert db.entitlements[id].guild == g;
      } else {
        NewIsLooseIff(db, existing, selected, user, sku, added, sw, r, id);
        assert sw[id - db.nextId - |added|] in sw;
      }
    }
    if g in LooseGuilds(db, user) {
      var id :| id in db.entitlements && IsLoose(db, user, id) && db.entitlements[id].guild == g;
      OldStaysLoose(db, existing, selected, user, sku, added, sw, r, id);
      assert r.entitlements[id].guild == g;
    }
    if g in SwitchedGuilds(db, existing, selected, sku) {
      var l :| l in existing && Switches(l, db, selected, sku) && l.guild == g;
      var k :| 0 <= k < |sw| && sw[k] == l;
      NewIsLooseIff(db, existing, selected, user, sku, added, sw, r, db.nextId + |added| + k);
    }
  }

  /** The user's entitlements after a run are the tracked ones and the loose ones of before. */
  lemma TrackedOrLoose(db: Db, existing: seq<Link>, selected: seq<nat>, user: nat, sku: int, id: nat)
    requires Live(db) && ListsFor(existing, db, user)
    ensures var r := Reconciled(db, existing, selected, user, sku);
            id in r.entitlements && r.entitlements[id].user == user <==>
              Tracked(db, user, r, id) || IsLoose(db, user, id)
    ensures var r := Reconciled(db, existing, selected, user, sku);
            IsLoose(db, user, id) ==>
              id in r.entitlements && r.entitlements[id] == db.entitlements[id] && !Tracked(db, user, r, id)
  {
    ReconciledSettles(db, existing, selected, user, sku);
    ToSwitchAre(db, existing, selected, user, sku);
    var r := Reconciled(db, existing, selected, user, sku);
    var added, sw := ToAdd(existing, selected), ToSwitch(db, existing, selected, user, sku);
    if id < db.nextId {
      OldStaysLoose(db, existing, selected, user, sku, added, sw, r, id);
    } else if id < r.nextId {
      NewIsLooseIff(db, existing, selected, user, sku, added, sw, r, id);
    }
  }

  lemma OnePerGuildIsLinkedOnce(db: Db, existing: seq<Link>, selected: seq<nat>, user: nat)
    requires Live(db) && ListsFor(existing, db, user) && OnePerGuild(db, user)
    ensures LinkedOnce(existing, selected)
  {
    forall l, m | l in existing && m in existing && l.guild == m.guild && l.guild in selected
      ensures l == m
    {
      assert l in db.links && m in db.links;
      assert l.entitlement == m.entitlement;
    }
  }

  /**
   A run keeps at most one live entitlement per guild if and only if it selects no guild without a link twice, and no
   guild that has a loose entitlement.
   */
  lemma OnePerGuildAfterRunIff(db: Db, existing: seq<Link>, selected: seq<nat>, user: nat, sku: int)
    requires Live(db) && ListsFor(existing, db, user) && OnePerGuild(db, user)
    ensures OnePerGuild(Reconciled(db, existing, selected, user, sku), user) <==>
            NewOnce(selected, GuildsOf(existing)) && forall g | g in selected :: g !in LooseGuilds(db, user)
  {
    var r := Reconciled(db, existing, selected, user, sku);
    forall id
      ensures id in r.entitlements && r.entitlements[id].user == user <==>
              Tracked(db, user, r, id) || IsLoose(db, user, id)
      ensures IsLoose(db, user, id) ==>
                id in r.entitlements && r.entitlements[id] == db.entitlements[id] && !Tracked(db, user, r, id)
    {
      TrackedOrLoose(db, existing, selected, user, sku, id);
    }
    OnePerGuildIsLinkedOnce(db, existing, selected, user);
    OnePerGuildIff(db, existing, selected, user, sku);
    TrackedMatchSelection(db, existing, selected, user, sku);
    if g :| g in selected && g in LooseGuilds(db, user) {
      var i :| i in db.entitlements && IsLoose(db, user, i) && db.entitlements[i].guild == g;
      var j :| Tracked(db, user, r, j) && r.entitlements[j].guild == g;
      assert r.entitlements[i].guild == r.entitlements[j].guild && i != j;
    }
  }

  // ----- many runs -----

  datatype Choice = Choice(selected: seq<nat>, sku: int, existing: seq<Link>)

  /** A committed run, on what the database lists for the user. */
  ghost predicate Leads(db: Db, c: Choice, user: nat, r: Db) {
    ListsFor(c.existing, db, user) && r == Reconciled(db, c.existing, c.selected, user, c.sku)
  }

  ghost predicate IsHistory(dbs: seq<Db>, choices: seq<Choice>, user: nat) {
    |dbs| == |choices| + 1 && forall k | 0 <= k < |choices| :: Leads(dbs[k], choices[k], user, dbs[k + 1])
  }

  /** The guilds that had a loose entitlement at the start, or whose SKU one of the first n runs switched. */
  ghost function LooseBefore(dbs: seq<Db>, choices: seq<Choice>, user: nat, n: nat): set<nat>
    requires n <= |choices| < |dbs|
  {
    if n == 0 then LooseGuilds(dbs[0], user)
    else
      var c := choices[n - 1];
      LooseBefore(dbs, choices, user, n - 1) + SwitchedGuilds(dbs[n - 1], c.existing, c.selected, c.sku)
  }

  /** Run k selects no unlinked guild twice, and none that was loose at the start or that an earlier run switched. */
  ghost predicate IsCareful(dbs: seq<Db>, choices: seq<Choice>, user: nat, k: nat)
    requires k < |choices| < |dbs|
  {
    && NewOnce(choices[k].selected, GuildsOf(choices[k].existing))
    && forall g | g in choices[k].selected :: g !in LooseBefore(dbs, choices, user, k)
  }

  /** Whatever is selected, links stay live, and the loose guilds are those of the start and the switched ones. */
  lemma {:induction false} LooseThroughout(dbs: seq<Db>, choices: seq<Choice>, user: nat, n: nat)
    requires IsHistory(dbs, choices, user) && Live(dbs[0]) && n <= |choices|
    ensures Live(dbs[n]) && LooseGuilds(dbs[n], user) == LooseBefore(dbs, choices, user, n)
  {
    if n > 0 {
      LooseThroughout(dbs, choices, user, n - 1);
      var c := choices[n - 1];
      assert Leads(dbs[n - 1], c, user, dbs[n - 1 + 1]);
      LooseAfterRun(dbs[n - 1], c.existing, c.selected, user, c.sku);
      LinksAfterRun(dbs[n - 1], c.existing, c.selected, user, c.sku);
    }
  }

  /** At most one live entitlement per guild at the start and after each of the first n runs. */
  ghost predicate AlwaysOnePerGuild(dbs: seq<Db>, user: nat, n: nat)
    requires n < |dbs|
  {
    OnePerGuild(dbs[n], user) && (n > 0 ==> AlwaysOnePerGuild(dbs, user, n - 1))
  }

  ghost predicate AllCareful(dbs: seq<Db>, choices: seq<Choice>, user: nat, n: nat)
    requires n <= |choices| < |dbs|
  {
    n > 0 ==> IsCareful(dbs, choices, user, n - 1) && AllCareful(dbs, choices, user, n - 1)
  }

  /**
   From any database in which the user has at most one live entitlement per guild: this holds throughout if and only
   if every run is careful.
   */
  lemma {:induction false} OnePerGuildThroughoutIff(dbs: seq<Db>, choices: seq<Choice>, user: nat, n: nat)
    requires IsHistory(dbs, choices, user) && Live(dbs[0]) && OnePerGuild(dbs[0], user) && n <= |choices|
    ensures AlwaysOnePerGuild(dbs, user, n) <==> AllCareful(dbs, choices, user, n)
  {
    if n > 0 {
      OnePerGuildThroughoutIff(dbs, choices, user, n - 1);
      LooseThroughout(dbs, choices, user, n - 1);
      var c := choices[n - 1];
      assert Leads(dbs[n - 1], c, user, dbs[n - 1 + 1]);
      if AlwaysOnePerGuild(dbs, user, n - 1) {
        OnePerGuildAfterRunIff(dbs[n - 1], c.existing, c.selected, user, c.sku);
      }
    }
  }
}
