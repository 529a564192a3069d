/** What a committed choice of active guilds leaves behind. */
module ActiveGuildsTheorems {
  import opened Wrappers
  import opened Sequences
  import opened ActiveGuilds

  /** The links whose entitlement is recreated under the current SKU. */
  function ToSwitch(db: Db, existing: seq<Link>, selected: seq<nat>, user: nat, sku: int): seq<Link> {
    Switched(existing, BeforeSwitch(db, existing, selected, user, sku), selected, sku)
  }

  function ToAdd(existing: seq<Link>, selected: seq<nat>): seq<nat> {
    NewGuilds(selected, GuildsOf(existing))
  }

  /** The entitlements of r: those of db but the stale and the switched, then the added, then the recreated. */
  ghost predicate SettledEntitlements(db: Db, stale: set<Link>, added: seq<nat>, sw: seq<Link>, user: nat, sku: int,
                                      r: Db) {
    var mid := db.nextId + |added|;
    && r.nextId == mid + |sw|
    && (forall id :: id in r.entitlements <==>
          (id in db.entitlements && id !in Ids(stale) && id !in IdsIn(sw)) || db.nextId <= id < r.nextId)
    && (forall id | id in r.entitlements && id in db.entitlements :: r.entitlements[id] == db.entitlements[id])
    && (forall k | 0 <= k < |added| :: r.entitlements[db.nextId + k] == Entitlement(added[k], user, sku, None))
    && (forall l | l in sw :: l.entitlement in db.entitlements)
    && (forall k | 0 <= k < |sw| :: r.entitlements[mid + k]
          == Entitlement(sw[k].guild, user, sku, db.entitlements[sw[k].entitlement].expiresAt))
  }

  /** r is db without the stale and the switched links and entitlements, with the added and recreated ones. */
  ghost predicate Settled(db: Db, stale: set<Link>, added: seq<nat>, sw: seq<Link>, user: nat, sku: int, r: Db) {
    && SettledEntitlements(db, stale, added, sw, user, sku, r)
    && (forall l :: l in r.links <==>
          (l in db.links && l !in stale && l !in sw) || IsNewLink(l, db.nextId, added, user))
  }

  lemma AddedSurvive(db: Db, stale: set<Link>, added: seq<nat>, sw: seq<Link>, user: nat, sku: int, a: Db, r: Db,
                     k: nat)
    requires Refilled(db, Ids(stale), stale, added, user, sku, a) && SwitchedOff(a, sw, user, sku, r)
    requires forall l | l in sw :: l.entitlement < db.nextId
    requires k < |added|
    ensures r.entitlements[db.nextId + k] == Entitlement(added[k], user, sku, None)
  {
  }

  lemma LinksSettle(db: Db, stale: set<Link>, added: seq<nat>, sw: seq<Link>, user: nat, sku: int, a: Db, r: Db,
                    l: Link)
    requires Refilled(db, Ids(stale), stale, added, user, sku, a) && SwitchedOff(a, sw, user, sku, r)
    requires forall l | l in sw :: l.entitlement < db.nextId
    ensures l in r.links <==> (l in db.links && l !in stale && l !in sw) || IsNewLink(l, db.nextId, added, user)
  {
  }

  lemma EntitlementsSettle(db: Db, stale: set<Link>, added: seq<nat>, sw: seq<Link>, user: nat, sku: int, a: Db, r: Db,
                           id: nat)
    requires Refilled(db, Ids(stale), stale, added, user, sku, a) && SwitchedOff(a, sw, user, sku, r)
    requires forall id | id in db.entitlements :: id < db.nextId
    requires forall l | l in sw :: l.entitlement < db.nextId
    ensures id in r.entitlements <==>
            (id in db.entitlements && id !in Ids(stale) && id !in IdsIn(sw)) || db.nextId <= id < r.nextId
    ensures id in r.entitlements && id in db.entitlements ==> r.entitlements[id] == db.entitlements[id]
  {
  }

  lemma EntitlementsSettleFrom(db: Db, stale: set<Link>, added: seq<nat>, sw: seq<Link>, user: nat, sku: int, a: Db,
                               r: Db)
    requires Refilled(db, Ids(stale), stale, added, user, sku, a) && SwitchedOff(a, sw, user, sku, r)
    requires forall id | id in db.entitlements :: id < db.nextId
    requires forall l | l in sw :: l.entitlement in db.entitlements && l.entitlement < db.nextId
    ensures SettledEntitlements(db, stale, added, sw, user, sku, r)
  {
    forall k | 0 <= k < |added|
      ensures r.entitlements[db.nextId + k] == Entitlement(added[k], user, sku, None)
    {
      AddedSurvive(db, stale, added, sw, user, sku, a, r, k);
    }
    forall id: nat
      ensures id in r.entitlements <==>
              (id in db.entitlements && id !in Ids(stale) && id !in IdsIn(sw)) || db.nextId <= id < r.nextId
      ensures id in r.entitlements && id in db.entitlements ==> r.entitlements[id] == db.entitlements[id]
    {
      EntitlementsSettle(db, stale, added, sw, user, sku, a, r, id);
    }
  }

  lemma SettledFrom(db: Db, stale: set<Link>, added: seq<nat>, sw: seq<Link>, user: nat, sku: int, a: Db, r: Db)
    requires Refilled(db, Ids(stale), stale, added, user, sku, a) && SwitchedOff(a, sw, user, sku, r)
    requires forall id | id in db.entitlements :: id < db.nextId
    requires forall l | l in sw :: l.entitlement in db.entitlements && l.entitlement < db.nextId
    ensures Settled(db, stale, added, sw, user, sku, r)
  {
    EntitlementsSettleFrom(db, stale, added, sw, user, sku, a, r);
    forall l: Link
      ensures l in r.links <==> (l in db.links && l !in stale && l !in sw) || IsNewLink(l, db.nextId, added, user)
    {
      LinksSettle(db, stale, added, sw, user, sku, a, r, l);
    }
  }

  lemma ToSwitchAre(db: Db, existing: seq<Link>, selected: seq<nat>, user: nat, sku: int)
    requires Live(db) && ListsFor(existing, db, user)
    ensures forall l :: l in ToSwitch(db, existing, selected, user, sku) <==>
            l in existing && Switches(l, db, selected, sku)
  {
    var a := BeforeSwitch(db, existing, selected, user, sku);
    SwitchedAre(existing, a, selected, sku);
    forall l | l in existing && l.guild in selected
      ensures Switches(l, a, selected, sku) == Switches(l, db, selected, sku)
    {
      KeptEntitlement(db, existing, selected, user, sku, l);
    }
  }

  lemma ReconciledSettles(db: Db, existing: seq<Link>, selected: seq<nat>, user: nat, sku: int)
    requires Live(db) && ListsFor(existing, db, user)
    ensures Settled(db, Stale(existing, selected), ToAdd(existing, selected),
                    ToSwitch(db, existing, selected, user, sku),
                    user, sku, Reconciled(db, existing, selected, user, sku))
  {
    BeforeSwitchIs(db, existing, selected, user, sku);
    BeforeSwitchOwns(db, existing, selected, user, sku);
    SwitchAllIs(BeforeSwitch(db, existing, selected, user, sku), existing, selected, user, sku);
    ToSwitchAre(db, existing, selected, user, sku);
    SettledFrom(db, Stale(existing, selected), ToAdd(existing, selected), ToSwitch(db, existing, selected, user, sku),
                user, sku, BeforeSwitch(db, existing, selected, user, sku),
                Reconciled(db, existing, selected, user, sku));
  }

  /** No guild without a link is selected twice. */
  ghost predicate NewOnce(selected: seq<nat>, known: set<nat>) {
    forall i, j | 0 <= i < j < |selected| && selected[i] == selected[j] :: selected[i] in known
  }

  lemma {:induction false} NewGuildsAre(selected: seq<nat>, known: set<nat>)
    ensures forall g :: g in NewGuilds(selected, known) <==> g in selected && g !in known
    ensures NewOnce(selected, known) <==> Distinct(NewGuilds(selected, known))
    decreases |selected|
  {
    if selected != [] {
      var init, g := selected[..|selected| - 1], selected[|selected| - 1];
      NewGuildsAre(init, known);
      assert selected == init + [g];
      assert NewGuilds(selected, known) == NewGuilds(init, known) + (if g in known then [] else [g]);
      NewOnceSnoc(init, g, known);
      assert NewOnce(selected, known) <==> NewOnce(init, known) && (g in known || g !in init);
      DistinctSnoc(NewGuilds(init, known), g);
      if g in known {
        assert NewGuilds(selected, known) == NewGuilds(init, known);
      } else {
        assert g in NewGuilds(init, known) <==> g in init;
        assert Distinct(NewGuilds(selected, known)) <==> Distinct(NewGuilds(init, known)) && g !in init;
      }
      assert NewOnce(selected, known) <==> Distinct(NewGuilds(selected, known));
    }
  }

  lemma NewOnceSnoc(s: seq<nat>, g: nat, known: set<nat>)
    ensures NewOnce(s + [g], known) <==> NewOnce(s, known) && (g in known || g !in s)
  {
    var t := s + [g];
    if !NewOnce(s, known) {
      var i, j :| 0 <= i < j < |s| && s[i] == s[j] && s[i] !in known;
      assert t[i] == t[j];
    }
    if g in s {
      var i :| 0 <= i < |s| && s[i] == g;
      assert t[i] == t[|s|];
    }
  }

  lemma {:induction false} SwitchedDistinct(existing: seq<Link>, db: Db, selected: seq<nat>, sku: int)
    requires Distinct(existing)
    ensures Distinct(Switched(existing, db, selected, sku))
    decreases |existing|
  {
    if existing != [] {
      var init, l := existing[..|existing| - 1], existing[|existing| - 1];
      SwitchedDistinct(init, db, selected, sku);
      SwitchedAre(init, db, selected, sku);
      assert l !in init;
    }
  }

  /** A run's situation, and everything known about its outcome r. */
  ghost predicate Outcome(db: Db, existing: seq<Link>, selected: seq<nat>, user: nat, sku: int,
                          added: seq<nat>, sw: seq<Link>, r: Db) {
    && Live(db) && ListsFor(existing, db, user)
    && (forall g :: g in added <==> g in selected && g !in GuildsOf(existing))
    && (forall l :: l in sw <==> l in existing && Switches(l, db, selected, sku))
    && Distinct(sw)
    && Settled(db, Stale(existing, selected), added, sw, user, sku, r)
  }

  lemma RunHasOutcome(db: Db, existing: seq<Link>, selected: seq<nat>, user: nat, sku: int)
    requires Live(db) && ListsFor(existing, db, user)
    ensures Outcome(db, existing, selected, user, sku, ToAdd(existing, selected),
                    ToSwitch(db, existing, selected, user, sku), Reconciled(db, existing, selected, user, sku))
  {
    ReconciledSettles(db, existing, selected, user, sku);
    NewGuildsAre(selected, GuildsOf(existing));
    ToSwitchAre(db, existing, selected, user, sku);
    SwitchedDistinct(existing, BeforeSwitch(db, existing, selected, user, sku), selected, sku);
  }

  // ----- the entitlements that stand for the selection -----

  /** Entitlements that stand for the subscription: linked before the run, or made by it. */
  ghost predicate Tracked(db: Db, user: nat, r: Db, id: nat) {
    id in r.entitlements && (id >= db.nextId || exists l | l in db.links :: l.user == user && l.entitlement == id)
  }

  datatype Origin = FromLink(l: Link) | FromAdd(k: nat) | FromSwitch(k: nat)

  ghost predicate ComesFrom(db: Db, existing: seq<Link>, selected: seq<nat>, added: seq<nat>, sw: seq<Link>,
                            id: nat, o: Origin) {
    match o
    case FromLink(l) => l in existing && l.guild in selected && l !in sw && id == l.entitlement && id < db.nextId
    case FromAdd(k) => k < |added| && id == db.nextId + k
    case FromSwitch(k) => k < |sw| && id == db.nextId + |added| + k
  }

  function GuildOf(added: seq<nat>, sw: seq<Link>, o: Origin): nat
    requires (o.FromAdd? ==> o.k < |added|) && (o.FromSwitch? ==> o.k < |sw|)
  {
    match o
    case FromLink(l) => l.guild
    case FromAdd(k) => added[k]
    case FromSwitch(k) => sw[k].guild
  }

  lemma OriginOf(db: Db, existing: seq<Link>, selected: seq<nat>, user: nat, sku: int,
                 added: seq<nat>, sw: seq<Link>, r: Db, id: nat)
    returns (o: Origin)
    requires Outcome(db, existing, selected, user, sku, added, sw, r) && Tracked(db, user, r, id)
    ensures ComesFrom(db, existing, selected, added, sw, id, o)
    ensures var e := r.entitlements[id];
            e.guild == GuildOf(added, sw, o) && e.guild in selected && e.user == user && e.sku == sku
  {
    if id < db.nextId {
      var l :| l in db.links && l.user == user && l.entitlement == id;
      assert l in existing && id !in Ids(Stale(existing, selected)) && id !in IdsIn(sw);
      o := FromLink(l);
    } else if id < db.nextId + |added| {
      o := FromAdd(id - db.nextId);
      assert added[o.k] in added;
      assert r.entitlements[db.nextId + o.k].guild == added[o.k];
    } else {
      o := FromSwitch(id - db.nextId - |added|);
      assert sw[o.k] in sw;
      assert r.entitlements[db.nextId + |added| + o.k].guild == sw[o.k].guild;
    }
  }

  /** After the run: the link's own entitlement, or the one recreated for it. */
  ghost predicate StandsFor(id: nat, l: Link, from: nat, added: nat, sw: seq<Link>) {
    if l in sw then from + added <= id < from + added + |sw| && sw[id - from - added] == l
    else id == l.entitlement && id < from
  }

  lemma SwitchedIsTracked(db: Db, existing: seq<Link>, selected: seq<nat>, user: nat, sku: int,
                          added: seq<nat>, sw: seq<Link>, r: Db, k: nat)
    requires Outcome(db, existing, selected, user, sku, added, sw, r) && k < |sw|
    ensures var id := db.nextId + |added| + k;
            && Tracked(db, user, r, id) && r.entitlements[id].guild == sw[k].guild
            && StandsFor(id, sw[k], db.nextId, |added|, sw)
  {
    assert r.entitlements[db.nextId + |added| + k].guild == sw[k].guild;
  }

  lemma KeptIsTracked(db: Db, existing: seq<Link>, selected: seq<nat>, user: nat, sku: int,
                      added: seq<nat>, sw: seq<Link>, r: Db, l: Link)
    requires Outcome(db, existing, selected, user, sku, added, sw, r)
    requires l in existing && l.guild in selected && l !in sw
    ensures Tracked(db, user, r, l.entitlement) && r.entitlements[l.entitlement].guild == l.guild
    ensures StandsFor(l.entitlement, l, db.nextId, |added|, sw)
  {
    assert l in db.links;
    forall m | m in existing && m.entitlement == l.entitlement
      ensures m == l
    {
      assert m in db.links;
    }
    assert l.entitlement !in Ids(Stale(existing, selected)) && l.entitlement !in IdsIn(sw);
  }

  lemma DifferentLinks(i: nat, j: nat, l: Link, m: Link, from: nat, added: nat, sw: seq<Link>)
    requires StandsFor(i, l, from, added, sw) && StandsFor(j, m, from, added, sw)
    ensures l != m && l.entitlement != m.entitlement ==> i != j
    ensures l == m && Distinct(sw) ==> i == j
  {
  }

  lemma PlaceOf(sw: seq<Link>, l: Link) returns (k: nat)
    requires l in sw
    ensures k < |sw| && sw[k] == l
  {
    k :| 0 <= k < |sw| && sw[k] == l;
  }

  /** A linked selected guild keeps its entitlement, or has it recreated. */
  lemma LinkedGuildIsTracked(db: Db, existing: seq<Link>, selected: seq<nat>, user: nat, sku: int,
                             added: seq<nat>, sw: seq<Link>, r: Db, l: Link) returns (id: nat)
    requires Outcome(db, existing, selected, user, sku, added, sw, r) && l in existing && l.guild in selected
    ensures Tracked(db, user, r, id) && r.entitlements[id].guild == l.guild && StandsFor(id, l, db.nextId, |added|, sw)
  {
    if l in sw {
      var k := PlaceOf(sw, l);
      id := db.nextId + |added| + k;
      SwitchedIsTracked(db, existing, selected, user, sku, added, sw, r, k);
    } else {
      id := l.entitlement;
      KeptIsTracked(db, existing, selected, user, sku, added, sw, r, l);
    }
  }

  lemma GuildIsTracked(db: Db, existing: seq<Link>, selected: seq<nat>, user: nat, sku: int,
                       added: seq<nat>, sw: seq<Link>, r: Db, g: nat)
    returns (id: nat)
    requires Outcome(db, existing, selected, user, sku, added, sw, r) && g in selected
    ensures Tracked(db, user, r, id) && r.entitlements[id].guild == g
  {
    if g in GuildsOf(existing) {
      var l :| l in existing && l.guild == g;
      id := LinkedGuildIsTracked(db, existing, selected, user, sku, added, sw, r, l);
    } else {
      assert g in added;
      var k :| 0 <= k < |added| && added[k] == g;
      id := db.nextId + k;
      assert r.entitlements[db.nextId + k].guild == g;
    }
  }

  /** Whatever is selected, each selected guild has a tracked entitlement, and each of those is for one, on the SKU. */
  lemma TrackedMatchSelection(db: Db, existing: seq<Link>, selected: seq<nat>, user: nat, sku: int)
    requires Live(db) && ListsFor(existing, db, user)
    ensures var r := Reconciled(db, existing, selected, user, sku);
            && (forall g | g in selected :: exists id :: Tracked(db, user, r, id) && r.entitlements[id].guild == g)
            && (forall id | Tracked(db, user, r, id) ::
                  r.entitlements[id].guild in selected && r.entitlements[id].user == user
                    && r.entitlements[id].sku == sku)
  {
    RunHasOutcome(db, existing, selected, user, sku);
    var r := Reconciled(db, existing, selected, user, sku);
    var added, sw := ToAdd(existing, selected), ToSwitch(db, existing, selected, user, sku);
    forall g | g in selected
      ensures exists id :: Tracked(db, user, r, id) && r.entitlements[id].guild == g
    {
      var id := GuildIsTracked(db, existing, selected, user, sku, added, sw, r, g);
    }
    forall id | Tracked(db, user, r, id)
      ensures r.entitlements[id].guild in selected && r.entitlements[id].user == user && r.entitlements[id].sku == sku
    {
      var o := OriginOf(db, existing, selected, user, sku, added, sw, r, id);
    }
  }

  // ----- one for each guild -----

  /** No selected guild has two of the listed links. */
  ghost predicate LinkedOnce(existing: seq<Link>, selected: seq<nat>) {
    forall l, m | l in existing && m in existing && l.guild == m.guild && l.guild in selected :: l == m
  }

  lemma SoundIsLinkedOnce(db: Db, existing: seq<Link>, selected: seq<nat>, user: nat)
    requires Sound(db) && ListsFor(existing, db, user)
    ensures LinkedOnce(existing, selected)
  {
  }

  /** No two tracked entitlements of the outcome stand for one guild. */
  ghost predicate TrackedOnce(db: Db, user: nat, r: Db) {
    forall i, j | Tracked(db, user, r, i) && Tracked(db, user, r, j)
      && r.entitlements[i].guild == r.entitlements[j].guild :: i == j
  }

  lemma OriginByGuild(db: Db, existing: seq<Link>, selected: seq<nat>, user: nat, sku: int,
                      added: seq<nat>, sw: seq<Link>, r: Db, i: nat, j: nat, o: Origin, p: Origin)
    requires Outcome(db, existing, selected, user, sku, added, sw, r)
    requires Distinct(added) && LinkedOnce(existing, selected)
    requires ComesFrom(db, existing, selected, added, sw, i, o) && ComesFrom(db, existing, selected, added, sw, j, p)
    requires GuildOf(added, sw, o) == GuildOf(added, sw, p)
    ensures i == j
  {
    forall k | 0 <= k < |sw|
      ensures sw[k] in existing && sw[k].guild in selected
    {
      assert sw[k] in sw;
    }
  }

  lemma SelectedOnceIsTrackedOnce(db: Db, existing: seq<Link>, selected: seq<nat>, user: nat, sku: int)
    requires Live(db) && ListsFor(existing, db, user)
    requires NewOnce(selected, GuildsOf(existing)) && LinkedOnce(existing, selected)
    ensures TrackedOnce(db, user, Reconciled(db, existing, selected, user, sku))
  {
    RunHasOutcome(db, existing, selected, user, sku);
    NewGuildsAre(selected, GuildsOf(existing));
    var r := Reconciled(db, existing, selected, user, sku);
    var added, sw := ToAdd(existing, selected), ToSwitch(db, existing, selected, user, sku);
    forall i, j | Tracked(db, user, r, i) && Tracked(db, user, r, j)
      && r.entitlements[i].guild == r.entitlements[j].guild
      ensures i == j
    {
      var o := OriginOf(db, existing, selected, user, sku, added, sw, r, i);
      var p := OriginOf(db, existing, selected, user, sku, added, sw, r, j);
      OriginByGuild(db, existing, selected, user, sku, added, sw, r, i, j, o, p);
    }
  }

  /**
   After a committed run that names no unlinked guild twice, the tracked entitlements are in one-to-one
   correspondence with the selected guilds, and all of them are on the current SKU.
   */
  lemma OneEntitlementPerGuild(db: Db, existing: seq<Link>, selected: seq<nat>, user: nat, sku: int)
    requires Sound(db) && ListsFor(existing, db, user) && NewOnce(selected, GuildsOf(existing))
    ensures var r := Reconciled(db, existing, selected, user, sku);
            && (forall g | g in selected :: exists id :: Tracked(db, user, r, id) && r.entitlements[id].guild == g)
            && (forall id | Tracked(db, user, r, id) ::
                  r.entitlements[id].guild in selected && r.entitlements[id].user == user
                    && r.entitlements[id].sku == sku)
            && TrackedOnce(db, user, r)
  {
    TrackedMatchSelection(db, existing, selected, user, sku);
    SoundIsLinkedOnce(db, existing, selected, user);
    SelectedOnceIsTrackedOnce(db, existing, selected, user, sku);
  }

  lemma SelectedTwiceIsTrackedTwice(db: Db, existing: seq<Link>, selected: seq<nat>, user: nat, sku: int)
    requires Live(db) && ListsFor(existing, db, user) && !NewOnce(selected, GuildsOf(existing))
    ensures !TrackedOnce(db, user, Reconciled(db, existing, selected, user, sku))
  {
    ReconciledSettles(db, existing, selected, user, sku);
    NewGuildsAre(selected, GuildsOf(existing));
    var r, added := Reconciled(db, existing, selected, user, sku), ToAdd(existing, selected);
    var k, n :| 0 <= k < n < |added| && added[k] == added[n];
    assert r.entitlements[db.nextId + k].guild == r.entitlements[db.nextId + n].guild;
    assert Tracked(db, user, r, db.nextId + k) && Tracked(db, user, r, db.nextId + n);
  }

  lemma LinkedTwiceIsTrackedTwice(db: Db, existing: seq<Link>, selected: seq<nat>, user: nat, sku: int)
    requires Live(db) && ListsFor(existing, db, user) && !LinkedOnce(existing, selected)
    ensures !TrackedOnce(db, user, Reconciled(db, existing, selected, user, sku))
  {
    RunHasOutcome(db, existing, selected, user, sku);
    var l, m :| l in existing && m in existing && l.guild == m.guild && l.guild in selected && l != m;
    var i, j := TwoLinksTwoIds(db, existing, selected, user, sku, ToAdd(existing, selected),
                               ToSwitch(db, existing, selected, user, sku),
                               Reconciled(db, existing, selected, user, sku), l, m);
  }

  lemma TwoLinksTwoIds(db: Db, existing: seq<Link>, selected: seq<nat>, user: nat, sku: int,
                       added: seq<nat>, sw: seq<Link>, r: Db, l: Link, m: Link) returns (i: nat, j: nat)
    requires Outcome(db, existing, selected, user, sku, added, sw, r)
    requires l in existing && m in existing && l.guild in selected && m.guild in selected && l != m
    ensures Tracked(db, user, r, i) && r.entitlements[i].guild == l.guild
    ensures Tracked(db, user, r, j) && r.entitlements[j].guild == m.guild
    ensures i != j
  {
    assert l in db.links && m in db.links && l.entitlement != m.entitlement;
    i := LinkedGuildIsTracked(db, existing, selected, user, sku, added, sw, r, l);
    j := LinkedGuildIsTracked(db, existing, selected, user, sku, added, sw, r, m);
    DifferentLinks(i, j, l, m, db.nextId, |added|, sw);
  }

  /**
   Nothing checks that the selected guilds differ: two entitlements stand for one guild after a run if and only if a
   guild that had no link is selected twice, or a selected guild had two links.
   */
  lemma OnePerGuildIff(db: Db, existing: seq<Link>, selected: seq<nat>, user: nat, sku: int)
    requires Live(db) && ListsFor(existing, db, user)
    ensures TrackedOnce(db, user, Reconciled(db, existing, selected, user, sku)) <==>
            NewOnce(selected, GuildsOf(existing)) && LinkedOnce(existing, selected)
  {
    if !NewOnce(selected, GuildsOf(existing)) {
      SelectedTwiceIsTrackedTwice(db, existing, selected, user, sku);
    } else if !LinkedOnce(existing, selected) {
      LinkedTwiceIsTrackedTwice(db, existing, selected, user, sku);
    } else {
      SelectedOnceIsTrackedOnce(db, existing, selected, user, sku);
    }
  }

  /** It happens: guild 1 selected twice with nothing stored leaves two entitlements and two links. */
  lemma SelectedTwice()
    ensures var db := Db(map[], {}, 0);
            var r := Reconciled(db, [], [1, 1], 9, 5);
            && Sound(db) && ListsFor([], db, 9)
            && r.entitlements == map[0 := Entitlement(1, 9, 5, None), 1 := Entitlement(1, 9, 5, None)]
            && r.links == {Link(9, 1, 0), Link(9, 1, 1)}
  {
    var db := Db(map[], {}, 0);
    assert [1, 1][..1] == [1] && [1][..0] == [];
    assert GuildsOf([]) == {};
    assert AddAll(db, [1], {}, 9, 5) == AddOne(db, 1, {}, 9, 5);
  }

  // ----- how many -----

  ghost function TrackedIds(db: Db, user: nat, r: Db): set<nat> {
    set id | id in r.entitlements && Tracked(db, user, r, id)
  }

  ghost function Image(ids: set<nat>, f: map<nat, nat>): set<nat>
    requires ids <= f.Keys
  {
    set i | i in ids :: f[i]
  }

  lemma {:induction false} InjectionKeepsSize(ids: set<nat>, f: map<nat, nat>)
    requires ids <= f.Keys && forall i, j | i in ids && j in ids && f[i] == f[j] :: i == j
    ensures |Image(ids, f)| == |ids|
    decreases |ids|
  {
    if ids == {} {
      assert Image(ids, f) == {};
    } else {
      var i :| i in ids;
      var rest := ids - {i};
      InjectionKeepsSize(rest, f);
      assert Image(ids, f) == Image(rest, f) + {f[i]};
    }
  }

  function Interval(from: nat, n: nat): set<nat> {
    if n == 0 then {} else Interval(from, n - 1) + {from + n - 1}
  }

  lemma {:induction false} IntervalIs(from: nat, n: nat)
    ensures forall i :: i in Interval(from, n) <==> from <= i < from + n
    ensures |Interval(from, n)| == n
  {
    if n > 0 {
      IntervalIs(from, n - 1);
    }
  }

  /** The selected guilds that had a link. */
  function KnownSelected(existing: seq<Link>, selected: seq<nat>): set<nat> {
    set g | g in selected && g in GuildsOf(existing)
  }

  lemma {:induction false} NewAndKnown(existing: seq<Link>, selected: seq<nat>)
    ensures |ToAdd(existing, selected)| + |KnownSelected(existing, selected)| <= |selected|
    decreases |selected|
  {
    if selected == [] {
      assert KnownSelected(existing, selected) == {};
    } else {
      var init, g := selected[..|selected| - 1], selected[|selected| - 1];
      NewAndKnown(existing, init);
      assert selected == init + [g];
      if g in GuildsOf(existing) {
        assert KnownSelected(existing, selected) == KnownSelected(existing, init) + {g};
      } else {
        assert KnownSelected(existing, selected) == KnownSelected(existing, init);
      }
    }
  }

  /** The tracked entitlements but the added ones stand for the selected guilds that had a link, each for another. */
  lemma KnownByGuild(db: Db, existing: seq<Link>, selected: seq<nat>, user: nat, sku: int,
                     added: seq<nat>, sw: seq<Link>, r: Db)
    requires Outcome(db, existing, selected, user, sku, added, sw, r) && LinkedOnce(existing, selected)
    ensures |TrackedIds(db, user, r) - Interval(db.nextId, |added|)| == |KnownSelected(existing, selected)|
  {
    IntervalIs(db.nextId, |added|);
    var ids := TrackedIds(db, user, r) - Interval(db.nextId, |added|);
    var f := map id | id in r.entitlements :: r.entitlements[id].guild;
    forall i, j | i in ids && j in ids && f[i] == f[j]
      ensures i == j
    {
      var o := KnownOrigin(db, existing, selected, user, sku, added, sw, r, i);
      var p := KnownOrigin(db, existing, selected, user, sku, added, sw, r, j);
      DifferentLinks(i, j, o, p, db.nextId, |added|, sw);
    }
    InjectionKeepsSize(ids, f);
    forall g | g in KnownSelected(existing, selected)
      ensures g in Image(ids, f)
    {
      var l :| l in existing && l.guild == g;
      var id := LinkedGuildIsTracked(db, existing, selected, user, sku, added, sw, r, l);
      assert id in ids && f[id] == g;
    }
    forall i | i in ids
      ensures f[i] in KnownSelected(existing, selected)
    {
      var l := KnownOrigin(db, existing, selected, user, sku, added, sw, r, i);
    }
    assert Image(ids, f) == KnownSelected(existing, selected);
  }

  /** Such an entitlement goes back to one of the listed links, and determines it. */
  lemma KnownOrigin(db: Db, existing: seq<Link>, selected: seq<nat>, user: nat, sku: int,
                    added: seq<nat>, sw: seq<Link>, r: Db, id: nat) returns (l: Link)
    requires Outcome(db, existing, selected, user, sku, added, sw, r)
    requires Tracked(db, user, r, id) && id !in Interval(db.nextId, |added|)
    ensures l in existing && l.guild in selected && l.guild == r.entitlements[id].guild
    ensures StandsFor(id, l, db.nextId, |added|, sw)
  {
    IntervalIs(db.nextId, |added|);
    var o := OriginOf(db, existing, selected, user, sku, added, sw, r, id);
    l := if o.FromLink? then o.l else sw[id - db.nextId - |added|];
    assert o.FromSwitch? ==> l in sw;
  }

  lemma NewOnceCounts(existing: seq<Link>, selected: seq<nat>)
    requires NewOnce(selected, GuildsOf(existing))
    ensures |ToAdd(existing, selected)| + |KnownSelected(existing, selected)| == |ToSet(selected)|
  {
    var added := ToAdd(existing, selected);
    NewGuildsAre(selected, GuildsOf(existing));
    DistinctSize(added);
    assert ToSet(selected) == ToSet(added) + KnownSelected(existing, selected);
  }

  lemma TrackedCount(db: Db, existing: seq<Link>, selected: seq<nat>, user: nat, sku: int,
                     added: seq<nat>, sw: seq<Link>, r: Db)
    requires Outcome(db, existing, selected, user, sku, added, sw, r) && LinkedOnce(existing, selected)
    ensures |TrackedIds(db, user, r)| == |added| + |KnownSelected(existing, selected)|
  {
    KnownByGuild(db, existing, selected, user, sku, added, sw, r);
    AddedAreTracked(db, existing, selected, user, sku, added, sw, r);
    IntervalIs(db.nextId, |added|);
    var ids, new_ := TrackedIds(db, user, r), Interval(db.nextId, |added|);
    assert ids == new_ + (ids - new_);
  }

  /**
   The tracked entitlements are one for each place of an unlinked guild in the selection and one for each other
   selected guild: never more than were selected, hence within the permitted number.
   */
  lemma WithinTheLimit(db: Db, existing: seq<Link>, selected: seq<nat>, user: nat, sku: int, limit: nat)
    requires Live(db) && ListsFor(existing, db, user) && LinkedOnce(existing, selected) && |selected| <= limit
    ensures |TrackedIds(db, user, Reconciled(db, existing, selected, user, sku))|
         == |ToAdd(existing, selected)| + |KnownSelected(existing, selected)| <= |selected| <= limit
    ensures NewOnce(selected, GuildsOf(existing)) ==>
              |TrackedIds(db, user, Reconciled(db, existing, selected, user, sku))| == |ToSet(selected)|
  {
    RunHasOutcome(db, existing, selected, user, sku);
    TrackedCount(db, existing, selected, user, sku, ToAdd(existing, selected),
                 ToSwitch(db, existing, selected, user, sku), Reconciled(db, existing, selected, user, sku));
    NewAndKnown(existing, selected);
    if NewOnce(selected, GuildsOf(existing)) {
      NewOnceCounts(existing, selected);
    }
  }

  lemma AddedAreTracked(db: Db, existing: seq<Link>, selected: seq<nat>, user: nat, sku: int,
                        added: seq<nat>, sw: seq<Link>, r: Db)
    requires Outcome(db, existing, selected, user, sku, added, sw, r)
    ensures Interval(db.nextId, |added|) <= TrackedIds(db, user, r)
  {
    IntervalIs(db.nextId, |added|);
  }

  // ----- links -----

  ghost predicate HasLink(db: Db, user: nat, g: nat) {
    exists l | l in db.links :: l.user == user && l.guild == g
  }

  /** The guild had no link, or one whose entitlement stays. */
  ghost predicate WillBeLinked(db: Db, existing: seq<Link>, selected: seq<nat>, sku: int, g: nat) {
    g in GuildsOf(existing) ==> exists l | l in existing :: l.guild == g && !Switches(l, db, selected, sku)
  }

  /**
   No dangling link is left. The user's links are for the selected guilds, but for those all of whose links were
   switched; other users' links stay. There is one link per guild again if and only if no unlinked guild is selected
   twice.
   */
  lemma LinksAfterRun(db: Db, existing: seq<Link>, selected: seq<nat>, user: nat, sku: int)
    requires Live(db) && ListsFor(existing, db, user)
    ensures var r := Reconciled(db, existing, selected, user, sku);
            && Live(r)
            && (forall g :: HasLink(r, user, g) <==> g in selected && WillBeLinked(db, existing, selected, sku, g))
            && (forall l: Link | l.user != user :: l in r.links <==> l in db.links)
    ensures Sound(db) ==>
              (Sound(Reconciled(db, existing, selected, user, sku)) <==> NewOnce(selected, GuildsOf(existing)))
  {
    RunHasOutcome(db, existing, selected, user, sku);
    var r := Reconciled(db, existing, selected, user, sku);
    var added, sw := ToAdd(existing, selected), ToSwitch(db, existing, selected, user, sku);
    LiveAfterRun(db, existing, selected, user, sku, added, sw, r);
    forall g
      ensures HasLink(r, user, g) <==> g in selected && WillBeLinked(db, existing, selected, sku, g)
    {
      LinkedIff(db, existing, selected, user, sku, added, sw, r, g);
    }
    if Sound(db) {
      NewGuildsAre(selected, GuildsOf(existing));
      SoundAfterRunIff(db, existing, selected, user, sku, added, sw, r);
    }
  }

  /** Every link the user has after the run is new, for a guild without a link, or an old one. */
  lemma LinkKind(db: Db, existing: seq<Link>, selected: seq<nat>, user: nat, sku: int,
                 added: seq<nat>, sw: seq<Link>, r: Db, l: Link)
    requires Outcome(db, existing, selected, user, sku, added, sw, r) && l in r.links && l.user == user
    ensures l.guild in selected
    ensures IsNewLink(l, db.nextId, added, user) <==> l.guild !in GuildsOf(existing)
    ensures !IsNewLink(l, db.nextId, added, user) ==> l in existing && l !in sw
  {
  }

  lemma LinkIsLive(db: Db, existing: seq<Link>, selected: seq<nat>, user: nat, sku: int,
                   added: seq<nat>, sw: seq<Link>, r: Db, l: Link)
    requires Outcome(db, existing, selected, user, sku, added, sw, r) && l in r.links
    ensures l.entitlement in r.entitlements
    ensures r.entitlements[l.entitlement].guild == l.guild && r.entitlements[l.entitlement].user == l.user
  {
  }

  lemma LiveAfterRun(db: Db, existing: seq<Link>, selected: seq<nat>, user: nat, sku: int,
                     added: seq<nat>, sw: seq<Link>, r: Db)
    requires Outcome(db, existing, selected, user, sku, added, sw, r)
    ensures Live(r)
  {
    forall l | l in r.links
      ensures l.entitlement in r.entitlements
      ensures r.entitlements[l.entitlement].guild == l.guild && r.entitlements[l.entitlement].user == l.user
    {
      LinkIsLive(db, existing, selected, user, sku, added, sw, r, l);
    }
  }

  lemma SoundAfterRunIff(db: Db, existing: seq<Link>, selected: seq<nat>, user: nat, sku: int,
                         added: seq<nat>, sw: seq<Link>, r: Db)
    requires Outcome(db, existing, selected, user, sku, added, sw, r) && Sound(db) && Live(r)
    ensures Sound(r) <==> Distinct(added)
  {
    if Distinct(added) {
      forall l, m | l in r.links && m in r.links && l.user == m.user && l.guild == m.guild
        ensures l == m
      {
        if l.user == user {
          LinkKind(db, existing, selected, user, sku, added, sw, r, l);
          LinkKind(db, existing, selected, user, sku, added, sw, r, m);
          SameNewLink(db.nextId, added, user, l, m);
        }
      }
    } else {
      var k, n :| 0 <= k < n < |added| && added[k] == added[n];
      var l, m := Link(user, added[k], db.nextId + k), Link(user, added[n], db.nextId + n);
      assert IsNewLink(l, db.nextId, added, user) && IsNewLink(m, db.nextId, added, user);
      assert l in r.links && m in r.links && l != m;
    }
  }

  lemma SameNewLink(from: nat, added: seq<nat>, user: nat, l: Link, m: Link)
    requires Distinct(added) && l.guild == m.guild
    ensures IsNewLink(l, from, added, user) && IsNewLink(m, from, added, user) ==> l == m
  {
  }

  lemma LinkedIff(db: Db, existing: seq<Link>, selected: seq<nat>, user: nat, sku: int,
                  added: seq<nat>, sw: seq<Link>, r: Db, g: nat)
    requires Outcome(db, existing, selected, user, sku, added, sw, r)
    ensures HasLink(r, user, g) <==> g in selected && WillBeLinked(db, existing, selected, sku, g)
  {
    if l :| l in r.links && l.user == user && l.guild == g {
      LinkKind(db, existing, selected, user, sku, added, sw, r, l);
    }
    if g in selected && WillBeLinked(db, existing, selected, sku, g) {
      if g in GuildsOf(existing) {
        var l :| l in existing && l.guild == g && !Switches(l, db, selected, sku);
        assert l in r.links && l.user == user && l.guild == g;
      } else {
        assert g in added;
        var k :| 0 <= k < |added| && added[k] == g;
        var l := Link(user, g, db.nextId + k);
        assert IsNewLink(l, db.nextId, added, user);
        assert l in r.links;
      }
    }
  }

  /** Entitlements of other users are not touched. */
  lemma OthersUntouched(db: Db, existing: seq<Link>, selected: seq<nat>, user: nat, sku: int, id: nat)
    requires Live(db) && ListsFor(existing, db, user) && id in db.entitlements && db.entitlements[id].user != user
    ensures var r := Reconciled(db, existing, selected, user, sku);
            id in r.entitlements && r.entitlements[id] == db.entitlements[id]
  {
    ReconciledSettles(db, existing, selected, user, sku);
    ToSwitchAre(db, existing, selected, user, sku);
    var sw := ToSwitch(db, existing, selected, user, sku);
    assert forall l | l in existing :: l in db.links && l.entitlement != id;
    assert id !in Ids(Stale(existing, selected)) && id !in IdsIn(sw);
  }

  // ----- running again -----

  lemma NothingToDo(db: Db, existing: seq<Link>, selected: seq<nat>, user: nat, sku: int)
    requires Live(db) && ListsFor(existing, db, user)
    requires forall g :: g in GuildsOf(existing) <==> g in selected
    requires forall l | l in existing :: db.entitlements[l.entitlement].sku == sku
    ensures Reconciled(db, existing, selected, user, sku) == db
  {
    RunHasOutcome(db, existing, selected, user, sku);
    var r := Reconciled(db, existing, selected, user, sku);
    var added, sw := ToAdd(existing, selected), ToSwitch(db, existing, selected, user, sku);
    FirstIsMember(added);
    FirstIsMember(sw);
    forall l | l in existing
      ensures l.guild in selected && !Switches(l, db, selected, sku)
    {
      assert l.guild in GuildsOf(existing);
    }
    assert Stale(existing, selected) == {};
    SettledUnchanged(db, user, sku, r);
  }

  lemma SettledUnchanged(db: Db, user: nat, sku: int, r: Db)
    requires Settled(db, {}, [], [], user, sku, r)
    ensures r == db
  {
  }

  lemma LinkedAreListed(db: Db, user: nat, again: seq<Link>, g: nat)
    requires ListsFor(again, db, user)
    ensures g in GuildsOf(again) <==> HasLink(db, user, g)
  {
    if l :| l in again && l.guild == g {
      assert l in db.links;
    }
  }

  /** Running again with the same choice changes nothing if and only if every selected guild was left with a link. */
  lemma IdempotentIff(db: Db, existing: seq<Link>, selected: seq<nat>, user: nat, sku: int, again: seq<Link>)
    requires Live(db) && ListsFor(existing, db, user)
    requires ListsFor(again, Reconciled(db, existing, selected, user, sku), user)
    ensures var r := Reconciled(db, existing, selected, user, sku);
            Reconciled(r, again, selected, user, sku) == r <==>
            forall g | g in selected :: WillBeLinked(db, existing, selected, sku, g)
  {
    var r := Reconciled(db, existing, selected, user, sku);
    LinksAfterRun(db, existing, selected, user, sku);
    forall g
      ensures g in GuildsOf(again) <==> HasLink(r, user, g)
    {
      LinkedAreListed(r, user, again, g);
    }
    if g :| g in selected && !WillBeLinked(db, existing, selected, sku, g) {
      ReconciledSettles(r, again, selected, user, sku);
      NewGuildsAre(selected, GuildsOf(again));
      assert g in ToAdd(again, selected);
      assert Reconciled(r, again, selected, user, sku).nextId > r.nextId;
    } else {
      TrackedMatchSelection(db, existing, selected, user, sku);
      forall l | l in again
        ensures r.entitlements[l.entitlement].sku == sku
      {
        LinkedIsTracked(db, existing, selected, user, sku, l);
      }
      NothingToDo(r, again, selected, user, sku);
    }
  }

  /** With one link per guild before: if and only if the first run switched no SKU. */
  lemma IdempotentIffNoSwitch(db: Db, existing: seq<Link>, selected: seq<nat>, user: nat, sku: int, again: seq<Link>)
    requires Sound(db) && ListsFor(existing, db, user)
    requires ListsFor(again, Reconciled(db, existing, selected, user, sku), user)
    ensures var r := Reconciled(db, existing, selected, user, sku);
            Reconciled(r, again, selected, user, sku) == r <==>
              !exists l | l in existing :: Switches(l, db, selected, sku)
  {
    IdempotentIff(db, existing, selected, user, sku, again);
    if l :| l in existing && Switches(l, db, selected, sku) {
      SoundIsLinkedOnce(db, existing, selected, user);
      assert l.guild in GuildsOf(existing) && !WillBeLinked(db, existing, selected, sku, l.guild);
    }
  }

  /** It happens: one link on another SKU. The first run recreates its entitlement, the second adds another. */
  lemma SwitchedThenDoubled()
    ensures var db := Db(map[0 := Entitlement(1, 9, 4, None)], {Link(9, 1, 0)}, 1);
            var once := Reconciled(db, [Link(9, 1, 0)], [1], 9, 5);
            var twice := Reconciled(once, [], [1], 9, 5);
            && Sound(db) && ListsFor([Link(9, 1, 0)], db, 9)
            && once.links == {} && once.entitlements == map[1 := Entitlement(1, 9, 5, None)]
            && twice.entitlements == map[1 := Entitlement(1, 9, 5, None), 2 := Entitlement(1, 9, 5, None)]
  {
    var l := Link(9, 1, 0);
    var db := Db(map[0 := Entitlement(1, 9, 4, None)], {l}, 1);
    assert [l][..0] == [] && [1][..0] == [];
    assert GuildsOf([l]) == {1} by { assert l in [l]; }
    assert 1 in [1] by { assert [1][0] == 1; }
    assert DropAll(db, [l], [1]) == DropOne(db, l, [1]) == db;
    assert AddAll(db, [1], {1}, 9, 5) == AddOne(db, 1, {1}, 9, 5) == db;
    assert SwitchOne(db, l, [1], 9, 5).links == DeleteByEntitlement(db, 0).links == {};
    var once := Reconciled(db, [l], [1], 9, 5);
    assert once == SwitchAll(db, [l], [1], 9, 5) == SwitchOne(db, l, [1], 9, 5);
    assert once.entitlements == map[1 := Entitlement(1, 9, 5, None)];
    assert GuildsOf([]) == {};
    assert AddAll(once, [1], {}, 9, 5) == AddOne(once, 1, {}, 9, 5);
  }

  lemma LinkedIsTracked(db: Db, existing: seq<Link>, selected: seq<nat>, user: nat, sku: int, l: Link)
    requires Live(db) && ListsFor(existing, db, user)
    requires var r := Reconciled(db, existing, selected, user, sku);
             l in r.links && l.user == user && l.entitlement in r.entitlements
    ensures Tracked(db, user, Reconciled(db, existing, selected, user, sku), l.entitlement)
  {
    RunHasOutcome(db, existing, selected, user, sku);
  }
}
