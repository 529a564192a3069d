/**
 Choosing the guilds a multi-server subscription covers: one transaction that turns the
 stored links into the selection in three loops.
 */
module ActiveGuilds {
  import opened Wrappers

  datatype Entitlement = Entitlement(guild: nat, user: nat, sku: int, expiresAt: Option<int>)

  /** Which entitlement a user's subscription pays for in which guild. */
  datatype Link = Link(user: nat, guild: nat, entitlement: nat)

  datatype Db = Db(entitlements: map<nat, Entitlement>, links: set<Link>, nextId: nat)

  datatype Subscription = Subscription(sku: int, isLegacy: bool)

  datatype Reply = Done | Refused | Broken

  // ----- database calls -----

  function DeleteByEntitlement(db: Db, id: nat): Db {
    db.(links := set l | l in db.links && l.entitlement != id)
  }

  function DeleteById(db: Db, id: nat): Db {
    db.(entitlements := db.entitlements - {id})
  }

  function CreateEntitlement(db: Db, e: Entitlement): Db {
    db.(entitlements := db.entitlements[db.nextId := e], nextId := db.nextId + 1)
  }

  // ----- the three loops -----

  function DropOne(db: Db, l: Link, selected: seq<nat>): Db {
    if l.guild in selected then db else DeleteById(DeleteByEntitlement(db, l.entitlement), l.entitlement)
  }

  function DropAll(db: Db, existing: seq<Link>, selected: seq<nat>): Db
    decreases |existing|
  {
    if existing == [] then db
    else DropOne(DropAll(db, existing[..|existing| - 1], selected), existing[|existing| - 1], selected)
  }

  function GuildsOf(existing: seq<Link>): set<nat> {
    set l | l in existing :: l.guild
  }

  function AddOne(db: Db, guild: nat, known: set<nat>, user: nat, sku: int): Db {
    if guild in known then db
    else
      var created := CreateEntitlement(db, Entitlement(guild, user, sku, None));
      created.(links := created.links + {Link(user, guild, db.nextId)})
  }

  function AddAll(db: Db, selected: seq<nat>, known: set<nat>, user: nat, sku: int): Db
    decreases |selected|
  {
    if selected == [] then db
    else AddOne(AddAll(db, selected[..|selected| - 1], known, user, sku), selected[|selected| - 1], known, user, sku)
  }

  /** Recreates an entitlement under another SKU; its link row is not recreated. */
  function SwitchOne(db: Db, l: Link, selected: seq<nat>, user: nat, sku: int): Db {
    if l.guild !in selected || l.entitlement !in db.entitlements || db.entitlements[l.entitlement].sku == sku then db
    else
      var expiresAt := db.entitlements[l.entitlement].expiresAt;
      CreateEntitlement(DeleteById(DeleteByEntitlement(db, l.entitlement), l.entitlement),
                        Entitlement(l.guild, user, sku, expiresAt))
  }

  function SwitchAll(db: Db, existing: seq<Link>, selected: seq<nat>, user: nat, sku: int): Db
    decreases |existing|
  {
    if existing == [] then db
    else SwitchOne(SwitchAll(db, existing[..|existing| - 1], selected, user, sku), existing[|existing| - 1], selected,
                   user, sku)
  }

  /** The database after a committed run. */
  function Reconciled(db: Db, existing: seq<Link>, selected: seq<nat>, user: nat, sku: int): Db {
    SwitchAll(AddAll(DropAll(db, existing, selected), selected, GuildsOf(existing), user, sku), existing, selected,
              user, sku)
  }

  /** Links point at live entitlements of the same user and guild. */
  ghost predicate Live(db: Db) {
    && (forall l | l in db.links ::
          l.entitlement in db.entitlements
          && db.entitlements[l.entitlement].guild == l.guild && db.entitlements[l.entitlement].user == l.user)
    && (forall id | id in db.entitlements :: id < db.nextId)
  }

  /** And a user has one link per guild. */
  ghost predicate Sound(db: Db) {
    Live(db) && forall l, m | l in db.links && m in db.links && l.user == m.user && l.guild == m.guild :: l == m
  }

  /** What ListForUser returns: the user's links, each once, in some order. */
  ghost predicate ListsFor(existing: seq<Link>, db: Db, user: nat) {
    && (forall l :: l in existing <==> l in db.links && l.user == user)
    && (forall i, j | 0 <= i < j < |existing| :: existing[i] != existing[j])
  }

  /** The selected guilds that were not linked before must be administered by the user. */
  predicate MayAdd(selected: seq<nat>, known: set<nat>, admin: nat -> Option<bool>) {
    forall g | g in selected :: g in known || admin(g) == Some(true)
  }

  // ----- what the loops leave -----

  ghost function Ids(links: set<Link>): set<nat> {
    set l | l in links :: l.entitlement
  }

  /** Links whose guild is no longer selected. */
  ghost function Stale(existing: seq<Link>, selected: seq<nat>): set<Link> {
    set l | l in existing && l.guild !in selected
  }

  lemma {:induction false} DropAllIs(db: Db, existing: seq<Link>, selected: seq<nat>)
    requires Live(db) && forall l | l in existing :: l in db.links
    ensures var r := DropAll(db, existing, selected);
            && r.nextId == db.nextId
            && r.links == db.links - Stale(existing, selected)
            && r.entitlements == db.entitlements - Ids(Stale(existing, selected))
    decreases |existing|
  {
    if existing != [] {
      var init, l := existing[..|existing| - 1], existing[|existing| - 1];
      DropAllIs(db, init, selected);
      assert existing == init + [l];
      var was := DropAll(db, init, selected);
      if l.guild in selected {
        assert Stale(existing, selected) == Stale(init, selected);
      } else {
        assert Stale(existing, selected) == Stale(init, selected) + {l};
        assert DeleteByEntitlement(was, l.entitlement).links == was.links - {l};
        assert Ids(Stale(existing, selected)) == Ids(Stale(init, selected)) + {l.entitlement};
      }
    } else {
      assert Stale(existing, selected) == {};
    }
  }

  /** The selected guilds without a link, in order of selection. */
  function NewGuilds(selected: seq<nat>, known: set<nat>): seq<nat>
    decreases |selected|
  {
    if selected == [] then []
    else
      NewGuilds(selected[..|selected| - 1], known)
      + (if selected[|selected| - 1] in known then [] else [selected[|selected| - 1]])
  }

  /**
   a is db without the entitlements `stale` and the links `gone`, and with one entitlement and link for each added
   guild.
   */
  ghost predicate Refilled(db: Db, stale: set<nat>, gone: set<Link>, added: seq<nat>, user: nat, sku: int, a: Db) {
    && a.nextId == db.nextId + |added|
    && (forall id :: id in a.entitlements <==> (id in db.entitlements && id !in stale) || db.nextId <= id < a.nextId)
    && (forall id | id in a.entitlements && id in db.entitlements :: a.entitlements[id] == db.entitlements[id])
    && (forall k | 0 <= k < |added| :: a.entitlements[db.nextId + k] == Entitlement(added[k], user, sku, None))
    && (forall l :: l in a.links <==> (l in db.links && l !in gone) || IsNewLink(l, db.nextId, added, user))
  }

  ghost predicate IsNewLink(l: Link, from: nat, added: seq<nat>, user: nat) {
    l.user == user && from <= l.entitlement < from + |added| && l.guild == added[l.entitlement - from]
  }

  lemma {:induction false} AddAllIs(db: Db, selected: seq<nat>, known: set<nat>, user: nat, sku: int)
    requires forall id | id in db.entitlements :: id < db.nextId
    ensures Refilled(db, {}, {}, NewGuilds(selected, known), user, sku, AddAll(db, selected, known, user, sku))
    decreases |selected|
  {
    if selected != [] {
      AddAllIs(db, selected[..|selected| - 1], known, user, sku);
    }
  }

  predicate Switches(l: Link, db: Db, selected: seq<nat>, sku: int) {
    l.guild in selected && l.entitlement in db.entitlements && db.entitlements[l.entitlement].sku != sku
  }

  /** The links whose entitlement is on another SKU, in list order. */
  function Switched(existing: seq<Link>, db: Db, selected: seq<nat>, sku: int): seq<Link>
    decreases |existing|
  {
    if existing == [] then []
    else
      Switched(existing[..|existing| - 1], db, selected, sku)
      + (if Switches(existing[|existing| - 1], db, selected, sku) then [existing[|existing| - 1]] else [])
  }

  lemma {:induction false} SwitchedAre(existing: seq<Link>, db: Db, selected: seq<nat>, sku: int)
    ensures forall l :: l in Switched(existing, db, selected, sku) <==> l in existing && Switches(l, db, selected, sku)
    decreases |existing|
  {
    if existing != [] {
      SwitchedAre(existing[..|existing| - 1], db, selected, sku);
      assert existing == existing[..|existing| - 1] + [existing[|existing| - 1]];
    }
  }

  /** No two of the listed links, and no other link, share an entitlement; none is yet to be created. */
  ghost predicate OwnEntitlements(existing: seq<Link>, db: Db) {
    && (forall i | 0 <= i < |existing| :: existing[i].entitlement < db.nextId)
    && (forall i, j | 0 <= i < j < |existing| :: existing[i].entitlement != existing[j].entitlement)
    && (forall i, m | 0 <= i < |existing| && m in db.links && m.entitlement == existing[i].entitlement ::
          m == existing[i])
  }

  ghost function IdsIn(links: seq<Link>): set<nat> {
    set l | l in links :: l.entitlement
  }

  /** r is db after the links sw were switched, one after another. */
  ghost predicate SwitchedOff(db: Db, sw: seq<Link>, user: nat, sku: int, r: Db) {
    && r.nextId == db.nextId + |sw|
    && (forall l | l in sw :: l.entitlement in db.entitlements)
    && (forall id :: id in r.entitlements <==>
          (id in db.entitlements && id !in IdsIn(sw)) || db.nextId <= id < r.nextId)
    && (forall id | id in r.entitlements && id in db.entitlements :: r.entitlements[id] == db.entitlements[id])
    && (forall k | 0 <= k < |sw| :: r.entitlements[db.nextId + k]
          == Entitlement(sw[k].guild, user, sku, db.entitlements[sw[k].entitlement].expiresAt))
    && (forall l :: l in r.links <==> l in db.links && l !in sw)
  }

  lemma SwitchStep(db: Db, sw: seq<Link>, user: nat, sku: int, was: Db, l: Link, selected: seq<nat>)
    requires SwitchedOff(db, sw, user, sku, was) && forall id | id in db.entitlements :: id < db.nextId
    requires Switches(l, db, selected, sku) && l.entitlement !in IdsIn(sw)
    requires forall m | m in db.links && m.entitlement == l.entitlement :: m == l
    ensures SwitchedOff(db, sw + [l], user, sku, SwitchOne(was, l, selected, user, sku))
  {
    var r := SwitchOne(was, l, selected, user, sku);
    assert IdsIn(sw + [l]) == IdsIn(sw) + {l.entitlement};
    assert l.entitlement in was.entitlements && was.entitlements[l.entitlement] == db.entitlements[l.entitlement];
    assert r.entitlements == (was.entitlements - {l.entitlement})[was.nextId :=
                               Entitlement(l.guild, user, sku, db.entitlements[l.entitlement].expiresAt)];
    assert r.links == DeleteByEntitlement(was, l.entitlement).links;
  }

  lemma {:induction false} SwitchAllIs(db: Db, existing: seq<Link>, selected: seq<nat>, user: nat, sku: int)
    requires OwnEntitlements(existing, db) && forall id | id in db.entitlements :: id < db.nextId
    ensures SwitchedOff(db, Switched(existing, db, selected, sku), user, sku,
                        SwitchAll(db, existing, selected, user, sku))
    decreases |existing|
  {
    if existing != [] {
      var n := |existing| - 1;
      var init, l := existing[..n], existing[n];
      SwitchAllIs(db, init, selected, user, sku);
      SwitchedAre(init, db, selected, sku);
      var was, sw := SwitchAll(db, init, selected, user, sku), Switched(init, db, selected, sku);
      forall m | m in sw
        ensures m.entitlement != l.entitlement
      {
        var j :| 0 <= j < n && init[j] == m;
        assert existing[j].entitlement != existing[n].entitlement;
      }
      assert l.entitlement < db.nextId;
      assert l.entitlement in was.entitlements <==> l.entitlement in db.entitlements;
      if Switches(l, db, selected, sku) {
        SwitchStep(db, sw, user, sku, was, l, selected);
      }
    }
  }

  function BeforeSwitch(db: Db, existing: seq<Link>, selected: seq<nat>, user: nat, sku: int): Db {
    AddAll(DropAll(db, existing, selected), selected, GuildsOf(existing), user, sku)
  }

  lemma ListedOwnEntitlements(existing: seq<Link>, db: Db, user: nat)
    requires Live(db) && ListsFor(existing, db, user)
    ensures OwnEntitlements(existing, db)
  {
  }

  lemma RefillAfterDrop(db: Db, d: Db, stale: set<nat>, gone: set<Link>, added: seq<nat>, user: nat, sku: int, a: Db)
    requires d == Db(db.entitlements - stale, db.links - gone, db.nextId)
    requires Refilled(d, {}, {}, added, user, sku, a) && forall id | id in db.entitlements :: id < db.nextId
    ensures Refilled(db, stale, gone, added, user, sku, a)
  {
  }

  lemma BeforeSwitchIs(db: Db, existing: seq<Link>, selected: seq<nat>, user: nat, sku: int)
    requires Live(db) && ListsFor(existing, db, user)
    ensures Refilled(db, Ids(Stale(existing, selected)), Stale(existing, selected),
                     NewGuilds(selected, GuildsOf(existing)), user, sku,
                     BeforeSwitch(db, existing, selected, user, sku))
  {
    DropAllIs(db, existing, selected);
    var d, added := DropAll(db, existing, selected), NewGuilds(selected, GuildsOf(existing));
    AddAllIs(d, selected, GuildsOf(existing), user, sku);
    RefillAfterDrop(db, d, Ids(Stale(existing, selected)), Stale(existing, selected), added, user, sku,
                    BeforeSwitch(db, existing, selected, user, sku));
  }

  lemma BeforeSwitchOwns(db: Db, existing: seq<Link>, selected: seq<nat>, user: nat, sku: int)
    requires Live(db) && ListsFor(existing, db, user)
    ensures var a := BeforeSwitch(db, existing, selected, user, sku);
            OwnEntitlements(existing, a) && forall id | id in a.entitlements :: id < a.nextId
  {
    BeforeSwitchIs(db, existing, selected, user, sku);
    ListedOwnEntitlements(existing, db, user);
  }

  lemma KeptEntitlement(db: Db, existing: seq<Link>, selected: seq<nat>, user: nat, sku: int, l: Link)
    requires Live(db) && ListsFor(existing, db, user) && l in existing && l.guild in selected
    ensures l.entitlement in db.entitlements && l.entitlement !in Ids(Stale(existing, selected))
    ensures var a := BeforeSwitch(db, existing, selected, user, sku);
            l.entitlement in a.entitlements && a.entitlements[l.entitlement] == db.entitlements[l.entitlement]
  {
    BeforeSwitchIs(db, existing, selected, user, sku);
  }

  /** Until the third loop reaches a link, it leaves that link's entitlement alone. */
  lemma NotYetSwitched(db: Db, existing: seq<Link>, i: nat, selected: seq<nat>, user: nat, sku: int)
    requires OwnEntitlements(existing, db) && (forall id | id in db.entitlements :: id < db.nextId) && i < |existing|
    ensures var id, tx := existing[i].entitlement, SwitchAll(db, existing[..i], selected, user, sku);
            && (id in tx.entitlements <==> id in db.entitlements)
            && (id in db.entitlements ==> tx.entitlements[id] == db.entitlements[id])
  {
    SwitchAllIs(db, existing[..i], selected, user, sku);
    var sw := Switched(existing[..i], db, selected, sku);
    SwitchedAre(existing[..i], db, selected, sku);
    forall m | m in sw
      ensures m.entitlement != existing[i].entitlement
    {
      var j :| 0 <= j < i && existing[..i][j] == m;
      assert existing[j].entitlement != existing[i].entitlement;
    }
  }

  /** When the switch loop reaches a selected link, its entitlement still exists. */
  lemma StillThere(db: Db, existing: seq<Link>, i: nat, selected: seq<nat>, user: nat, sku: int)
    requires Live(db) && ListsFor(existing, db, user) && i < |existing| && existing[i].guild in selected
    ensures existing[i].entitlement in
              SwitchAll(BeforeSwitch(db, existing, selected, user, sku), existing[..i],
                        selected, user, sku).entitlements
  {
    BeforeSwitchOwns(db, existing, selected, user, sku);
    assert existing[i] in existing;
    KeptEntitlement(db, existing, selected, user, sku, existing[i]);
    NotYetSwitched(BeforeSwitch(db, existing, selected, user, sku), existing, i, selected, user, sku);
  }

  // ----- how many database calls the loops make -----

  /** The links the first loop deletes, in list order. */
  function Dropped(existing: seq<Link>, selected: seq<nat>): seq<Link>
    decreases |existing|
  {
    if existing == [] then []
    else
      Dropped(existing[..|existing| - 1], selected)
      + (if existing[|existing| - 1].guild in selected then [] else [existing[|existing| - 1]])
  }

  /**
   The third loop reads one entitlement for each link of a selected guild, and makes three more calls to switch it.
   */
  function SwitchCalls(existing: seq<Link>, db: Db, selected: seq<nat>, sku: int): nat
    decreases |existing|
  {
    if existing == [] then 0
    else
      var n := |existing| - 1;
      SwitchCalls(existing[..n], db, selected, sku)
      + (if existing[n].guild in selected then if Switches(existing[n], db, selected, sku) then 4 else 1 else 0)
  }

  lemma {:induction false} DroppedPrefix(existing: seq<Link>, selected: seq<nat>, i: nat)
    requires i <= |existing|
    ensures |Dropped(existing[..i], selected)| <= |Dropped(existing, selected)|
    decreases |existing|
  {
    if i < |existing| {
      DroppedPrefix(existing[..|existing| - 1], selected, i);
      assert existing[..|existing| - 1][..i] == existing[..i];
    } else {
      assert existing[..i] == existing;
    }
  }

  lemma {:induction false} NewGuildsPrefix(selected: seq<nat>, known: set<nat>, i: nat)
    requires i <= |selected|
    ensures |NewGuilds(selected[..i], known)| <= |NewGuilds(selected, known)|
    decreases |selected|
  {
    if i < |selected| {
      NewGuildsPrefix(selected[..|selected| - 1], known, i);
      assert selected[..|selected| - 1][..i] == selected[..i];
    } else {
      assert selected[..i] == selected;
    }
  }

  lemma {:induction false} SwitchCallsPrefix(existing: seq<Link>, db: Db, selected: seq<nat>, sku: int, i: nat)
    requires i <= |existing|
    ensures SwitchCalls(existing[..i], db, selected, sku) <= SwitchCalls(existing, db, selected, sku)
    decreases |existing|
  {
    if i < |existing| {
      SwitchCallsPrefix(existing[..|existing| - 1], db, selected, sku, i);
      assert existing[..|existing| - 1][..i] == existing[..i];
    } else {
      assert existing[..i] == existing;
    }
  }

  ghost function SwitchedLinks(db: Db, existing: seq<Link>, selected: seq<nat>, sku: int): set<Link> {
    set l | l in existing && Switches(l, db, selected, sku)
  }

  /**
   Three lookups; two deletions per stale link; two insertions per added guild; one read per other link and three more
   calls per switched one; the commit.
   */
  ghost function CallsNeeded(db: Db, existing: seq<Link>, selected: seq<nat>, sku: int): int {
    var stale := |Stale(existing, selected)|;
    3 + 2 * stale + 2 * |NewGuilds(selected, GuildsOf(existing))| + (|existing| - stale)
    + 3 * |SwitchedLinks(db, existing, selected, sku)| + 1
  }

  lemma OneMoreStale(init: seq<Link>, l: Link, selected: seq<nat>)
    requires l !in init
    ensures |Stale(init + [l], selected)| == |Stale(init, selected)| + if l.guild in selected then 0 else 1
  {
    var all := init + [l];
    assert forall m :: m in all <==> m in init || m == l;
    if l.guild in selected {
      assert Stale(all, selected) == Stale(init, selected);
    } else {
      assert Stale(all, selected) == Stale(init, selected) + {l};
    }
  }

  lemma OneMoreSwitched(init: seq<Link>, l: Link, db: Db, selected: seq<nat>, sku: int)
    requires l !in init
    ensures |SwitchedLinks(db, init + [l], selected, sku)|
         == |SwitchedLinks(db, init, selected, sku)| + if Switches(l, db, selected, sku) then 1 else 0
  {
    var all := init + [l];
    assert forall m :: m in all <==> m in init || m == l;
    if Switches(l, db, selected, sku) {
      assert SwitchedLinks(db, all, selected, sku) == SwitchedLinks(db, init, selected, sku) + {l};
    } else {
      assert SwitchedLinks(db, all, selected, sku) == SwitchedLinks(db, init, selected, sku);
    }
  }

  lemma {:induction false} CountCalls(existing: seq<Link>, db: Db, selected: seq<nat>, sku: int)
    requires forall i, j | 0 <= i < j < |existing| :: existing[i] != existing[j]
    ensures |Dropped(existing, selected)| == |Stale(existing, selected)|
    ensures SwitchCalls(existing, db, selected, sku)
         == |existing| - |Stale(existing, selected)| + 3 * |SwitchedLinks(db, existing, selected, sku)|
    decreases |existing|
  {
    if existing == [] {
      assert Stale(existing, selected) == {} && SwitchedLinks(db, existing, selected, sku) == {};
    } else {
      var n := |existing| - 1;
      var init, l := existing[..n], existing[n];
      CountCalls(init, db, selected, sku);
      assert existing == init + [l] && l !in init;
      OneMoreStale(init, l, selected);
      OneMoreSwitched(init, l, db, selected, sku);
    }
  }

  lemma {:induction false} SameSwitchCalls(existing: seq<Link>, a: Db, b: Db, selected: seq<nat>, sku: int)
    requires forall l | l in existing :: Switches(l, a, selected, sku) == Switches(l, b, selected, sku)
    ensures SwitchCalls(existing, a, selected, sku) == SwitchCalls(existing, b, selected, sku)
    decreases |existing|
  {
    if existing != [] {
      assert existing[|existing| - 1] in existing;
      SameSwitchCalls(existing[..|existing| - 1], a, b, selected, sku);
    }
  }

  /** The calls of the three loops, seen from the database before the first. */
  lemma LoopCalls(db: Db, existing: seq<Link>, selected: seq<nat>, user: nat, sku: int)
    requires Live(db) && ListsFor(existing, db, user)
    ensures 4 + 2 * |Dropped(existing, selected)| + 2 * |NewGuilds(selected, GuildsOf(existing))|
            + SwitchCalls(existing, BeforeSwitch(db, existing, selected, user, sku), selected, sku)
         == CallsNeeded(db, existing, selected, sku)
  {
    var a := BeforeSwitch(db, existing, selected, user, sku);
    CountCalls(existing, db, selected, sku);
    forall l | l in existing
      ensures Switches(l, a, selected, sku) == Switches(l, db, selected, sku)
    {
      if l.guild in selected {
        KeptEntitlement(db, existing, selected, user, sku, l);
      }
    }
    SameSwitchCalls(existing, a, db, selected, sku);
  }

  // ----- the loops as they run -----

  /** The first selected guild that may not be added decides the answer. */
  ghost predicate FirstNotAllowed(selected: seq<nat>, known: set<nat>, admin: nat -> Option<bool>, i: nat,
                                  reply: Reply) {
    && i < |selected| && MayAdd(selected[..i], known, admin) && selected[i] !in known
    && admin(selected[i]) != Some(true) && reply == if admin(selected[i]).None? then Broken else Refused
  }

  /** Answers how the admin checks of the newly selected guilds end. */
  method CheckAdmins(selected: seq<nat>, existingGuildIds: set<nat>, admin: nat -> Option<bool>) returns (reply: Reply)
    ensures reply == Done <==> MayAdd(selected, existingGuildIds, admin)
    ensures reply != Done ==> exists i: nat :: FirstNotAllowed(selected, existingGuildIds, admin, i, reply)
  {
    for i := 0 to |selected|
      invariant forall k | 0 <= k < i :: selected[k] in existingGuildIds || admin(selected[k]) == Some(true)
    {
      var g := selected[i];
      if g in existingGuildIds {
        continue;
      }
      if admin(g) != Some(true) {
        assert g in selected;
        reply := if admin(g).None? then Broken else Refused;
        assert FirstNotAllowed(selected, existingGuildIds, admin, i, reply);
        return;
      }
    }
    return Done;
  }

  /** Each loop counts its database calls; the one numbered `failAt` fails. */
  method Drop(db: Db, existing: seq<Link>, selected: seq<nat>, calls: nat, failAt: nat)
    returns (ok: bool, tx: Db, made: nat)
    requires calls <= failAt
    ensures ok <==> calls + 2 * |Dropped(existing, selected)| <= failAt
    ensures ok ==> tx == DropAll(db, existing, selected) && made == calls + 2 * |Dropped(existing, selected)|
  {
    tx, made := db, calls;
    for i := 0 to |existing|
      invariant made == calls + 2 * |Dropped(existing[..i], selected)| && made <= failAt
      invariant tx == DropAll(db, existing[..i], selected)
    {
      assert existing[..i + 1][..i] == existing[..i];
      if existing[i].guild !in selected {
        if failAt < made + 2 {
          DroppedPrefix(existing, selected, i + 1);
          return false, tx, made;
        }
        made := made + 2;
        tx := DeleteById(DeleteByEntitlement(tx, existing[i].entitlement), existing[i].entitlement);
      }
    }
    assert existing[..|existing|] == existing;
    ok := true;
  }

  method AddNew(db: Db, selected: seq<nat>, known: set<nat>, user: nat, sku: int, calls: nat, failAt: nat)
    returns (ok: bool, tx: Db, made: nat)
    requires calls <= failAt
    ensures ok <==> calls + 2 * |NewGuilds(selected, known)| <= failAt
    ensures ok ==> tx == AddAll(db, selected, known, user, sku) && made == calls + 2 * |NewGuilds(selected, known)|
  {
    tx, made := db, calls;
    for i := 0 to |selected|
      invariant made == calls + 2 * |NewGuilds(selected[..i], known)| && made <= failAt
      invariant tx == AddAll(db, selected[..i], known, user, sku)
    {
      assert selected[..i + 1][..i] == selected[..i];
      if selected[i] !in known {
        if failAt < made + 2 {
          NewGuildsPrefix(selected, known, i + 1);
          return false, tx, made;
        }
        made := made + 2;
        var createdId := tx.nextId;
        tx := CreateEntitlement(tx, Entitlement(selected[i], user, sku, None));
        tx := tx.(links := tx.links + {Link(user, selected[i], createdId)});
      }
    }
    assert selected[..|selected|] == selected;
    ok := true;
  }

  /** Every link of a selected guild has its entitlement. */
  ghost predicate AllThere(db: Db, existing: seq<Link>, selected: seq<nat>) {
    forall i | 0 <= i < |existing| && existing[i].guild in selected :: existing[i].entitlement in db.entitlements
  }

  method SwitchSku(db: Db, existing: seq<Link>, selected: seq<nat>, user: nat, sku: int, calls: nat, failAt: nat)
    returns (ok: bool, tx: Db, made: nat)
    requires OwnEntitlements(existing, db) && (forall id | id in db.entitlements :: id < db.nextId)
    requires AllThere(db, existing, selected) && calls <= failAt
    ensures ok <==> calls + SwitchCalls(existing, db, selected, sku) <= failAt
    ensures ok ==>
              && tx == SwitchAll(db, existing, selected, user, sku)
              && made == calls + SwitchCalls(existing, db, selected, sku)
  {
    tx, made := db, calls;
    for i := 0 to |existing|
      invariant made == calls + SwitchCalls(existing[..i], db, selected, sku) && made <= failAt
      invariant tx == SwitchAll(db, existing[..i], selected, user, sku)
    {
      assert existing[..i + 1][..i] == existing[..i];
      NotYetSwitched(db, existing, i, selected, user, sku);
      SwitchCallsPrefix(existing, db, selected, sku, i + 1);
      if existing[i].guild in selected {
        if failAt < made + 1 {
          return false, tx, made;
        }
        made := made + 1;
        if existing[i].entitlement !in tx.entitlements {
          assert false;
        }
        var entitlement := tx.entitlements[existing[i].entitlement];
        if entitlement.sku == sku {
          continue;
        }
        if failAt < made + 3 {
          return false, tx, made;
        }
        made := made + 3;
        tx := DeleteById(DeleteByEntitlement(tx, existing[i].entitlement), existing[i].entitlement);
        tx := CreateEntitlement(tx, Entitlement(existing[i].guild, user, sku, entitlement.expiresAt));
      }
    }
    assert existing[..|existing|] == existing;
    ok := true;
  }

  class Premium {
    var db: Db

    /**
     The handler. `subscription` and `limit` are what the lookups answer, `admin` the permission
     level of the user in a guild, None being a failed lookup; the database call numbered
     `failAt` fails.
     */
    method SetActiveGuilds(user: nat, subscription: Option<Subscription>, limit: Option<nat>, selected: seq<nat>,
                           existing: seq<Link>, admin: nat -> Option<bool>, failAt: nat) returns (reply: Reply)
      requires Live(db) && ListsFor(existing, db, user)
      modifies this
      ensures reply != Done ==> db == old(db)
      ensures reply == Done <==>
                && subscription.Some? && !subscription.value.isLegacy && limit.Some? && |selected| <= limit.value
                && (forall g | g in selected :: (exists l | l in existing :: l.guild == g) || admin(g) == Some(true))
                && failAt >= CallsNeeded(old(db), existing, selected, subscription.value.sku)
      ensures reply == Done ==> db == Reconciled(old(db), existing, selected, user, subscription.value.sku)
    {
      if subscription.None? || subscription.value.isLegacy {
        return Refused;
      }
      var sku := subscription.value.sku;
      if failAt < 3 {
        return Broken;  // BeginTx, GetPermittedServerCount, ListForUser
      }
      if limit.None? || |selected| > limit.value {
        return Refused;
      }
      LoopCalls(db, existing, selected, user, sku);
      var existingGuildIds := GuildsOf(existing);
      reply := CheckAdmins(selected, existingGuildIds, admin);
      if reply != Done {
        return;
      }
      var ok, tx, calls := Drop(db, existing, selected, 3, failAt);
      if !ok {
        return Broken;
      }
      ok, tx, calls := AddNew(tx, selected, existingGuildIds, user, sku, calls, failAt);
      if !ok {
        return Broken;
      }
      BeforeSwitchOwns(db, existing, selected, user, sku);
      AllKept(db, existing, selected, user, sku);
      ok, tx, calls := SwitchSku(tx, existing, selected, user, sku, calls, failAt);
      if !ok || failAt < calls + 1 {
        return Broken;  // or Commit
      }
      db := tx;
      reply := Done;
    }
  }

  lemma AllKept(db: Db, existing: seq<Link>, selected: seq<nat>, user: nat, sku: int)
    requires Live(db) && ListsFor(existing, db, user)
    ensures AllThere(BeforeSwitch(db, existing, selected, user, sku), existing, selected)
  {
    forall i | 0 <= i < |existing| && existing[i].guild in selected
      ensures existing[i].entitlement in BeforeSwitch(db, existing, selected, user, sku).entitlements
    {
      assert existing[i] in existing;
      KeptEntitlement(db, existing, selected, user, sku, existing[i]);
    }
  }
}
