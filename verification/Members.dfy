/**
 Resolving the members of a team: one goroutine per user id fetches the user and offers it on an
 unbuffered channel; a collector appends what it receives until the wait group is drained.
 */
module Members {
  import opened Wrappers
  import opened Sorting

  type Snowflake = n: nat | n < 0x1_0000_0000_0000_0000

  datatype Kind = User | Role

  datatype Entity = Entity(id: Snowflake, name: string, kind: Kind)

  /** What the lookup of a user id answers; None is an error. */
  type Lookup = Option<(Snowflake, string)>

  datatype Pc = Fetching | Sending | Finishing | Done

  /** `ready`: the channel of the wait group can be received from. */
  datatype State = State(pcs: seq<Pc>, waiting: int, ready: bool, looping: bool, data: seq<Entity>)

  datatype Step = Fetch(i: nat) | Send(i: nat) | Finish(i: nat) | Stop

  function RoleEntities(roleIds: seq<Snowflake>): (r: seq<Entity>)
    ensures |r| == |roleIds|
    ensures forall i | 0 <= i < |r| :: r[i] == Entity(roleIds[i], "", Role)
  {
    seq(|roleIds|, i requires 0 <= i < |roleIds| => Entity(roleIds[i], "", Role))
  }

  function UserEntity(user: (Snowflake, string)): Entity {
    Entity(user.0, user.1, User)
  }

  /** Whether an unused wait group is ready is left open: `idleReady`. */
  function Initial(roleIds: seq<Snowflake>, lookups: seq<Lookup>, idleReady: bool): State {
    State(seq(|lookups|, _ => Fetching), |lookups|, lookups == [] && idleReady, true, RoleEntities(roleIds))
  }

  predicate Enabled(s: State, lookups: seq<Lookup>, step: Step)
    requires |s.pcs| == |lookups|
  {
    match step
    case Fetch(i) => i < |s.pcs| && s.pcs[i] == Fetching
    case Send(i) => i < |s.pcs| && s.pcs[i] == Sending && s.looping
    case Finish(i) => i < |s.pcs| && s.pcs[i] == Finishing
    case Stop => s.looping && s.ready
  }

  function Do(s: State, lookups: seq<Lookup>, step: Step): (r: State)
    requires |s.pcs| == |lookups| && Enabled(s, lookups, step)
    ensures |r.pcs| == |s.pcs|
  {
    match step
    case Fetch(i) => s.(pcs := s.pcs[i := if lookups[i].Some? then Sending else Finishing])
    case Send(i) =>
      var received := if lookups[i].Some? then [UserEntity(lookups[i].value)] else [];
      s.(pcs := s.pcs[i := Finishing], data := s.data + received)
    case Finish(i) => s.(pcs := s.pcs[i := Done], waiting := s.waiting - 1, ready := s.ready || s.waiting == 1)
    case Stop => s.(looping := false)
  }

  ghost predicate IsRun(roleIds: seq<Snowflake>, lookups: seq<Lookup>, idleReady: bool, states: seq<State>,
                        steps: seq<Step>) {
    && |states| == |steps| + 1
    && states[0] == Initial(roleIds, lookups, idleReady)
    && (forall i | 0 <= i < |states| :: |states[i].pcs| == |lookups|)
    && forall i | 0 <= i < |steps| ::
         Enabled(states[i], lookups, steps[i]) && states[i + 1] == Do(states[i], lookups, steps[i])
  }

  predicate AllDone(pcs: seq<Pc>) {
    forall i | 0 <= i < |pcs| :: pcs[i] == Done
  }

  /** Both waits of the handler are over. */
  predicate Finished(s: State) {
    !s.looping && AllDone(s.pcs)
  }

  // ----- the invariant -----

  /** How many goroutines have not told the wait group they are done. */
  function Running(pcs: seq<Pc>): (n: nat)
    decreases |pcs|
  {
    if pcs == [] then 0
    else Running(pcs[..|pcs| - 1]) + if pcs[|pcs| - 1] == Done then 0 else 1
  }

  /** How often goroutine i has handed over e: once, after a successful lookup that answered e. */
  function Taken(pc: Pc, lookup: Lookup, e: Entity): nat {
    if (pc == Finishing || pc == Done) && lookup.Some? && UserEntity(lookup.value) == e then 1 else 0
  }

  /** How often the collector has received e. */
  function Received(pcs: seq<Pc>, lookups: seq<Lookup>, e: Entity): nat
    requires |pcs| == |lookups|
    decreases |pcs|
  {
    if pcs == [] then 0
    else
      var n := |pcs| - 1;
      Received(pcs[..n], lookups[..n], e) + Taken(pcs[n], lookups[n], e)
  }

  lemma {:induction false} RunningUpdate(pcs: seq<Pc>, i: nat, pc: Pc)
    requires i < |pcs|
    ensures Running(pcs[i := pc]) == Running(pcs) - (if pcs[i] == Done then 0 else 1) + (if pc == Done then 0 else 1)
    decreases |pcs|
  {
    var n := |pcs| - 1;
    if i < n {
      RunningUpdate(pcs[..n], i, pc);
      assert pcs[i := pc][..n] == pcs[..n][i := pc];
    } else {
      assert pcs[i := pc][..n] == pcs[..n];
    }
  }

  lemma {:induction false} ReceivedUpdate(pcs: seq<Pc>, lookups: seq<Lookup>, i: nat, pc: Pc, e: Entity)
    requires |pcs| == |lookups| && i < |pcs|
    ensures Received(pcs[i := pc], lookups, e)
            == Received(pcs, lookups, e) - Taken(pcs[i], lookups[i], e) + Taken(pc, lookups[i], e)
    decreases |pcs|
  {
    var n := |pcs| - 1;
    if i < n {
      ReceivedUpdate(pcs[..n], lookups[..n], i, pc, e);
      assert pcs[i := pc][..n] == pcs[..n][i := pc];
    } else {
      assert pcs[i := pc][..n] == pcs[..n];
    }
  }

  lemma {:induction false} RunningIsZero(pcs: seq<Pc>)
    ensures Running(pcs) == 0 <==> AllDone(pcs)
    ensures Running(pcs) <= |pcs|
    decreases |pcs|
  {
    if pcs != [] {
      var n := |pcs| - 1;
      RunningIsZero(pcs[..n]);
      assert AllDone(pcs) <==> AllDone(pcs[..n]) && pcs[n] == Done by {
        assert forall i | 0 <= i < n :: pcs[i] == pcs[..n][i];
      }
    }
  }

  function Count(s: seq<Entity>, e: Entity): nat {
    multiset(s)[e]
  }

  ghost predicate Inv(s: State, roleIds: seq<Snowflake>, lookups: seq<Lookup>, idleReady: bool) {
    && |s.pcs| == |lookups|
    && s.waiting == Running(s.pcs)
    && (s.ready <==> s.waiting == 0 && (lookups != [] || idleReady))
    && (!s.looping ==> s.waiting == 0)
    && (forall i | 0 <= i < |s.pcs| :: s.pcs[i] == Sending ==> lookups[i].Some?)
    && forall e :: Count(s.data, e) == Count(RoleEntities(roleIds), e) + Received(s.pcs, lookups, e)
  }

  lemma {:induction false} NothingReceived(lookups: seq<Lookup>)
    ensures var pcs := seq(|lookups|, _ => Fetching);
            Running(pcs) == |lookups| && forall e :: Received(pcs, lookups, e) == 0
    decreases |lookups|
  {
    if lookups != [] {
      var n := |lookups| - 1;
      NothingReceived(lookups[..n]);
      assert seq(|lookups|, _ => Fetching)[..n] == seq(n, _ => Fetching);
    }
  }

  /** A step adds to the data exactly what it adds to the received users. */
  lemma StepAppends(s: State, lookups: seq<Lookup>, step: Step, e: Entity)
    requires |s.pcs| == |lookups| && Enabled(s, lookups, step)
    requires step.Send? ==> lookups[step.i].Some?
    ensures var r := Do(s, lookups, step);
            Count(r.data, e) - Count(s.data, e) == Received(r.pcs, lookups, e) - Received(s.pcs, lookups, e)
  {
    if step != Stop {
      ReceivedUpdate(s.pcs, lookups, step.i, Do(s, lookups, step).pcs[step.i], e);
    }
  }

  lemma StepKeepsCounts(s: State, roleIds: seq<Snowflake>, lookups: seq<Lookup>, idleReady: bool, step: Step)
    requires Inv(s, roleIds, lookups, idleReady) && Enabled(s, lookups, step)
    ensures var r := Do(s, lookups, step);
            && r.waiting == Running(r.pcs)
            && (r.ready <==> r.waiting == 0 && (lookups != [] || idleReady))
            && (!r.looping ==> r.waiting == 0)
            && (forall i | 0 <= i < |r.pcs| :: r.pcs[i] == Sending ==> lookups[i].Some?)
  {
    if step != Stop {
      RunningUpdate(s.pcs, step.i, Do(s, lookups, step).pcs[step.i]);
    }
  }

  lemma StepKeepsInv(s: State, roleIds: seq<Snowflake>, lookups: seq<Lookup>, idleReady: bool, step: Step)
    requires Inv(s, roleIds, lookups, idleReady) && Enabled(s, lookups, step)
    ensures Inv(Do(s, lookups, step), roleIds, lookups, idleReady)
  {
    StepKeepsCounts(s, roleIds, lookups, idleReady, step);
    forall e
      ensures var r := Do(s, lookups, step);
              Count(r.data, e) == Count(RoleEntities(roleIds), e) + Received(r.pcs, lookups, e)
    {
      StepAppends(s, lookups, step, e);
    }
  }

  lemma {:induction false} RunKeepsInv(roleIds: seq<Snowflake>, lookups: seq<Lookup>, idleReady: bool,
                                       states: seq<State>, steps: seq<Step>, k: nat)
    requires IsRun(roleIds, lookups, idleReady, states, steps) && k < |states|
    ensures Inv(states[k], roleIds, lookups, idleReady)
    decreases k
  {
    if k == 0 {
      NothingReceived(lookups);
    } else {
      RunKeepsInv(roleIds, lookups, idleReady, states, steps, k - 1);
      StepKeepsInv(states[k - 1], roleIds, lookups, idleReady, steps[k - 1]);
    }
  }

  // ----- safety and progress, for every interleaving -----

  /** The collector never stops while a goroutine has yet to send. */
  lemma CollectorOutlivesSenders(roleIds: seq<Snowflake>, lookups: seq<Lookup>, idleReady: bool,
                                 states: seq<State>, steps: seq<Step>, k: nat, i: nat)
    requires IsRun(roleIds, lookups, idleReady, states, steps) && k < |states| && i < |lookups|
    requires !states[k].looping
    ensures states[k].pcs[i] == Done
  {
    RunKeepsInv(roleIds, lookups, idleReady, states, steps, k);
    RunningIsZero(states[k].pcs);
  }

  ghost predicate IsStuck(s: State, lookups: seq<Lookup>)
    requires |s.pcs| == |lookups|
  {
    !Finished(s) && forall step :: !Enabled(s, lookups, step)
  }

  /** No run is stuck before its end if and only if there is a user, or an unused wait group is ready. */
  lemma NeverStuckIff(roleIds: seq<Snowflake>, lookups: seq<Lookup>, idleReady: bool)
    ensures lookups != [] || idleReady <==>
            forall states, steps | IsRun(roleIds, lookups, idleReady, states, steps) ::
              !IsStuck(states[|steps|], lookups)
  {
    if lookups != [] || idleReady {
      forall states, steps | IsRun(roleIds, lookups, idleReady, states, steps)
        ensures !IsStuck(states[|steps|], lookups)
      {
        RunKeepsInv(roleIds, lookups, idleReady, states, steps, |steps|);
        if !Finished(states[|steps|]) {
          var step := NextStep(states[|steps|], roleIds, lookups, idleReady);
        }
      }
    } else {
      StuckWithoutUsers(roleIds);
      assert IsRun(roleIds, lookups, idleReady, [Initial(roleIds, [], false)], []);
    }
  }

  /** It happens: with no user and an idle wait group the collector waits for ever. */
  lemma StuckWithoutUsers(roleIds: seq<Snowflake>)
    ensures var s := Initial(roleIds, [], false); IsRun(roleIds, [], false, [s], []) && IsStuck(s, [])
  {
  }

  lemma NextStep(s: State, roleIds: seq<Snowflake>, lookups: seq<Lookup>, idleReady: bool) returns (step: Step)
    requires Inv(s, roleIds, lookups, idleReady) && !Finished(s) && (lookups != [] || idleReady)
    ensures Enabled(s, lookups, step)
  {
    RunningIsZero(s.pcs);
    if s.waiting == 0 {
      return Stop;
    }
    var i :| 0 <= i < |s.pcs| && s.pcs[i] != Done;
    match s.pcs[i]
    case Fetching => return Fetch(i);
    case Sending => return Send(i);
    case Finishing => return Finish(i);
  }

  function Weight(pcs: seq<Pc>): nat
    decreases |pcs|
  {
    if pcs == [] then 0
    else
      Weight(pcs[..|pcs| - 1]) +
      match pcs[|pcs| - 1] case Fetching => 3 case Sending => 2 case Finishing => 1 case Done => 0
  }

  function StepsLeft(s: State): nat {
    Weight(s.pcs) + if s.looping then 1 else 0
  }

  lemma {:induction false} WeightUpdate(pcs: seq<Pc>, i: nat, pc: Pc)
    requires i < |pcs|
    ensures Weight(pcs[i := pc]) + Weight([pcs[i]]) == Weight(pcs) + Weight([pc])
    decreases |pcs|
  {
    var n := |pcs| - 1;
    assert Weight([pcs[i]][..0]) == 0 && Weight([pc][..0]) == 0;
    if i < n {
      WeightUpdate(pcs[..n], i, pc);
      assert pcs[i := pc][..n] == pcs[..n][i := pc];
    } else {
      assert pcs[i := pc][..n] == pcs[..n];
    }
  }

  lemma StepCounts(s: State, lookups: seq<Lookup>, step: Step)
    requires |s.pcs| == |lookups| && Enabled(s, lookups, step)
    ensures StepsLeft(Do(s, lookups, step)) < StepsLeft(s)
  {
    if step != Stop {
      var pc := Do(s, lookups, step).pcs[step.i];
      assert Weight([pc]) < Weight([s.pcs[step.i]]) by {
        assert Weight([s.pcs[step.i]][..0]) == 0 && Weight([pc][..0]) == 0;
      }
      WeightUpdate(s.pcs, step.i, pc);
    }
  }

  lemma {:induction false} InitialWeight(n: nat)
    ensures Weight(seq(n, _ => Fetching)) == 3 * n
  {
    if n > 0 {
      InitialWeight(n - 1);
      assert seq(n, _ => Fetching)[..n - 1] == seq(n - 1, _ => Fetching);
    }
  }

  /** So every run ends: it has at most three steps for each user and one for the collector. */
  lemma {:induction false} RunsAreShort(roleIds: seq<Snowflake>, lookups: seq<Lookup>, idleReady: bool,
                                        states: seq<State>, steps: seq<Step>)
    requires IsRun(roleIds, lookups, idleReady, states, steps)
    ensures |steps| + StepsLeft(states[|steps|]) <= 3 * |lookups| + 1
    decreases |steps|
  {
    if steps == [] {
      InitialWeight(|lookups|);
    } else {
      var n := |steps| - 1;
      RunsAreShort(roleIds, lookups, idleReady, states[..n + 1], steps[..n]);
      StepCounts(states[n], lookups, steps[n]);
    }
  }

  // ----- the result -----

  /** The comparison handed to sort.Slice: roles before users, then ids ascending. */
  predicate Less(a: Entity, b: Entity) {
    if a.kind == b.kind then a.id < b.id else a.kind == Role
  }

  function Key(e: Entity): int {
    (if e.kind == Role then 0 else 0x1_0000_0000_0000_0000) + e.id
  }

  lemma LessIsByKey(a: Entity, b: Entity)
    ensures Less(a, b) <==> Key(a) < Key(b)
  {
  }

  /** The users that could be fetched, in the order of their ids. */
  function Resolved(lookups: seq<Lookup>): seq<Entity>
    decreases |lookups|
  {
    if lookups == [] then []
    else
      var n := |lookups| - 1;
      Resolved(lookups[..n]) + if lookups[n].Some? then [UserEntity(lookups[n].value)] else []
  }

  lemma {:induction false} AllReceived(pcs: seq<Pc>, lookups: seq<Lookup>, e: Entity)
    requires |pcs| == |lookups| && AllDone(pcs)
    ensures Received(pcs, lookups, e) == Count(Resolved(lookups), e)
    decreases |pcs|
  {
    if pcs != [] {
      var n := |pcs| - 1;
      AllReceived(pcs[..n], lookups[..n], e);
    }
  }

  lemma {:induction false} ResolvedAreUsers(lookups: seq<Lookup>)
    ensures forall e :: e in Resolved(lookups) <==>
            exists i :: 0 <= i < |lookups| && lookups[i].Some? && e == UserEntity(lookups[i].value)
    decreases |lookups|
  {
    if lookups != [] {
      var n := |lookups| - 1;
      ResolvedAreUsers(lookups[..n]);
      forall e
        ensures e in Resolved(lookups) <==>
                exists i :: 0 <= i < |lookups| && lookups[i].Some? && e == UserEntity(lookups[i].value)
      {
        if i :| 0 <= i < |lookups| && lookups[i].Some? && e == UserEntity(lookups[i].value) {
          assert i < n ==> lookups[..n][i] == lookups[i];
        }
        if i :| 0 <= i < n && lookups[..n][i].Some? && e == UserEntity(lookups[..n][i].value) {
          assert lookups[i] == lookups[..n][i];
        }
      }
    }
  }

  /** The listing every interleaving has to produce. */
  function Listing(roleIds: seq<Snowflake>, lookups: seq<Lookup>): seq<Entity> {
    Sort(RoleEntities(roleIds), Key) + Sort(Resolved(lookups), Key)
  }

  /** Lookups that answer with one id answer with one user. */
  ghost predicate Consistent(lookups: seq<Lookup>) {
    forall i, j | 0 <= i < |lookups| && 0 <= j < |lookups| && lookups[i].Some? && lookups[j].Some?
      && lookups[i].value.0 == lookups[j].value.0 :: lookups[i] == lookups[j]
  }

  lemma SortOfKind(s: seq<Entity>, kind: Kind)
    requires forall e | e in s :: e.kind == kind
    ensures SortedBy(Sort(s, Key), Key) && forall e | e in Sort(s, Key) :: e in s && e.kind == kind
  {
    SortSorts(s, Key);
    forall e | e in Sort(s, Key)
      ensures e in s && e.kind == kind
    {
      MemberOfMultiset(Sort(s, Key), s, e);
    }
  }

  lemma ListingIsSorted(roleIds: seq<Snowflake>, lookups: seq<Lookup>)
    ensures SortedBy(Listing(roleIds, lookups), Key)
  {
    ResolvedAreUsers(lookups);
    SortOfKind(RoleEntities(roleIds), Role);
    SortOfKind(Resolved(lookups), User);
    var a, b := Sort(RoleEntities(roleIds), Key), Sort(Resolved(lookups), Key);
    forall i, j | 0 <= i < j < |a + b|
      ensures Key((a + b)[i]) <= Key((a + b)[j])
    {
      if i < |a| <= j {
        assert a[i] in a && b[j - |a|] in b;
      }
    }
  }

  lemma ListingKeys(roleIds: seq<Snowflake>, lookups: seq<Lookup>)
    requires Consistent(lookups)
    ensures KeysTellApart(Listing(roleIds, lookups), Key)
  {
    ResolvedAreUsers(lookups);
    SortOfKind(RoleEntities(roleIds), Role);
    SortOfKind(Resolved(lookups), User);
    var l := Listing(roleIds, lookups);
    forall i | 0 <= i < |l|
      ensures l[i] in RoleEntities(roleIds) || l[i] in Resolved(lookups)
    {
      assert l[i] in l;
      assert l[i] in Sort(RoleEntities(roleIds), Key) || l[i] in Sort(Resolved(lookups), Key);
    }
  }

  /**
   That listing: roles before users, ids ascending in each kind, every role and every fetched user as often as given.
   */
  lemma ListingIs(roleIds: seq<Snowflake>, lookups: seq<Lookup>)
    ensures var l := Listing(roleIds, lookups);
            && (forall i, j | 0 <= i < j < |l| ::
                  && (l[i].kind == Role || l[j].kind == User)
                  && (l[i].kind == l[j].kind ==> l[i].id <= l[j].id))
            && (forall e :: multiset(l)[e] == multiset(RoleEntities(roleIds))[e] + multiset(Resolved(lookups))[e])
  {
    var l := Listing(roleIds, lookups);
    ListingIsSorted(roleIds, lookups);
    forall i, j | 0 <= i < j < |l|
      ensures l[i].kind == Role || l[j].kind == User
      ensures l[i].kind == l[j].kind ==> l[i].id <= l[j].id
    {
      assert Key(l[i]) <= Key(l[j]);
    }
  }

  /**
   Whatever the interleaving and however the sort breaks ties, the finished listing is the same:
   each role once, then each user that could be fetched once, ids ascending.
   */
  lemma SameListing(roleIds: seq<Snowflake>, lookups: seq<Lookup>, idleReady: bool,
                    states: seq<State>, steps: seq<Step>, sorted: seq<Entity>)
    requires IsRun(roleIds, lookups, idleReady, states, steps) && Finished(states[|steps|]) && Consistent(lookups)
    requires multiset(sorted) == multiset(states[|steps|].data) && SortedBy(sorted, Key)
    ensures sorted == Listing(roleIds, lookups)
  {
    RunKeepsInv(roleIds, lookups, idleReady, states, steps, |steps|);
    forall e
      ensures multiset(Listing(roleIds, lookups))[e] == multiset(sorted)[e]
    {
      AllReceived(states[|steps|].pcs, lookups, e);
      assert Count(states[|steps|].data, e) == multiset(sorted)[e];
    }
    ListingIsSorted(roleIds, lookups);
    ListingKeys(roleIds, lookups);
    SortedIsUnique(Listing(roleIds, lookups), sorted, Key);
  }
}
