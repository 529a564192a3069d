/**
 The ticket-open limiter: a counter per guild in Redis, advanced by one atomic
 script. Times are Redis clock ticks. A key is gone once the clock reaches its
 expiry.
 */
module RateLimit {
  import opened Wrappers
  import opened Digits

  /** A Redis key: its counter and, when one was set, its expiry. */
  datatype Entry = Entry(count: int, expiry: Option<int>)

  type Store = map<string, Entry>

  function KeyFor(guild: nat): string {
    "tickets:openratelimit:" + Print(guild, 10)
  }

  predicate Gone(e: Entry, now: int) {
    e.expiry.Some? && now >= e.expiry.value
  }

  function Current(store: Store, key: string, now: int): Option<Entry> {
    if key in store && !Gone(store[key], now) then Some(store[key]) else None
  }

  /** What one script call does to its key. */
  function Next(e: Option<Entry>, limit: int, interval: int, now: int): Option<Entry> {
    match e
    case None => if 0 < limit then Some(Entry(1, Some(now + interval))) else None
    case Some(k) => if k.count < limit then Some(k.(count := k.count + 1)) else e
  }

  predicate Grants(e: Option<Entry>, limit: int) {
    (if e.Some? then e.value.count else 0) < limit
  }

  function Put(store: Store, key: string, e: Option<Entry>): Store {
    if e.Some? then store[key := e.value] else store - {key}
  }

  class Redis {
    var store: Store

    constructor ()
      ensures store == map[]
    {
      store := map[];
    }

    method Get(key: string, now: int) returns (value: Option<int>)
      modifies this
      ensures store == Put(old(store), key, Current(old(store), key, now))
      ensures value ==
              if Current(old(store), key, now).Some? then Some(Current(old(store), key, now).value.count) else None
    {
      if key in store && Gone(store[key], now) {
        store := store - {key};
      }
      assert key !in store ==> store == store - {key};
      value := if key in store then Some(store[key].count) else None;
    }

    method Incr(key: string)
      modifies this
      ensures store == old(store)[key := if key in old(store) then old(store)[key].(count := old(store)[key].count + 1)
                                         else Entry(1, None)]
    {
      store := store[key := if key in store then store[key].(count := store[key].count + 1) else Entry(1, None)];
    }

    method Expire(key: string, ticks: int, now: int)
      modifies this
      ensures store == if key in old(store) then old(store)[key := old(store)[key].(expiry := Some(now + ticks))]
                       else old(store)
    {
      if key in store {
        store := store[key := store[key].(expiry := Some(now + ticks))];
      }
    }

    /** The script, on one key and at one instant. */
    method TakeToken(guild: nat, limit: int, interval: int, now: int) returns (success: bool)
      modifies this
      ensures var was := Current(old(store), KeyFor(guild), now);
              success == Grants(was, limit)
              && store == Put(old(store), KeyFor(guild), Next(was, limit, interval, now))
    {
      var key := KeyFor(guild);
      var current := Get(key, now);
      var notExists := current.None?;
      var count := if current.None? then 0 else current.value;
      success := false;
      if count < limit {
        Incr(key);
        if notExists {
          Expire(key, interval, now);
        }
        success := true;
      }
    }
  }

  // ----- one key over a whole trace -----

  ghost predicate InOrder(times: seq<int>) {
    forall i, j | 0 <= i < j < |times| :: times[i] <= times[j]
  }

  function Visible(e: Option<Entry>, now: int): Option<Entry> {
    if e.Some? && Gone(e.value, now) then None else e
  }

  /** The answers to the calls at these times, from key state e on. */
  function Answers(e: Option<Entry>, times: seq<int>, limit: int, interval: int): (grants: seq<bool>)
    ensures |grants| == |times|
    decreases times
  {
    if times == [] then []
    else
      var was := Visible(e, times[0]);
      [Grants(was, limit)] + Answers(Next(was, limit, interval, times[0]), times[1..], limit, interval)
  }

  /** How many calls in lo <= time < hi were granted. */
  function GrantedIn(times: seq<int>, grants: seq<bool>, lo: int, hi: int): nat
    requires |times| == |grants|
    decreases times
  {
    if times == [] then 0
    else (if grants[0] && lo <= times[0] < hi then 1 else 0) + GrantedIn(times[1..], grants[1..], lo, hi)
  }

  /** A key never lives without an expiry, and its counter stays within the limit. */
  ghost predicate Sound(e: Option<Entry>, limit: int) {
    e.Some? ==> 1 <= e.value.count <= limit && e.value.expiry.Some?
  }

  lemma NextIsSound(e: Option<Entry>, limit: int, interval: int, now: int)
    requires Sound(e, limit)
    ensures Sound(Next(Visible(e, now), limit, interval, now), limit)
  {
  }

  /** The most tokens any half-open stretch of one interval can hold. */
  function MostInOneInterval(limit: int, interval: int): int {
    if interval == 1 then limit else 2 * limit - 1
  }

  /** The room left in the stretch starting at w, from key state e with no call before t0. */
  function Room(e: Option<Entry>, limit: int, interval: int, w: int, t0: int): int
    requires e.Some? ==> e.value.expiry.Some?
  {
    if t0 >= w + interval then 0
    else if e.None? || e.value.expiry.value <= t0 then
      if t0 >= w then limit else MostInOneInterval(limit, interval)
    else
      var x := e.value.expiry.value;
      if x <= w then MostInOneInterval(limit, interval)
      else if x < w + interval then 2 * limit - e.value.count
      else limit - e.value.count
  }

  lemma {:induction false} StaysWithinRoom(e: Option<Entry>, times: seq<int>, limit: int, interval: int, w: int,
                                           t0: int)
    requires limit >= 1 && interval >= 1 && Sound(e, limit) && InOrder(times)
    requires times != [] ==> t0 <= times[0]
    ensures GrantedIn(times, Answers(e, times, limit, interval), w, w + interval) <= Room(e, limit, interval, w, t0)
    decreases times
  {
    if times != [] {
      var t := times[0];
      var was := Visible(e, t);
      var e' := Next(was, limit, interval, t);
      StaysWithinRoom(e', times[1..], limit, interval, w, t);
      assert Answers(e, times, limit, interval)[1..] == Answers(e', times[1..], limit, interval);
    }
  }

  // ----- which calls are granted -----

  /** The call that opened the window of call k: the first one after the end of the window before. */
  function Opener(times: seq<int>, interval: int, k: nat): (o: nat)
    requires k < |times|
    ensures o <= k
  {
    if k == 0 then 0
    else
      var o := Opener(times, interval, k - 1);
      if times[k] < times[o] + interval then o else k
  }

  /** The key after the first k calls, on no key before. */
  function KeyAfter(times: seq<int>, k: nat, limit: int, interval: int): Option<Entry>
    requires k <= |times|
  {
    if k == 0 then None
    else
      var o := Opener(times, interval, k - 1);
      Some(Entry(if k - o < limit then k - o else limit, Some(times[o] + interval)))
  }

  lemma KeyStep(times: seq<int>, k: nat, limit: int, interval: int)
    requires limit >= 1 && k < |times|
    ensures var was := Visible(KeyAfter(times, k, limit, interval), times[k]);
            && (Grants(was, limit) <==> k - Opener(times, interval, k) < limit)
            && Next(was, limit, interval, times[k]) == KeyAfter(times, k + 1, limit, interval)
  {
  }

  lemma {:induction false} AnswersFrom(times: seq<int>, k: nat, m: nat, limit: int, interval: int)
    requires limit >= 1 && k <= m < |times|
    ensures Answers(KeyAfter(times, k, limit, interval), times[k..], limit, interval)[m - k] <==>
            m - Opener(times, interval, m) < limit
    decreases m - k
  {
    var e, rest := KeyAfter(times, k, limit, interval), times[k..];
    KeyStep(times, k, limit, interval);
    assert rest[0] == times[k] && rest[1..] == times[k + 1..];
    var next := Answers(KeyAfter(times, k + 1, limit, interval), times[k + 1..], limit, interval);
    assert Answers(e, rest, limit, interval) == [Grants(Visible(e, times[k]), limit)] + next;
    if k < m {
      AnswersFrom(times, k + 1, m, limit, interval);
    }
  }

  /**
   From no key: a call is granted if and only if fewer than `limit` calls came before it in its window. Windows last one
   interval and are opened by the first call after the window before; nothing else moves them.
   */
  lemma GrantedIff(times: seq<int>, k: nat, limit: int, interval: int)
    requires limit >= 1 && k < |times|
    ensures Answers(None, times, limit, interval)[k] <==> k - Opener(times, interval, k) < limit
  {
    AnswersFrom(times, 0, k, limit, interval);
    assert times[0..] == times;
  }

  lemma {:induction false} OpenerIs(times: seq<int>, interval: int, k: nat)
    requires InOrder(times) && k < |times|
    ensures var o := Opener(times, interval, k);
            && (o < k ==> times[k] < times[o] + interval)
            && forall m | o <= m <= k :: Opener(times, interval, m) == o
  {
    if k > 0 {
      OpenerIs(times, interval, k - 1);
    }
  }

  lemma {:induction false} CountsAtLeast(times: seq<int>, grants: seq<bool>, a: nat, n: nat, lo: int, hi: int)
    requires |times| == |grants| && a + n <= |times|
    requires forall m | a <= m < a + n :: grants[m] && lo <= times[m] < hi
    ensures GrantedIn(times, grants, lo, hi) >= n
    decreases times
  {
    if times != [] {
      CountsAtLeast(times[1..], grants[1..], if a > 0 then a - 1 else 0, if a == 0 && n > 0 then n - 1 else n, lo, hi);
    }
  }

  /** The other half of the limiter: a call is refused only when the interval that ends with it holds `limit` tokens. */
  lemma RefusedWhenFull(times: seq<int>, k: nat, limit: int, interval: int)
    requires limit >= 1 && InOrder(times) && k < |times|
    requires !Answers(None, times, limit, interval)[k]
    ensures GrantedIn(times, Answers(None, times, limit, interval), times[k] - interval + 1, times[k] + 1) >= limit
  {
    var o, grants := Opener(times, interval, k), Answers(None, times, limit, interval);
    GrantedIff(times, k, limit, interval);
    OpenerIs(times, interval, k);
    forall m | o <= m < o + limit
      ensures grants[m] && times[k] - interval + 1 <= times[m] < times[k] + 1
    {
      GrantedIff(times, m, limit, interval);
      assert times[o] <= times[m] <= times[k];
    }
    CountsAtLeast(times, grants, o, limit, times[k] - interval + 1, times[k] + 1);
  }

  // ----- the bound is attained -----

  function Burst(t: int, n: nat): seq<int> {
    seq(n, _ => t)
  }

  lemma {:induction false} BurstIsGranted(k: Entry, t: int, n: nat, rest: seq<int>, limit: int, interval: int, lo: int,
                                          hi: int)
    requires !Gone(k, t) && k.count + n <= limit
    ensures GrantedIn(Burst(t, n) + rest, Answers(Some(k), Burst(t, n) + rest, limit, interval), lo, hi)
         == (if lo <= t < hi then n else 0)
            + GrantedIn(rest, Answers(Some(k.(count := k.count + n)), rest, limit, interval), lo, hi)
    decreases n
  {
    var times := Burst(t, n) + rest;
    if n == 0 {
      assert times == rest;
    } else {
      var k' := k.(count := k.count + 1);
      assert times[1..] == Burst(t, n - 1) + rest;
      BurstIsGranted(k', t, n - 1, rest, limit, interval, lo, hi);
      assert k'.(count := k'.count + (n - 1)) == k.(count := k.count + n);
      assert Answers(Some(k), times, limit, interval)[1..] == Answers(Some(k'), times[1..], limit, interval);
    }
  }

  /** One early token, a burst just before the expiry, a full burst just after it. */
  function WorstCase(limit: int, interval: int): seq<int>
    requires limit >= 1
  {
    [0] + (Burst(interval - 1, limit - 1) + ([interval] + Burst(interval, limit - 1)))
  }

  /** The second half of the worst case: a fresh key, then the rest of the limit, at one instant. */
  lemma FullBurst(t: int, limit: int, interval: int, e: Option<Entry>, lo: int, hi: int)
    requires limit >= 1 && interval >= 1 && Visible(e, t).None?
    ensures var times := [t] + Burst(t, limit - 1);
            GrantedIn(times, Answers(e, times, limit, interval), lo, hi) == if lo <= t < hi then limit else 0
  {
    var times := [t] + Burst(t, limit - 1);
    var k := Entry(1, Some(t + interval));
    BurstIsGranted(k, t, limit - 1, [], limit, interval, lo, hi);
    assert times[1..] == Burst(t, limit - 1) + [];
    assert Answers(e, times, limit, interval)[1..] == Answers(Some(k), times[1..], limit, interval);
  }

  function FullestStart(interval: int): int {
    if interval == 1 then 0 else interval - 1
  }

  lemma BoundIsAttained(limit: int, interval: int)
    requires limit >= 1 && interval >= 1
    ensures var times, w := WorstCase(limit, interval), FullestStart(interval);
            && InOrder(times)
            && GrantedIn(times, Answers(None, times, limit, interval), w, w + interval)
               == MostInOneInterval(limit, interval)
  {
    var times := WorstCase(limit, interval);
    var w := FullestStart(interval);
    var first := Entry(1, Some(interval));
    var tail := [interval] + Burst(interval, limit - 1);
    assert times[1..] == Burst(interval - 1, limit - 1) + tail;
    assert Answers(None, times, limit, interval)[1..] == Answers(Some(first), times[1..], limit, interval);
    BurstIsGranted(first, interval - 1, limit - 1, tail, limit, interval, w, w + interval);
    FullBurst(interval, limit, interval, Some(first.(count := limit)), w, w + interval);
  }

  // ----- all guilds at once -----

  datatype Call = Call(guild: nat, now: int)

  /** The answers to a whole trace of calls, and the store it leaves. */
  function Serve(store: Store, calls: seq<Call>, limit: int, interval: int): (r: (seq<bool>, Store))
    ensures |r.0| == |calls|
    decreases calls
  {
    if calls == [] then ([], store)
    else
      var key := KeyFor(calls[0].guild);
      var was := Current(store, key, calls[0].now);
      var rest := Serve(Put(store, key, Next(was, limit, interval, calls[0].now)), calls[1..], limit, interval);
      ([Grants(was, limit)] + rest.0, rest.1)
  }

  function TimesOf(calls: seq<Call>, guild: nat): seq<int>
    decreases calls
  {
    if calls == [] then []
    else (if calls[0].guild == guild then [calls[0].now] else []) + TimesOf(calls[1..], guild)
  }

  /** Tokens granted to one guild in lo <= time < hi. */
  function TokensOf(calls: seq<Call>, grants: seq<bool>, guild: nat, lo: int, hi: int): nat
    requires |calls| == |grants|
    decreases calls
  {
    if calls == [] then 0
    else (if calls[0].guild == guild && grants[0] && lo <= calls[0].now < hi then 1 else 0)
         + TokensOf(calls[1..], grants[1..], guild, lo, hi)
  }

  function EntryOf(store: Store, guild: nat): Option<Entry> {
    if KeyFor(guild) in store then Some(store[KeyFor(guild)]) else None
  }

  lemma KeysAreDistinct(g: nat, h: nat)
    ensures KeyFor(g) == KeyFor(h) ==> g == h
  {
    var p := "tickets:openratelimit:";
    if KeyFor(g) == KeyFor(h) {
      assert Print(g, 10) == KeyFor(g)[|p|..];
      assert Print(h, 10) == KeyFor(h)[|p|..];
      PrintInjective(g, h, 10);
    }
  }

  /** Guilds do not disturb each other: a guild's tokens are those of its own calls alone. */
  lemma {:induction false} GuildsAreIndependent(store: Store, calls: seq<Call>, guild: nat, limit: int, interval: int,
                                                lo: int, hi: int)
    ensures TokensOf(calls, Serve(store, calls, limit, interval).0, guild, lo, hi)
         == GrantedIn(TimesOf(calls, guild), Answers(EntryOf(store, guild), TimesOf(calls, guild), limit, interval),
                      lo, hi)
    decreases calls
  {
    if calls != [] {
      var call := calls[0];
      var key := KeyFor(call.guild);
      var was := Current(store, key, call.now);
      var store' := Put(store, key, Next(was, limit, interval, call.now));
      GuildsAreIndependent(store', calls[1..], guild, limit, interval, lo, hi);
      assert Serve(store, calls, limit, interval).0[1..] == Serve(store', calls[1..], limit, interval).0;
      var times := TimesOf(calls, guild);
      if call.guild == guild {
        assert times[1..] == TimesOf(calls[1..], guild);
        assert was == Visible(EntryOf(store, guild), call.now);
        assert EntryOf(store', guild) == Next(was, limit, interval, call.now);
        assert Answers(EntryOf(store, guild), times, limit, interval)[1..]
            == Answers(EntryOf(store', guild), times[1..], limit, interval);
      } else {
        KeysAreDistinct(call.guild, guild);
        assert EntryOf(store', guild) == EntryOf(store, guild);
        assert times == TimesOf(calls[1..], guild);
      }
    }
  }

  /** Call k of the trace gets what the call with the same place among the guild's own calls gets. */
  ghost predicate AnsweredAlone(store: Store, calls: seq<Call>, k: nat, limit: int, interval: int)
    requires k < |calls|
  {
    var g := calls[k].guild;
    var times, n := TimesOf(calls, g), |TimesOf(calls[..k], g)|;
    && n < |times| && times[n] == calls[k].now
    && (Serve(store, calls, limit, interval).0[k] <==> Answers(EntryOf(store, g), times, limit, interval)[n])
  }

  lemma FirstAnswer(store: Store, calls: seq<Call>, limit: int, interval: int)
    requires calls != []
    ensures AnsweredAlone(store, calls, 0, limit, interval)
  {
    var g := calls[0].guild;
    assert calls[..0] == [] && TimesOf(calls, g)[0] == calls[0].now;
    assert Current(store, KeyFor(g), calls[0].now) == Visible(EntryOf(store, g), calls[0].now);
  }

  function AfterFirst(store: Store, calls: seq<Call>, limit: int, interval: int): Store
    requires calls != []
  {
    var key := KeyFor(calls[0].guild);
    Put(store, key, Next(Current(store, key, calls[0].now), limit, interval, calls[0].now))
  }

  lemma EntryAfterFirst(store: Store, calls: seq<Call>, g: nat, limit: int, interval: int)
    requires calls != []
    ensures var e := EntryOf(store, g);
            EntryOf(AfterFirst(store, calls, limit, interval), g) ==
            if calls[0].guild == g then Next(Visible(e, calls[0].now), limit, interval, calls[0].now) else e
  {
    KeysAreDistinct(calls[0].guild, g);
  }

  lemma LaterAnswer(store: Store, calls: seq<Call>, k: nat, limit: int, interval: int)
    requires 0 < k < |calls|
             && AnsweredAlone(AfterFirst(store, calls, limit, interval), calls[1..], k - 1, limit, interval)
    ensures AnsweredAlone(store, calls, k, limit, interval)
  {
    var g := calls[k].guild;
    var e, times := EntryOf(store, g), TimesOf(calls, g);
    EntryAfterFirst(store, calls, g, limit, interval);
    FirstOfCalls(calls, k, g);
    if calls[0].guild == g {
      assert times[1..] == TimesOf(calls[1..], g);
      assert Answers(e, times, limit, interval)[1..]
          == Answers(Next(Visible(e, times[0]), limit, interval, times[0]), times[1..], limit, interval);
    } else {
      assert times == TimesOf(calls[1..], g);
    }
  }

  lemma {:induction false} AnswerIsOwn(store: Store, calls: seq<Call>, k: nat, limit: int, interval: int)
    requires k < |calls|
    ensures AnsweredAlone(store, calls, k, limit, interval)
    decreases k
  {
    if k == 0 {
      FirstAnswer(store, calls, limit, interval);
    } else {
      AnswerIsOwn(AfterFirst(store, calls, limit, interval), calls[1..], k - 1, limit, interval);
      LaterAnswer(store, calls, k, limit, interval);
    }
  }

  lemma FirstOfCalls(calls: seq<Call>, k: nat, g: nat)
    requires 0 < k <= |calls|
    ensures TimesOf(calls[..k], g)
         == (if calls[0].guild == g then [calls[0].now] else []) + TimesOf(calls[1..][..k - 1], g)
  {
    assert calls[..k][1..] == calls[1..][..k - 1];
  }

  lemma {:induction false} TimesInOrder(calls: seq<Call>, guild: nat)
    requires forall i, j | 0 <= i < j < |calls| :: calls[i].now <= calls[j].now
    ensures InOrder(TimesOf(calls, guild))
    ensures forall t | t in TimesOf(calls, guild) :: calls != [] && calls[0].now <= t
    decreases calls
  {
    if calls != [] {
      TimesInOrder(calls[1..], guild);
      var rest := TimesOf(calls[1..], guild);
      forall k | 0 <= k < |rest|
        ensures calls[0].now <= rest[k]
      {
        assert rest[k] in rest;
        assert calls[0].now <= calls[1].now <= rest[k];
      }
    }
  }

  ghost predicate StoreSound(store: Store, limit: int) {
    forall key | key in store :: Sound(Some(store[key]), limit)
  }

  /** In every reachable store each key carries an expiry and a counter within 1 .. limit. */
  lemma {:induction false} StoreStaysSound(store: Store, calls: seq<Call>, limit: int, interval: int)
    requires StoreSound(store, limit)
    ensures StoreSound(Serve(store, calls, limit, interval).1, limit)
    decreases calls
  {
    if calls != [] {
      var key := KeyFor(calls[0].guild);
      var was := Current(store, key, calls[0].now);
      NextIsSound(was, limit, interval, calls[0].now);
      StoreStaysSound(Put(store, key, Next(was, limit, interval, calls[0].now)), calls[1..], limit, interval);
    }
  }

  /** The sliding-window guarantee, for any limit and interval and any time-ordered trace over all guilds. */
  lemma SlidingWindowBound(calls: seq<Call>, guild: nat, limit: int, interval: int, w: int)
    requires limit >= 1 && interval >= 1
    requires forall i, j | 0 <= i < j < |calls| :: calls[i].now <= calls[j].now
    ensures TokensOf(calls, Serve(map[], calls, limit, interval).0, guild, w, w + interval)
         <= MostInOneInterval(limit, interval)
  {
    GuildsAreIndependent(map[], calls, guild, limit, interval, w, w + interval);
    TimesInOrder(calls, guild);
    var times := TimesOf(calls, guild);
    if times != [] {
      StaysWithinRoom(None, times, limit, interval, w, times[0]);
    }
  }

  /** Over any time-ordered trace of all guilds: a call is refused only after `limit` tokens within one interval. */
  lemma RefusedOnlyWhenFull(calls: seq<Call>, k: nat, limit: int, interval: int)
    requires limit >= 1 && k < |calls|
    requires forall i, j | 0 <= i < j < |calls| :: calls[i].now <= calls[j].now
    requires !Serve(map[], calls, limit, interval).0[k]
    ensures TokensOf(calls, Serve(map[], calls, limit, interval).0, calls[k].guild,
                     calls[k].now - interval + 1, calls[k].now + 1) >= limit
  {
    var g, t := calls[k].guild, calls[k].now;
    AnswerIsOwn(map[], calls, k, limit, interval);
    TimesInOrder(calls, g);
    RefusedWhenFull(TimesOf(calls, g), |TimesOf(calls[..k], g)|, limit, interval);
    GuildsAreIndependent(map[], calls, g, limit, interval, t - interval + 1, t + 1);
  }

  /** A token is granted if and only if fewer than `limit` of the guild's calls came before it in its window. */
  lemma TokenGrantedIff(calls: seq<Call>, k: nat, limit: int, interval: int)
    requires limit >= 1 && k < |calls|
    ensures var times, n := TimesOf(calls, calls[k].guild), |TimesOf(calls[..k], calls[k].guild)|;
            && n < |times|
            && (Serve(map[], calls, limit, interval).0[k] <==> n - Opener(times, interval, n) < limit)
  {
    AnswerIsOwn(map[], calls, k, limit, interval);
    GrantedIff(TimesOf(calls, calls[k].guild), |TimesOf(calls[..k], calls[k].guild)|, limit, interval);
  }

  const TICKET_OPEN_LIMIT := 10
  const TICKET_OPEN_LIMIT_INTERVAL := 30000  // thirty seconds of the millisecond clock

  /** With the shipped constants no thirty seconds hold more than nineteen tickets. */
  lemma ShippedBound(calls: seq<Call>, guild: nat, w: int)
    requires forall i, j | 0 <= i < j < |calls| :: calls[i].now <= calls[j].now
    ensures TokensOf(calls, Serve(map[], calls, TICKET_OPEN_LIMIT, TICKET_OPEN_LIMIT_INTERVAL).0,
                     guild, w, w + 30000) <= 19
  {
    SlidingWindowBound(calls, guild, TICKET_OPEN_LIMIT, TICKET_OPEN_LIMIT_INTERVAL, w);
  }
}
