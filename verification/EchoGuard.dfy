/**
 The bounded map of recently sent message identities. Against the unbounded
 history of everything ever reserved or recognised, it answers exactly as a
 cache with a time to live and least-recently-used eviction.
 */
module EchoGuard {
  import opened Prelude

  datatype Identity = Identity(sender: string, conversation: string, messageId: string)
  datatype Entry = Entry(key: Identity, expiry: real)
  datatype Touch = Touch(key: Identity, time: real)

  // --------------------------------------------------- the specification

  /** When `k` was last touched. */
  function LastTime(touches: seq<Touch>, k: Identity): Option<real> {
    if touches == [] then None
    else if touches[|touches| - 1].key == k then Some(touches[|touches| - 1].time)
    else LastTime(touches[..|touches| - 1], k)
  }

  /** The identities touched after the last touch of `k`. */
  function TouchedSince(touches: seq<Touch>, k: Identity): set<Identity> {
    if touches == [] || touches[|touches| - 1].key == k then {}
    else TouchedSince(touches[..|touches| - 1], k) + {touches[|touches| - 1].key}
  }

  /** Last touched less than `ttl` ago, and fewer than `cap` distinct identities touched since. */
  ghost predicate Remembered(touches: seq<Touch>, k: Identity, now: real, cap: nat, ttl: real) {
    var t := LastTime(touches, k);
    t.Some? && now < t.value + ttl && |TouchedSince(touches, k)| < cap
  }

  // --------------------------------------------- ordered maps as sequences

  /** The expiry stored for `k`. */
  function Lookup(es: seq<Entry>, k: Identity): Option<real> {
    if es == [] then None else if es[0].key == k then Some(es[0].expiry) else Lookup(es[1..], k)
  }

  predicate Has(es: seq<Entry>, k: Identity) {
    Lookup(es, k).Some?
  }

  /** Pop identity `k`, if present. */
  function Without(es: seq<Entry>, k: Identity): seq<Entry> {
    if es == [] then [] else if es[0].key == k then es[1..] else [es[0]] + Without(es[1..], k)
  }

  /** What pruning the front leaves: in expiry order, exactly the living. */
  function Alive(es: seq<Entry>, now: real): seq<Entry> {
    if es == [] || es[0].expiry > now then es else Alive(es[1..], now)
  }

  /** What popping from the front leaves. */
  function Newest(es: seq<Entry>, n: nat): seq<Entry> {
    if |es| <= n then es else Newest(es[1..], n)
  }

  /** Keys are distinct and expiries ascend. */
  predicate InOrder(es: seq<Entry>) {
    es == [] ||
    (!Has(es[1..], es[0].key) && (|es| > 1 ==> es[0].expiry <= es[1].expiry) && InOrder(es[1..]))
  }

  predicate UpTo(es: seq<Entry>, limit: real) {
    es == [] || (es[0].expiry <= limit && UpTo(es[1..], limit))
  }

  /** Every identity ever touched once, by its last touch, oldest first. */
  ghost function Recent(touches: seq<Touch>, ttl: real): seq<Entry> {
    if touches == [] then []
    else
      var t := touches[|touches| - 1];
      Without(Recent(touches[..|touches| - 1], ttl), t.key) + [Entry(t.key, t.time + ttl)]
  }

  ghost predicate TimesOrdered(touches: seq<Touch>, clock: real) {
    touches == [] ||
    (touches[|touches| - 1].time <= clock && TimesOrdered(touches[..|touches| - 1], touches[|touches| - 1].time))
  }

  /** Map order is expiry order, and what is alive is the `cap` most recent of all that is alive. */
  ghost predicate Faithful(entries: seq<Entry>, touches: seq<Touch>, cap: nat, ttl: real, clock: real) {
    InOrder(entries) && |entries| <= cap && UpTo(entries, clock + ttl) && TimesOrdered(touches, clock) &&
    Alive(entries, clock) == Newest(Alive(Recent(touches, ttl), clock), cap)
  }

  // ------------------------------------------------------------- the class

  class Guard {
    const cap: nat
    const ttl: real
    var entries: seq<Entry>
    ghost var touches: seq<Touch>
    ghost var clock: real

    ghost predicate Valid()
      reads this
    {
      Faithful(entries, touches, cap, ttl, clock)
    }

    constructor (cap: nat, ttl: real)
      ensures Valid() && touches == [] && this.cap == cap && this.ttl == ttl
    {
      this.cap := cap;
      this.ttl := ttl;
      entries := [];
      touches := [];
      clock := 0.0;
    }

    /** Drop expired entries from the front. */
    method Prune(now: real)
      modifies this`entries
      ensures entries == Alive(old(entries), now)
    {
      while entries != [] && entries[0].expiry <= now
        invariant Alive(entries, now) == Alive(old(entries), now)
        decreases |entries|
      {
        entries := entries[1..];
      }
    }

    /** Pop from the front until at most `cap` are left. */
    method Evict()
      modifies this`entries
      ensures entries == Newest(old(entries), cap)
    {
      while |entries| > cap
        invariant Newest(entries, cap) == Newest(old(entries), cap)
        decreases |entries|
      {
        entries := entries[1..];
      }
    }

    /** Prune, pop `k`, append it with a fresh expiry, evict from the front. */
    method Store(k: Identity, now: real)
      modifies this`entries
      ensures entries == Newest(Without(Alive(old(entries), now), k) + [Entry(k, now + ttl)], cap)
    {
      Prune(now);
      entries := Without(entries, k);
      entries := entries + [Entry(k, now + ttl)];
      Evict();
    }

    /** Record an identity before its message becomes visible. */
    method Reserve(k: Identity, now: real)
      requires Valid() && clock <= now
      modifies this
      ensures Valid() && clock == now
      ensures touches == if k.sender == "" || k.messageId == "" then old(touches) else old(touches) + [Touch(k, now)]
    {
      Later(entries, touches, cap, ttl, clock, now);
      clock := now;
      if k.sender != "" && k.messageId != "" {
        ReserveKeeps(entries, touches, cap, ttl, now, k);
        Store(k, now);
        touches := touches + [Touch(k, now)];
      }
    }

    /** True when this identity was sent within the time to live; a hit refreshes it. */
    method IsEcho(k: Identity, now: real) returns (echo: bool)
      requires Valid() && clock <= now
      modifies this
      ensures Valid() && clock == now
      ensures echo <==> Remembered(old(touches), k, now, cap, ttl)
      ensures touches == if echo then old(touches) + [Touch(k, now)] else old(touches)
    {
      LookupKeeps(entries, touches, cap, ttl, clock, now, k);
      clock := now;
      var expiry := Lookup(entries, k);
      if expiry == None {
        return false;
      }
      entries := Without(entries, k);
      echo := expiry.value > now;
      if echo {
        entries := entries + [Entry(k, now + ttl)];
        touches := touches + [Touch(k, now)];
      }
    }

    method Clear()
      requires Valid()
      modifies this
      ensures Valid() && touches == [] && entries == [] && clock == old(clock)
    {
      entries := [];
      touches := [];
    }
  }

  // ------------------------------------------------- proofs: one operation

  lemma {:induction false} AliveHas(es: seq<Entry>, now: real, k: Identity)
    requires InOrder(es)
    ensures Lookup(Alive(es, now), k) == if Has(es, k) && Lookup(es, k).value > now then Lookup(es, k) else None
  {
    if es == [] {
    } else if es[0].expiry > now {
      if Has(es, k) { LookupAtLeast(es, k); }
    } else {
      AliveHas(es[1..], now, k);
      if es[0].key == k { assert Lookup(es[1..], k) == None; }
    }
  }

  lemma {:induction false} LookupAtLeast(es: seq<Entry>, k: Identity)
    requires InOrder(es) && Has(es, k)
    ensures es[0].expiry <= Lookup(es, k).value
  {
    if es[0].key != k { LookupAtLeast(es[1..], k); }
  }

  lemma {:induction false} AliveShape(es: seq<Entry>, now: real)
    requires InOrder(es)
    ensures InOrder(Alive(es, now)) && |Alive(es, now)| <= |es| && Alive(Alive(es, now), now) == Alive(es, now)
  {
    if es != [] && es[0].expiry <= now { AliveShape(es[1..], now); }
  }

  lemma {:induction false} AliveUpTo(es: seq<Entry>, now: real, limit: real)
    requires UpTo(es, limit)
    ensures UpTo(Alive(es, now), limit)
  {
    if es != [] && es[0].expiry <= now { AliveUpTo(es[1..], now, limit); }
  }

  lemma {:induction false} AliveLater(es: seq<Entry>, clock: real, now: real)
    requires clock <= now
    ensures Alive(Alive(es, clock), now) == Alive(es, now)
  {
    if es != [] && es[0].expiry <= clock { AliveLater(es[1..], clock, now); }
  }

  lemma {:induction false} UpToLater(es: seq<Entry>, limit: real, limit': real)
    requires UpTo(es, limit) && limit <= limit'
    ensures UpTo(es, limit')
  {
    if es != [] { UpToLater(es[1..], limit, limit'); }
  }

  lemma {:induction false} WithoutHas(es: seq<Entry>, k: Identity, x: Identity)
    requires InOrder(es)
    ensures Lookup(Without(es, k), x) == if x == k then None else Lookup(es, x)
  {
    if es != [] && es[0].key != k { WithoutHas(es[1..], k, x); }
  }

  lemma {:induction false} WithoutNone(es: seq<Entry>, k: Identity)
    requires !Has(es, k)
    ensures Without(es, k) == es
  {
    if es != [] { WithoutNone(es[1..], k); }
  }

  lemma {:induction false} WithoutShape(es: seq<Entry>, k: Identity)
    requires InOrder(es)
    ensures InOrder(Without(es, k)) && !Has(Without(es, k), k)
    ensures |Without(es, k)| == if Has(es, k) then |es| - 1 else |es|
    ensures Without(es, k) != [] ==> es[0].expiry <= Without(es, k)[0].expiry
  {
    if es != [] && es[0].key != k {
      WithoutShape(es[1..], k);
      WithoutHas(es[1..], k, es[0].key);
      assert Without(es, k)[1..] == Without(es[1..], k);
    }
  }

  lemma {:induction false} WithoutUpTo(es: seq<Entry>, k: Identity, limit: real)
    requires UpTo(es, limit)
    ensures UpTo(Without(es, k), limit)
  {
    if es != [] && es[0].key != k {
      WithoutUpTo(es[1..], k, limit);
      assert Without(es, k)[1..] == Without(es[1..], k);
    }
  }

  /** Popping `k` and pruning commute. */
  lemma {:induction false} AliveWithout(es: seq<Entry>, k: Identity, now: real)
    requires InOrder(es)
    ensures Alive(Without(es, k), now) == Without(Alive(es, now), k)
  {
    if es == [] {
    } else if es[0].expiry > now {
      WithoutShape(es, k);
    } else if es[0].key == k {
      AliveHas(es[1..], now, k);
      WithoutNone(Alive(es[1..], now), k);
    } else {
      AliveWithout(es[1..], k, now);
      assert Without(es, k)[1..] == Without(es[1..], k);
    }
  }

  /** Appending the newest expiry: alive like the rest, or the whole map has expired. */
  lemma {:induction false} AliveSnoc(es: seq<Entry>, e: Entry, now: real)
    requires UpTo(es, e.expiry)
    ensures Alive(es + [e], now) == if e.expiry > now then Alive(es, now) + [e] else []
  {
    if es != [] {
      assert (es + [e])[1..] == es[1..] + [e];
      if es[0].expiry <= now { AliveSnoc(es[1..], e, now); }
    }
  }

  lemma {:induction false} SnocHas(es: seq<Entry>, e: Entry, k: Identity)
    ensures Lookup(es + [e], k) == if Has(es, k) then Lookup(es, k) else if e.key == k then Some(e.expiry) else None
  {
    if es != [] {
      assert (es + [e])[1..] == es[1..] + [e];
      SnocHas(es[1..], e, k);
    }
  }

  lemma {:induction false} SnocShape(es: seq<Entry>, e: Entry)
    requires InOrder(es) && !Has(es, e.key) && UpTo(es, e.expiry)
    ensures InOrder(es + [e]) && UpTo(es + [e], e.expiry)
  {
    if es != [] {
      assert (es + [e])[1..] == es[1..] + [e];
      SnocShape(es[1..], e);
      SnocHas(es[1..], e, es[0].key);
    }
  }

  lemma {:induction false} NewestShape(es: seq<Entry>, n: nat)
    requires InOrder(es)
    ensures InOrder(Newest(es, n)) && |Newest(es, n)| == Min(|es|, n)
  {
    if |es| > n { NewestShape(es[1..], n); }
  }

  lemma {:induction false} NewestUpTo(es: seq<Entry>, n: nat, limit: real)
    requires UpTo(es, limit)
    ensures UpTo(Newest(es, n), limit)
  {
    if |es| > n { NewestUpTo(es[1..], n, limit); }
  }

  lemma {:induction false} NewestHas(es: seq<Entry>, n: nat, k: Identity)
    requires Has(Newest(es, n), k)
    ensures Has(es, k)
  {
    if |es| > n { NewestHas(es[1..], n, k); }
  }

  /** In expiry order, the newest of the living are the living of the newest. */
  lemma {:induction false} NewestAlive(es: seq<Entry>, n: nat, now: real)
    requires InOrder(es)
    ensures Newest(Alive(es, now), n) == Alive(Newest(es, n), now)
  {
    AliveShape(es, now);
    if |es| > n {
      NewestAlive(es[1..], n, now);
    }
  }

  lemma {:induction false} NewestSnoc(es: seq<Entry>, e: Entry, n: nat)
    requires n >= 1
    ensures Newest(es + [e], n) == Newest(es, n - 1) + [e]
  {
    if |es| > n - 1 {
      assert (es + [e])[1..] == es[1..] + [e];
      NewestSnoc(es[1..], e, n);
    }
  }

  lemma {:induction false} NewestTwice(es: seq<Entry>, m: nat, n: nat)
    requires m <= n
    ensures Newest(Newest(es, n), m) == Newest(es, m)
  {
    if |es| > n { NewestTwice(es[1..], m, n); }
  }

  /** Making room for one: dropping `k` if it is among the newest `n`, else the oldest of them. */
  lemma {:induction false} NewestWithout(es: seq<Entry>, k: Identity, n: nat)
    requires InOrder(es) && n >= 1
    ensures Newest(Without(es, k), n - 1) ==
      if Has(Newest(es, n), k) then Without(Newest(es, n), k) else Newest(es, n - 1)
  {
    WithoutShape(es, k);
    if |es| <= n {
      if !Has(es, k) { WithoutNone(es, k); }
    } else if es[0].key == k {
      if Has(Newest(es[1..], n), k) { NewestHas(es[1..], n, k); }
    } else {
      NewestWithout(es[1..], k, n);
      assert Without(es, k)[1..] == Without(es[1..], k);
      WithoutShape(es[1..], k);
    }
  }

  /** Making room for one among the newest `n`, or in the whole: the newest `n - 1` agree. */
  lemma RoomForOne(es: seq<Entry>, k: Identity, n: nat)
    requires InOrder(es) && n >= 1
    ensures Newest(Without(Newest(es, n), k), n - 1) == Newest(Without(es, k), n - 1)
    ensures Has(Newest(es, n), k) ==> Newest(Without(es, k), n - 1) == Without(Newest(es, n), k)
  {
    var w := Newest(es, n);
    NewestShape(es, n);
    NewestWithout(es, k, n);
    WithoutShape(w, k);
    if !Has(w, k) {
      WithoutNone(w, k);
      NewestTwice(es, n - 1, n);
    }
  }

  lemma {:induction false} RecentShape(touches: seq<Touch>, ttl: real, clock: real)
    requires TimesOrdered(touches, clock)
    ensures InOrder(Recent(touches, ttl)) && UpTo(Recent(touches, ttl), clock + ttl)
  {
    if touches != [] {
      var init, t := touches[..|touches| - 1], touches[|touches| - 1];
      var before, e := Recent(init, ttl), Entry(t.key, t.time + ttl);
      RecentShape(init, ttl, t.time);
      WithoutShape(before, t.key);
      WithoutUpTo(before, t.key, t.time + ttl);
      SnocShape(Without(before, t.key), e);
      UpToLater(Without(before, t.key) + [e], t.time + ttl, clock + ttl);
    }
  }

  lemma TouchKeepsTimes(touches: seq<Touch>, t: Touch)
    requires TimesOrdered(touches, t.time)
    ensures TimesOrdered(touches + [t], t.time)
  {
    assert (touches + [t])[..|touches|] == touches;
  }

  lemma TimesLater(touches: seq<Touch>, clock: real, now: real)
    requires TimesOrdered(touches, clock) && clock <= now
    ensures TimesOrdered(touches, now)
  {
  }

  /** The newest `cap` living after touching `k`: room is made, then `k` is appended; or all have expired. */
  lemma TouchedNewest(touches: seq<Touch>, ttl: real, now: real, k: Identity, cap: nat)
    requires TimesOrdered(touches, now) && cap >= 1
    ensures
      Newest(Alive(Recent(touches + [Touch(k, now)], ttl), now), cap) ==
      if now + ttl > now then Newest(Without(Alive(Recent(touches, ttl), now), k), cap - 1) + [Entry(k, now + ttl)]
      else []
  {
    var r, e := Recent(touches, ttl), Entry(k, now + ttl);
    assert (touches + [Touch(k, now)])[..|touches|] == touches;
    RecentShape(touches, ttl, now);
    WithoutUpTo(r, k, now + ttl);
    AliveWithout(r, k, now);
    AliveSnoc(Without(r, k), e, now);
    NewestSnoc(Without(Alive(r, now), k), e, cap);
  }

  // ---------------------------------------------- proofs: the map is faithful

  /** Time passing keeps the map faithful. */
  lemma Later(entries: seq<Entry>, touches: seq<Touch>, cap: nat, ttl: real, clock: real, now: real)
    requires Faithful(entries, touches, cap, ttl, clock) && clock <= now
    ensures Faithful(entries, touches, cap, ttl, now)
  {
    var r := Recent(touches, ttl);
    RecentShape(touches, ttl, clock);
    AliveShape(r, clock);
    AliveLater(entries, clock, now);
    AliveLater(r, clock, now);
    NewestAlive(Alive(r, clock), cap, now);
    UpToLater(entries, clock + ttl, now + ttl);
    TimesLater(touches, clock, now);
  }

  lemma HitKeeps(entries: seq<Entry>, touches: seq<Touch>, cap: nat, ttl: real, now: real, k: Identity)
    requires Faithful(entries, touches, cap, ttl, now) && Has(Alive(entries, now), k)
    ensures Faithful(Without(entries, k) + [Entry(k, now + ttl)], touches + [Touch(k, now)], cap, ttl, now)
  {
    var e, living := Entry(k, now + ttl), Alive(Recent(touches, ttl), now);
    AliveHas(entries, now, k);
    WithoutShape(entries, k);
    WithoutUpTo(entries, k, now + ttl);
    SnocShape(Without(entries, k), e);
    TouchKeepsTimes(touches, Touch(k, now));
    AliveWithout(entries, k, now);
    AliveSnoc(Without(entries, k), e, now);
    RecentShape(touches, ttl, now);
    AliveShape(Recent(touches, ttl), now);
    RoomForOne(living, k, cap);
    TouchedNewest(touches, ttl, now, k, cap);
  }

  lemma DropKeeps(entries: seq<Entry>, touches: seq<Touch>, cap: nat, ttl: real, now: real, k: Identity)
    requires Faithful(entries, touches, cap, ttl, now) && !Has(Alive(entries, now), k)
    ensures Faithful(Without(entries, k), touches, cap, ttl, now)
  {
    WithoutShape(entries, k);
    WithoutUpTo(entries, k, now + ttl);
    AliveWithout(entries, k, now);
    WithoutNone(Alive(entries, now), k);
  }

  /** What is left after pruning, dropping `k`, appending it and evicting is again faithful. */
  lemma ReserveKeeps(entries: seq<Entry>, touches: seq<Touch>, cap: nat, ttl: real, now: real, k: Identity)
    requires Faithful(entries, touches, cap, ttl, now)
    ensures
      var next := Newest(Without(Alive(entries, now), k) + [Entry(k, now + ttl)], cap);
      Faithful(next, touches + [Touch(k, now)], cap, ttl, now)
  {
    ReserveKeepsOrder(entries, cap, ttl, now, k);
    TouchKeepsTimes(touches, Touch(k, now));
    if cap >= 1 {
      ReserveAlive(entries, cap, ttl, now, k);
      RecentShape(touches, ttl, now);
      AliveShape(Recent(touches, ttl), now);
      RoomForOne(Alive(Recent(touches, ttl), now), k, cap);
      TouchedNewest(touches, ttl, now, k, cap);
    } else {
      NewestNone(Without(Alive(entries, now), k) + [Entry(k, now + ttl)]);
      NewestNone(Alive(Recent(touches + [Touch(k, now)], ttl), now));
    }
  }

  lemma {:induction false} NewestNone(es: seq<Entry>)
    ensures Newest(es, 0) == []
  {
    if es != [] { NewestNone(es[1..]); }
  }

  lemma ReserveKeepsOrder(entries: seq<Entry>, cap: nat, ttl: real, now: real, k: Identity)
    requires InOrder(entries) && UpTo(entries, now + ttl)
    ensures var es := Newest(Without(Alive(entries, now), k) + [Entry(k, now + ttl)], cap);
      InOrder(es) && |es| <= cap && UpTo(es, now + ttl)
  {
    var living, e := Alive(entries, now), Entry(k, now + ttl);
    AliveShape(entries, now);
    AliveUpTo(entries, now, now + ttl);
    WithoutShape(living, k);
    WithoutUpTo(living, k, now + ttl);
    SnocShape(Without(living, k), e);
    NewestShape(Without(living, k) + [e], cap);
    NewestUpTo(Without(living, k) + [e], cap, now + ttl);
  }

  /** Everything kept of the living is living. */
  lemma ReserveAlive(entries: seq<Entry>, cap: nat, ttl: real, now: real, k: Identity)
    requires InOrder(entries) && UpTo(entries, now + ttl) && cap >= 1
    ensures
      var living, e := Alive(entries, now), Entry(k, now + ttl);
      Alive(Newest(Without(living, k) + [e], cap), now) ==
      if now + ttl > now then Newest(Without(living, k), cap - 1) + [e] else []
  {
    var living, e := Alive(entries, now), Entry(k, now + ttl);
    AliveShape(entries, now);
    AliveUpTo(entries, now, now + ttl);
    AliveWithout(living, k, now);
    WithoutShape(living, k);
    WithoutUpTo(living, k, now + ttl);
    SnocShape(Without(living, k), e);
    NewestAlive(Without(living, k) + [e], cap, now);
    AliveSnoc(Without(living, k), e, now);
    NewestSnoc(Without(living, k), e, cap);
  }

  /** A lookup answers as specified, and whichever way it leaves the map, the map stays faithful. */
  lemma LookupKeeps(entries: seq<Entry>, touches: seq<Touch>, cap: nat, ttl: real, clock: real, now: real, k: Identity)
    requires Faithful(entries, touches, cap, ttl, clock) && clock <= now
    ensures
      var found := Lookup(entries, k);
      var hit := found.Some? && found.value > now;
      (hit <==> Remembered(touches, k, now, cap, ttl)) &&
      if hit then Faithful(Without(entries, k) + [Entry(k, now + ttl)], touches + [Touch(k, now)], cap, ttl, now)
      else Faithful(entries, touches, cap, ttl, now) && Faithful(Without(entries, k), touches, cap, ttl, now)
  {
    Later(entries, touches, cap, ttl, clock, now);
    RememberedIsAlive(entries, touches, cap, ttl, now, k);
    AliveHas(entries, now, k);
    if Has(Alive(entries, now), k) {
      HitKeeps(entries, touches, cap, ttl, now, k);
    } else {
      DropKeeps(entries, touches, cap, ttl, now, k);
    }
  }

  // ------------------------------------------------- recency against the trace

  function Keys(es: seq<Entry>): set<Identity> {
    if es == [] then {} else {es[0].key} + Keys(es[1..])
  }

  /** The keys stored behind `k`. */
  function KeysBehind(es: seq<Entry>, k: Identity): set<Identity> {
    if es == [] then {} else if es[0].key == k then Keys(es[1..]) else KeysBehind(es[1..], k)
  }

  lemma {:induction false} KeysHas(es: seq<Entry>, k: Identity)
    ensures k in Keys(es) <==> Has(es, k)
  {
    if es != [] { KeysHas(es[1..], k); }
  }

  lemma {:induction false} KeysCount(es: seq<Entry>)
    requires InOrder(es)
    ensures |Keys(es)| == |es|
  {
    if es != [] {
      KeysCount(es[1..]);
      KeysHas(es[1..], es[0].key);
    }
  }

  lemma {:induction false} KeysSnoc(es: seq<Entry>, e: Entry)
    ensures Keys(es + [e]) == Keys(es) + {e.key}
  {
    if es != [] {
      assert (es + [e])[1..] == es[1..] + [e];
      KeysSnoc(es[1..], e);
    }
  }

  lemma {:induction false} KeysWithout(es: seq<Entry>, k: Identity)
    requires InOrder(es)
    ensures Keys(Without(es, k)) == Keys(es) - {k}
  {
    if es != [] {
      KeysHas(es[1..], es[0].key);
      if es[0].key != k {
        KeysWithout(es[1..], k);
        assert Without(es, k)[1..] == Without(es[1..], k);
      }
    }
  }

  lemma {:induction false} BehindWithout(es: seq<Entry>, dropped: Identity, k: Identity)
    requires InOrder(es) && k != dropped && Has(es, k)
    ensures KeysBehind(Without(es, dropped), k) == KeysBehind(es, k) - {dropped}
  {
    if es[0].key == k {
      KeysWithout(es[1..], dropped);
      assert Without(es, dropped)[1..] == Without(es[1..], dropped);
    } else if es[0].key == dropped {
      BehindNone(es[1..], k, dropped);
    } else {
      BehindWithout(es[1..], dropped, k);
      assert Without(es, dropped)[1..] == Without(es[1..], dropped);
    }
  }

  lemma {:induction false} BehindNone(es: seq<Entry>, k: Identity, x: Identity)
    requires !Has(es, x)
    ensures x !in KeysBehind(es, k)
  {
    if es != [] {
      if es[0].key == k { KeysHas(es[1..], x); } else { BehindNone(es[1..], k, x); }
    }
  }

  lemma {:induction false} BehindSnoc(es: seq<Entry>, e: Entry, k: Identity)
    requires Has(es, k)
    ensures KeysBehind(es + [e], k) == KeysBehind(es, k) + {e.key}
  {
    assert (es + [e])[1..] == es[1..] + [e];
    if es[0].key == k { KeysSnoc(es[1..], e); } else { BehindSnoc(es[1..], e, k); }
  }

  lemma {:induction false} BehindLast(es: seq<Entry>, e: Entry)
    requires !Has(es, e.key)
    ensures KeysBehind(es + [e], e.key) == {}
  {
    if es != [] {
      assert (es + [e])[1..] == es[1..] + [e];
      BehindLast(es[1..], e);
    } else {
      assert (es + [e])[1..] == [];
    }
  }

  /** `Recent` stores each last touch, with behind it exactly the identities touched since. */
  lemma {:induction false} RecentIsRecency(touches: seq<Touch>, ttl: real, clock: real, k: Identity)
    requires TimesOrdered(touches, clock)
    ensures
      var r, t := Recent(touches, ttl), LastTime(touches, k);
      Lookup(r, k) == (if t.Some? then Some(t.value + ttl) else None) &&
      (t.Some? ==> KeysBehind(r, k) == TouchedSince(touches, k))
  {
    if touches != [] {
      var init, t := touches[..|touches| - 1], touches[|touches| - 1];
      var before, e := Recent(init, ttl), Entry(t.key, t.time + ttl);
      RecentShape(init, ttl, t.time);
      RecentIsRecency(init, ttl, t.time, k);
      WithoutHas(before, t.key, k);
      SnocHas(Without(before, t.key), e, k);
      if k == t.key {
        BehindLast(Without(before, t.key), e);
      } else if Has(before, k) {
        BehindWithout(before, t.key, k);
        BehindSnoc(Without(before, t.key), e, k);
      }
    }
  }

  lemma {:induction false} AliveBehind(es: seq<Entry>, now: real, k: Identity)
    requires InOrder(es) && Has(Alive(es, now), k)
    ensures KeysBehind(Alive(es, now), k) == KeysBehind(es, k)
  {
    if es != [] && es[0].expiry <= now {
      AliveBehind(es[1..], now, k);
      AliveHas(es[1..], now, k);
    }
  }

  /** Among the newest `n` are the keys with fewer than `n` keys behind them. */
  lemma {:induction false} NewestByCount(es: seq<Entry>, n: nat, k: Identity)
    requires InOrder(es)
    ensures Has(Newest(es, n), k) <==> Has(es, k) && |KeysBehind(es, k)| < n
  {
    if |es| <= n {
      if Has(es, k) { BehindCount(es, k); }
    } else if es[0].key == k {
      KeysCount(es[1..]);
      if Has(Newest(es[1..], n), k) { NewestHas(es[1..], n, k); }
    } else {
      NewestByCount(es[1..], n, k);
    }
  }

  lemma {:induction false} BehindCount(es: seq<Entry>, k: Identity)
    requires InOrder(es) && Has(es, k)
    ensures |KeysBehind(es, k)| < |es|
  {
    if es[0].key == k { KeysCount(es[1..]); } else { BehindCount(es[1..], k); }
  }

  /** The map's living keys are exactly the identities the specification remembers. */
  lemma RememberedIsAlive(entries: seq<Entry>, touches: seq<Touch>, cap: nat, ttl: real, now: real, k: Identity)
    requires Faithful(entries, touches, cap, ttl, now)
    ensures Has(Alive(entries, now), k) <==> Remembered(touches, k, now, cap, ttl)
  {
    var r := Recent(touches, ttl);
    RecentShape(touches, ttl, now);
    RecentIsRecency(touches, ttl, now, k);
    AliveShape(r, now);
    AliveHas(r, now, k);
    NewestByCount(Alive(r, now), cap, k);
    if Has(Alive(r, now), k) {
      AliveBehind(r, now, k);
    }
  }
}
