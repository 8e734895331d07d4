/** The three critical sections under the pool's lock keep the invariant. */
module BridgePoolSteps {
  import opened Basics
  import opened PoolKeys
  import opened Messages
  import opened Pool
  import opened BridgeSystem
  import opened BridgeInvariants
  import opened BridgeSteps

  lemma {:induction false} PoolOkLater(idle: Idle, maxIdle: int, now: real, later: real)
    requires PoolOk(idle, maxIdle, now) && now <= later
    ensures PoolOk(idle, maxIdle, later)
  {
  }

  /** Buckets that only shrink, and lose what changes owner, stay owned. */
  lemma {:induction false} ShrunkBucketsOwned(cfg: Config, s: State, s': State, xs: seq<SocketId>)
    requires Inv(cfg, s)
    requires s.sockets.Keys <= s'.sockets.Keys
    requires forall x :: x in s.sockets && x !in xs ==> s'.sockets[x] == s.sockets[x]
    requires PoolOk(s'.idle, cfg.maxIdle, s'.clock) && s'.idle.Keys <= s.idle.Keys
    requires forall k :: k in s'.idle ==> Shrunk(s'.idle[k], s.idle[k], xs)
    ensures IdleOk(cfg, s')
  {
    forall k | k in s'.idle ensures BucketOwned(s'.sockets, k, s'.idle[k]) {
      assert BucketOwned(s.sockets, k, s.idle[k]) && Shrunk(s'.idle[k], s.idle[k], xs);
    }
  }

  ghost predicate Shrunk(bucket': seq<IdleEntry>, bucket: seq<IdleEntry>, xs: seq<SocketId>) {
    && NoDuplicates(Ids(bucket'))
    && forall x :: x in Ids(bucket') ==> x in Ids(bucket) && x !in xs
  }

  /** A task that held nothing takes sockets out of the pool. */
  lemma {:induction false} PoolTakes(cfg: Config, s: State, s': State, t: TaskId, xs: seq<SocketId>)
    requires Inv(cfg, s)
    requires s'.sockets == Reown(s, xs, Held(t)).sockets
    requires t in s'.tasks && s'.tasks == s.tasks[t := s'.tasks[t]] && Sockets(s'.tasks[t]) == xs && NoDuplicates(xs)
    requires t in s.tasks ==> Sockets(s.tasks[t]) == []
    requires forall x :: x in xs ==> x in s.sockets && s.sockets[x].owner.Pooled?
    requires forall x :: x in s.sockets && x !in xs && s.sockets[x].owner.Pooled? ==>
      x in Ids(Bucket(s'.idle, s.sockets[x].owner.key))
    requires PoolOk(s'.idle, cfg.maxIdle, s'.clock) && s'.idle.Keys <= s.idle.Keys
    requires forall k :: k in s'.idle ==> Shrunk(s'.idle[k], s.idle[k], xs)
    requires BodyOk(cfg, s'.tasks[t], s'.sockets)
    ensures Inv(cfg, s')
  {
    assert forall x :: x in xs ==> SocketOk(cfg, s, x);
    ShrunkBucketsOwned(cfg, s, s', xs);
    HoldersAreIn(cfg, s, t);
    var taken := set x | x in xs;
    hide Inv, BodyOk, IdleOk, PoolOk, Bucket, Shrunk, OnlyTouches;
    forall x | x in taken ensures x in s'.sockets && SocketOk(cfg, s', x) {
      EvictedOk(cfg, s, s', t, x);
    }
    hide SocketOk;
    TakesFrame(s, s', t, xs);
    assert TaskOk(cfg, s', t);
    hide TaskOk;
    TouchedIsEnough(cfg, s, s', {t}, taken);
  }

  lemma {:induction false} TakesFrame(s: State, s': State, t: TaskId, xs: seq<SocketId>)
    requires s'.sockets == Reown(s, xs, Held(t)).sockets
    requires t in s'.tasks && s'.tasks == s.tasks[t := s'.tasks[t]]
    requires t in s.tasks ==> Sockets(s.tasks[t]) == []
    requires forall x :: x in xs ==> x in s.sockets && s.sockets[x].owner.Pooled?
    ensures OnlyTouches(s, s', {t}, set x | x in xs)
  {
    hide Sockets;
  }

  // ---- aclose ----

  /** Every pooled socket is in the flattened pool exactly once. */
  lemma {:induction false} FlattenedPool(idle: Idle, sockets: map<SocketId, Socket>, order: seq<PoolKey>)
    requires NoDuplicates(order)
    requires forall k :: k in order && k in idle ==> BucketOwned(sockets, k, idle[k])
    ensures var xs := Ids(Flatten(idle, order));
      && NoDuplicates(xs)
      && (forall x :: x in xs ==> x in sockets && sockets[x].owner.Pooled? && sockets[x].owner.key in order)
      && (forall k, x :: k in order && x in Ids(Bucket(idle, k)) ==> x in xs)
  {
    if order != [] {
      var k, rest := order[0], order[1..];
      assert order == [k] + rest;
      FlattenedPool(idle, sockets, rest);
      assert k !in rest by {
        forall i | 0 <= i < |rest| ensures rest[i] != k { assert order[i + 1] == rest[i] && order[0] == k; }
      }
      var bucket, tail := Ids(Bucket(idle, k)), Ids(Flatten(idle, rest));
      assert Ids(Flatten(idle, order)) == bucket + tail;
      forall x | x in bucket ensures x in sockets && sockets[x].owner == Pooled(k) {
      }
      JoinDistinct(bucket, tail);
    }
  }

  lemma {:induction false} JoinDistinct<T>(a: seq<T>, b: seq<T>)
    requires NoDuplicates(a) && NoDuplicates(b) && forall x :: x in a ==> x !in b
    ensures NoDuplicates(a + b)
  {
    forall i, j | 0 <= i < j < |a + b| ensures (a + b)[i] != (a + b)[j] {
      if i < |a| <= j { assert a[i] in a && b[j - |a|] in b; }
    }
  }

  lemma {:induction false} TakeAllIdleKeeps(cfg: Config, s: State, t: TaskId, order: seq<PoolKey>)
    requires Inv(cfg, s) && t !in s.tasks && Enumerates(order, s.idle.Keys)
    ensures Inv(cfg, TakeAllIdle(s, t, order))
  {
    var s', xs := TakeAllIdle(s, t, order), Ids(Flatten(s.idle, order));
    FlattenedPool(s.idle, s.sockets, order);
    forall x | x in s.sockets && s.sockets[x].owner.Pooled? ensures x in xs {
      assert SocketOk(cfg, s, x);
    }
    PoolTakes(cfg, s, s', t, xs);
  }

  // ---- _checkout ----

  /** What a checkout takes from a bucket and what it leaves there are distinct sockets. */
  lemma {:induction false} TakenAndKept(bucket: seq<IdleEntry>, kept: seq<IdleEntry>, selected: seq<IdleEntry>, stale: seq<IdleEntry>)
    requires bucket == kept + selected + Reverse(stale) && |selected| <= 1
    requires NoDuplicates(Ids(bucket))
    ensures NoDuplicates(Ids(stale) + Ids(selected)) && NoDuplicates(Ids(kept))
    ensures forall x :: x in Ids(kept) ==> x !in Ids(stale) + Ids(selected)
    ensures forall x :: x in Ids(bucket) <==> x in Ids(kept) || x in Ids(stale) + Ids(selected)
  {
    var all, taken, n := Ids(bucket), Ids(stale) + Ids(selected), |bucket|;
    forall i | 0 <= i < |taken| ensures taken[i] == all[n - 1 - i] {
      if i < |stale| { assert Reverse(stale)[|stale| - 1 - i] == stale[i]; }
    }
    forall i | 0 <= i < |kept| ensures Ids(kept)[i] == all[i] { }
    forall i, j | 0 <= i < j < |taken| ensures taken[i] != taken[j] {
      assert taken[i] == all[n - 1 - i] && taken[j] == all[n - 1 - j];
    }
    forall i | 0 <= i < n ensures all[i] in Ids(kept) || all[i] in taken {
      if i < |kept| { assert Ids(kept)[i] == all[i]; } else { assert taken[n - 1 - i] == all[i]; }
    }
  }

  lemma {:induction false} CheckedOutState(cfg: Config, s: State, t: TaskId, now: real, open: set<SocketId>)
    requires IsRequest(s, t) && CreateRequest(s.tasks[t].req.body).Ok? && cfg.pooled && s.tasks[t].phase.Starting?
    ensures var c, s' := CheckoutFrom(s.idle, Key(cfg, s.tasks[t].req), now, cfg.idleTimeout, open), Begin(cfg, s, t, now, open);
      && s'.sockets == Reown(s, Taken(c), Held(t)).sockets && s'.idle == c.idle && s'.clock == now
      && t in s'.tasks && s'.tasks == s.tasks[t := s'.tasks[t]] && Sockets(s'.tasks[t]) == Taken(c)
      && Sockets(s.tasks[t]) == []
  {
    hide CheckoutFrom, Key;
  }

  /** The sockets that the request took are ready for it. */
  lemma {:induction false} CheckedOutBody(cfg: Config, s: State, t: TaskId, now: real, open: set<SocketId>)
    requires Inv(cfg, s) && IsRequest(s, t) && s.tasks[t].phase.Starting? && cfg.pooled && CreateRequest(s.tasks[t].req.body).Ok?
    ensures var s' := Begin(cfg, s, t, now, open);
      && (forall x :: x in Sockets(s'.tasks[t]) ==> x in s'.sockets)
      && BodyOk(cfg, s'.tasks[t], s'.sockets)
  {
    var key := Key(cfg, s.tasks[t].req);
    CheckoutTakes(cfg, s, key, now, open);
    CheckedOutState(cfg, s, t, now, open);
    assert TaskOk(cfg, s, t);
    assert forall x :: x in s.sockets && s.sockets[x].owner == Pooled(key) ==> SocketOk(cfg, s, x);
    hide Inv, CheckoutFrom, Shrunk, Bucket;
  }

  lemma {:induction false} CheckoutKeeps(cfg: Config, s: State, t: TaskId, now: real, open: set<SocketId>)
    requires Inv(cfg, s) && IsRequest(s, t) && s.tasks[t].phase.Starting? && now >= s.clock && cfg.pooled
    requires CreateRequest(s.tasks[t].req.body).Ok?
    ensures Inv(cfg, Begin(cfg, s, t, now, open))
  {
    var key := Key(cfg, s.tasks[t].req);
    var c := CheckoutFrom(s.idle, key, now, cfg.idleTimeout, open);
    var s' := Begin(cfg, s, t, now, open);
    CheckoutTakes(cfg, s, key, now, open);
    PoolOkLater(s.idle, cfg.maxIdle, s.clock, now);
    CheckoutKeepsPool(s.idle, cfg.maxIdle, key, now, cfg.idleTimeout, open);
    CheckedOutBody(cfg, s, t, now, open);
    CheckedOutState(cfg, s, t, now, open);
    hide Inv, Begin, CheckoutFrom, BodyOk, PoolOk, Shrunk, CreateRequest, Key;
    PoolTakes(cfg, s, s', t, Taken(c));
  }

  lemma {:induction false} CheckoutShrinks(idle: Idle, key: PoolKey, now: real, timeout: real, open: set<SocketId>)
    ensures var c := CheckoutFrom(idle, key, now, timeout, open);
      c.idle.Keys <= idle.Keys && forall k :: k in c.idle && k != key ==> c.idle[k] == idle[k]
  {
    CheckoutConserves(idle, key, now, timeout, open);
  }

  function Taken(c: CheckoutResult): seq<SocketId> {
    Ids(c.stale) + if c.selected.Some? then [c.selected.value.socket] else []
  }

  lemma {:induction false} TakenIs(c: CheckoutResult, selected: seq<IdleEntry>)
    requires selected == if c.selected.Some? then [c.selected.value] else []
    ensures Taken(c) == Ids(c.stale) + Ids(selected)
  {
    assert Ids(selected) == if c.selected.Some? then [c.selected.value.socket] else [];
  }

  lemma {:induction false} CheckoutSplits(idle: Idle, key: PoolKey, now: real, timeout: real, open: set<SocketId>)
    requires NoDuplicates(Ids(Bucket(idle, key)))
    ensures var c := CheckoutFrom(idle, key, now, timeout, open);
      && NoDuplicates(Taken(c)) && Shrunk(Bucket(c.idle, key), Bucket(idle, key), Taken(c))
      && forall x :: x in Ids(Bucket(idle, key)) <==> x in Ids(Bucket(c.idle, key)) || x in Taken(c)
  {
    var c := CheckoutFrom(idle, key, now, timeout, open);
    var selected := if c.selected.Some? then [c.selected.value] else [];
    TakenIs(c, selected);
    CheckoutConserves(idle, key, now, timeout, open);
    hide CheckoutFrom, Bucket, Reverse, Ids, NoDuplicates, Taken;
    TakenAndKept(Bucket(idle, key), Bucket(c.idle, key), selected, c.stale);
  }

  /** The sockets that a checkout takes, seen from the state it starts in. */
  lemma {:induction false} CheckoutTakes(cfg: Config, s: State, key: PoolKey, now: real, open: set<SocketId>)
    requires Inv(cfg, s)
    ensures var c := CheckoutFrom(s.idle, key, now, cfg.idleTimeout, open);
      var xs := Taken(c);
      && NoDuplicates(xs) && c.idle.Keys <= s.idle.Keys
      && (forall x :: x in xs ==> x in s.sockets && s.sockets[x].owner == Pooled(key))
      && (forall x :: x in s.sockets && x !in xs && s.sockets[x].owner.Pooled? ==> x in Ids(Bucket(c.idle, s.sockets[x].owner.key)))
      && (forall k :: k in c.idle ==> Shrunk(c.idle[k], s.idle[k], xs))
  {
    var c := CheckoutFrom(s.idle, key, now, cfg.idleTimeout, open);
    BucketIdsOwned(cfg, s, key);
    CheckoutShrinks(s.idle, key, now, cfg.idleTimeout, open);
    CheckoutSplits(s.idle, key, now, cfg.idleTimeout, open);
    CheckoutKeepsOtherKeysAll(s.idle, key, now, cfg.idleTimeout, open);
    hide CheckoutFrom, Taken;
    forall x | x in s.sockets && x !in Taken(c) && s.sockets[x].owner.Pooled?
      ensures x in Ids(Bucket(c.idle, s.sockets[x].owner.key))
    {
      assert SocketOk(cfg, s, x);
    }
    forall k | k in c.idle ensures k in s.idle && Shrunk(c.idle[k], s.idle[k], Taken(c)) {
      if k != key {
        BucketIdsOwned(cfg, s, k);
      }
    }
  }

  lemma {:induction false} CheckoutKeepsOtherKeysAll(idle: Idle, key: PoolKey, now: real, timeout: real, open: set<SocketId>)
    ensures forall k :: k != key ==> Bucket(CheckoutFrom(idle, key, now, timeout, open).idle, k) == Bucket(idle, k)
  {
    forall k | k != key ensures Bucket(CheckoutFrom(idle, key, now, timeout, open).idle, k) == Bucket(idle, k) {
      CheckoutKeepsOtherKeys(idle, key, now, timeout, open, k);
    }
  }

  // ---- release ----

  lemma {:induction false} SplitDistinct(all: seq<SocketId>, a: seq<SocketId>, b: seq<SocketId>)
    requires all == a + b && NoDuplicates(all)
    ensures NoDuplicates(a) && NoDuplicates(b) && forall x :: x in a ==> x !in b
  {
    forall i | 0 <= i < |b| ensures b[i] == all[|a| + i] { }
    forall i | 0 <= i < |a| ensures a[i] == all[i] { }
  }

  /** The sockets of the bucket that a socket was returned to, and of the evicted entry. */
  lemma {:induction false} ReturnSplits(idle: Idle, entry: IdleEntry, maxIdle: int)
    requires maxIdle > 0 && NoDuplicates(Ids(Bucket(idle, entry.key))) && entry.socket !in Ids(Bucket(idle, entry.key))
    ensures var r := ReturnTo(idle, entry, maxIdle);
      var kept, evicted := Ids(r.idle[entry.key]), Ids(r.evicted);
      && NoDuplicates(kept) && NoDuplicates(evicted) && entry.socket in kept
      && (forall x :: x in evicted ==> x !in kept)
      && (forall x :: x in kept || x in evicted <==> x == entry.socket || x in Ids(Bucket(idle, entry.key)))
  {
    var r, bucket := ReturnTo(idle, entry, maxIdle), Ids(Bucket(idle, entry.key));
    var kept, evicted, all := Ids(r.idle[entry.key]), Ids(r.evicted), bucket + [entry.socket];
    assert all == evicted + kept;
    SplitDistinct(all, evicted, kept);
    assert all[|all| - 1] == entry.socket == kept[|kept| - 1];
    forall x ensures x in all <==> x == entry.socket || x in bucket { }
  }

  lemma {:induction false} BucketIdsOwned(cfg: Config, s: State, k: PoolKey)
    requires Inv(cfg, s)
    ensures NoDuplicates(Ids(Bucket(s.idle, k)))
    ensures forall x :: x in Ids(Bucket(s.idle, k)) ==> x in s.sockets && s.sockets[x].owner == Pooled(k)
  {
    if k in s.idle { assert BucketOwned(s.sockets, k, s.idle[k]); }
  }

  /** The pool after a socket was parked in it, and the sockets that stay pooled. */
  ghost predicate Parked(cfg: Config, s: State, s': State, entry: IdleEntry) {
    && cfg.maxIdle > 0
    && s'.idle == ReturnTo(s.idle, entry, cfg.maxIdle).idle && s'.clock == entry.lastUsedAt >= s.clock
    && s.sockets.Keys <= s'.sockets.Keys
    && entry.socket in s.sockets && !s.sockets[entry.socket].owner.Pooled?
    && s'.sockets[entry.socket].owner == Pooled(entry.key)
    && forall x :: x in s.sockets && x != entry.socket && x !in Ids(ReturnTo(s.idle, entry, cfg.maxIdle).evicted) ==>
         s'.sockets[x] == s.sockets[x]
  }

  lemma {:induction false} ReturnOtherKeys(idle: Idle, entry: IdleEntry, maxIdle: int, k: PoolKey)
    requires maxIdle > 0 && k in ReturnTo(idle, entry, maxIdle).idle && k != entry.key
    ensures k in idle && ReturnTo(idle, entry, maxIdle).idle[k] == idle[k]
  {
  }

  lemma {:induction false} ParkedBucketOwned(cfg: Config, s: State, s': State, entry: IdleEntry, k: PoolKey)
    requires Inv(cfg, s) && Parked(cfg, s, s', entry) && k in s'.idle && k != entry.key
    ensures BucketOwned(s'.sockets, k, s'.idle[k])
  {
    ReturnOtherKeys(s.idle, entry, cfg.maxIdle, k);
    assert BucketOwned(s.sockets, k, s.idle[k]);
    BucketIdsOwned(cfg, s, entry.key);
    ReturnSplits(s.idle, entry, cfg.maxIdle);
    hide Inv, ReturnTo;
  }

  lemma {:induction false} ParkedIntoOwned(cfg: Config, s: State, s': State, entry: IdleEntry)
    requires Inv(cfg, s) && Parked(cfg, s, s', entry)
    ensures entry.key in s'.idle && BucketOwned(s'.sockets, entry.key, s'.idle[entry.key])
  {
    BucketIdsOwned(cfg, s, entry.key);
    ReturnSplits(s.idle, entry, cfg.maxIdle);
    hide Inv;
  }

  lemma {:induction false} ParkedIdleOk(cfg: Config, s: State, s': State, entry: IdleEntry)
    requires Inv(cfg, s) && Parked(cfg, s, s', entry)
    ensures IdleOk(cfg, s')
  {
    assert PoolOk(s.idle, cfg.maxIdle, s.clock);
    PoolOkLater(s.idle, cfg.maxIdle, s.clock, entry.lastUsedAt);
    ReturnKeepsPool(s.idle, entry, cfg.maxIdle);
    hide PoolOk, BucketOwned, ReturnTo;
    ParkedIntoOwned(cfg, s, s', entry);
    forall k | k in s'.idle ensures BucketOwned(s'.sockets, k, s'.idle[k]) {
      if k != entry.key {
        ParkedBucketOwned(cfg, s, s', entry, k);
      }
    }
  }

  lemma {:induction false} ParkedStays(cfg: Config, s: State, s': State, entry: IdleEntry, x: SocketId)
    requires Inv(cfg, s) && Parked(cfg, s, s', entry)
    requires x in s.sockets && x !in Ids(ReturnTo(s.idle, entry, cfg.maxIdle).evicted) && s.sockets[x].owner.Pooled?
    ensures x in Ids(Bucket(s'.idle, s.sockets[x].owner.key))
  {
    assert SocketOk(cfg, s, x);
    BucketIdsOwned(cfg, s, entry.key);
    ReturnSplits(s.idle, entry, cfg.maxIdle);
  }

  lemma {:induction false} DrainingIsReady(cfg: Config, s: State, t: TaskId)
    requires Inv(cfg, s) && IsBackground(s, t) && s.tasks[t].work.Draining? && OnSocket(s, t)
    ensures Ready(cfg, s.sockets[SocketOf(s, t)]) && Key(cfg, s.sockets[SocketOf(s, t)].opener) == s.tasks[t].key
  {
    GoodTask(cfg, s, t);
    hide Inv, Ready, Key;
  }

  lemma {:induction false} ParkedSocket(cfg: Config, s: State, t: TaskId, now: real)
    requires IsBackground(s, t) && OnSocket(s, t) && cfg.maxIdle > 0
    requires SocketOf(s, t) !in Ids(ReturnTo(s.idle, IdleEntry(SocketOf(s, t), s.tasks[t].key, now, now), cfg.maxIdle).evicted)
    ensures var x := SocketOf(s, t);
      Park(cfg, s, t, x, now).sockets[x] == s.sockets[x].(owner := Pooled(s.tasks[t].key))
  {
    hide ReturnTo, Sockets;
  }

  lemma {:induction false} ParkedSocketOk(cfg: Config, s: State, t: TaskId, now: real)
    requires Inv(cfg, s) && IsBackground(s, t) && s.tasks[t].work.Draining? && OnSocket(s, t) && cfg.maxIdle > 0
    ensures var x, s' := SocketOf(s, t), Park(cfg, s, t, SocketOf(s, t), now); x in s'.sockets && SocketOk(cfg, s', x)
  {
    var x, key := SocketOf(s, t), s.tasks[t].key;
    hide Inv, Wire, CreatesShareKey, Bucket, ReturnTo, NoDuplicates, Key;
    GoodSocket(cfg, s, t);
    DrainingIsReady(cfg, s, t);
    BucketIdsOwned(cfg, s, key);
    ReturnSplits(s.idle, IdleEntry(x, key, now, now), cfg.maxIdle);
    ParkedSocket(cfg, s, t, now);
    SameWire(cfg, s.sockets[x], Park(cfg, s, t, x, now).sockets[x]);
    KeptIsListed(s.idle, IdleEntry(x, key, now, now), cfg.maxIdle);
  }

  lemma {:induction false} KeptIsListed(idle: Idle, entry: IdleEntry, maxIdle: int)
    requires maxIdle > 0
    ensures var r := ReturnTo(idle, entry, maxIdle);
      entry.key in r.idle && Bucket(r.idle, entry.key) == r.idle[entry.key]
  {
  }

  lemma {:induction false} ParkIsParked(cfg: Config, s: State, t: TaskId, now: real)
    requires IsBackground(s, t) && OnSocket(s, t) && now >= s.clock && cfg.maxIdle > 0
    requires s.sockets[SocketOf(s, t)].owner == Held(t)
    requires var entry := IdleEntry(SocketOf(s, t), s.tasks[t].key, now, now);
      forall y :: y in Ids(ReturnTo(s.idle, entry, cfg.maxIdle).evicted) ==> y != SocketOf(s, t)
    ensures Parked(cfg, s, Park(cfg, s, t, SocketOf(s, t), now), IdleEntry(SocketOf(s, t), s.tasks[t].key, now, now))
  {
    hide ReturnTo, Sockets;
  }

  lemma {:induction false} ParkKeeps(cfg: Config, s: State, t: TaskId, now: real)
    requires Inv(cfg, s) && IsBackground(s, t) && s.tasks[t].work.Draining? && OnSocket(s, t)
    requires now >= s.clock && cfg.maxIdle > 0
    ensures Inv(cfg, Park(cfg, s, t, SocketOf(s, t), now))
  {
    var x, key := SocketOf(s, t), s.tasks[t].key;
    var s', entry := Park(cfg, s, t, x, now), IdleEntry(x, key, now, now);
    var evicted := Ids(ReturnTo(s.idle, entry, cfg.maxIdle).evicted);
    GoodSocket(cfg, s, t);
    BucketIdsOwned(cfg, s, key);
    ReturnSplits(s.idle, entry, cfg.maxIdle);
    ParkedSocketOk(cfg, s, t, now);
    hide Inv, ReturnTo, Bucket, SocketOk, NoDuplicates, IdleOk, Wire, CreatesShareKey;
    ParkIsParked(cfg, s, t, now);
    ParkedIdleOk(cfg, s, s', entry);
    forall y | y in s.sockets && y !in evicted && s.sockets[y].owner.Pooled?
      ensures y in Ids(Bucket(s'.idle, s.sockets[y].owner.key))
    {
      ParkedStays(cfg, s, s', entry, y);
    }
    hide Parked;
    ParkTouches(cfg, s, s', t, x, evicted);
  }

  lemma {:induction false} ParkTouches(cfg: Config, s: State, s': State, t: TaskId, x: SocketId, evicted: seq<SocketId>)
    requires Inv(cfg, s) && IsBackground(s, t) && Sockets(s.tasks[t]) == [x] && NoDuplicates(evicted)
    requires s'.sockets.Keys == s.sockets.Keys
    requires forall y :: y in s.sockets && y != x && y !in evicted ==> s'.sockets[y] == s.sockets[y]
    requires forall y :: y in evicted ==> y in s.sockets && s.sockets[y].owner.Pooled? && s'.sockets[y] == s.sockets[y].(owner := Held(t))
    requires s'.tasks == s.tasks[t := s.tasks[t].(work := Shedding(evicted))]
    requires x in s.sockets && SocketOk(cfg, s', x) && IdleOk(cfg, s')
    requires forall y :: y in s.sockets && y !in evicted && s.sockets[y].owner.Pooled? ==>
      y in Ids(Bucket(s'.idle, s.sockets[y].owner.key))
    ensures Inv(cfg, s')
  {
    OwnersInTasks(cfg, s, t);
    assert forall y :: y in evicted ==> SocketOk(cfg, s, y);
    assert BodyOk(cfg, s'.tasks[t], s'.sockets);
    hide Inv, IdleOk, Bucket, BodyOk;
    assert TaskOk(cfg, s', t);
    forall y | y in evicted ensures y in s'.sockets && SocketOk(cfg, s', y) {
      EvictedOk(cfg, s, s', t, y);
    }
    hide SocketOk, TaskOk;
    var xs := {x} + set y | y in evicted;
    ParkFrame(s, s', t, x, evicted);
    TouchedIsEnough(cfg, s, s', {t}, xs);
  }

  lemma {:induction false} EvictedOk(cfg: Config, s: State, s': State, t: TaskId, y: SocketId)
    requires y in s.sockets && SocketOk(cfg, s, y) && !s.sockets[y].owner.Closed?
    requires y in s'.sockets && s'.sockets[y] == s.sockets[y].(owner := Held(t)) && t in s'.tasks && y in Sockets(s'.tasks[t])
    ensures SocketOk(cfg, s', y)
  {
  }

  lemma {:induction false} ParkFrame(s: State, s': State, t: TaskId, x: SocketId, evicted: seq<SocketId>)
    requires IsBackground(s, t) && Sockets(s.tasks[t]) == [x]
    requires s'.sockets.Keys == s.sockets.Keys
    requires forall y :: y in s.sockets && y != x && y !in evicted ==> s'.sockets[y] == s.sockets[y]
    requires forall y :: y in evicted ==> y in s.sockets && s.sockets[y].owner.Pooled?
    requires x in s.sockets && (s.sockets[x].owner.Held? ==> s.sockets[x].owner.task == t)
    requires s'.tasks == s.tasks[t := s.tasks[t].(work := Shedding(evicted))]
    ensures OnlyTouches(s, s', {t}, {x} + set y | y in evicted)
  {
  }
}
