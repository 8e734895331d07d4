/** The pool of idle upstream WebSockets: buckets of entries, newest last, one bucket per key. */
module Pool {
  import opened Basics
  import opened PoolKeys

  type SocketId = nat

  datatype IdleEntry = IdleEntry(socket: SocketId, key: PoolKey, createdAt: real, lastUsedAt: real)

  type Idle = map<PoolKey, seq<IdleEntry>>

  function Bucket(idle: Idle, key: PoolKey): seq<IdleEntry> {
    if key in idle then idle[key] else []
  }

  // ---- Checking out ----

  /** `open` holds the sockets that appear open at this instant. */
  predicate Usable(e: IdleEntry, now: real, timeout: real, open: set<SocketId>) {
    !(now - e.lastUsedAt > timeout) && e.socket in open
  }

  datatype CheckoutResult = CheckoutResult(idle: Idle, selected: Option<IdleEntry>, stale: seq<IdleEntry>)

  datatype Scan = Scan(kept: seq<IdleEntry>, selected: Option<IdleEntry>, stale: seq<IdleEntry>)

  function ScanBucket(bucket: seq<IdleEntry>, now: real, timeout: real, open: set<SocketId>): Scan {
    if bucket == [] then Scan([], None, [])
    else if Usable(Last(bucket), now, timeout, open) then Scan(Front(bucket), Some(Last(bucket)), [])
    else
      var rest := ScanBucket(Front(bucket), now, timeout, open);
      rest.(stale := [Last(bucket)] + rest.stale)
  }

  /** Writing back a bucket: an empty one takes its key with it. */
  function Store(idle: Idle, key: PoolKey, bucket: seq<IdleEntry>): Idle {
    if bucket == [] then idle - {key} else idle[key := bucket]
  }

  function CheckoutFrom(idle: Idle, key: PoolKey, now: real, timeout: real, open: set<SocketId>): CheckoutResult {
    var scan := ScanBucket(Bucket(idle, key), now, timeout, open);
    CheckoutResult(Store(idle, key, scan.kept), scan.selected, scan.stale)
  }

  // ---- Returning ----

  datatype Returned = Returned(idle: Idle, evicted: seq<IdleEntry>)

  function ReturnTo(idle: Idle, entry: IdleEntry, maxIdle: int): Returned
    requires maxIdle > 0
  {
    var all := Bucket(idle, entry.key) + [entry];
    var excess := if |all| > maxIdle then |all| - maxIdle else 0;
    Returned(idle[entry.key := all[excess..]], all[..excess])
  }

  // ---- Emptying ----

  function Flatten(idle: Idle, order: seq<PoolKey>): seq<IdleEntry> {
    if order == [] then [] else Bucket(idle, order[0]) + Flatten(idle, order[1..])
  }

  ghost predicate Enumerates(order: seq<PoolKey>, keys: set<PoolKey>) {
    NoDuplicates(order) && forall k :: k in order <==> k in keys
  }

  // ---- What every pool operation keeps ----

  ghost predicate SortedByUse(bucket: seq<IdleEntry>) {
    forall i, j :: 0 <= i < j < |bucket| ==> bucket[i].lastUsedAt <= bucket[j].lastUsedAt
  }

  ghost predicate PoolOk(idle: Idle, maxIdle: int, now: real) {
    forall k :: k in idle ==> BucketOk(idle[k], k, maxIdle, now)
  }

  ghost predicate BucketOk(bucket: seq<IdleEntry>, k: PoolKey, maxIdle: int, now: real) {
    && 0 < |bucket| <= maxIdle
    && SortedByUse(bucket)
    && forall i :: 0 <= i < |bucket| ==> bucket[i].key == k && bucket[i].lastUsedAt <= now
  }

  ghost predicate CutAt(bucket: seq<IdleEntry>, now: real, timeout: real, open: set<SocketId>, cut: int) {
    && -1 <= cut < |bucket|
    && (forall j :: cut < j < |bucket| ==> now - bucket[j].lastUsedAt > timeout || bucket[j].socket !in open)
    && (cut >= 0 ==> now - bucket[cut].lastUsedAt <= timeout && bucket[cut].socket in open)
  }

  /** What a scan means: it cuts the bucket at the newest usable entry. Everything above the cut
      is unusable and comes out newest first; everything below is left as it was. */
  lemma {:induction false} ScanCutsAtNewestUsable(bucket: seq<IdleEntry>, now: real, timeout: real, open: set<SocketId>)
    returns (cut: int)
    ensures CutAt(bucket, now, timeout, open, cut)
    ensures ScanBucket(bucket, now, timeout, open) ==
      Scan(if cut >= 0 then bucket[..cut] else [],
           if cut >= 0 then Some(bucket[cut]) else None,
           Reverse(bucket[cut + 1..]))
  {
    if bucket == [] {
      cut := -1;
    } else if Usable(Last(bucket), now, timeout, open) {
      cut := |bucket| - 1;
      assert bucket[cut + 1..] == [];
    } else {
      cut := ScanCutsAtNewestUsable(Front(bucket), now, timeout, open);
      hide Reverse;
      ReverseTail(bucket, cut + 1);
      CutLower(bucket, now, timeout, open, cut);
    }
  }

  lemma {:induction false} CutLower(bucket: seq<IdleEntry>, now: real, timeout: real, open: set<SocketId>, cut: int)
    requires bucket != [] && !Usable(Last(bucket), now, timeout, open) && CutAt(Front(bucket), now, timeout, open, cut)
    ensures CutAt(bucket, now, timeout, open, cut)
    ensures cut >= 0 ==> Front(bucket)[..cut] == bucket[..cut] && Front(bucket)[cut] == bucket[cut]
  {
  }

  /** Nothing is lost or invented by a checkout: the old bucket is what stays, what is selected
      and what is stale, in order. */
  lemma {:induction false} CheckoutConserves(idle: Idle, key: PoolKey, now: real, timeout: real, open: set<SocketId>)
    ensures var c := CheckoutFrom(idle, key, now, timeout, open);
      Bucket(idle, key) == Bucket(c.idle, key) + (if c.selected.Some? then [c.selected.value] else []) + Reverse(c.stale)
  {
    ScanConserves(Bucket(idle, key), now, timeout, open);
  }

  lemma {:induction false} ScanConserves(bucket: seq<IdleEntry>, now: real, timeout: real, open: set<SocketId>)
    ensures var s := ScanBucket(bucket, now, timeout, open);
      bucket == s.kept + (if s.selected.Some? then [s.selected.value] else []) + Reverse(s.stale)
  {
    if bucket != [] && !Usable(Last(bucket), now, timeout, open) {
      ScanConserves(Front(bucket), now, timeout, open);
      ReverseCons(Last(bucket), ScanBucket(Front(bucket), now, timeout, open).stale);
      assert bucket == Front(bucket) + [Last(bucket)];
    }
  }

  lemma {:induction false} CheckoutKeepsOtherKeys(idle: Idle, key: PoolKey, now: real, timeout: real, open: set<SocketId>, other: PoolKey)
    requires other != key
    ensures var idle' := CheckoutFrom(idle, key, now, timeout, open).idle;
      (other in idle' <==> other in idle) && Bucket(idle', other) == Bucket(idle, other)
  {
  }

  /** The selected entry is the most recently used of the usable ones. */
  lemma {:induction false} CheckoutSelectsMostRecent(idle: Idle, maxIdle: int, key: PoolKey, now: real, timeout: real, open: set<SocketId>, i: nat)
    requires PoolOk(idle, maxIdle, now)
    requires i < |Bucket(idle, key)| && now - Bucket(idle, key)[i].lastUsedAt <= timeout && Bucket(idle, key)[i].socket in open
    ensures var c := CheckoutFrom(idle, key, now, timeout, open);
      c.selected.Some? && c.selected.value.lastUsedAt >= Bucket(idle, key)[i].lastUsedAt
  {
    var cut := ScanCutsAtNewestUsable(Bucket(idle, key), now, timeout, open);
  }

  /** One entry found past its age condemns every older one: the key disappears. */
  lemma {:induction false} CheckoutPastAgeEmptiesBucket(idle: Idle, maxIdle: int, key: PoolKey, now: real, timeout: real, open: set<SocketId>, i: nat)
    requires PoolOk(idle, maxIdle, now)
    requires var stale := CheckoutFrom(idle, key, now, timeout, open).stale;
      i < |stale| && now - stale[i].lastUsedAt > timeout
    ensures CheckoutFrom(idle, key, now, timeout, open) == CheckoutResult(idle - {key}, None, Reverse(Bucket(idle, key)))
  {
    ScanPastAge(Bucket(idle, key), now, timeout, open, i);
  }

  lemma {:induction false} ScanPastAge(bucket: seq<IdleEntry>, now: real, timeout: real, open: set<SocketId>, i: nat)
    requires SortedByUse(bucket)
    requires var stale := ScanBucket(bucket, now, timeout, open).stale;
      i < |stale| && now - stale[i].lastUsedAt > timeout
    ensures ScanBucket(bucket, now, timeout, open) == Scan([], None, Reverse(bucket))
  {
    if i == 0 {
      ScanNoneUsable(bucket, now, timeout, open);
    } else {
      ScanPastAge(Front(bucket), now, timeout, open, i - 1);
    }
  }

  lemma {:induction false} ScanNoneUsable(bucket: seq<IdleEntry>, now: real, timeout: real, open: set<SocketId>)
    requires forall j :: 0 <= j < |bucket| ==> !Usable(bucket[j], now, timeout, open)
    ensures ScanBucket(bucket, now, timeout, open) == Scan([], None, Reverse(bucket))
  {
    if bucket != [] {
      ScanNoneUsable(Front(bucket), now, timeout, open);
    }
  }

  lemma {:induction false} CheckoutKeepsPool(idle: Idle, maxIdle: int, key: PoolKey, now: real, timeout: real, open: set<SocketId>)
    requires PoolOk(idle, maxIdle, now)
    ensures PoolOk(CheckoutFrom(idle, key, now, timeout, open).idle, maxIdle, now)
  {
    var cut := ScanCutsAtNewestUsable(Bucket(idle, key), now, timeout, open);
  }

  lemma {:induction false} SortedSnoc(bucket: seq<IdleEntry>, entry: IdleEntry, excess: nat)
    requires SortedByUse(bucket) && forall i :: 0 <= i < |bucket| ==> bucket[i].lastUsedAt <= entry.lastUsedAt
    requires excess <= |bucket|
    ensures SortedByUse((bucket + [entry])[excess..])
  {
    var all := bucket + [entry];
    assert forall i :: 0 <= i < |all| - excess ==> all[excess..][i] == all[excess + i];
  }

  /** The bucket that an entry is returned to: the last `maxIdle` of the old entries and the new one. */
  lemma {:induction false} ReturnedBucket(bucket: seq<IdleEntry>, entry: IdleEntry, maxIdle: int)
    requires maxIdle > 0 && (bucket == [] || BucketOk(bucket, entry.key, maxIdle, entry.lastUsedAt))
    ensures var all := bucket + [entry];
      var excess := if |all| > maxIdle then |all| - maxIdle else 0;
      && BucketOk(all[excess..], entry.key, maxIdle, entry.lastUsedAt)
      && excess <= 1 && all[..excess] + all[excess..] == all && Last(all[excess..]) == entry
      && (excess > 0 ==> |bucket| == maxIdle && all[..excess] == [bucket[0]])
  {
    var all := bucket + [entry];
    var excess := if |all| > maxIdle then |all| - maxIdle else 0;
    SortedSnoc(bucket, entry, excess);
    hide SortedByUse;
    forall i | 0 <= i < |all[excess..]|
      ensures all[excess..][i].key == entry.key && all[excess..][i].lastUsedAt <= entry.lastUsedAt
    {
      assert all[excess..][i] == all[excess + i];
    }
  }

  lemma {:induction false} StoreKeepsPool(idle: Idle, k: PoolKey, bucket: seq<IdleEntry>, maxIdle: int, now: real)
    requires PoolOk(idle, maxIdle, now) && BucketOk(bucket, k, maxIdle, now)
    ensures PoolOk(idle[k := bucket], maxIdle, now)
  {
    hide BucketOk;
  }

  /** The bucket ends as the last `maxIdle` of the old bucket and the new entry, and at most
      one entry, the oldest, is evicted. */
  lemma {:induction false} ReturnKeepsPool(idle: Idle, entry: IdleEntry, maxIdle: int)
    requires maxIdle > 0 && PoolOk(idle, maxIdle, entry.lastUsedAt)
    ensures var r := ReturnTo(idle, entry, maxIdle);
      && PoolOk(r.idle, maxIdle, entry.lastUsedAt)
      && r.evicted + r.idle[entry.key] == Bucket(idle, entry.key) + [entry]
      && Last(r.idle[entry.key]) == entry
      && |r.evicted| <= 1
      && (r.evicted != [] ==> |Bucket(idle, entry.key)| == maxIdle && r.evicted == [idle[entry.key][0]])
  {
    var bucket := Bucket(idle, entry.key);
    ReturnedBucket(bucket, entry, maxIdle);
    var r, all := ReturnTo(idle, entry, maxIdle), bucket + [entry];
    var excess := if |all| > maxIdle then |all| - maxIdle else 0;
    assert r == Returned(idle[entry.key := all[excess..]], all[..excess]);
    hide BucketOk, ReturnTo;
    StoreKeepsPool(idle, entry.key, all[excess..], maxIdle, entry.lastUsedAt);
    hide PoolOk;
  }

  // ---- The pool object ----

  class WebSocketBridgePool {
    const maxIdle: int
    const idleTimeout: real
    var idle: Idle

    constructor (maxIdle: int, idleTimeout: real)
      ensures this.maxIdle == maxIdle && this.idleTimeout == idleTimeout
      ensures idle == map[]
    {
      this.maxIdle := maxIdle;
      this.idleTimeout := idleTimeout;
      idle := map[];
    }

    /** The critical section of `_checkout`; closing the stale entries happens after it. */
    method Checkout(key: PoolKey, now: real, open: set<SocketId>)
      returns (selected: Option<IdleEntry>, stale: seq<IdleEntry>)
      modifies this
      ensures CheckoutResult(idle, selected, stale) == CheckoutFrom(old(idle), key, now, idleTimeout, open)
    {
      stale := [];
      selected := None;
      if key in idle {
        var bucket := idle[key];
        while bucket != []
          invariant idle == old(idle)
          invariant ScanBucket(idle[key], now, idleTimeout, open) ==
            var s := ScanBucket(bucket, now, idleTimeout, open); s.(stale := stale + s.stale)
        {
          var candidate := Last(bucket);
          bucket := Front(bucket);
          if Usable(candidate, now, idleTimeout, open) {
            selected := Some(candidate);
            break;
          }
          stale := stale + [candidate];
        }
        idle := Store(idle, key, bucket);
      } else {
        assert idle - {key} == idle;
      }
    }

    /** The critical section of `release`, entered only when pooling is on. */
    method Return(entry: IdleEntry) returns (evicted: seq<IdleEntry>)
      requires maxIdle > 0
      modifies this
      ensures Returned(idle, evicted) == ReturnTo(old(idle), entry, maxIdle)
    {
      evicted := [];
      var bucket := Bucket(idle, entry.key);
      ghost var before := bucket;
      while |bucket| >= maxIdle
        invariant before == evicted + bucket
        invariant |evicted| == 0 || |bucket| >= maxIdle - 1
      {
        evicted := evicted + [bucket[0]];
        bucket := bucket[1..];
      }
      bucket := bucket + [entry];
      idle := idle[entry.key := bucket];
      assert evicted + bucket == before + [entry];
      assert evicted == (before + [entry])[..|evicted|] && bucket == (before + [entry])[|evicted|..];
    }

    /** The critical section of `aclose`: buckets come out in some order of their keys. */
    method TakeAll() returns (entries: seq<IdleEntry>, ghost order: seq<PoolKey>)
      modifies this
      ensures idle == map[]
      ensures Enumerates(order, old(idle).Keys) && entries == Flatten(old(idle), order)
    {
      entries, order := [], [];
      var keys := idle.Keys;
      while keys != {}
        invariant idle == old(idle) && keys <= idle.Keys
        invariant Enumerates(order, idle.Keys - keys)
        invariant entries == Flatten(idle, order)
        decreases keys
      {
        var k :| k in keys;
        FlattenAppend(idle, order, k);
        entries := entries + idle[k];
        order := order + [k];
        keys := keys - {k};
      }
      idle := map[];
    }
  }

  lemma {:induction false} FlattenAppend(idle: Idle, order: seq<PoolKey>, k: PoolKey)
    ensures Flatten(idle, order + [k]) == Flatten(idle, order) + Bucket(idle, k)
  {
    if order != [] {
      FlattenAppend(idle, order[1..], k);
      assert (order + [k])[1..] == order[1..] + [k];
    } else {
      assert [k][1..] == [];
    }
  }
}
