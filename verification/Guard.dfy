/** Rate limits on spark intake, server/src/intake_api.rs:39-122: token buckets over exact time, and a map that
    forgets idle buckets without anybody noticing. */
module Guard {
  import opened Hashing
  import opened Sorting

  datatype Ip = V4(octets: seq<u8>) | V6(octets: seq<u8>)

  /** What a bucket is for: an address, a subnet or a miner's key. */
  datatype Key = Address(bytes: seq<u8>) | Subnet(bytes: seq<u8>) | Miner(id: seq<u8>)

  const BUCKET: real := 40.0
  const REFILL: real := 10.0
  const SUBNET_BUCKET: real := 160.0
  const SUBNET_REFILL: real := 40.0
  const KEY_BUCKET: real := 40.0
  const KEY_REFILL: real := 10.0
  const MANY: nat := 100_000
  const IDLE: real := 60.0

  function Size(key: Key): real {
    match key case Address(_) => BUCKET case Subnet(_) => SUBNET_BUCKET case Miner(_) => KEY_BUCKET
  }

  function Refill(key: Key): real {
    match key case Address(_) => REFILL case Subnet(_) => SUBNET_REFILL case Miner(_) => KEY_REFILL
  }

  /** Every bucket is full again after four seconds. */
  lemma FullAfterFourSeconds(key: Key, seconds: real)
    requires seconds >= 4.0
    ensures seconds * Refill(key) >= Size(key) > 0.0 && Refill(key) > 0.0
  {
    assert seconds * Refill(key) >= 4.0 * Refill(key);
  }

  datatype Bucket = Bucket(tokens: real, at: real)

  function Least(a: real, b: real): real {
    if a < b then a else b
  }

  /** The tokens a key has at a time; a key without a bucket has a full one. */
  function Level(buckets: map<Key, Bucket>, key: Key, now: real): real {
    if key in buckets then Least(buckets[key].tokens + (now - buckets[key].at) * Refill(key), Size(key)) else Size(key)
  }

  // ---- Buckets that are never forgotten ----

  predicate Granted(buckets: map<Key, Bucket>, key: Key, now: real) {
    Level(buckets, key, now) >= 1.0
  }

  function Taken(buckets: map<Key, Bucket>, key: Key, now: real): map<Key, Bucket> {
    var level := Level(buckets, key, now);
    buckets[key := Bucket(if level >= 1.0 then level - 1.0 else level, now)]
  }

  /** Buckets hold no less than nothing and no more than their size, and none is from the future. */
  ghost predicate Sane(buckets: map<Key, Bucket>, clock: real) {
    forall key :: key in buckets ==> 0.0 <= buckets[key].tokens <= Size(key) && buckets[key].at <= clock
  }

  lemma LevelBounds(buckets: map<Key, Bucket>, key: Key, clock: real, now: real)
    requires Sane(buckets, clock) && clock <= now
    ensures 0.0 <= Level(buckets, key, now) <= Size(key)
  {
    FullAfterFourSeconds(key, 4.0);
    if key in buckets {
      assert (now - buckets[key].at) * Refill(key) >= 0.0;
    }
  }

  lemma TakenIsSane(buckets: map<Key, Bucket>, key: Key, clock: real, now: real)
    requires Sane(buckets, clock) && clock <= now
    ensures Sane(Taken(buckets, key, now), now)
  {
    LevelBounds(buckets, key, clock, now);
  }

  // ---- How much one key gets ----

  datatype Request = Request(key: Key, now: real)

  function After(buckets: map<Key, Bucket>, requests: seq<Request>): map<Key, Bucket> {
    if requests == [] then buckets
    else
      var last := requests[|requests| - 1];
      Taken(After(buckets, requests[..|requests| - 1]), last.key, last.now)
  }

  /** How many of a key's requests are granted. */
  function Grants(buckets: map<Key, Bucket>, requests: seq<Request>, key: Key): nat {
    if requests == [] then 0
    else
      var n := |requests| - 1;
      var last := requests[n];
      Grants(buckets, requests[..n], key)
        + if last.key == key && Granted(After(buckets, requests[..n]), key, last.now) then 1 else 0
  }

  /** Time does not run backwards. */
  ghost predicate InOrder(requests: seq<Request>, from: real, to: real) {
    (forall k :: 0 <= k < |requests| ==> from <= requests[k].now <= to)
    && (forall j, k :: 0 <= j < k < |requests| ==> requests[j].now <= requests[k].now)
  }

  function LastTime(requests: seq<Request>, from: real): real {
    if requests == [] then from else requests[|requests| - 1].now
  }

  /** Waiting fills a bucket at the refill rate at most. */
  lemma LevelGrows(buckets: map<Key, Bucket>, key: Key, t: real, now: real)
    requires t <= now
    ensures Level(buckets, key, now) <= Level(buckets, key, t) + Inflow(t, now, Refill(key))
  {
    FullAfterFourSeconds(key, 4.0);
    assert (now - t) * Refill(key) >= 0.0;
    if key in buckets {
      assert (now - buckets[key].at) * Refill(key) == (t - buckets[key].at) * Refill(key) + (now - t) * Refill(key);
    }
  }

  /** What has been granted and what is left never exceed what was there and what has flowed in. */
  lemma {:induction false} GrantsAndLevel(buckets: map<Key, Bucket>, requests: seq<Request>, key: Key, from: real, to: real)
    requires Sane(buckets, from) && InOrder(requests, from, to)
    ensures var t := LastTime(requests, from);
      && Sane(After(buckets, requests), t)
      && Grants(buckets, requests, key) as real + Level(After(buckets, requests), key, t)
           <= Level(buckets, key, from) + Inflow(from, t, Refill(key))
  {
    if requests != [] {
      hide Level, Refill, InOrder, Sane, Granted, Taken, After, Grants, Inflow;
      var n := |requests| - 1;
      var last := requests[n];
      var before := After(buckets, requests[..n]);
      var t := LastTime(requests[..n], from);
      OrderedPrefix(requests, from, to);
      GrantsAndLevel(buckets, requests[..n], key, from, to);
      LastStep(buckets, requests, key);
      LevelGrows(before, key, t, last.now);
      TakenIsSane(before, last.key, t, last.now);
      TakenLevel(before, last.key, key, t, last.now);
      Flow(from, t, last.now, Refill(key));
    }
  }

  /** What flows into a bucket between two times. */
  function Inflow(a: real, b: real, rate: real): real {
    (b - a) * rate
  }

  lemma Flow(a: real, b: real, c: real, rate: real)
    ensures Inflow(a, c, rate) == Inflow(a, b, rate) + Inflow(b, c, rate)
  {
  }

  lemma OrderedPrefix(requests: seq<Request>, from: real, to: real)
    requires requests != [] && InOrder(requests, from, to)
    ensures InOrder(requests[..|requests| - 1], from, to)
    ensures LastTime(requests[..|requests| - 1], from) <= requests[|requests| - 1].now
  {
  }

  lemma LastStep(buckets: map<Key, Bucket>, requests: seq<Request>, key: Key)
    requires requests != []
    ensures var n, last := |requests| - 1, requests[|requests| - 1];
      var before := After(buckets, requests[..n]);
      && After(buckets, requests) == Taken(before, last.key, last.now)
      && Grants(buckets, requests, key)
         == Grants(buckets, requests[..n], key) + (if last.key == key && Granted(before, key, last.now) then 1 else 0)
  {
  }

  lemma TakenLevel(buckets: map<Key, Bucket>, taken: Key, key: Key, clock: real, now: real)
    requires Sane(buckets, clock) && clock <= now
    ensures Level(Taken(buckets, taken, now), key, now)
      == Level(buckets, key, now) - (if taken == key && Granted(buckets, key, now) then 1.0 else 0.0)
  {
    LevelBounds(buckets, key, clock, now);
  }

  /** Between any two times a key is granted at most its bucket and what flows in between. */
  lemma GrantsAreBounded(buckets: map<Key, Bucket>, requests: seq<Request>, key: Key, from: real, to: real)
    requires Sane(buckets, from) && from <= to && InOrder(requests, from, to)
    ensures Grants(buckets, requests, key) as real <= Size(key) + Inflow(from, to, Refill(key))
  {
    var t := LastTime(requests, from);
    GrantsAndLevel(buckets, requests, key, from, to);
    LevelBounds(buckets, key, from, from);
    LevelBounds(After(buckets, requests), key, t, t);
    FullAfterFourSeconds(key, 4.0);
    assert (t - from) * Refill(key) <= (to - from) * Refill(key);
  }

  // ---- Forgetting ----

  /** The map in memory holds a bucket as it would be if nothing were ever forgotten, or has forgotten one that
      has been idle for a minute. */
  ghost predicate Forgot(kept: map<Key, Bucket>, full: map<Key, Bucket>, clock: real) {
    (forall key :: key in kept ==> key in full && kept[key] == full[key])
    && (forall key :: key in full && key !in kept ==> clock - full[key].at >= IDLE)
  }

  /** A forgotten bucket was full again. */
  lemma ForgettingIsHarmless(kept: map<Key, Bucket>, full: map<Key, Bucket>, key: Key, clock: real, now: real)
    requires Forgot(kept, full, clock) && Sane(full, clock) && clock <= now
    ensures Level(kept, key, now) == Level(full, key, now)
  {
    if key in full && key !in kept {
      FullAfterFourSeconds(key, now - full[key].at);
    }
  }

  /** Forgetting buckets that have been idle for a minute. */
  lemma ForgetIdle(kept: map<Key, Bucket>, full: map<Key, Bucket>, clock: real, now: real)
    requires Forgot(kept, full, clock) && clock <= now
    ensures Forgot(kept, full, now)
    ensures Forgot(map k | k in kept && now - kept[k].at < IDLE :: kept[k], full, now)
  {
  }

  /** A token taken from the map in memory is a token taken from the whole map. */
  lemma TakenAlike(kept: map<Key, Bucket>, full: map<Key, Bucket>, key: Key, clock: real, now: real)
    requires Forgot(kept, full, now) && Sane(full, clock) && clock <= now
    ensures Granted(kept, key, now) <==> Granted(full, key, now)
    ensures Forgot(Taken(kept, key, now), Taken(full, key, now), now)
  {
    hide Level, Sane;
    SaneLater(full, clock, now);
    ForgettingIsHarmless(kept, full, key, now, now);
  }

  lemma SaneLater(buckets: map<Key, Bucket>, clock: real, now: real)
    requires Sane(buckets, clock) && clock <= now
    ensures Sane(buckets, now)
  {
  }

  class Limiter {
    var buckets: map<Key, Bucket>
    var banned: map<Key, real>
    /** The buckets if none were forgotten, and the last time seen. */
    ghost var full: map<Key, Bucket>
    ghost var clock: real

    constructor (now: real)
      ensures Valid() && full == map[] && clock == now && banned == map[]
    {
      buckets, banned, full, clock := map[], map[], map[], now;
    }

    ghost predicate Valid()
      reads this
    {
      Sane(full, clock) && Forgot(buckets, full, clock)
    }

    /** A token for a key: the answer, and every later one, is what it would be with nothing forgotten. */
    method Take(key: Key, now: real) returns (ok: bool)
      requires Valid() && clock <= now
      modifies `buckets, `full, `clock
      ensures Valid() && clock == now
      ensures ok <==> Granted(old(full), key, now)
      ensures full == Taken(old(full), key, now)
    {
      hide Level, Sane, Forgot;
      TakenIsSane(full, key, clock, now);
      ForgetIdle(buckets, full, clock, now);
      if |buckets| > MANY {
        buckets := map k | k in buckets && now - buckets[k].at < IDLE :: buckets[k];
      }
      TakenAlike(buckets, full, key, clock, now);
      clock := now;
      full := Taken(full, key, now);
      var level := Level(buckets, key, now);
      ok := level >= 1.0;
      buckets := buckets[key := Bucket(if ok then level - 1.0 else level, now)];
    }

    /** Whether a key is banned; a ban that has run out is dropped. */
    method IsBanned(key: Key, now: real) returns (yes: bool)
      modifies `banned
      ensures yes <==> key in old(banned) && old(banned)[key] > now
      ensures forall k :: k in banned <==> k in old(banned) && (k != key || yes)
      ensures forall k :: k in banned ==> banned[k] == old(banned)[k]
    {
      yes := key in banned && banned[key] > now;
      if key in banned && !yes {
        banned := map k | k in banned && k != key :: banned[k];
      }
    }

    /** Keys in turn, until one has no token. */
    method TakeAll(keys: seq<Key>, now: real) returns (ok: bool)
      requires Valid() && clock <= now
      modifies `buckets, `full, `clock
      ensures Valid() && clock <= now && full == Charged(old(full), keys, now)
      ensures ok <==> AllGranted(old(full), keys, now)
    {
      var k := 0;
      while k < |keys|
        invariant k <= |keys| && Valid() && clock <= now
        invariant AllGranted(old(full), keys, now) <==> AllGranted(full, keys[k..], now)
        invariant Charged(old(full), keys, now) == Charged(full, keys[k..], now)
      {
        assert keys[k..][0] == keys[k] && keys[k..][1..] == keys[k + 1..];
        ok := Take(keys[k], now);
        if !ok {
          return;
        }
        k := k + 1;
      }
      ok := true;
    }

    /** One request: a token from the address, from its subnet and from each miner's key, in that order. */
    method Admit(ip: Ip, miners: seq<seq<u8>>, now: real) returns (ok: bool)
      requires Valid() && clock <= now
      requires if ip.V4? then |ip.octets| == 4 else |ip.octets| == 16
      modifies `buckets, `full, `clock
      ensures Valid() && clock <= now && full == Charged(old(full), Charges(ip, miners), now)
      ensures ok <==> AllGranted(old(full), Charges(ip, miners), now)
    {
      ok := TakeAll(Charges(ip, miners), now);
    }
  }

  /** The buckets after keys are charged in turn, until one has no token. */
  function Charged(buckets: map<Key, Bucket>, keys: seq<Key>, now: real): map<Key, Bucket>
    decreases |keys|
  {
    if keys == [] then buckets
    else
      var next := Taken(buckets, keys[0], now);
      if Granted(buckets, keys[0], now) then Charged(next, keys[1..], now) else next
  }

  predicate AllGranted(buckets: map<Key, Bucket>, keys: seq<Key>, now: real)
    decreases |keys|
  {
    keys == [] || (Granted(buckets, keys[0], now) && AllGranted(Taken(buckets, keys[0], now), keys[1..], now))
  }

  function SubnetOf(ip: Ip): Key
    requires if ip.V4? then |ip.octets| == 4 else |ip.octets| == 16
  {
    Subnet(ip.octets[..if ip.V4? then 3 else 6])
  }

  /** The order of byte strings. */
  predicate NotAfter(a: seq<u8>, b: seq<u8>)
    decreases |a|
  {
    a == [] || (b != [] && (a[0] < b[0] || (a[0] == b[0] && NotAfter(a[1..], b[1..]))))
  }

  function Deduped(s: seq<seq<u8>>): seq<seq<u8>> {
    if |s| <= 1 then s else if s[0] == s[1] then Deduped(s[1..]) else [s[0]] + Deduped(s[1..])
  }

  function Miners(ids: seq<seq<u8>>): seq<Key> {
    seq(|ids|, k requires 0 <= k < |ids| => Miner(ids[k]))
  }

  function Charges(ip: Ip, miners: seq<seq<u8>>): seq<Key>
    requires if ip.V4? then |ip.octets| == 4 else |ip.octets| == 16
  {
    [Address(ip.octets), SubnetOf(ip)] + Miners(Deduped(Sort(miners, NotAfter)))
  }

  // ---- Whom a request is charged to ----

  lemma {:induction false} NotAfterReflexive(a: seq<u8>)
    ensures NotAfter(a, a)
    decreases |a|
  {
    if a != [] {
      NotAfterReflexive(a[1..]);
    }
  }

  lemma {:induction false} NotAfterAntisymmetric(a: seq<u8>, b: seq<u8>)
    requires NotAfter(a, b) && NotAfter(b, a)
    ensures a == b
    decreases |a|
  {
    if a != [] {
      NotAfterAntisymmetric(a[1..], b[1..]);
      assert a == [a[0]] + a[1..] && b == [b[0]] + b[1..];
    }
  }

  lemma {:induction false} NotAfterTotal(a: seq<u8>, b: seq<u8>)
    ensures NotAfter(a, b) || NotAfter(b, a)
    decreases |a|
  {
    if a != [] && b != [] {
      NotAfterTotal(a[1..], b[1..]);
    }
  }

  lemma {:induction false} NotAfterTransitive(a: seq<u8>, b: seq<u8>, c: seq<u8>)
    requires NotAfter(a, b) && NotAfter(b, c)
    ensures NotAfter(a, c)
    decreases |a|
  {
    if a != [] && a[0] == b[0] == c[0] {
      NotAfterTransitive(a[1..], b[1..], c[1..]);
    }
  }

  lemma NotAfterOrders(s: seq<seq<u8>>)
    ensures Orders(NotAfter, s)
  {
    hide NotAfter;
    forall a, b | a in s && b in s
      ensures NotAfter(a, b) || NotAfter(b, a)
      ensures NotAfter(a, b) && NotAfter(b, a) ==> a == b
    {
      NotAfterTotal(a, b);
      if NotAfter(a, b) && NotAfter(b, a) {
        NotAfterAntisymmetric(a, b);
      }
    }
    forall a, b, c | a in s && b in s && c in s && NotAfter(a, b) && NotAfter(b, c)
      ensures NotAfter(a, c)
    {
      NotAfterTransitive(a, b, c);
    }
  }

  /** Of equal neighbours one is left: in a sorted list everything once. */
  lemma {:induction false} DedupedOnce(s: seq<seq<u8>>)
    requires Sorted(NotAfter, s)
    ensures forall x :: x in Deduped(s) <==> x in s
    ensures forall j, k :: 0 <= j < k < |Deduped(s)| ==> Deduped(s)[j] != Deduped(s)[k] && NotAfter(Deduped(s)[j], Deduped(s)[k])
  {
    hide NotAfter;
    if |s| > 1 {
      DedupedOnce(s[1..]);
      var rest := Deduped(s[1..]);
      assert s == [s[0]] + s[1..];
      if s[0] != s[1] {
        forall x | x in s[1..]
          ensures x != s[0] && NotAfter(s[0], x)
        {
          var k :| 0 <= k < |s[1..]| && s[1..][k] == x;
          assert s[k + 1] == x && NotAfter(s[0], s[k + 1]);
          if x == s[0] {
            assert NotAfter(s[1], s[k + 1]) by {
              NotAfterReflexive(s[1]);
            }
            NotAfterAntisymmetric(s[0], s[1]);
          }
        }
        var all := Deduped(s);
        forall j, k | 0 <= j < k < |all|
          ensures all[j] != all[k] && NotAfter(all[j], all[k])
        {
          assert all[k] == rest[k - 1] && rest[k - 1] in rest;
          if j > 0 {
            assert all[j] == rest[j - 1];
          }
        }
      }
    }
  }

  /** A request is charged to its address, to its subnet (the first 24 bits of a short address and the first 48 of a long one),
      and to every miner it names, once and in order. */
  lemma ChargesExactly(ip: Ip, miners: seq<seq<u8>>)
    requires if ip.V4? then |ip.octets| == 4 else |ip.octets| == 16
    ensures var keys := Charges(ip, miners);
      && |keys| >= 2 && keys[0] == Address(ip.octets)
      && (ip.V4? ==> keys[1] == Subnet([ip.octets[0], ip.octets[1], ip.octets[2]]))
      && (!ip.V4? ==> keys[1].Subnet? && |keys[1].bytes| == 6 && forall k :: 0 <= k < 6 ==> keys[1].bytes[k] == ip.octets[k])
      && (forall k :: 2 <= k < |keys| ==> keys[k].Miner? && keys[k].id in miners)
      && (forall id :: id in miners ==> Miner(id) in keys[2..])
      && (forall j, k :: 2 <= j < k < |keys| ==> keys[j] != keys[k] && NotAfter(keys[j].id, keys[k].id))
  {
    var ids := Deduped(Sort(miners, NotAfter));
    MinersOnce(miners, ids);
    hide NotAfter, Sort, Deduped;
    var keys := Charges(ip, miners);
    assert keys[2..] == Miners(ids);
    assert ip.V4? ==> ip.octets[..3] == [ip.octets[0], ip.octets[1], ip.octets[2]];
    forall id | id in miners
      ensures Miner(id) in keys[2..]
    {
      var k :| 0 <= k < |ids| && ids[k] == id;
      assert keys[2..][k] == Miner(id);
    }
    forall k | 2 <= k < |keys|
      ensures keys[k] == Miner(ids[k - 2]) && ids[k - 2] in miners
    {
      assert keys[k] == keys[2..][k - 2];
      assert ids[k - 2] in ids;
    }
  }

  lemma MinersOnce(miners: seq<seq<u8>>, ids: seq<seq<u8>>)
    requires ids == Deduped(Sort(miners, NotAfter))
    ensures forall x :: x in ids <==> x in miners
    ensures forall j, k :: 0 <= j < k < |ids| ==> ids[j] != ids[k] && NotAfter(ids[j], ids[k])
  {
    NotAfterOrders(miners);
    hide NotAfter;
    var sorted := Sort(miners, NotAfter);
    SortPermutes(miners, NotAfter);
    SortSorts(miners, NotAfter);
    SameElements(sorted, miners);
    DedupedOnce(sorted);
  }

  // ---- Bursts ----

  /** n requests of one key at one time. */
  function AtOnce(key: Key, now: real, n: nat): (requests: seq<Request>)
    ensures |requests| == n
  {
    if n == 0 then [] else AtOnce(key, now, n - 1) + [Request(key, now)]
  }

  /** How many requests a bucket holds. */
  function Burst(key: Key): nat {
    match key case Address(_) => 40 case Subnet(_) => 160 case Miner(_) => 40
  }

  /** Of any number of requests that come at once, a key that has not asked before gets as many as its bucket holds. */
  lemma BurstsAreGranted(buckets: map<Key, Bucket>, key: Key, now: real, n: nat)
    requires key !in buckets
    ensures Grants(buckets, AtOnce(key, now, n), key) == if n < Burst(key) then n else Burst(key)
  {
    if n < Burst(key) {
      WhileItLasts(buckets, key, now, n);
    } else {
      ThenNoMore(buckets, key, now, n);
    }
  }

  lemma {:induction false} WhileItLasts(buckets: map<Key, Bucket>, key: Key, now: real, n: nat)
    requires key !in buckets && n <= Burst(key)
    ensures Grants(buckets, AtOnce(key, now, n), key) == n
    ensures Level(After(buckets, AtOnce(key, now, n)), key, now) == (Burst(key) - n) as real
  {
    FullAtFirst(buckets, key, now);
    NothingYet(buckets, key);
    hide Level, Taken, Granted, Size, Refill, After, Grants, Burst;
    if n > 0 {
      var before := AtOnce(key, now, n - 1);
      WhileItLasts(buckets, key, now, n - 1);
      AfterNext(buckets, before, Request(key, now), key);
      OneMore(After(buckets, before), key, now);
      OneTokenLess(Burst(key), n);
    }
  }

  lemma {:induction false} ThenNoMore(buckets: map<Key, Bucket>, key: Key, now: real, n: nat)
    requires key !in buckets && n >= Burst(key)
    ensures Grants(buckets, AtOnce(key, now, n), key) == Burst(key)
    ensures Level(After(buckets, AtOnce(key, now, n)), key, now) == 0.0
  {
    FullAtFirst(buckets, key, now);
    hide Level, Taken, Granted, Size, Refill, After, Grants, Burst;
    if n == Burst(key) {
      WhileItLasts(buckets, key, now, n);
    } else {
      var before := AtOnce(key, now, n - 1);
      ThenNoMore(buckets, key, now, n - 1);
      AfterNext(buckets, before, Request(key, now), key);
      OneMore(After(buckets, before), key, now);
    }
  }

  lemma NothingYet(buckets: map<Key, Bucket>, key: Key)
    ensures After(buckets, []) == buckets && Grants(buckets, [], key) == 0
  {
  }

  lemma AfterNext(buckets: map<Key, Bucket>, requests: seq<Request>, r: Request, key: Key)
    ensures After(buckets, requests + [r]) == Taken(After(buckets, requests), r.key, r.now)
    ensures Grants(buckets, requests + [r], key) == Grants(buckets, requests, key)
      + if r.key == key && Granted(After(buckets, requests), key, r.now) then 1 else 0
  {
    hide Taken, Granted;
    assert (requests + [r])[..|requests|] == requests;
  }

  lemma OneTokenLess(tokens: nat, n: nat)
    requires 0 < n <= tokens
    ensures (tokens - (n - 1)) as real - 1.0 == (tokens - n) as real && (tokens - (n - 1)) as real >= 1.0
  {
  }

  lemma FullAtFirst(buckets: map<Key, Bucket>, key: Key, now: real)
    requires key !in buckets
    ensures Level(buckets, key, now) == Size(key) == Burst(key) as real && Burst(key) > 0
  {
  }

  lemma OneMore(buckets: map<Key, Bucket>, key: Key, now: real)
    requires Level(buckets, key, now) <= Size(key)
    ensures Granted(buckets, key, now) <==> Level(buckets, key, now) >= 1.0
    ensures Level(Taken(buckets, key, now), key, now)
      == Level(buckets, key, now) - if Level(buckets, key, now) >= 1.0 then 1.0 else 0.0
  {
    assert (now - now) * Refill(key) == 0.0;
  }
}
