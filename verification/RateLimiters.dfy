/** The per-IP rate limiters and their LRU list (internal/server/server.go). */
module RateLimiters {
  import opened Catalog

  const MAX_RATE_LIMITERS := 10000

  /** `bucket` names the token bucket the entry carries. */
  datatype Entry = Entry(ip: string, bucket: nat, lastUse: int)

  // ---------------------------------------------------------------- the list as a value, newest first

  function Ips(es: seq<Entry>): set<string> {
    set e | e in es :: e.ip
  }

  function Position(es: seq<Entry>, ip: string): (i: nat)
    requires ip in Ips(es)
    ensures i < |es| && es[i].ip == ip
    ensures forall j :: 0 <= j < i ==> es[j].ip != ip
  {
    if es[0].ip == ip then 0 else 1 + Position(es[1..], ip)
  }

  /** container/list's MoveToFront. */
  function Front<T>(s: seq<T>, i: nat): (r: seq<T>)
    requires i < |s|
    ensures |r| == |s|
    ensures forall j :: 0 <= j < |s| ==> r[j] == s[FrontSource(i, j)]
  {
    [s[i]] + s[..i] + s[i + 1..]
  }

  function FrontSource(i: nat, j: nat): nat {
    if j == 0 then i else if j <= i then j - 1 else j
  }

  /** getLimiter: promote, or evict the back when full and push in front. */
  function Use(es: seq<Entry>, ip: string, bucket: nat, now: int): seq<Entry> {
    if ip in Ips(es) then
      var i := Position(es, ip);
      Front(es[i := es[i].(lastUse := now)], i)
    else
      var kept := if |es| >= MAX_RATE_LIMITERS then es[..|es| - 1] else es;
      [Entry(ip, bucket, now)] + kept
  }

  /** evictIdleLimiters: from the back, up to the first entry used after cutoff. */
  function Sweep(es: seq<Entry>, cutoff: int): seq<Entry> {
    if es == [] || es[|es| - 1].lastUse > cutoff then es else Sweep(es[..|es| - 1], cutoff)
  }

  ghost predicate InOrder(es: seq<Entry>) {
    && |es| <= MAX_RATE_LIMITERS
    && forall i, j :: 0 <= i < j < |es| ==> es[i].ip != es[j].ip && es[i].lastUse >= es[j].lastUse
  }

  ghost predicate UsedBy(es: seq<Entry>, now: int) {
    forall i :: 0 <= i < |es| ==> es[i].lastUse <= now
  }

  lemma UseKeepsOrder(es: seq<Entry>, ip: string, bucket: nat, now: int)
    requires InOrder(es) && UsedBy(es, now)
    ensures InOrder(Use(es, ip, bucket, now)) && UsedBy(Use(es, ip, bucket, now), now)
  {
    if ip in Ips(es) {
      PromotionKeepsOrder(es, Position(es, ip), now);
    } else {
      assert forall i :: 0 <= i < |es| ==> es[i] in es && es[i].ip != ip;
      PushKeepsOrder(if |es| >= MAX_RATE_LIMITERS then es[..|es| - 1] else es, Entry(ip, bucket, now));
    }
  }

  /** What a request does, entry by entry: a known IP comes to the front with the
      bucket it had, a new one with a new bucket; all others stay, but for the last
      of a full list of 10000 when the IP is new. */
  lemma UseMeans(es: seq<Entry>, ip: string, bucket: nat, now: int)
    requires InOrder(es)
    ensures var r := Use(es, ip, bucket, now);
            && |r| > 0 && r[0].ip == ip && r[0].lastUse == now
            && (forall i :: 0 <= i < |es| && es[i].ip == ip ==> r[0].bucket == es[i].bucket)
            && ((forall i :: 0 <= i < |es| ==> es[i].ip != ip) ==> r[0].bucket == bucket)
            && (forall i :: 0 <= i < |es| && es[i].ip != ip ==>
                  (es[i] in r <==> i < 9999 || exists j :: 0 <= j < |es| && es[j].ip == ip))
            && (forall e :: e in r ==> e == r[0] || e in es)
  {
    var r := Use(es, ip, bucket, now);
    if ip in Ips(es) {
      var k := Position(es, ip);
      assert forall i :: 0 <= i < |es| && es[i].ip == ip ==> i == k;
      OthersStay(es, k, es[k].(lastUse := now));
    } else {
      forall i | 0 <= i < |es| ensures es[i].ip != ip {
        assert es[i] in es;
      }
      NewcomerMeans(es, Entry(ip, bucket, now));
    }
  }

  lemma KnownKeepsBucket(es: seq<Entry>, ip: string, bucket: nat, now: int)
    requires forall i, j :: 0 <= i < j < |es| ==> es[i].ip != es[j].ip
    ensures |Use(es, ip, bucket, now)| > 0
    ensures forall i :: 0 <= i < |es| && es[i].ip == ip ==> Use(es, ip, bucket, now)[0].bucket == es[i].bucket
    ensures (forall i :: 0 <= i < |es| ==> es[i].ip != ip) ==> Use(es, ip, bucket, now)[0].bucket == bucket
  {
    if ip in Ips(es) {
      var k := Position(es, ip);
      assert forall i :: 0 <= i < |es| && es[i].ip == ip ==> i == k;
    } else {
      assert forall i :: 0 <= i < |es| ==> es[i] in es;
    }
  }

  lemma OthersStay(es: seq<Entry>, k: nat, touched: Entry)
    requires k < |es| && touched.ip == es[k].ip && forall i, j :: 0 <= i < j < |es| ==> es[i].ip != es[j].ip
    ensures var r := Front(es[k := touched], k);
            && r[0] == touched && (forall i :: 0 <= i < |es| && i != k ==> es[i] in r)
            && forall e :: e in r ==> e == r[0] || e in es
  {
    var r := Front(es[k := touched], k);
    forall i | 0 <= i < |es| && i != k ensures es[i] in r {
      assert r[if i < k then i + 1 else i] == es[i];
    }
    forall e | e in r ensures e == r[0] || e in es {
      var j :| 0 <= j < |r| && r[j] == e;
      assert r[j] == es[k := touched][FrontSource(k, j)];
    }
  }

  lemma NewcomerMeans(es: seq<Entry>, e: Entry)
    requires InOrder(es) && forall i :: 0 <= i < |es| ==> es[i].ip != e.ip
    ensures var r := [e] + if |es| >= MAX_RATE_LIMITERS then es[..|es| - 1] else es;
            && (forall i :: 0 <= i < |es| ==> (es[i] in r <==> i < 9999))
            && forall x :: x in r ==> x == e || x in es
  {
    var kept := if |es| >= MAX_RATE_LIMITERS then es[..|es| - 1] else es;
    var r := [e] + kept;
    forall i | 0 <= i < |es| ensures es[i] in r <==> i < 9999 {
      if i < |kept| {
        assert r[i + 1] == es[i];
      }
    }
  }

  lemma PromotionKeepsOrder(es: seq<Entry>, i: nat, now: int)
    requires InOrder(es) && UsedBy(es, now) && i < |es|
    ensures InOrder(Front(es[i := es[i].(lastUse := now)], i))
    ensures UsedBy(Front(es[i := es[i].(lastUse := now)], i), now)
  {
    var touched := es[i := es[i].(lastUse := now)];
    var r := Front(touched, i);
    forall j, k | 0 <= j < k < |r| ensures r[j].ip != r[k].ip && r[j].lastUse >= r[k].lastUse {
      var from, to := FrontSource(i, j), FrontSource(i, k);
      assert r[j] == touched[from] && r[k] == touched[to];
      assert es[to].lastUse <= now && to != i;
      if j == 0 {
        assert touched[from].lastUse == now;
        if to < i { assert es[to].ip != es[i].ip; } else { assert es[i].ip != es[to].ip; }
      } else {
        assert from < to && from != i;
      }
    }
  }

  lemma PushKeepsOrder(es: seq<Entry>, e: Entry)
    requires InOrder(es) && UsedBy(es, e.lastUse) && |es| < MAX_RATE_LIMITERS
    requires forall i :: 0 <= i < |es| ==> es[i].ip != e.ip
    ensures InOrder([e] + es) && UsedBy([e] + es, e.lastUse)
  {
    var r := [e] + es;
    assert forall j :: 0 < j < |r| ==> r[j] == es[j - 1];
  }

  /** The early exit is harmless: a sweep removes exactly the idle entries. */
  lemma {:induction false} SweepRemovesExactlyIdle(es: seq<Entry>, cutoff: int)
    requires InOrder(es)
    ensures InOrder(Sweep(es, cutoff))
    ensures Sweep(es, cutoff) <= es
    ensures forall e :: e in Sweep(es, cutoff) <==> e in es && e.lastUse > cutoff
  {
    if es != [] && es[|es| - 1].lastUse <= cutoff {
      SweepRemovesExactlyIdle(es[..|es| - 1], cutoff);
    }
  }

  /** A capacity eviction takes a least recently used entry and nothing else. */
  lemma EvictionIsLeastRecent(es: seq<Entry>, ip: string, bucket: nat, now: int)
    requires InOrder(es) && ip !in Ips(es) && |es| == MAX_RATE_LIMITERS
    ensures Use(es, ip, bucket, now) == [Entry(ip, bucket, now)] + es[..|es| - 1]
    ensures forall i :: 0 <= i < |es| - 1 ==> es[i].lastUse >= es[|es| - 1].lastUse
    ensures es[|es| - 1].ip !in Ips(Use(es, ip, bucket, now))
  {
    var r, last := Use(es, ip, bucket, now), es[|es| - 1];
    assert last in es;
    assert forall i :: 0 <= i < |es| - 1 ==> es[i].ip != last.ip;
    assert forall e :: e in r ==> e == Entry(ip, bucket, now) || e in es[..|es| - 1];
  }

  // ---------------------------------------------------------------- histories

  datatype Event = Request(ip: string, bucket: nat, now: int) | Tick(cutoff: int)

  function Step(es: seq<Entry>, e: Event): seq<Entry> {
    match e
    case Request(ip, bucket, now) => Use(es, ip, bucket, now)
    case Tick(cutoff) => Sweep(es, cutoff)
  }

  function After(es: seq<Entry>, events: seq<Event>): seq<Entry>
    decreases |events|
  {
    if events == [] then es else After(Step(es, events[0]), events[1..])
  }

  /** The clock never runs backwards from `now` on. */
  ghost predicate Monotonic(events: seq<Event>, now: int) {
    events == [] ||
    match events[0]
    case Request(_, _, t) => now <= t && Monotonic(events[1..], t)
    case Tick(_) => Monotonic(events[1..], now)
  }

  lemma {:induction false} AlwaysInOrder(es: seq<Entry>, events: seq<Event>, now: int)
    requires InOrder(es) && UsedBy(es, now) && Monotonic(events, now)
    ensures InOrder(After(es, events))
    decreases |events|
  {
    if events != [] {
      match events[0]
      case Request(ip, bucket, t) =>
        UseKeepsOrder(es, ip, bucket, t);
        AlwaysInOrder(Step(es, events[0]), events[1..], t);
      case Tick(cutoff) =>
        SweepRemovesExactlyIdle(es, cutoff);
        AlwaysInOrder(Step(es, events[0]), events[1..], now);
    }
  }

  /** Every sweep in a history removes exactly the entries that are idle then. */
  lemma {:induction false} EverySweepRemovesExactlyIdle(es: seq<Entry>, events: seq<Event>, now: int, i: nat)
    requires InOrder(es) && UsedBy(es, now) && Monotonic(events, now)
    requires i < |events| && events[i].Tick?
    ensures var before := After(es, events[..i]);
            forall e :: e in Step(before, events[i]) <==> e in before && e.lastUse > events[i].cutoff
    decreases |events|
  {
    if i == 0 {
      SweepRemovesExactlyIdle(es, events[0].cutoff);
    } else {
      assert events[..i][1..] == events[1..][..i - 1];
      match events[0]
      case Request(ip, bucket, t) =>
        UseKeepsOrder(es, ip, bucket, t);
        EverySweepRemovesExactlyIdle(Step(es, events[0]), events[1..], t, i - 1);
      case Tick(cutoff) =>
        SweepRemovesExactlyIdle(es, cutoff);
        EverySweepRemovesExactlyIdle(Step(es, events[0]), events[1..], now, i - 1);
    }
  }

  function RequestedBy(events: seq<Event>): set<string> {
    set e | e in events && e.Request? :: e.ip
  }

  /** The entry of `ip`, and only entries of `ahead` in front of it. */
  ghost predicate Kept(es: seq<Entry>, mine: Entry, ahead: set<string>) {
    exists i :: 0 <= i < |es| && es[i] == mine && forall j :: 0 <= j < i ==> es[j].ip in ahead
  }

  lemma PositionsFit(es: seq<Entry>, i: nat, ahead: set<string>)
    requires InOrder(es) && i <= |es| && forall j :: 0 <= j < i ==> es[j].ip in ahead
    ensures i <= |ahead|
    decreases i
  {
    if i > 0 {
      PositionsFit(es, i - 1, ahead - {es[i - 1].ip});
    }
  }

  lemma UseKeeps(es: seq<Entry>, mine: Entry, ahead: set<string>, ip: string, bucket: nat, now: int)
    requires InOrder(es) && Kept(es, mine, ahead) && ip != mine.ip && |ahead + {ip}| < MAX_RATE_LIMITERS
    ensures Kept(Use(es, ip, bucket, now), mine, ahead + {ip})
  {
    var i :| 0 <= i < |es| && es[i] == mine && forall j :: 0 <= j < i ==> es[j].ip in ahead;
    if ip in Ips(es) {
      PromotionKeeps(es, i, ahead, ip, bucket, now);
    } else {
      PushKeeps(es, i, ahead, ip, bucket, now);
    }
  }

  lemma PromotionKeeps(es: seq<Entry>, i: nat, ahead: set<string>, ip: string, bucket: nat, now: int)
    requires i < |es| && ip in Ips(es) && es[i].ip != ip && forall j :: 0 <= j < i ==> es[j].ip in ahead
    ensures Kept(Use(es, ip, bucket, now), es[i], ahead + {ip})
  {
    var k := Position(es, ip);
    var touched := es[k := es[k].(lastUse := now)];
    var r := Front(touched, k);
    var at := if k < i then i else i + 1;
    assert r[at] == touched[FrontSource(k, at)] == es[i];
    forall j | 0 <= j < at ensures r[j].ip in ahead + {ip} {
      assert r[j] == touched[FrontSource(k, j)];
    }
  }

  lemma PushKeeps(es: seq<Entry>, i: nat, ahead: set<string>, ip: string, bucket: nat, now: int)
    requires InOrder(es) && i < |es| && ip !in Ips(es) && |ahead + {ip}| < MAX_RATE_LIMITERS
    requires forall j :: 0 <= j < i ==> es[j].ip in ahead
    ensures Kept(Use(es, ip, bucket, now), es[i], ahead + {ip})
  {
    NewcomerCounts(es, i, ahead, ip);
    var r := Use(es, ip, bucket, now);
    assert i < |r| - 1 && r[i + 1] == es[i];
    forall j | 0 <= j < i + 1 ensures r[j].ip in ahead + {ip} {
      assert j > 0 ==> r[j] == es[j - 1];
    }
  }

  /** Being last in a full list takes a full list of distinct others, newcomer
      included. */
  lemma NewcomerCounts(es: seq<Entry>, i: nat, ahead: set<string>, ip: string)
    requires InOrder(es) && i < |es| && ip !in Ips(es)
    requires forall j :: 0 <= j < i ==> es[j].ip in ahead
    ensures |ahead + {ip}| >= i + 1
  {
    forall j | 0 <= j < i ensures es[j].ip in (ahead + {ip}) - {ip} {
      assert es[j] in es;
    }
    PositionsFit(es, i, (ahead + {ip}) - {ip});
    assert (ahead + {ip}) - {ip} + {ip} == ahead + {ip};
  }

  /** A client that stays silent keeps its bucket as long as fewer than 10000
      other IPs turn up and no sweep reaches back to its last request: the limit
      cannot be reset by evicting the entry early. */
  lemma {:induction false} BucketSurvives(es: seq<Entry>, mine: Entry, ahead: set<string>, events: seq<Event>, now: int)
    requires InOrder(es) && UsedBy(es, now) && Monotonic(events, now)
    requires Kept(es, mine, ahead)
    requires mine.ip !in RequestedBy(events)
    requires |ahead + RequestedBy(events)| < MAX_RATE_LIMITERS
    requires forall e :: e in events && e.Tick? ==> e.cutoff < mine.lastUse
    ensures mine in After(es, events)
    decreases |events|
  {
    if events != [] {
      var e, rest := events[0], events[1..];
      assert e in events && forall x :: x in rest ==> x in events;
      FirstRequest(ahead, events);
      match e
      case Request(ip, bucket, t) =>
        assert ip in RequestedBy(events);
        UseKeepsOrder(es, ip, bucket, t);
        UseKeeps(es, mine, ahead, ip, bucket, t);
        BucketSurvives(Use(es, ip, bucket, t), mine, ahead + {ip}, rest, t);
      case Tick(cutoff) =>
        SweepRemovesExactlyIdle(es, cutoff);
        SweepKeeps(es, mine, ahead, cutoff);
        BucketSurvives(Sweep(es, cutoff), mine, ahead, rest, now);
    }
  }

  /** Two requests of one client, with fewer than 10000 other IPs and no sweep that
      reaches the first in between, draw on the same bucket. */
  lemma SameBucketAgain(es: seq<Entry>, ip: string, b: nat, t: int, events: seq<Event>, b': nat, t': int)
    requires InOrder(es) && UsedBy(es, t) && Monotonic(events, t)
    requires ip !in RequestedBy(events) && |RequestedBy(events)| < 10000
    requires forall e :: e in events && e.Tick? ==> e.cutoff < t
    ensures var first := Use(es, ip, b, t);
            var second := Use(After(first, events), ip, b', t');
            |first| > 0 && |second| > 0 && second[0].bucket == first[0].bucket
  {
    UseMeans(es, ip, b, t);
    UseKeepsOrder(es, ip, b, t);
    var first := Use(es, ip, b, t);
    assert Kept(first, first[0], {});
    assert {} + RequestedBy(events) == RequestedBy(events);
    BucketSurvives(first, first[0], {}, events, t);
    AlwaysInOrder(first, events, t);
    UseMeans(After(first, events), ip, b', t');
  }

  lemma FirstRequest(ahead: set<string>, events: seq<Event>)
    requires events != []
    ensures RequestedBy(events[1..]) <= RequestedBy(events)
    ensures var now := if events[0].Request? then {events[0].ip} else {};
            && ahead + now + RequestedBy(events[1..]) == ahead + RequestedBy(events)
            && |ahead + now| <= |ahead + RequestedBy(events)|
  {
    var now := if events[0].Request? then {events[0].ip} else {};
    assert forall e :: e in events <==> e == events[0] || e in events[1..];
    assert RequestedBy(events) == now + RequestedBy(events[1..]);
    SubsetSize(ahead + now, ahead + RequestedBy(events));
  }

  lemma SweepKeeps(es: seq<Entry>, mine: Entry, ahead: set<string>, cutoff: int)
    requires InOrder(es) && Kept(es, mine, ahead) && cutoff < mine.lastUse
    ensures Kept(Sweep(es, cutoff), mine, ahead)
  {
    SweepRemovesExactlyIdle(es, cutoff);
    var i :| 0 <= i < |es| && es[i] == mine && forall j :: 0 <= j < i ==> es[j].ip in ahead;
    var r := Sweep(es, cutoff);
    assert mine in r;
    var k :| 0 <= k < |r| && r[k] == mine;
    assert r[k] == es[k];
    assert k == i;
  }

  // ---------------------------------------------------------------- the code

  /** A list element: the limiter of one IP. */
  class IpLimiter {
    const ip: string
    const bucket: nat
    var lastUse: int

    constructor (ip: string, bucket: nat, lastUse: int)
      ensures this.ip == ip && this.bucket == bucket && this.lastUse == lastUse
    {
      this.ip, this.bucket, this.lastUse := ip, bucket, lastUse;
    }
  }

  /** Map and list hold the same elements, one per IP. */
  ghost predicate InStep(lru: seq<IpLimiter>, limiters: map<string, IpLimiter>) {
    && (forall i, j :: 0 <= i < j < |lru| ==> lru[i].ip != lru[j].ip)
    && (forall ip :: ip in limiters ==> limiters[ip] in lru && limiters[ip].ip == ip)
    && (forall e :: e in lru ==> e.ip in limiters && limiters[e.ip] == e)
  }

  lemma FrontInStep(lru: seq<IpLimiter>, limiters: map<string, IpLimiter>, i: nat)
    requires i < |lru| && InStep(lru, limiters)
    ensures InStep(Front(lru, i), limiters)
  {
    var r := Front(lru, i);
    forall e ensures e in r <==> e in lru {
      if e in lru {
        var j :| 0 <= j < |lru| && lru[j] == e;
        assert FrontSource(i, if j == i then 0 else if j < i then j + 1 else j) == j;
        assert r[if j == i then 0 else if j < i then j + 1 else j] == e;
      }
    }
    forall j, k | 0 <= j < k < |lru| ensures r[j].ip != r[k].ip {
      assert r[j] == lru[FrontSource(i, j)] && r[k] == lru[FrontSource(i, k)];
    }
  }

  lemma PushInStep(lru: seq<IpLimiter>, limiters: map<string, IpLimiter>, e: IpLimiter)
    requires InStep(lru, limiters) && e.ip !in limiters
    ensures InStep([e] + lru, limiters[e.ip := e])
  {
    assert forall i :: 0 <= i < |lru| ==> lru[i] in lru;
  }

  lemma DropInStep(lru: seq<IpLimiter>, limiters: map<string, IpLimiter>)
    requires InStep(lru, limiters) && |lru| > 0
    ensures InStep(lru[..|lru| - 1], limiters - {lru[|lru| - 1].ip})
  {
    var back := lru[|lru| - 1];
    assert forall e :: e in lru <==> e in lru[..|lru| - 1] || e == back;
    assert forall i :: 0 <= i < |lru| - 1 ==> lru[i].ip != back.ip;
  }

  class Limiters {
    ghost var entries: seq<Entry>  // the list as a value
    var rateLRU: seq<IpLimiter>
    var rateLimiters: map<string, IpLimiter>
    var nextBucket: nat

    ghost predicate Shows()
      reads this, rateLRU
    {
      |entries| == |rateLRU| &&
      forall i :: 0 <= i < |rateLRU| ==>
        entries[i] == Entry(rateLRU[i].ip, rateLRU[i].bucket, rateLRU[i].lastUse)
    }

    ghost predicate Valid()
      reads this, rateLRU
    {
      Shows() && InStep(rateLRU, rateLimiters)
    }

    constructor ()
      ensures Valid() && entries == []
    {
      rateLRU, rateLimiters, nextBucket, entries := [], map[], 0, [];
    }

    method GetLimiter(ip: string, now: int) returns (bucket: nat)
      requires Valid()
      modifies this, rateLRU
      ensures Valid()
      ensures entries == Use(old(entries), ip, old(nextBucket), now)
      ensures |entries| > 0 && entries[0] == Entry(ip, bucket, now)
      ensures nextBucket == old(nextBucket) + if ip in Ips(old(entries)) then 0 else 1
      ensures forall i :: 0 <= i < |old(entries)| && old(entries)[i].ip == ip ==> bucket == old(entries)[i].bucket
      ensures (forall i :: 0 <= i < |old(entries)| ==> old(entries)[i].ip != ip) ==> bucket == old(nextBucket)
      ensures InOrder(old(entries)) ==>
                forall i :: 0 <= i < |old(entries)| && old(entries)[i].ip != ip ==>
                  (old(entries)[i] in entries
                   <==> i < 9999 || exists j :: 0 <= j < |old(entries)| && old(entries)[j].ip == ip)
    {
      KnownKeepsBucket(entries, ip, nextBucket, now);
      if InOrder(entries) {
        UseMeans(entries, ip, nextBucket, now);
      }
      ListAndMapAgree(ip);
      if ip in rateLimiters {
        bucket := Promote(ip, now);
      } else {
        bucket := Create(ip, now);
      }
    }

    lemma ListAndMapAgree(ip: string)
      requires Valid()
      ensures ip in rateLimiters <==> ip in Ips(entries)
    {
      if ip in rateLimiters {
        var i :| 0 <= i < |rateLRU| && rateLRU[i] == rateLimiters[ip];
        assert entries[i] in entries && entries[i].ip == ip;
      }
      if ip in Ips(entries) {
        var i :| 0 <= i < |entries| && entries[i].ip == ip;
        assert rateLRU[i] in rateLRU;
      }
    }

    method Promote(ip: string, now: int) returns (bucket: nat)
      requires Valid() && ip in rateLimiters && ip in Ips(entries)
      modifies this`rateLRU, this`entries, rateLimiters[ip]
      ensures Valid()
      ensures entries == Use(old(entries), ip, nextBucket, now)
      ensures |entries| > 0 && entries[0] == Entry(ip, bucket, now)
    {
      var il := rateLimiters[ip];
      var i :| 0 <= i < |rateLRU| && rateLRU[i] == il;
      assert Position(entries, ip) == i;
      Touch(il, i, now);
      MoveToFront(i);
      bucket := il.bucket;
    }

    method Touch(il: IpLimiter, i: nat, now: int)
      requires Valid() && i < |rateLRU| && rateLRU[i] == il
      modifies il, this`entries
      ensures Valid()
      ensures entries == old(entries)[i := old(entries)[i].(lastUse := now)]
    {
      assert forall j :: 0 <= j < |rateLRU| && j != i ==> rateLRU[j].ip != il.ip;
      il.lastUse := now;
      entries := entries[i := entries[i].(lastUse := now)];
    }

    method MoveToFront(i: nat)
      requires Valid() && i < |rateLRU|
      modifies this`rateLRU, this`entries
      ensures Valid()
      ensures entries == Front(old(entries), i)
    {
      FrontInStep(rateLRU, rateLimiters, i);
      entries := Front(entries, i);
      rateLRU := Front(rateLRU, i);
    }

    method Create(ip: string, now: int) returns (bucket: nat)
      requires Valid() && ip !in rateLimiters && ip !in Ips(entries)
      modifies this
      ensures Valid()
      ensures entries == Use(old(entries), ip, old(nextBucket), now)
      ensures |entries| > 0 && entries[0] == Entry(ip, bucket, now)
      ensures nextBucket == old(nextBucket) + if ip in Ips(old(entries)) then 0 else 1
    {
      if |rateLRU| >= MAX_RATE_LIMITERS {
        DropBack();
      }
      bucket := nextBucket;
      nextBucket := nextBucket + 1;
      PushFront(ip, bucket, now);
    }

    method PushFront(ip: string, bucket: nat, now: int)
      requires Valid() && ip !in rateLimiters
      modifies this`rateLRU, this`rateLimiters, this`entries
      ensures Valid()
      ensures entries == [Entry(ip, bucket, now)] + old(entries)
    {
      var il := new IpLimiter(ip, bucket, now);
      assert Shows();
      PushInStep(rateLRU, rateLimiters, il);
      entries := [Entry(ip, bucket, now)] + entries;
      rateLRU := [il] + rateLRU;
      rateLimiters := rateLimiters[ip := il];
    }

    /** Remove the back of the list and its map entry. */
    method DropBack()
      requires Valid() && |rateLRU| > 0
      modifies this`rateLRU, this`rateLimiters, this`entries
      ensures Valid()
      ensures entries == old(entries)[..|old(entries)| - 1]
      ensures rateLimiters.Keys <= old(rateLimiters).Keys
    {
      DropInStep(rateLRU, rateLimiters);
      var back := rateLRU[|rateLRU| - 1];
      rateLRU := rateLRU[..|rateLRU| - 1];
      rateLimiters := rateLimiters - {back.ip};
      entries := entries[..|entries| - 1];
    }

    method EvictIdle(cutoff: int)
      requires Valid()
      modifies this`rateLRU, this`rateLimiters, this`entries
      ensures Valid()
      ensures entries == Sweep(old(entries), cutoff)
      ensures InOrder(old(entries)) ==> forall e :: e in entries <==> e in old(entries) && e.lastUse > cutoff
    {
      if InOrder(entries) {
        SweepRemovesExactlyIdle(entries, cutoff);
      }
      while |rateLRU| > 0
        invariant Valid()
        invariant Sweep(entries, cutoff) == Sweep(old(entries), cutoff)
        decreases |rateLRU|
      {
        if rateLRU[|rateLRU| - 1].lastUse > cutoff {
          return;
        }
        DropBack();
      }
    }
  }
}
