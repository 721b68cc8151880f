/** The threat-intelligence client: cached lookups in front of two rate-limited services. */
module ThreatIntel {
  import opened Basics
  import opened RateLimiter

  const HOUR := 3_600_000_000_000
  const MINUTE := 60_000_000_000
  const VT_HASH := "vt:hash:"
  const VT_DOMAIN := "vt:domain:"
  const ABUSE := "abuse:"

  datatype VTResult = VTResult(malicious: int, suspicious: int, harmless: int, undetected: int, summary: string)
  datatype AbuseResult = AbuseResult(ip: string, abuseScore: int, totalReports: int, countryCode: string, isp: string,
          summary: string)

  /** What the cache holds: a value of one of two types, told apart by the key. */
  datatype Value = VT(vt: VTResult) | Abuse(abuse: AbuseResult)

  datatype Cached = Cached(value: Value, cachedAt: int, expiresAt: int)

  /** A request to a service whose answer was cached: when it was made, and the clock its storing went by. */
  datatype Fetch = Fetch(key: string, time: int, stored: int, value: Value)

  const VT_EMPTY := VTResult(0, 0, 0, 0, "no VT data (no API key or lookup failed)")
  const ABUSE_EMPTY := AbuseResult("", 0, 0, "", "", "no AbuseIPDB data (no API key or lookup failed)")

  predicate IsPrivateIP(ip: string) {
    exists i :: 0 <= i < |PRIVATE| && PRIVATE[i] <= ip
  }

  const PRIVATE: seq<string> := [
    "127.", "::1", "10.", "192.168.",
    "172.16.", "172.17.", "172.18.", "172.19.", "172.20.", "172.21.", "172.22.", "172.23.",
    "172.24.", "172.25.", "172.26.", "172.27.", "172.28.", "172.29.", "172.30.", "172.31."]

  predicate IsVTKey(key: string) {
    "vt:" <= key
  }

  /** The index of the last fetch for a key, or -1. */
  function LastFetch(fetches: seq<Fetch>, key: string): (i: int)
    ensures -1 <= i < |fetches| && (i >= 0 ==> fetches[i].key == key)
    ensures forall j :: i < j < |fetches| ==> fetches[j].key != key
  {
    if fetches == [] then -1
    else if fetches[|fetches| - 1].key == key then |fetches| - 1
    else LastFetch(fetches[..|fetches| - 1], key)
  }

  /** The entry for a key is the last answer fetched for it, good for an hour from when that was stored. */
  ghost predicate Current(cache: map<string, Cached>, fetches: seq<Fetch>, key: string) {
    var i := LastFetch(fetches, key);
    if i < 0 then key !in cache
    else key in cache && cache[key].value == fetches[i].value && cache[key].expiresAt == fetches[i].stored + HOUR
  }

  /** A fetch is made more than an hour after the answer to an earlier one for its key was stored. */
  ghost predicate HourApart(fetches: seq<Fetch>) {
    forall i: nat, j: nat :: i < j < |fetches| ==> FarIfSame(fetches[i], fetches[j])
  }

  predicate FarIfSame(f: Fetch, g: Fetch) {
    f.key == g.key ==> g.time - f.stored > HOUR
  }

  /** The last answer fetched for the key was stored no longer than an hour before. */
  ghost predicate GoodAt(fetches: seq<Fetch>, key: string, now: int) {
    LastFetch(fetches, key) >= 0 && now <= fetches[LastFetch(fetches, key)].stored + HOUR
  }

  /** A value served without a request is the last one fetched for the key, and no older than an hour. */
  ghost predicate Served(fetches: seq<Fetch>, key: string, v: Value, now: int) {
    GoodAt(fetches, key, now) && fetches[LastFetch(fetches, key)].value == v
  }

  /** One more fetch, for this key and with this answer, stored by now. */
  ghost predicate OneFetch(before: seq<Fetch>, after: seq<Fetch>, key: string, v: Value, start: int, now: int) {
    |after| == |before| + 1 && after[..|before|] == before && Answers(after[|before|], key, v, start, now)
  }

  predicate Answers(f: Fetch, key: string, v: Value, start: int, now: int) {
    f.key == key && f.value == v && start <= f.time <= f.stored <= now
  }

  ghost predicate Typed(fetches: seq<Fetch>) {
    forall i :: 0 <= i < |fetches| ==> (IsVTKey(fetches[i].key) <==> fetches[i].value.VT?)
  }

  /** What the client's cache and its history have to do with each other. */
  ghost predicate Disciplined(cache: map<string, Cached>, fetches: seq<Fetch>, now: int) {
    && (forall key :: Current(cache, fetches, key))
    && HourApart(fetches) && Typed(fetches)
    && (forall i :: 0 <= i < |fetches| ==> fetches[i].time <= fetches[i].stored <= now)
  }

  lemma LastFetchSnoc(fetches: seq<Fetch>, f: Fetch, key: string)
    ensures LastFetch(fetches + [f], key) == if f.key == key then |fetches| else LastFetch(fetches, key)
  {
    assert (fetches + [f])[..|fetches|] == fetches;
  }

  /** A hit is a value of the right type: no type assertion can fail. */
  lemma HitTyped(cache: map<string, Cached>, fetches: seq<Fetch>, now: int, key: string)
    requires Disciplined(cache, fetches, now) && key in cache
    ensures IsVTKey(key) <==> cache[key].value.VT?
    ensures LastFetch(fetches, key) >= 0 && cache[key].value == fetches[LastFetch(fetches, key)].value
  {
    assert Current(cache, fetches, key);
  }

  /** A fetch made when the cache had no live entry, and then cached, keeps the discipline. */
  lemma Stored(cache: map<string, Cached>, fetches: seq<Fetch>, before: int, f: Fetch, c: Cached, now: int)
    requires Disciplined(cache, fetches, before) && before <= f.time <= f.stored <= now
    requires f.key in cache ==> f.time > cache[f.key].expiresAt
    requires c.value == f.value && c.expiresAt == f.stored + HOUR && (IsVTKey(f.key) <==> f.value.VT?)
    ensures Disciplined(cache[f.key := c], fetches + [f], now)
  {
    var cache' := cache[f.key := c];
    forall key ensures Current(cache', fetches + [f], key) {
      LastFetchSnoc(fetches, f, key);
      assert Current(cache, fetches, key);
    }
    forall i | 0 <= i < |fetches| ensures FarIfSame(fetches[i], f) {
      ExpiryCoversEarlier(cache, fetches, before, i);
    }
  }

  lemma ExpiryCoversEarlier(cache: map<string, Cached>, fetches: seq<Fetch>, now: int, i: nat)
    requires Disciplined(cache, fetches, now) && i < |fetches|
    ensures fetches[i].key in cache && cache[fetches[i].key].expiresAt >= fetches[i].stored + HOUR
  {
    var key := fetches[i].key;
    assert Current(cache, fetches, key);
    var last := LastFetch(fetches, key);
    assert i <= last;
    assert i < last ==> FarIfSame(fetches[i], fetches[last]);
  }

  class Client {
    const vtKey: string
    const abuseKey: string
    const clock: Clock
    const vtLimiter: Limiter
    var cache: map<string, Cached>
    ghost var fetches: seq<Fetch>

    ghost predicate Valid()
      reads this, clock, vtLimiter
    {
      LimiterReady() && Disciplined(cache, fetches, clock.t)
    }

    constructor (vtKey: string, abuseKey: string, clock: Clock)
      ensures Valid() && fetches == [] && fresh(vtLimiter) && this.clock == clock
    {
      this.vtKey, this.abuseKey, this.clock := vtKey, abuseKey, clock;
      vtLimiter := new Limiter(4, MINUTE, clock);
      cache, fetches := map[], [];
    }

    /** The limiter's part of Valid. */
    ghost predicate LimiterReady()
      reads this, clock, vtLimiter
    {
      vtLimiter.clock == clock && vtLimiter.maxReqs == 4 && vtLimiter.window == MINUTE && vtLimiter.Valid()
    }

    method CacheGet(key: string) returns (r: Option<Value>)
      requires Valid()
      modifies clock
      ensures Valid() && old(clock.t) <= clock.t
      ensures r.Some? ==> key in cache && clock.t <= cache[key].expiresAt && r.value == cache[key].value
      ensures r.None? && key in cache ==> clock.t > cache[key].expiresAt
    {
      var now := clock.Now();
      if key !in cache || now > cache[key].expiresAt { return None; }
      r := Some(cache[key].value);
    }

    /** The answer to a request is stored for an hour, by a clock read after it came. */
    method CachePut(ghost time: int, ghost before: int, key: string, val: Value)
      requires LimiterReady() && Disciplined(cache, fetches, before)
      requires before <= time <= clock.t && (IsVTKey(key) <==> val.VT?)
      requires key in cache ==> time > cache[key].expiresAt
      modifies this`cache, this`fetches, clock
      ensures Valid() && old(clock.t) <= clock.t
      ensures OneFetch(old(fetches), fetches, key, val, time, clock.t) && fetches[|old(fetches)|].time == time
      ensures fetches[|old(fetches)|].stored >= old(clock.t)
    {
      hide Disciplined, Remembers;
      var cachedAt := clock.Now();
      var now := clock.Now();
      var c := Cached(val, cachedAt, now + HOUR);
      ghost var f := Fetch(key, time, now, val);
      Stored(cache, fetches, before, f, c, now);
      RemembersLater(vtLimiter.all, vtLimiter.lastReqs, 4, MINUTE, old(clock.t), now);
      cache := cache[key := c];
      fetches := fetches + [f];
    }

    /**
     * The common part of the two VirusTotal lookups. Either the last answer fetched for the key, stored no longer
     * than an hour before, is returned and no request is made; or there is no such answer, the limiter is waited for,
     * one request is made, and its answer is returned and stored. Failed requests count as answers here.
     */
    method LookupVT(key: string, answer: VTResult) returns (r: VTResult, ghost fetched: bool)
      requires Valid() && IsVTKey(key)
      modifies this`cache, this`fetches, clock, vtLimiter
      ensures Valid() && old(clock.t) <= clock.t
      ensures !fetched ==> cache == old(cache) && fetches == old(fetches) && vtLimiter.all == old(vtLimiter.all)
      ensures !fetched ==> Served(fetches, key, VT(r), clock.t)
      ensures fetched ==> OneFetch(old(fetches), fetches, key, VT(answer), old(clock.t), clock.t) && r == answer
      ensures fetched ==>
          |vtLimiter.all| == |old(vtLimiter.all)| + 1 &&
          vtLimiter.all[|old(vtLimiter.all)|] <= fetches[|old(fetches)|].time
      ensures fetched ==> !GoodAt(old(fetches), key, fetches[|old(fetches)|].time)
    {
      var hit := CacheGet(key);
      assert Current(cache, fetches, key);
      if hit.Some? {
        HitTyped(cache, fetches, clock.t, key);
        return hit.value.vt, false;
      }
      ghost var before := clock.t;
      var _, _ := vtLimiter.Wait();
      CachePut(clock.t, before, key, VT(answer));
      r, fetched := answer, true;
    }

    method LookupHash(sha256: string, answer: VTResult) returns (r: VTResult, ghost fetched: bool)
      requires Valid()
      modifies this`cache, this`fetches, clock, vtLimiter
      ensures Valid()
      ensures vtKey == "" || sha256 == "" ==> r == VT_EMPTY && !fetched
      ensures !fetched ==> cache == old(cache) && fetches == old(fetches) && vtLimiter.all == old(vtLimiter.all)
      ensures !fetched && vtKey != "" && sha256 != "" ==> Served(fetches, VT_HASH + sha256, VT(r), clock.t)
      ensures fetched ==> r == answer
      ensures fetched ==> OneFetch(old(fetches), fetches, VT_HASH + sha256, VT(answer), old(clock.t), clock.t)
      ensures fetched ==> !GoodAt(old(fetches), VT_HASH + sha256, fetches[|old(fetches)|].time)
    {
      if vtKey == "" || sha256 == "" { return VT_EMPTY, false; }
      hide Valid;
      PrefixedIsVT(VT_HASH, sha256);
      r, fetched := LookupVT(VT_HASH + sha256, answer);
    }

    method LookupDomain(domain: string, answer: VTResult) returns (r: VTResult, ghost fetched: bool)
      requires Valid()
      modifies this`cache, this`fetches, clock, vtLimiter
      ensures Valid()
      ensures vtKey == "" || domain == "" ==> r == VT_EMPTY && !fetched
      ensures !fetched ==> cache == old(cache) && fetches == old(fetches) && vtLimiter.all == old(vtLimiter.all)
      ensures !fetched && vtKey != "" && domain != "" ==> Served(fetches, VT_DOMAIN + domain, VT(r), clock.t)
      ensures fetched ==> r == answer
      ensures fetched ==> OneFetch(old(fetches), fetches, VT_DOMAIN + domain, VT(answer), old(clock.t), clock.t)
      ensures fetched ==> !GoodAt(old(fetches), VT_DOMAIN + domain, fetches[|old(fetches)|].time)
    {
      if vtKey == "" || domain == "" { return VT_EMPTY, false; }
      hide Valid;
      PrefixedIsVT(VT_DOMAIN, domain);
      r, fetched := LookupVT(VT_DOMAIN + domain, answer);
    }

    static lemma PrefixedIsVT(prefix: string, rest: string)
      requires prefix == VT_HASH || prefix == VT_DOMAIN
      ensures IsVTKey(prefix + rest) && !IsVTKey(ABUSE + rest)
    {
      assert (ABUSE + rest)[0] == 'a';
    }

    /**
     * The AbuseIPDB lookup has no limiter, skips private addresses, and stores only answers that came with
     * status 200 and parsed: None stands for any failure, with the result then returned.
     */
    method LookupIP(ip: string, answer: Option<AbuseResult>, failure: AbuseResult)
      returns (r: AbuseResult, ghost fetched: bool)
      requires Valid()
      modifies this`cache, this`fetches, clock
      ensures Valid()
      ensures abuseKey == "" || ip == "" ==> r == ABUSE_EMPTY && !fetched
      ensures abuseKey != "" && ip != "" && IsPrivateIP(ip) ==> r.ip == ip && !fetched
      ensures !fetched ==> cache == old(cache) && fetches == old(fetches)
      ensures fetched ==> answer.Some? && r == answer.value
      ensures fetched ==> OneFetch(old(fetches), fetches, ABUSE + ip, Abuse(r), old(clock.t), clock.t)
      ensures fetched ==> !GoodAt(old(fetches), ABUSE + ip, fetches[|old(fetches)|].time)
      ensures !fetched && abuseKey != "" && ip != "" && !IsPrivateIP(ip) ==>
        if GoodAt(fetches, ABUSE + ip, clock.t) then Served(fetches, ABUSE + ip, Abuse(r), clock.t)
        else answer.None? && r == failure
    {
      if abuseKey == "" || ip == "" { return ABUSE_EMPTY, false; }
      if IsPrivateIP(ip) { return AbuseResult(ip, 0, 0, "", "", "private IP — no lookup needed"), false; }
      r, fetched := LookupAbuse(ABUSE + ip, ip, answer, failure);
    }

    method LookupAbuse(key: string, ghost ip: string, answer: Option<AbuseResult>, failure: AbuseResult)
      returns (r: AbuseResult, ghost fetched: bool)
      requires Valid() && key == ABUSE + ip
      modifies this`cache, this`fetches, clock
      ensures Valid()
      ensures !fetched ==> cache == old(cache) && fetches == old(fetches)
      ensures fetched ==> answer.Some? && r == answer.value
      ensures fetched ==> OneFetch(old(fetches), fetches, key, Abuse(r), old(clock.t), clock.t)
      ensures fetched ==> !GoodAt(old(fetches), key, fetches[|old(fetches)|].time)
      ensures !fetched ==>
        if GoodAt(fetches, key, clock.t) then Served(fetches, key, Abuse(r), clock.t)
        else answer.None? && r == failure
    {
      PrefixedIsVT(VT_HASH, ip);
      var hit := CacheGet(key);
      assert Current(cache, fetches, key);
      if hit.Some? {
        HitTyped(cache, fetches, clock.t, key);
        return hit.value.abuse, false;
      }
      ghost var before := clock.t;
      if answer.None? { return failure, false; }
      CachePut(clock.t, before, key, Abuse(answer.value));
      r, fetched := answer.value, true;
    }
  }
}
