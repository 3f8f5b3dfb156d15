/** The cache of successful password checks in login. */
module VerifyCache {

  const CAPACITY := 10000
  const TTL := 60

  /** sha256Hex and verifyPassword, left abstract. */
  datatype Crypto = Crypto(digest: string -> string, verify: (string, string) -> bool)

  datatype Attempt = Attempt(username: string, clientIp: string, password: string, hash: string)

  function Key(c: Crypto, a: Attempt): string {
    a.username + "|" + a.clientIp + "|" + c.digest(a.password) + "|" + a.hash
  }

  function Checks(c: Crypto, a: Attempt): bool { c.verify(a.password, a.hash) }

  predicate NoBar(s: string) { '|' !in s }

  /** Digests are collision-free hexadecimal strings. */
  ghost predicate DigestOk(c: Crypto) {
    && (forall p: string :: NoBar(c.digest(p)))
    && (forall p: string, q: string :: c.digest(p) == c.digest(q) ==> p == q)
  }

  // ---- Keys ----

  lemma NoBarBehind(p: string, s: string)
    requires NoBar(s)
    ensures forall k | |p| < k < |p + "|" + s| :: (p + "|" + s)[k] != '|'
  {
    forall k | |p| < k < |p + "|" + s| ensures (p + "|" + s)[k] != '|' {
      assert (p + "|" + s)[k] == s[k - |p| - 1];
    }
  }

  /** The last bar separates. */
  lemma LastBarSeparates(p: string, s: string, p': string, s': string)
    requires p + "|" + s == p' + "|" + s' && NoBar(s) && NoBar(s')
    ensures p == p' && s == s'
  {
    var t := p + "|" + s;
    NoBarBehind(p, s);
    NoBarBehind(p', s');
    assert t[|p|] == '|' && (p' + "|" + s')[|p'|] == '|';
    assert |p| == |p'|;
    assert p == t[..|p|] && s == t[|p| + 1..] && p' == t[..|p|] && s' == t[|p| + 1..];
  }

  /** Equal keys mean the same password against the same stored hash, whatever user names and
      addresses look like. */
  lemma KeyDeterminesCredentials(c: Crypto, a: Attempt, b: Attempt)
    requires DigestOk(c) && NoBar(a.hash) && NoBar(b.hash) && Key(c, a) == Key(c, b)
    ensures a.password == b.password && a.hash == b.hash
  {
    var p, q := a.username + "|" + a.clientIp, b.username + "|" + b.clientIp;
    LastBarSeparates(p + "|" + c.digest(a.password), a.hash, q + "|" + c.digest(b.password), b.hash);
    LastBarSeparates(p, c.digest(a.password), q, c.digest(b.password));
  }

  /** A bar in the stored hash would break that, for every pair of passwords. */
  lemma BarInHashConfusesKeys(c: Crypto, user: string, ip: string, p: string, q: string)
    requires p != q
    ensures exists a: Attempt, b: Attempt ::
              && a.password == p && b.password == q && a.username == b.username == user && a.clientIp == ip
              && NoBar(b.hash) && !NoBar(a.hash) && Key(c, a) == Key(c, b)
  {
    var a := Attempt(user, ip, p, "|" + c.digest(q) + "|");
    var b := Attempt(user, ip + "|" + c.digest(p) + "|", q, "");
    assert a.hash[0] == '|';
    assert Key(c, a) == user + "|" + ip + "|" + c.digest(p) + "|" + "|" + c.digest(q) + "|";
    assert Key(c, b) == user + "|" + ip + "|" + c.digest(p) + "|" + "|" + c.digest(q) + "|";
  }

  // ---- The cache ----

  predicate Hit(cache: map<string, int>, key: string, now: int) { key in cache && now <= cache[key] }

  function Without(cache: map<string, int>, key: string): map<string, int> {
    map k | k in cache && k != key :: cache[k]
  }

  function Looked(cache: map<string, int>, key: string, now: int): map<string, int> {
    if key in cache && now > cache[key] then Without(cache, key) else cache
  }

  function Stored(cache: map<string, int>, key: string, now: int): map<string, int> {
    (if |cache| >= CAPACITY then map[] else cache)[key := now + TTL]
  }

  /** Every key stems from a check that succeeded. */
  ghost predicate Sound(c: Crypto, cache: map<string, int>) {
    forall key | key in cache :: FromSuccess(c, key)
  }

  ghost predicate FromSuccess(c: Crypto, key: string) {
    exists a: Attempt :: Key(c, a) == key && Checks(c, a) && NoBar(a.hash)
  }

  lemma HitMeansVerified(c: Crypto, cache: map<string, int>, a: Attempt, now: int)
    requires DigestOk(c) && Sound(c, cache) && NoBar(a.hash) && Hit(cache, Key(c, a), now)
    ensures Checks(c, a)
  {
    assert FromSuccess(c, Key(c, a));
    var b: Attempt :| Key(c, b) == Key(c, a) && Checks(c, b) && NoBar(b.hash);
    KeyDeterminesCredentials(c, a, b);
  }

  // ---- Runs ----

  /** Logins of any number of clients, interleaved: the lookup, and later, for a miss, the end of the
      check on a worker thread. */
  datatype Event = Lookup(attempt: Attempt, now: int) | Checked(attempt: Attempt, now: int)

  function Apply(c: Crypto, cache: map<string, int>, e: Event): map<string, int> {
    match e
    case Lookup(a, now) => Looked(cache, Key(c, a), now)
    case Checked(a, now) => if Checks(c, a) then Stored(cache, Key(c, a), now) else cache
  }

  function After(c: Crypto, events: seq<Event>, n: nat): map<string, int>
    requires n <= |events|
  {
    if n == 0 then map[] else Apply(c, After(c, events, n - 1), events[n - 1])
  }

  lemma {:induction false} NeverAboveCapacity(c: Crypto, events: seq<Event>, n: nat)
    requires n <= |events|
    ensures |After(c, events, n)| <= CAPACITY
  {
    if n > 0 {
      NeverAboveCapacity(c, events, n - 1);
      StepStaysWithinCapacity(c, After(c, events, n - 1), events[n - 1]);
    }
  }

  lemma StepStaysWithinCapacity(c: Crypto, cache: map<string, int>, e: Event)
    requires |cache| <= CAPACITY
    ensures |Apply(c, cache, e)| <= CAPACITY
  {
    var key := Key(c, e.attempt);
    SmallerWithout(cache, key);
    StoringStaysWithinCapacity(cache, key, e.now);
  }

  lemma StoringStaysWithinCapacity(cache: map<string, int>, key: string, now: int)
    requires |cache| <= CAPACITY
    ensures |Stored(cache, key, now)| <= CAPACITY
  {
    OneMoreWith(if |cache| >= CAPACITY then map[] else cache, key, now + TTL);
  }

  lemma SmallerWithout(cache: map<string, int>, key: string)
    ensures |Without(cache, key)| <= |cache|
  {
    assert Without(cache, key).Keys == cache.Keys - {key};
  }

  lemma OneMoreWith(cache: map<string, int>, key: string, v: int)
    ensures |cache[key := v]| <= |cache| + 1
  {
    assert cache[key := v].Keys == cache.Keys + {key};
  }

  /** Each entry comes from a successful check of that key and lives 60 s from it. */
  lemma {:induction false} EntriesHaveASource(c: Crypto, events: seq<Event>, n: nat, key: string)
    requires n <= |events| && key in After(c, events, n)
    ensures exists i | 0 <= i < n :: IsSource(c, events, i, key, After(c, events, n)[key])
  {
    var cache, e := After(c, events, n - 1), events[n - 1];
    if e.Checked? && Checks(c, e.attempt) && Key(c, e.attempt) == key {
      assert IsSource(c, events, n - 1, key, After(c, events, n)[key]);
    } else {
      assert key in cache && After(c, events, n)[key] == cache[key];
      EntriesHaveASource(c, events, n - 1, key);
    }
  }

  ghost predicate IsSource(c: Crypto, events: seq<Event>, i: nat, key: string, expiry: int)
    requires i < |events|
  {
    && events[i].Checked? && Checks(c, events[i].attempt)
    && Key(c, events[i].attempt) == key && expiry == events[i].now + TTL
  }

  /** Transparency: in every run a hit implies that the uncached check would succeed, and that the same
      password was checked against the same hash at most 60 s before. */
  lemma HitsAreTransparent(c: Crypto, events: seq<Event>, n: nat, a: Attempt, now: int)
    requires DigestOk(c) && n <= |events|
    requires NoBar(a.hash) && forall i | 0 <= i < n :: NoBar(events[i].attempt.hash)
    requires Hit(After(c, events, n), Key(c, a), now)
    ensures Checks(c, a)
    ensures exists i | 0 <= i < n ::
              && events[i].Checked? && now <= events[i].now + TTL
              && events[i].attempt.password == a.password && events[i].attempt.hash == a.hash
  {
    var key := Key(c, a);
    EntriesHaveASource(c, events, n, key);
    var i: nat :| i < n && IsSource(c, events, i, key, After(c, events, n)[key]);
    KeyDeterminesCredentials(c, a, events[i].attempt);
  }

  // ---- What the cache is for ----

  /** While nothing has filled the cache and the clock has not passed its expiry, an entry stays, and only gets
      younger. */
  ghost predicate Undisturbed(c: Crypto, events: seq<Event>, i: nat, n: nat, now: int)
    requires n <= |events|
  {
    forall k: nat | i < k < n :: QuietAt(c, events, i, k, now)
  }

  ghost predicate QuietAt(c: Crypto, events: seq<Event>, i: nat, k: nat, now: int)
    requires i < k < |events|
  {
    |After(c, events, k)| < 10000 && events[i].now <= events[k].now <= now
  }

  lemma EventKeepsEntry(c: Crypto, cache: map<string, int>, e: Event, key: string, expiry: int)
    requires key in cache && cache[key] >= expiry && |cache| < 10000 && expiry - 60 <= e.now <= expiry
    ensures key in Apply(c, cache, e) && Apply(c, cache, e)[key] >= expiry
  {
  }

  lemma {:induction false} EntryStays(c: Crypto, events: seq<Event>, i: nat, n: nat, now: int)
    requires i < n <= |events| && events[i].Checked? && Checks(c, events[i].attempt)
    requires Undisturbed(c, events, i, n, now) && now <= events[i].now + 60
    ensures var key := Key(c, events[i].attempt);
            key in After(c, events, n) && After(c, events, n)[key] >= events[i].now + 60
  {
    var key, expiry := Key(c, events[i].attempt), events[i].now + 60;
    if n > i + 1 {
      assert QuietAt(c, events, i, n - 1, now);
      EntryStays(c, events, i, n - 1, now);
      EventKeepsEntry(c, After(c, events, n - 1), events[n - 1], key, expiry);
    }
  }

  /** A credential whose check succeeded is hit for 60 s, the last instant included, unless the cache has filled
      up to 10000 entries meanwhile: repeating a login within that time costs no second check. */
  lemma RecentSuccessIsHit(c: Crypto, events: seq<Event>, i: nat, n: nat, now: int)
    requires i < n <= |events| && events[i].Checked? && Checks(c, events[i].attempt)
    requires Undisturbed(c, events, i, n, now)
    requires now <= events[i].now + 60
    ensures Hit(After(c, events, n), Key(c, events[i].attempt), now)
  {
    EntryStays(c, events, i, n, now);
  }

  /** User names and addresses without a bar: equal keys mean equal attempts, one for one. */
  lemma KeyDeterminesTheAttempt(c: Crypto, a: Attempt, b: Attempt)
    requires DigestOk(c) && NoBar(a.hash) && NoBar(b.hash) && NoBar(a.clientIp) && NoBar(b.clientIp)
    ensures Key(c, a) == Key(c, b) <==> a == b
  {
    if Key(c, a) == Key(c, b) {
      var p, q := a.username + "|" + a.clientIp, b.username + "|" + b.clientIp;
      LastBarSeparates(p + "|" + c.digest(a.password), a.hash, q + "|" + c.digest(b.password), b.hash);
      LastBarSeparates(p, c.digest(a.password), q, c.digest(b.password));
      LastBarSeparates(a.username, a.clientIp, b.username, b.clientIp);
    }
  }
}

module AuthService {
  import opened VerifyCache

  class Verifier {
    const crypto: Crypto
    var cache: map<string, int>

    constructor (crypto: Crypto)
      ensures this.crypto == crypto && cache == map[]
    {
      this.crypto, cache := crypto, map[];
    }

    method CacheGet(key: string, now: int) returns (hit: bool)
      modifies this
      ensures hit <==> key in old(cache) && now <= old(cache)[key]
      ensures cache == if key in old(cache) && now > old(cache)[key] then Without(old(cache), key) else old(cache)
      ensures hit == Hit(old(cache), key, now) && cache == Looked(old(cache), key, now)
    {
      if key !in cache {
        return false;
      }
      if now > cache[key] {
        cache := Without(cache, key);
        return false;
      }
      return true;
    }

    method CachePut(key: string, now: int)
      modifies this
      ensures cache == Stored(old(cache), key, now)
      ensures cache == if |old(cache)| < 10000 then old(cache)[key := now + 60] else map[key := now + 60]
    {
      if |cache| >= CAPACITY {
        cache := map[];
      }
      cache := cache[key := now + TTL];
    }

    /** The password part of login: a hit answers at once, a miss runs the check and caches success.
        Either way the answer is the one of the uncached check. */
    method CheckPassword(a: Attempt, now: int, later: int) returns (ok: bool)
      requires DigestOk(crypto) && Sound(crypto, cache) && NoBar(a.hash)
      modifies this
      ensures ok <==> Checks(crypto, a)
      ensures Sound(crypto, cache)
      ensures Hit(old(cache), Key(crypto, a), now) ==> cache == old(cache)
      ensures !Hit(old(cache), Key(crypto, a), now) && ok ==> Key(crypto, a) in cache
    {
      var key := Key(crypto, a);
      var hit := CacheGet(key, now);
      if hit {
        HitMeansVerified(crypto, old(cache), a, now);
        return true;
      }
      ok := crypto.verify(a.password, a.hash);
      if ok {
        assert FromSuccess(crypto, key);
        CachePut(key, later);
      }
    }
  }
}
