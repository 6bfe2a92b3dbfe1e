/** The expiring key/value cache in front of the proxy (`fetchFPL`) and the
    keys the dashboard stores its datasets under. `localStorage` is a map
    from key to entry; the JSON text of an entry is not modelled. */
module Cache {
  import opened Base
  import opened Json

  /** The default time-to-live of `fetchFPL`, in milliseconds (30 minutes). */
  const DEFAULT_TTL: int := 1800000
  /** The time-to-lives the callers pass: bootstrap data, league standings,
      fixtures, and the transfer watcher's picks. */
  const BOOTSTRAP_TTL: int := 86400000
  const LEAGUE_TTL: int := 300000
  const FIXTURES_TTL: int := 3600000
  const TRANSFERS_TTL: int := 60000

  datatype Entry = Entry(data: Json, expiry: int)

  /** What awaiting the proxy gave: a decoded body (whatever its HTTP
      status), or an exception from the network or from decoding. */
  datatype FetchOutcome = Parsed(body: Json) | Threw

  /** The cached payload for `key` if it is still fresh at time `now`;
      an entry whose expiry equals `now` is stale. */
  function Lookup(entries: map<string, Entry>, key: string, now: int): (r: Option<Json>)
  {
    if key in entries && now < entries[key].expiry then Some(entries[key].data) else None
  }

  /** The body is handed to `setItem`: it decoded and passes `data && !data.error`. */
  predicate Offered(outcome: FetchOutcome)
  {
    outcome.Parsed? && Cacheable(outcome.body)
  }

  /** What the caller receives after the proxy was consulted: the body,
      error bodies included, or `null` when the request or the decoding
      threw, or when `setItem` threw on a body offered to the store
      (`writeFails`: the quota is exhausted or storage is disabled). */
  function Returned(outcome: FetchOutcome, writeFails: bool): (r: Json)
    ensures outcome.Threw? ==> r == JNull
    ensures Offered(outcome) && writeFails ==> r == JNull
    ensures outcome.Parsed? && !(Offered(outcome) && writeFails) ==> r == outcome.body
  {
    match outcome
    case Parsed(body) => if Cacheable(body) && writeFails then JNull else body
    case Threw => JNull
  }

  /** The store after the proxy was consulted for `key` and the body
      written at time `writeTime` with time-to-live `ttl`, unless the
      write failed. */
  function Settle(entries: map<string, Entry>, key: string, writeTime: int, ttl: int,
                  outcome: FetchOutcome, writeFails: bool): (r: map<string, Entry>)
    ensures entries.Keys <= r.Keys
    ensures forall k :: k in entries && k != key ==> r[k] == entries[k]
    ensures r.Keys <= entries.Keys + {key}
    ensures Offered(outcome) && !writeFails ==>
              key in r && r[key] == Entry(outcome.body, writeTime + ttl)
    ensures !(Offered(outcome) && !writeFails) ==> r == entries
  {
    if outcome.Parsed? && Cacheable(outcome.body) && !writeFails then
      entries[key := Entry(outcome.body, writeTime + ttl)]
    else
      entries
  }

  /** No stored entry holds an error body or a falsy value. */
  predicate NoPoison(entries: map<string, Entry>)
  {
    forall k :: k in entries ==> Cacheable(entries[k].data)
  }

  lemma SettleKeepsNoPoison(entries: map<string, Entry>, key: string, writeTime: int, ttl: int,
                            outcome: FetchOutcome, writeFails: bool)
    requires NoPoison(entries)
    ensures NoPoison(Settle(entries, key, writeTime, ttl, outcome, writeFails))
  {
  }

  /** Freshness: a payload stored at `t` with time-to-live `ttl` is served
      for every read strictly before `t + ttl` and for none afterwards. */
  lemma FreshUntilExpiry(entries: map<string, Entry>, key: string, t: int, ttl: int,
                         body: Json, later: int)
    requires Cacheable(body)
    ensures Lookup(Settle(entries, key, t, ttl, Parsed(body), false), key, later) ==
            (if later < t + ttl then Some(body) else None)
  {
  }

  /** A failed call (a thrown request, an error body, or a failed write)
      leaves a stale entry exactly where it was. */
  lemma FailureKeepsStaleEntry(entries: map<string, Entry>, key: string, writeTime: int,
                               ttl: int, outcome: FetchOutcome, writeFails: bool)
    requires outcome.Threw? || (outcome.Parsed? && HasError(outcome.body)) || writeFails
    requires key in entries
    ensures Settle(entries, key, writeTime, ttl, outcome, writeFails)[key] == entries[key]
  {
  }

  /** `localStorage` as the cache sees it. */
  class Store {
    var entries: map<string, Entry>

    ghost predicate Valid()
      reads this
    {
      NoPoison(entries)
    }

    constructor ()
      ensures Valid() && entries == map[]
    {
      entries := map[];
    }

    /** `fetchFPL(key, path, ttl)`. The clock is read twice: `checkTime` when
        the cached entry is examined and `writeTime` when a body is stored,
        after the proxy call. `outcome` is what the proxy call would give;
        `writeFails` whether `setItem` would throw; `called` tells whether
        the proxy was called. The path only selects the upstream resource
        and is part of `outcome`. */
    method FetchFPL(key: string, checkTime: int, writeTime: int, ttl: int, outcome: FetchOutcome,
                    writeFails: bool)
      returns (r: Json, called: bool)
      requires Valid()
      modifies this
      ensures Valid()
      ensures Lookup(old(entries), key, checkTime).Some? ==>
                !called && r == old(entries)[key].data && entries == old(entries)
      ensures Lookup(old(entries), key, checkTime).None? ==>
                called && r == Returned(outcome, writeFails) &&
                entries == Settle(old(entries), key, writeTime, ttl, outcome, writeFails)
    {
      if key in entries {
        var e := entries[key];
        if checkTime < e.expiry {
          return e.data, false;
        }
      }
      called := true;
      match outcome {
        case Threw =>
          r := JNull;
        case Parsed(data) =>
          if Truthy(data) && !HasError(data) {
            if writeFails {
              return JNull, true;
            }
            entries := entries[key := Entry(data, writeTime + ttl)];
          }
          r := data;
      }
    }
  }

  /** Two fetches of `key`, at `t` and at `later`. When the first one reached
      the proxy and stored `body`, the second is served from the cache:
      no proxy call, and `body` again, whatever its outcome would have been. */
  method FreshnessScenario(store: Store, key: string, t: int, ttl: int, body: Json,
                           later: int, second: FetchOutcome, secondWriteFails: bool)
    returns (calledFirst: bool, r: Json, called: bool)
    requires store.Valid() && Cacheable(body) && t <= later < t + ttl
    modifies store
    ensures store.Valid()
    ensures calledFirst ==> !called && r == body
  {
    var first;
    first, calledFirst := store.FetchFPL(key, t, t, ttl, Parsed(body), false);
    r, called := store.FetchFPL(key, later, later, ttl, second, secondWriteFails);
  }

  /** The decimal text of a number, as a template literal prints it. */
  function Decimal(n: nat): (s: string)
    ensures |s| >= 1
    ensures forall i :: 0 <= i < |s| ==> '0' <= s[i] <= '9'
  {
    var d := ['0' + (n % 10) as char];
    if n < 10 then d else Decimal(n / 10) + d
  }

  lemma {:induction false} DecimalInjective(a: nat, b: nat)
    requires Decimal(a) == Decimal(b)
    ensures a == b
  {
    if a >= 10 && b >= 10 {
      var da, db := Decimal(a), Decimal(b);
      assert da[..|da| - 1] == Decimal(a / 10);
      assert db[..|db| - 1] == Decimal(b / 10);
      DecimalInjective(a / 10, b / 10);
      assert da[|da| - 1] == db[|db| - 1];
    }
  }

  /** Two separator-joined numbers determine both numbers, because digits
      never contain the separator. */
  lemma SplitAtSeparator(a: string, b: string, c: string, d: string, sep: string)
    requires forall i :: 0 <= i < |a| ==> '0' <= a[i] <= '9'
    requires forall i :: 0 <= i < |c| ==> '0' <= c[i] <= '9'
    requires |sep| >= 1 && sep[0] == '_'
    requires a + sep + b == c + sep + d
    ensures a == c && b == d
  {
    var l, r := a + sep + b, c + sep + d;
    assert l[|a|] == '_' && r[|c|] == '_';
    assert |a| == |c|;
    assert a == l[..|a|] && c == r[..|c|];
    assert b == l[|a| + |sep|..] && d == r[|c| + |sep|..];
  }

  /** The key of an entry's picks for a gameweek in the standings and
      transfer views: `entry_<entry>_gw<gw>`. */
  function EntryKey(entry: nat, gw: nat): string
  {
    "entry_" + Decimal(entry) + "_gw" + Decimal(gw)
  }

  /** The key the ownership view uses for the same resource: `picks_<entry>_<gw>`. */
  function PicksKey(entry: nat, gw: nat): string
  {
    "picks_" + Decimal(entry) + "_" + Decimal(gw)
  }

  const BOOTSTRAP_KEY: string := "fpl_bootstrap"
  const LEAGUE_KEY: string := "fpl_league"
  const FIXTURES_KEY: string := "fpl_fixtures"

  /** Distinct (entry, gameweek) pairs never share a cache entry. */
  lemma EntryKeyInjective(e1: nat, g1: nat, e2: nat, g2: nat)
    requires EntryKey(e1, g1) == EntryKey(e2, g2)
    ensures e1 == e2 && g1 == g2
  {
    NumberedKeyInjective("entry_", "_gw", e1, g1, e2, g2);
  }

  lemma PicksKeyInjective(e1: nat, g1: nat, e2: nat, g2: nat)
    requires PicksKey(e1, g1) == PicksKey(e2, g2)
    ensures e1 == e2 && g1 == g2
  {
    NumberedKeyInjective("picks_", "_", e1, g1, e2, g2);
  }

  /** `prefix + a + sep + b` determines the numbers `a` and `b`. */
  lemma NumberedKeyInjective(prefix: string, sep: string, a: nat, b: nat, c: nat, d: nat)
    requires |sep| >= 1 && sep[0] == '_'
    requires prefix + Decimal(a) + sep + Decimal(b) == prefix + Decimal(c) + sep + Decimal(d)
    ensures a == c && b == d
  {
    DropPrefix(prefix, Decimal(a), sep, Decimal(b));
    DropPrefix(prefix, Decimal(c), sep, Decimal(d));
    SplitAtSeparator(Decimal(a), Decimal(b), Decimal(c), Decimal(d), sep);
    DecimalInjective(a, c);
    DecimalInjective(b, d);
  }

  lemma DropPrefix(prefix: string, u: string, sep: string, v: string)
    ensures (prefix + u + sep + v)[|prefix|..] == u + sep + v
  {
    assert prefix + u + sep + v == prefix + (u + sep + v);
  }

  /** The per-entry keys never collide with each other's scheme or with the
      fixed dataset keys. */
  lemma KeySchemesDisjoint(e1: nat, g1: nat, e2: nat, g2: nat)
    ensures EntryKey(e1, g1) != PicksKey(e2, g2)
    ensures EntryKey(e1, g1) !in {BOOTSTRAP_KEY, LEAGUE_KEY, FIXTURES_KEY}
    ensures PicksKey(e1, g1) !in {BOOTSTRAP_KEY, LEAGUE_KEY, FIXTURES_KEY}
  {
    assert EntryKey(e1, g1)[0] == 'e' && PicksKey(e2, g2)[0] == 'p';
    assert PicksKey(e1, g1)[0] == 'p';
  }

  /** The standings view stores `entry_<entry>_gw<gw>` with the default
      time-to-live, and the transfer watcher reads the same key: the
      watcher is then served that entry for up to 30 minutes, not for the
      one minute it asks for. */
  lemma SharedKeyOutlivesWatcherTtl(entries: map<string, Entry>, entry: nat, gw: nat,
                                    t: int, body: Json)
    requires Cacheable(body)
    ensures Lookup(Settle(entries, EntryKey(entry, gw), t, DEFAULT_TTL, Parsed(body), false),
                   EntryKey(entry, gw), t + TRANSFERS_TTL) == Some(body)
  {
  }
}
