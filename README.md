# FPL dashboard data engine, in Dafny

This project models the client-side data engine of a Fantasy Premier League
league dashboard and proves properties of it. The dashboard's `script.js` and
`ui.js` are modelled as follows.

- **Cache.** `fetchFPL` is an expiring key/value cache in front of a proxy of
  the Fantasy Premier League API. The model is the class `Cache.Store`. It
  holds `localStorage` as a `map<string, Entry>`, and its method takes the
  clock and the proxy's outcome as parameters. The module also states the key
  schemes the views store their datasets under.
- **Standings view.** `renderMembers` finds the current gameweek and uses the
  league leader's squad as the baseline. For each rival it lists up to two
  differentials (players not in the baseline squad) and the captain's points.
  The loop stops at the first TypeError the JavaScript would throw.
- **Effective-ownership view.** `renderCommunityXI` tallies picks and
  captaincies over the squads of the top ten managers. It then ranks the
  players by the integer numerator `counts + caps` with a stable sort and keeps
  ten rows.
- **Rival watch.** `checkRivalTransfers` keeps the page-global
  `previousTransfers` map. It raises a toast when one of the top three
  managers' transfer count grew since the previous round.
- **Scout tool.** This is the case-insensitive name search and the two-slot
  lock-and-compare state machine (`lockPlayer`, `lockedPlayer`).
- **Pitch layout (`ui.js`).** It covers starter selection, the bench slice,
  the per-row empty-slot fill, the fixture strip and the shirt-colour fallback.

Files, one module each:

- `base.dfy`: sequence helpers that mirror the JavaScript array methods.
- `json.dfy`: decoded JSON values and JavaScript truthiness.
- `cache.dfy`
- `data.dfy`: the upstream records.
- `members.dfy`
- `ownership.dfy`
- `rival_watch.dfy`
- `scout.dfy`
- `pitch.dfy`

The engine's state lives in three places, and each is a class whose methods
update it in place:

- `localStorage` is `Cache.Store`.
- `previousTransfers` is `RivalWatch.TransferWatch`.
- `lockedPlayer` is `Scout.Planner`.

The loops of the source are methods with loop invariants, each proved
against a function that specifies it. These are:

- the standings loop
- the two nested tally loops
- the watcher loop
- the `reduce` and the `for` loop of `fillEmptySlots`

Environment inputs are parameters:

- The two clock readings of `fetchFPL` are `checkTime` and `writeTime`.
- Whether `localStorage.setItem` throws (an exhausted quota, or storage
  turned off) is the flag `writeFails`. The write sits inside the `try`,
  so a failed write makes `fetchFPL` return `null` and store nothing.
- What each awaited request yields is a `FetchOutcome` for the cache. The
  aggregating views see it as a decoded `PicksFetch`: *no data*, *a body
  without picks*, or *picks*.
- `POS_MAP`, the fixture table and the team colour table are maps.

Two behaviours of `fetchFPL` are worth spelling out:

- **HTTP status.** `fetchFPL` does not treat a non-2xx response as a
  failure: it never looks at the status. It returns any decoded body and
  caches it when the body is truthy and has no truthy `error` field. The proxy's
  failure bodies all carry an `error` string, so they are not cached
  (`Json.ProxyErrorNotCacheable`).
- **Stale entries.** A stale entry is not offered as a fallback. A failed
  call returns the error body or `null` and leaves the stale entry in the
  store untouched.

Two consequences of the key schemes are stated as lemmas. The standings
view and the transfer watcher share the key `entry_<id>_gw<gw>`, so the
watcher's one-minute time-to-live is overridden by the default 30 minutes
whenever the standings view wrote the entry first
(`Cache.SharedKeyOutlivesWatcherTtl`). The ownership view stores the same
upstream resource a second time, under `picks_<id>_<gw>`
(`Cache.KeySchemesDisjoint`).

## Model

| member | source | states |
|---|---|---|
| Cache.Returned | script.js:14-21 | the caller receives the decoded body, error bodies included. It receives `null` when the request or the decoding threw, or when `setItem` threw on a cacheable body |
| Cache.Settle | script.js:14-21 | after consulting the proxy, only `key` may change. It is set to `(body, writeTime + ttl)` exactly when the body is truthy, has no truthy `error`, and the write succeeds. Otherwise the store is unchanged, and no key is ever removed |
| Cache.SettleKeepsNoPoison | script.js:17-18 | a store in which no entry holds a falsy or error body stays that way |
| Cache.FreshUntilExpiry | script.js:9-12 | a body written at `t` with time-to-live `ttl` is served for reads strictly before `t + ttl` and for none at or after it |
| Cache.FailureKeepsStaleEntry | script.js:14-21 | after a thrown call, an error body or a failed write, an existing entry for the key is left exactly as it was |
| Cache.Store.constructor | script.js:8 | a cleared `localStorage` (a first visit, or after the logout at script.js:28): empty and free of poisoned entries. `FetchFPL` needs only `Valid()`, which every store written by earlier calls keeps, so a store left by earlier sessions is covered too |
| Cache.Store.FetchFPL | script.js:8-22 | on a fresh hit it returns the cached data, makes no proxy call and leaves the store unchanged. On a miss it calls the proxy, returns the body or `null` (a thrown request or decoding, or a failed write), and the store becomes `Settle` of the old store. No stored entry ever holds an error body |
| Cache.FreshnessScenario | script.js:8-22 | when a fetch at `t` reached the proxy and stored `body`, a second fetch at any `later` before `t + ttl` makes no proxy call and returns `body` |
| Cache.Decimal | script.js:77 | the decimal text of an id is a non-empty digit string |
| Cache.DecimalInjective | script.js:77 | distinct numbers print differently |
| Cache.EntryKeyInjective | script.js:77 | `entry_<e>_gw<g>` determines both the entry and the gameweek |
| Cache.PicksKeyInjective | script.js:129 | `picks_<e>_<g>` determines both the entry and the gameweek |
| Cache.NumberedKeyInjective | script.js:77 | a prefix, a number, an underscore-led separator and a number determine both numbers |
| Cache.KeySchemesDisjoint | script.js:55-56 | the two per-entry key schemes never collide with each other or with `fpl_bootstrap`, `fpl_league` and `fpl_fixtures` |
| Cache.SharedKeyOutlivesWatcherTtl | script.js:151 | an entry written by the standings view with the default time-to-live is still served to the watcher one minute later |
| Json.Field | script.js:17 | property access yields a value exactly when the body is an object with that own field, and the value is that field's |
| Json.ProxyErrorNotCacheable | netlify/functions/fpl-proxy.js:7-56 | every failure body of the proxy, an object with a non-empty `error` string, fails the cache condition |
| Fpl.ElementIds | script.js:99 | `picks.map(p => p.element)` has one id per pick, in order |
| Fpl.CaptainIdsIncluded | script.js:130-133 | as a multiset, the captain picks are contained in the picks |
| Members.CurrentGW | script.js:57 | the id of the first current event, or 1 when there is none or that id is 0; never 0 |
| Members.BaselinePicks | script.js:78 | the leader's element ids when the request gave picks, the empty list otherwise |
| Members.NotIn | script.js:100 | an order-preserving subsequence of the rival picks, none of them in the baseline, keeping every non-baseline pick with its multiplicity |
| Members.Risks | script.js:100 | at most two risks. They are an order-preserving subsequence of the rival picks, none in the baseline, and they are exactly the first `min(2, k)` of the `k` non-baseline picks |
| Members.RisksWithoutBaseline | script.js:78-100 | with an empty baseline, the risks are the first two rival picks |
| Members.RisksExample | script.js:100 | rival picks 5, 2, 9 and 1 against the baseline 1, 2, 3 give the risks 5 and 9 |
| Members.CaptainOf | script.js:101-103 | the first pick flagged captain and the first element with its id, with points `event_points * multiplier`. A missing captain or an unknown element is the TypeError case |
| Members.MemberOutcome | script.js:96-103 | a falsy request skips the rival. A body without picks, or an unresolvable captain, stops the view. Otherwise the row is the rival's risks and captain |
| Members.OutcomeAt | script.js:95-103 | the outcome recorded for the `i`-th standing is that rival's own outcome, so each loop iteration depends only on its rival |
| Members.Reached | script.js:95-103 | the number of rivals handled before the first stopping one |
| Members.RenderMembers | script.js:76-116 | with no standings there are no rows and the view stops. Otherwise the rows are those of the rivals handled before the first TypeError, in standings order, and the view completes exactly when no rival stopped it |
| Members.RenderedRowsRespect | script.js:95-100 | the view has at most one row per standing, and every row shows at most two risks, none in the baseline |
| Ownership.TopManagers | script.js:126 | the first `min(10, n)` standings |
| Ownership.TallyPicks | script.js:128-134 | `counts[id]` is the number of occurrences of `id` across the successful squads. `caps[id]` is the number of those picks flagged captain. Unsuccessful requests add nothing |
| Ownership.TallySquad | script.js:130-133 | adding one squad to the tallies gives the tallies of the picks so far plus that squad |
| Ownership.AddPick | script.js:131-132 | one pick raises its element's count by one, and its captain count when it is flagged captain |
| Ownership.CaptainsAmongPicks | script.js:131-132 | only picked players are captained, and never more often than they are picked |
| Ownership.SortedIds | script.js:136 | `Object.keys` of the tally: every key exactly once, in ascending order |
| Ownership.InitialRows | script.js:136-137 | one row per key, in key order, weighted `counts + caps` |
| Ownership.Insert | script.js:138 | the inserted row joins the others as a permutation |
| Ownership.SortByWeight | script.js:138 | the sort is a permutation of its input |
| Ownership.SortByWeightRanked | script.js:138 | sorting rows whose ids increase orders them by weight, heaviest first, and keeps ties in input (ascending-id) order, which is what a stable sort gives |
| Ownership.RankedRows | script.js:136-138 | the complete ranking: exactly one row per tallied player with its weight, heaviest first with ties by ascending id |
| Ownership.EoRanking | script.js:136-138 | `min(10, #players)` rows of tallied players with their weights, heaviest first with ties by ascending id. Every player left out is outranked by the tenth row |
| Ownership.CommunityXI | script.js:125-138 | the denominator is the number of top managers, at most 10, counting failed requests. The rows are the ranking of the tallies over those managers' requests, at most 10 |
| Ownership.EoExample | script.js:136-138 | three picks of player 7, one captained, give the single row with weight 4 |
| RivalWatch.TransferWatch.constructor | script.js:5 | nothing is remembered when the page starts |
| RivalWatch.TransferWatch.CheckRivalTransfers | script.js:148-157 | only the first three standings are visited. Each remembered count is overwritten by the count observed now, which defaults to 0. A toast is raised for each visited manager whose count grew |
| RivalWatch.RememberedKeys | script.js:156 | the remembered map gains exactly the visited managers as keys |
| RivalWatch.RememberedElsewhere | script.js:149-156 | a manager who was not visited keeps their remembered count |
| RivalWatch.RememberedAt | script.js:156 | after the round, each distinct visited manager's remembered count is the count observed for them |
| RivalWatch.AlertsGrew | script.js:153 | every toast is for a visited manager whose count was remembered and grew |
| RivalWatch.AlertsWithin | script.js:153-154 | toasts are only raised for visited managers |
| RivalWatch.AlertIffGrew | script.js:152-154 | for distinct managers, a toast is raised exactly when a count was remembered and the new one is strictly larger |
| RivalWatch.FirstSightingSilent | script.js:153 | managers seen for the first time never raise a toast |
| RivalWatch.OneRound | script.js:150-156 | one round over a single rival remembers the new count and raises a toast exactly when it grew |
| RivalWatch.RisingCountScenario | script.js:148-157 | counts 2, 2 and then 3 give no toast, no toast, and then one toast, and 3 is remembered |
| Scout.LowerChar | script.js:180 | ASCII capitals map to their lower-case letters, and every other character is kept |
| Scout.Lower | script.js:180 | lower-casing keeps the length and works character by character |
| Scout.LowerIdempotent | script.js:180-181 | lower-casing twice is lower-casing once |
| Scout.Search | script.js:180-181 | a query shorter than 3 UTF-16 code units (`query.length`) leaves the output as it was. Otherwise the result is the first player whose lower-cased name contains the lower-cased query, and the output is left as it was only when no player matches |
| Scout.Utf16Length | script.js:180 | the length `query.length` reports: at least one and at most two UTF-16 code units per character |
| Scout.LowerKeepsUtf16Length | script.js:180 | lower-casing does not change the length the threshold is measured in |
| Scout.AstralCountsTwice | script.js:180 | a letter followed by one astral character already reaches the threshold of 3 |
| Scout.SearchIgnoresCase | script.js:180 | upper- or lower-case input finds the same player |
| Scout.SearchFindsFirstMatch | script.js:181 | the first matching player is the one shown |
| Scout.FindById | script.js:194 | a player with that id from the table, or none when the table has no such id |
| Scout.Planner.constructor | script.js:4 | the planner starts with no player locked |
| Scout.Planner.LockPlayer | script.js:192-197 | with an empty slot, the player found is locked. With a locked player, the two are compared in that order and the slot is emptied. A missing bootstrap entry throws and leaves the state unchanged, and so does an unknown second id |
| Scout.CompareTwo | script.js:185-197 | locking two known players in turn locks the first, compares first against second, and returns the slot, which ends empty |
| Pitch.Ids | ui.js:23 | `map(p => p.id)` has one id per squad entry, in order |
| Pitch.Starters | ui.js:23-24 | an order-preserving subsequence of the squad. It holds exactly the entries whose id is among the first eleven ids, with their multiplicity |
| Pitch.StartersAreFirstEleven | ui.js:23-24 | with distinct ids, the starters are the first `min(11, n)` squad entries |
| Pitch.Bench | ui.js:44 | squad slots 11 to 14: at most four players, and none when the squad has at most eleven |
| Pitch.BenchNotStarting | ui.js:23-44 | with distinct ids, no bench player is drawn among the starters |
| Pitch.Labels | ui.js:110 | each starter's row name, `"undefined"` for a position missing from `POS_MAP` |
| Pitch.Missing | ui.js:116-120 | `count + boxes == max(count, slots)`, and no boxes exactly when the row is full or over-full |
| Pitch.TallyRows | ui.js:109-113 | the `reduce` maps each row name to the number of starters drawn in that row |
| Pitch.EmptyBoxes | ui.js:120-126 | the `for` loop appends `max(0, slots - current)` boxes |
| Pitch.FillEmptySlots | ui.js:108-128 | each of the four rows gets `max(0, schema[row] - count[row])` boxes |
| Pitch.RowCountsCover | ui.js:109-113 | when every starter's position maps to one of the four rows, the four row counts sum to the number of starters |
| Pitch.FixtureStrip | ui.js:79-81 | at most three fixtures, the first three of the team's list, and none when the table has no list for the team |
| Pitch.ShirtColours | ui.js:93-94 | a known team uses its table entry, and an unknown team gets grey `#ccc`/`#999` |

## Left out

- DOM work is not modelled: `innerHTML` markup, `classList`, the navigation handlers, the comparison modal and the toast's timer. This is presentation only.
- Netlify Identity is not modelled, because it is a foreign library. The logout handler at script.js:28 is not an operation of the model either: its effect, a `localStorage` emptied through the Web Storage API's `clear()`, is the empty store that `Cache.Store`'s constructor builds.
- `loadAllSections` (script.js:54-66) is not modelled, nor is the order in which it starts the un-awaited views. These views run concurrently and share the cache. The model treats each view as sequential, with each awaited request supplied as an input.
- JSON text is not modelled. This covers the serialisation of cache entries and the `JSON.parse` of a corrupt entry. It also covers decoding a body into `Event`, `Element` and `Pick` records, together with field types other than those named.
- Floating point is not modelled: the EO percentage and its `toFixed`, the `now_cost / 10` prices, the header's `toFixed` (ui.js:131) and fractional JSON numbers. EO is modelled by its integer numerator `counts + caps` over the shared denominator.
- The proxy (netlify/functions/fpl-proxy.js) is represented only by the outcome it gives, and `sw.js` is browser cache I/O. sw.js is not part of this model.
- Fixture-ticker colouring (script.js:172), the `fdrColors` lookup (ui.js:84) and comparison highlighting (script.js:200) are not modelled. They are view formatting.
- `renderPlanner` re-rendering after `lockPlayer` is not modelled. Only the button caption, `Scout.Planner.ButtonLabel`, is kept.
- Scout.Lower: lower-cases ASCII letters only, while `toLowerCase` folds all of Unicode.
- Scout.Search: inherits the ASCII-only folding of `Scout.Lower`, so a non-ASCII capital in a query or a name does not match its lower-case form, and a character whose lower case is longer (such as `İ`) keeps its length. The three-unit threshold itself follows `query.length` (`Scout.Utf16Length`, which counts an astral character as two).
- Ownership.SortedIds: assumes the tallied ids are non-negative integers, so that `Object.keys` lists them in ascending order; ids are `nat` throughout.
- RivalWatch.TransferWatch.CheckRivalTransfers: the toasts carry the entry ids rather than the `player_name` text.
- Members.RenderMembers: rows keep the entry id, the risks and the captain. The names, `event_total` and `total` shown beside them are not modelled.
- Cache.Lookup, Cache.Offered, Json.Truthy, Json.HasError, Json.Cacheable, Fpl.CaptainIds, Fpl.PicksOf, Fpl.AllPicks, Members.Outcomes, Members.Kept, Ownership.Weight, RivalWatch.TransferCount (the `|| 0` default of script.js:152), RivalWatch.Grew, RivalWatch.Remembered, RivalWatch.Alerts, Scout.Planner.ButtonLabel, Pitch.StarterIds, Pitch.Label, Pitch.RowCount, Cache.EntryKey, Cache.PicksKey, Cache.NoPoison, Members.Outside, Scout.NameMatches, Scout.Contains and Pitch.AmongIds: these are definitions that the contracts above are written with, and they carry no `ensures` of their own.
- `localStorage` persistence across page loads is not modelled as a separate state. A store that earlier sessions left behind is any `Cache.Store` satisfying `Valid()`, which is all `FetchFPL` requires.
