/** The effective-ownership view: pick and captain tallies over the top
    managers' squads, ranked by effective ownership. */
module Ownership {
  import opened Base
  import opened Fpl

  /** How many managers from the top of the standings are tallied, and how
      many rows are shown. */
  const TOP_MANAGERS: nat := 10
  const EO_ROWS: nat := 10

  /** `league.standings.results.slice(0, 10)`. */
  function TopManagers(results: seq<nat>): (top: seq<nat>)
    ensures |top| == Min(TOP_MANAGERS, |results|) && top == results[..|top|]
  {
    Take(results, TOP_MANAGERS)
  }

  lemma ElementIdsSnoc(ps: seq<Pick>, p: Pick)
    ensures ElementIds(ps + [p]) == ElementIds(ps) + [p.element]
  {
  }

  lemma CaptainIdsSnoc(ps: seq<Pick>, p: Pick)
    ensures CaptainIds(ps + [p]) == CaptainIds(ps) + (if p.isCaptain then [p.element] else [])
  {
    assert (ps + [p])[..|ps|] == ps;
  }

  lemma AllPicksSnoc(fs: seq<PicksFetch>, i: nat)
    requires i < |fs|
    ensures AllPicks(fs[..i + 1]) == AllPicks(fs[..i]) + PicksOf(fs[i])
  {
    assert fs[..i + 1][..i] == fs[..i];
  }

  lemma PickCountStep(counts: map<nat, nat>, xs: seq<Pick>, p: Pick)
    requires counts == CountMap(multiset(ElementIds(xs)))
    ensures counts[p.element := CountOr0(counts, p.element) + 1] ==
            CountMap(multiset(ElementIds(xs + [p])))
  {
    var ms := multiset(ElementIds(xs));
    ElementIdsSnoc(xs, p);
    calc {
      CountMap(multiset(ElementIds(xs + [p])));
      CountMap(ms + multiset{p.element});
      { CountMapAdd(ms, p.element); }
      counts[p.element := CountOr0(counts, p.element) + 1];
    }
  }

  lemma CaptainCountAdded(caps: map<nat, nat>, xs: seq<Pick>, p: Pick)
    requires caps == CountMap(multiset(CaptainIds(xs)))
    requires p.isCaptain
    ensures caps[p.element := CountOr0(caps, p.element) + 1] == CountMap(multiset(CaptainIds(xs + [p])))
  {
    CaptainIdsSnoc(xs, p);
    CountMapAdd(multiset(CaptainIds(xs)), p.element);
  }

  lemma CaptainCountKept(caps: map<nat, nat>, xs: seq<Pick>, p: Pick)
    requires caps == CountMap(multiset(CaptainIds(xs)))
    requires !p.isCaptain
    ensures caps == CountMap(multiset(CaptainIds(xs + [p])))
  {
    CaptainIdsSnoc(xs, p);
    assert CaptainIds(xs + [p]) == CaptainIds(xs);
  }

  /** The loop of `renderCommunityXI` over the top managers' requests:
      `counts[id]` is how many successful squads pick `id`, `caps[id]` how
      many of those picks are flagged captain; a request without picks adds
      nothing. */
  method TallyPicks(fetches: seq<PicksFetch>) returns (counts: map<nat, nat>, caps: map<nat, nat>)
    ensures counts == CountMap(multiset(ElementIds(AllPicks(fetches))))
    ensures caps == CountMap(multiset(CaptainIds(AllPicks(fetches))))
  {
    counts, caps := map[], map[];
    ghost var seen: seq<Pick> := [];
    var i := 0;
    assert AllPicks(fetches[..i]) == [];
    assert CountMap(multiset(ElementIds(seen))) == map[];
    assert CountMap(multiset(CaptainIds(seen))) == map[];
    while i < |fetches|
      invariant 0 <= i <= |fetches|
      invariant seen == AllPicks(fetches[..i])
      invariant counts == CountMap(multiset(ElementIds(seen)))
      invariant caps == CountMap(multiset(CaptainIds(seen)))
    {
      AllPicksSnoc(fetches, i);
      if fetches[i].Picks? {
        counts, caps := TallySquad(counts, caps, seen, fetches[i].picks);
        seen := seen + fetches[i].picks;
      }
      i := i + 1;
    }
    assert fetches[..i] == fetches;
  }

  /** The inner `picks.forEach`: adds one squad to the tallies. */
  method TallySquad(counts0: map<nat, nat>, caps0: map<nat, nat>, ghost seen: seq<Pick>, ps: seq<Pick>)
    returns (counts: map<nat, nat>, caps: map<nat, nat>)
    requires counts0 == CountMap(multiset(ElementIds(seen)))
    requires caps0 == CountMap(multiset(CaptainIds(seen)))
    ensures counts == CountMap(multiset(ElementIds(seen + ps)))
    ensures caps == CountMap(multiset(CaptainIds(seen + ps)))
  {
    counts, caps := counts0, caps0;
    var j := 0;
    assert seen + ps[..j] == seen;
    while j < |ps|
      invariant 0 <= j <= |ps|
      invariant counts == CountMap(multiset(ElementIds(seen + ps[..j])))
      invariant caps == CountMap(multiset(CaptainIds(seen + ps[..j])))
    {
      SnocSlice(seen, ps, j);
      counts, caps := AddPick(counts, caps, seen + ps[..j], ps[j]);
      j := j + 1;
    }
    assert ps[..j] == ps;
  }

  /** The `forEach` callback: one more pick of `p.element`, and one more
      captaincy when the pick is flagged captain. */
  method AddPick(counts0: map<nat, nat>, caps0: map<nat, nat>, ghost xs: seq<Pick>, p: Pick)
    returns (counts: map<nat, nat>, caps: map<nat, nat>)
    requires counts0 == CountMap(multiset(ElementIds(xs)))
    requires caps0 == CountMap(multiset(CaptainIds(xs)))
    ensures counts == CountMap(multiset(ElementIds(xs + [p])))
    ensures caps == CountMap(multiset(CaptainIds(xs + [p])))
  {
    PickCountStep(counts0, xs, p);
    counts := counts0[p.element := CountOr0(counts0, p.element) + 1];
    if p.isCaptain {
      CaptainCountAdded(caps0, xs, p);
      caps := caps0[p.element := CountOr0(caps0, p.element) + 1];
    } else {
      CaptainCountKept(caps0, xs, p);
      caps := caps0;
    }
  }

  /** A player is captained at most as often as picked, and only players
      that are picked appear in the captain tally. */
  lemma CaptainsAmongPicks(fetches: seq<PicksFetch>, id: nat)
    ensures var counts := CountMap(multiset(ElementIds(AllPicks(fetches))));
            var caps := CountMap(multiset(CaptainIds(AllPicks(fetches))));
            id in caps ==> id in counts && caps[id] <= counts[id]
  {
    CaptainIdsIncluded(AllPicks(fetches));
  }

  /** One row of the view: the player and the numerator `counts + caps` of
      its effective ownership, `(counts + caps) / managers * 100` percent. */
  datatype EoRow = EoRow(id: nat, weight: nat)

  function Weight(counts: map<nat, nat>, caps: map<nat, nat>, id: nat): nat
    requires id in counts
  {
    counts[id] + CountOr0(caps, id)
  }

  lemma {:induction false} LeastOf(s: set<nat>) returns (m: nat)
    requires s != {}
    ensures m in s && forall x :: x in s ==> m <= x
    decreases |s|
  {
    var y :| y in s;
    if s == {y} {
      m := y;
    } else {
      var rest := s - {y};
      var m' := LeastOf(rest);
      m := if y <= m' then y else m';
      forall x | x in s ensures m <= x {
        if x != y { assert x in rest; }
      }
    }
  }

  lemma HasLeast(s: set<nat>)
    requires s != {}
    ensures exists m :: m in s && forall x :: x in s ==> m <= x
  {
    var m := LeastOf(s);
  }

  /** The smallest id of a non-empty set. */
  function Least(s: set<nat>): (m: nat)
    requires s != {}
    ensures m in s && forall x :: x in s ==> m <= x
  {
    HasLeast(s);
    var m :| m in s && forall x :: x in s ==> m <= x;
    m
  }

  /** `Object.keys(counts)`: integer-like keys come out in ascending
      numeric order. */
  function SortedIds(s: set<nat>): (r: seq<nat>)
    ensures |r| == |s|
    ensures forall x :: x in r <==> x in s
    ensures forall i, j :: 0 <= i < j < |r| ==> r[i] < r[j]
    decreases |s|
  {
    if s == {} then []
    else
      var m := Least(s);
      var rest := SortedIds(s - {m});
      LeastInFront(s, m, rest);
      [m] + rest
  }

  lemma LeastInFront(s: set<nat>, m: nat, rest: seq<nat>)
    requires m in s && forall x :: x in s ==> m <= x
    requires |rest| == |s - {m}|
    requires forall x :: x in rest <==> x in s - {m}
    requires forall i, j :: 0 <= i < j < |rest| ==> rest[i] < rest[j]
    ensures |[m] + rest| == |s|
    ensures forall x :: x in [m] + rest <==> x in s
    ensures forall i, j :: 0 <= i < j < |[m] + rest| ==> ([m] + rest)[i] < ([m] + rest)[j]
  {
    var r := [m] + rest;
    forall i, j | 0 <= i < j < |r| ensures r[i] < r[j] {
      if i == 0 {
        assert r[j] == rest[j - 1] && rest[j - 1] in rest;
      } else {
        assert r[i] == rest[i - 1] && r[j] == rest[j - 1];
      }
    }
  }

  /** `Object.keys(counts).map(id => ({ id, eo }))`. */
  function InitialRows(ids: seq<nat>, counts: map<nat, nat>, caps: map<nat, nat>): (r: seq<EoRow>)
    requires forall i :: 0 <= i < |ids| ==> ids[i] in counts
    ensures |r| == |ids|
    ensures forall i :: 0 <= i < |ids| ==> r[i] == EoRow(ids[i], Weight(counts, caps, ids[i]))
  {
    seq(|ids|, i requires 0 <= i < |ids| => EoRow(ids[i], Weight(counts, caps, ids[i])))
  }

  /** `a` comes before `b` in the ranking: heavier, or as heavy with a
      smaller id. */
  predicate Before(a: EoRow, b: EoRow)
  {
    a.weight > b.weight || (a.weight == b.weight && a.id < b.id)
  }

  predicate Ranked(rows: seq<EoRow>)
  {
    forall i, j :: 0 <= i < j < |rows| ==> Before(rows[i], rows[j])
  }

  predicate IdsIncreasing(rows: seq<EoRow>)
  {
    forall i, j :: 0 <= i < j < |rows| ==> rows[i].id < rows[j].id
  }

  /** Put `x` in front of the first row it is at least as heavy as, so that
      `x`, which came first in the input, stays ahead of equal weights. */
  function Insert(x: EoRow, s: seq<EoRow>): (r: seq<EoRow>)
    ensures multiset(r) == multiset(s) + multiset{x}
    ensures |r| == |s| + 1
  {
    if s == [] || s[0].weight <= x.weight then [x] + s
    else
      assert s == [s[0]] + s[1..];
      [s[0]] + Insert(x, s[1..])
  }

  /** `sort((a, b) => b.eo - a.eo)`, which is stable: an insertion sort. */
  function SortByWeight(rows: seq<EoRow>): (r: seq<EoRow>)
    ensures multiset(r) == multiset(rows)
    ensures |r| == |rows|
  {
    if rows == [] then []
    else
      assert rows == [rows[0]] + rows[1..];
      Insert(rows[0], SortByWeight(rows[1..]))
  }

  lemma {:induction false} InsertRanked(x: EoRow, s: seq<EoRow>)
    requires Ranked(s)
    requires forall k :: 0 <= k < |s| ==> x.id < s[k].id
    ensures Ranked(Insert(x, s))
  {
    if s == [] || s[0].weight <= x.weight {
    } else {
      var tail := s[1..];
      InsertRanked(x, tail);
      var r := Insert(x, s);
      var t := Insert(x, tail);
      assert r == [s[0]] + t;
      forall j | 0 < j < |r| ensures Before(s[0], r[j]) {
        assert r[j] == t[j - 1];
        assert r[j] in multiset(tail) + multiset{x};
        if r[j] != x {
          assert r[j] in tail;
          var k :| 0 <= k < |tail| && tail[k] == r[j];
          assert Before(s[0], s[k + 1]);
        }
      }
    }
  }

  lemma {:induction false} SortByWeightRanked(rows: seq<EoRow>)
    requires IdsIncreasing(rows)
    ensures Ranked(SortByWeight(rows))
  {
    if rows != [] {
      var tail := rows[1..];
      SortByWeightRanked(tail);
      var sorted := SortByWeight(tail);
      forall k | 0 <= k < |sorted| ensures rows[0].id < sorted[k].id {
        assert sorted[k] in multiset(tail);
        var i :| 0 <= i < |tail| && tail[i] == sorted[k];
        assert tail[i] == rows[i + 1];
      }
      InsertRanked(rows[0], sorted);
    }
  }

  /** The rows of `renderCommunityXI`: every picked player with weight
      `counts + caps`, stable-sorted heaviest first from ascending-id order,
      and truncated to 10. */
  function EoRanking(counts: map<nat, nat>, caps: map<nat, nat>): (r: seq<EoRow>)
    ensures |r| == Min(EO_ROWS, |counts|)
    ensures Ranked(r)
    ensures forall k :: 0 <= k < |r| ==>
              r[k].id in counts && r[k].weight == Weight(counts, caps, r[k].id)
    ensures forall id :: id in counts && (forall k :: 0 <= k < |r| ==> r[k].id != id) ==>
              |r| == EO_ROWS && Before(r[EO_ROWS - 1], EoRow(id, Weight(counts, caps, id)))
  {
    var sorted := RankedRows(counts, caps);
    TopRows(counts, caps, sorted);
    Take(sorted, EO_ROWS)
  }

  /** The complete ranking before truncation: one row per tallied player,
      heaviest first, ties by ascending id. */
  function RankedRows(counts: map<nat, nat>, caps: map<nat, nat>): (sorted: seq<EoRow>)
    ensures Ranked(sorted)
    ensures |sorted| == |counts|
    ensures forall k :: 0 <= k < |sorted| ==>
              sorted[k].id in counts && sorted[k].weight == Weight(counts, caps, sorted[k].id)
    ensures forall id :: id in counts ==>
              exists k :: 0 <= k < |sorted| && sorted[k] == EoRow(id, Weight(counts, caps, id))
  {
    var ids := SortedIds(counts.Keys);
    var initial := InitialRows(ids, counts, caps);
    assert IdsIncreasing(initial);
    SortByWeightRanked(initial);
    EoRankingFacts(counts, caps, ids, initial, SortByWeight(initial));
    SortByWeight(initial)
  }

  /** The first ten rows of a complete ranking are the ten best. */
  lemma TopRows(counts: map<nat, nat>, caps: map<nat, nat>, sorted: seq<EoRow>)
    requires Ranked(sorted)
    requires |sorted| == |counts|
    requires forall k :: 0 <= k < |sorted| ==>
               sorted[k].id in counts && sorted[k].weight == Weight(counts, caps, sorted[k].id)
    requires forall id :: id in counts ==>
               exists k :: 0 <= k < |sorted| && sorted[k] == EoRow(id, Weight(counts, caps, id))
    ensures var r := Take(sorted, EO_ROWS);
            && |r| == Min(EO_ROWS, |counts|)
            && Ranked(r)
            && (forall k :: 0 <= k < |r| ==>
                  r[k].id in counts && r[k].weight == Weight(counts, caps, r[k].id))
            && (forall id :: id in counts && (forall k :: 0 <= k < |r| ==> r[k].id != id) ==>
                  |r| == EO_ROWS && Before(r[EO_ROWS - 1], EoRow(id, Weight(counts, caps, id))))
  {
    var r := Take(sorted, EO_ROWS);
    forall id | id in counts && (forall k :: 0 <= k < |r| ==> r[k].id != id)
      ensures |r| == EO_ROWS && Before(r[EO_ROWS - 1], EoRow(id, Weight(counts, caps, id)))
    {
      var k :| 0 <= k < |sorted| && sorted[k] == EoRow(id, Weight(counts, caps, id));
      assert forall j :: 0 <= j < |r| ==> r[j] == sorted[j];
      assert Before(sorted[EO_ROWS - 1], sorted[k]);
    }
  }

  lemma EoRankingFacts(counts: map<nat, nat>, caps: map<nat, nat>, ids: seq<nat>,
                       initial: seq<EoRow>, sorted: seq<EoRow>)
    requires ids == SortedIds(counts.Keys)
    requires initial == InitialRows(ids, counts, caps)
    requires sorted == SortByWeight(initial)
    ensures |sorted| == |counts|
    ensures forall k :: 0 <= k < |sorted| ==>
              sorted[k].id in counts && sorted[k].weight == Weight(counts, caps, sorted[k].id)
    ensures forall id :: id in counts ==>
              exists k :: 0 <= k < |sorted| && sorted[k] == EoRow(id, Weight(counts, caps, id))
  {
    assert |counts.Keys| == |counts|;
    SortedRowsTallied(counts, caps, initial, sorted);
    TalliedRowsSorted(counts, caps, ids, initial, sorted);
  }

  /** Sorting only reorders the tallied rows. */
  lemma SortedRowsTallied(counts: map<nat, nat>, caps: map<nat, nat>, initial: seq<EoRow>, sorted: seq<EoRow>)
    requires forall i :: 0 <= i < |initial| ==>
               initial[i].id in counts && initial[i].weight == Weight(counts, caps, initial[i].id)
    requires multiset(sorted) == multiset(initial)
    ensures forall k :: 0 <= k < |sorted| ==>
              sorted[k].id in counts && sorted[k].weight == Weight(counts, caps, sorted[k].id)
  {
    forall k | 0 <= k < |sorted|
      ensures sorted[k].id in counts && sorted[k].weight == Weight(counts, caps, sorted[k].id)
    {
      assert sorted[k] in multiset(initial);
      var i :| 0 <= i < |initial| && initial[i] == sorted[k];
    }
  }

  /** Every tallied player keeps a row through the sort. */
  lemma TalliedRowsSorted(counts: map<nat, nat>, caps: map<nat, nat>, ids: seq<nat>,
                          initial: seq<EoRow>, sorted: seq<EoRow>)
    requires forall id :: id in counts <==> id in ids
    requires |initial| == |ids|
    requires forall i :: 0 <= i < |ids| ==> initial[i] == EoRow(ids[i], Weight(counts, caps, ids[i]))
    requires multiset(sorted) == multiset(initial)
    ensures forall id :: id in counts ==>
              exists k :: 0 <= k < |sorted| && sorted[k] == EoRow(id, Weight(counts, caps, id))
  {
    forall id | id in counts
      ensures exists k :: 0 <= k < |sorted| && sorted[k] == EoRow(id, Weight(counts, caps, id))
    {
      var i :| 0 <= i < |ids| && ids[i] == id;
      assert initial[i] in multiset(sorted);
    }
  }

  /** `renderCommunityXI` on the data level: tallies the first 10 managers
      of `results` (`fetches[i]` is what the request for `results[i]`
      returned) and ranks the players; `managers` is the shared
      denominator, which counts the managers whose request failed too. */
  method CommunityXI(results: seq<nat>, fetches: seq<PicksFetch>)
    returns (rows: seq<EoRow>, managers: nat)
    requires |fetches| == |results|
    ensures managers == |TopManagers(results)| && managers <= TOP_MANAGERS
    ensures rows == EoRanking(CountMap(multiset(ElementIds(AllPicks(fetches[..managers])))),
                              CountMap(multiset(CaptainIds(AllPicks(fetches[..managers])))))
    ensures |rows| <= EO_ROWS
  {
    managers := |TopManagers(results)|;
    var counts, caps := TallyPicks(fetches[..managers]);
    rows := EoRanking(counts, caps);
  }

  /** Three managers all pick player 7 and one of them captains it: the
      single row has weight 4 over a denominator of 3 (about 133%). */
  lemma EoExample(counts: map<nat, nat>, caps: map<nat, nat>)
    requires counts == map[7 := 3] && caps == map[7 := 1]
    ensures EoRanking(counts, caps) == [EoRow(7, 4)]
  {
    var r := EoRanking(counts, caps);
    assert |counts| == 1;
    assert r[0].id in counts;
  }
}
