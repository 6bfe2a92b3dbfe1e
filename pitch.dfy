/** The pitch layout of the squad planner (the `UI` object): which squad
    entries start, which sit on the bench, how many empty "+" slots each
    position row receives, the fixture strip of a card, and the shirt
    colours. `POS_MAP`, the fixture table and the team colour table are
    globals defined outside this file; they are parameters here. */
module Pitch {
  import opened Base

  /** A squad entry as the layout uses it. */
  datatype SquadPlayer = SquadPlayer(id: nat, pos: int, teamId: int)

  const STARTERS: nat := 11
  const SQUAD: nat := 15

  /** The position rows, in the order they are cleared and filled. */
  const POSITIONS: seq<string> := ["GKP", "DEF", "MID", "FWD"]

  /** `formationSchema`: the slots of each position row. */
  const SCHEMA: map<string, nat> := map["GKP" := 1, "DEF" := 5, "MID" := 5, "FWD" := 3]

  function Ids(squad: seq<SquadPlayer>): (r: seq<nat>)
    ensures |r| == |squad|
    ensures forall i :: 0 <= i < |squad| ==> r[i] == squad[i].id
  {
    seq(|squad|, i requires 0 <= i < |squad| => squad[i].id)
  }

  /** `squad.slice(0, 11).map(p => p.id)`. */
  function StarterIds(squad: seq<SquadPlayer>): seq<nat>
  {
    Ids(Take(squad, STARTERS))
  }

  predicate DistinctIds(squad: seq<SquadPlayer>)
  {
    forall i, j :: 0 <= i < j < |squad| ==> squad[i].id != squad[j].id
  }

  /** `renderPitch`: the squad entries whose id is among the first eleven
      ids, in squad order (a later entry repeating a starter's id starts
      too). */
  function Starters(squad: seq<SquadPlayer>): (r: seq<SquadPlayer>)
    ensures IsSubsequence(r, squad)
    ensures forall i :: 0 <= i < |r| ==> r[i].id in StarterIds(squad)
    ensures forall p: SquadPlayer :: p.id in StarterIds(squad) ==> multiset(r)[p] == multiset(squad)[p]
    ensures forall p: SquadPlayer :: p.id !in StarterIds(squad) ==> multiset(r)[p] == 0
  {
    FilterCounts(squad, AmongIds(StarterIds(squad)));
    Filter(squad, AmongIds(StarterIds(squad)))
  }

  /** `p => starterIds.includes(p.id)`. */
  function AmongIds(ids: seq<nat>): SquadPlayer -> bool
  {
    (p: SquadPlayer) => p.id in ids
  }

  /** With distinct ids the starters are just the first eleven entries. */
  lemma StartersAreFirstEleven(squad: seq<SquadPlayer>)
    requires DistinctIds(squad)
    ensures Starters(squad) == Take(squad, STARTERS)
  {
    var keep := AmongIds(StarterIds(squad));
    HeadStarts(squad, keep);
    TailSitsOut(squad, keep);
    FilterKeepsPrefix(squad, |Take(squad, STARTERS)|, keep);
  }

  lemma HeadStarts(squad: seq<SquadPlayer>, keep: SquadPlayer -> bool)
    requires forall p :: keep(p) <==> p.id in StarterIds(squad)
    ensures forall i :: 0 <= i < |Take(squad, STARTERS)| ==> keep(Take(squad, STARTERS)[i])
  {
    var head := Take(squad, STARTERS);
    forall i | 0 <= i < |head| ensures keep(head[i]) {
      assert Ids(head)[i] == head[i].id;
    }
  }

  lemma TailSitsOut(squad: seq<SquadPlayer>, keep: SquadPlayer -> bool)
    requires DistinctIds(squad)
    requires forall p :: keep(p) <==> p.id in StarterIds(squad)
    ensures forall i :: |Take(squad, STARTERS)| <= i < |squad| ==> !keep(squad[i])
  {
    var head := Take(squad, STARTERS);
    forall i | |head| <= i < |squad| ensures !keep(squad[i]) {
      forall k | 0 <= k < |head| ensures Ids(head)[k] != squad[i].id {
        assert squad[k] == head[k];
      }
    }
  }

  /** `renderBench`: squad slots 11 to 14. */
  function Bench(squad: seq<SquadPlayer>): (r: seq<SquadPlayer>)
    ensures |r| <= SQUAD - STARTERS
    ensures |squad| <= STARTERS ==> r == []
    ensures |squad| > STARTERS ==> r == squad[STARTERS..Min(SQUAD, |squad|)]
  {
    Slice(squad, STARTERS, SQUAD)
  }

  /** With distinct ids no bench player is also drawn on the pitch. */
  lemma BenchNotStarting(squad: seq<SquadPlayer>, p: SquadPlayer)
    requires DistinctIds(squad)
    requires p in Bench(squad)
    ensures p !in Starters(squad)
  {
    StartersAreFirstEleven(squad);
    var k :| 0 <= k < |Bench(squad)| && Bench(squad)[k] == p;
    assert squad[STARTERS + k] == p;
    forall i | 0 <= i < |Take(squad, STARTERS)| ensures Take(squad, STARTERS)[i] != p {
      assert squad[i] == Take(squad, STARTERS)[i];
    }
  }

  /** `POS_MAP[player.pos]` as a row name; an element type the map lacks
      gives the key `"undefined"`. */
  function Label(posMap: map<int, string>, pos: int): string
  {
    if pos in posMap then posMap[pos] else "undefined"
  }

  function Labels(starters: seq<SquadPlayer>, posMap: map<int, string>): (r: seq<string>)
    ensures |r| == |starters|
    ensures forall i :: 0 <= i < |starters| ==> r[i] == Label(posMap, starters[i].pos)
  {
    seq(|starters|, i requires 0 <= i < |starters| => Label(posMap, starters[i].pos))
  }

  /** The starters per row name. */
  function RowCount(starters: seq<SquadPlayer>, posMap: map<int, string>, pos: string): nat
  {
    multiset(Labels(starters, posMap))[pos]
  }

  /** The "+" boxes a row gets: none when it is full or over-full. */
  function Missing(count: nat, slots: nat): (r: nat)
    ensures count + r == Max(count, slots)
    ensures r == 0 <==> count >= slots
  {
    if count < slots then slots - count else 0
  }

  /** `fillEmptySlots`: the starters are tallied by row name, then each of
      the four rows gets `max - current` boxes. `added[k]` is the number of
      boxes appended to row `POSITIONS[k]`. */
  method FillEmptySlots(starters: seq<SquadPlayer>, posMap: map<int, string>) returns (added: seq<nat>)
    ensures |added| == |POSITIONS|
    ensures forall k :: 0 <= k < |POSITIONS| ==>
              added[k] == Missing(RowCount(starters, posMap, POSITIONS[k]), SCHEMA[POSITIONS[k]])
  {
    var counts := TallyRows(starters, posMap);
    added := [];
    var k := 0;
    while k < |POSITIONS|
      invariant 0 <= k <= |POSITIONS|
      invariant |added| == k
      invariant forall q :: 0 <= q < k ==>
                  added[q] == Missing(RowCount(starters, posMap, POSITIONS[q]), SCHEMA[POSITIONS[q]])
    {
      var pos := POSITIONS[k];
      CountMapAt(multiset(Labels(starters, posMap)), pos);
      var current := CountOr0(counts, pos);
      assert current == RowCount(starters, posMap, pos);
      var boxes := EmptyBoxes(current, SCHEMA[pos]);
      added := added + [boxes];
      k := k + 1;
    }
  }

  /** The `reduce`: `acc[pos] = (acc[pos] || 0) + 1` for each starter. */
  method TallyRows(starters: seq<SquadPlayer>, posMap: map<int, string>) returns (counts: map<string, nat>)
    ensures counts == CountMap(multiset(Labels(starters, posMap)))
  {
    counts := map[];
    var j := 0;
    assert Labels(starters[..j], posMap) == [];
    while j < |starters|
      invariant 0 <= j <= |starters|
      invariant counts == CountMap(multiset(Labels(starters[..j], posMap)))
    {
      var row := Label(posMap, starters[j].pos);
      RowTallyStep(counts, starters, posMap, j);
      counts := counts[row := CountOr0(counts, row) + 1];
      j := j + 1;
    }
    assert starters[..j] == starters;
  }

  /** The accumulator step of the `reduce` for starter `j`. */
  lemma RowTallyStep(counts: map<string, nat>, starters: seq<SquadPlayer>, posMap: map<int, string>, j: nat)
    requires j < |starters|
    requires counts == CountMap(multiset(Labels(starters[..j], posMap)))
    ensures var row := Label(posMap, starters[j].pos);
            counts[row := CountOr0(counts, row) + 1] == CountMap(multiset(Labels(starters[..j + 1], posMap)))
  {
    LabelsSnoc(starters, posMap, j);
    CountMapAdd(multiset(Labels(starters[..j], posMap)), Label(posMap, starters[j].pos));
  }

  lemma LabelsSnoc(starters: seq<SquadPlayer>, posMap: map<int, string>, j: nat)
    requires j < |starters|
    ensures Labels(starters[..j + 1], posMap) == Labels(starters[..j], posMap) + [Label(posMap, starters[j].pos)]
  {
    assert starters[..j + 1][..j] == starters[..j];
  }

  /** The `for (let i = current; i < max; i++)` loop appending boxes. */
  method EmptyBoxes(current: nat, max: nat) returns (boxes: nat)
    ensures boxes == Missing(current, max)
  {
    boxes := 0;
    var i := current;
    while i < max
      invariant current <= i <= Max(current, max)
      invariant boxes == i - current
    {
      boxes := boxes + 1;
      i := i + 1;
    }
  }

  lemma {:induction false} RowCountsCover(starters: seq<SquadPlayer>, posMap: map<int, string>)
    requires forall i :: 0 <= i < |starters| ==> Label(posMap, starters[i].pos) in POSITIONS
    ensures RowCount(starters, posMap, "GKP") + RowCount(starters, posMap, "DEF") +
            RowCount(starters, posMap, "MID") + RowCount(starters, posMap, "FWD") == |starters|
  {
    if starters != [] {
      var n := |starters| - 1;
      var init := starters[..n];
      assert forall i :: 0 <= i < n ==> init[i] == starters[i];
      RowCountsCover(init, posMap);
      RowCountSnoc(starters, posMap, "GKP");
      RowCountSnoc(starters, posMap, "DEF");
      RowCountSnoc(starters, posMap, "MID");
      RowCountSnoc(starters, posMap, "FWD");
      assert Label(posMap, starters[n].pos) in POSITIONS;
    }
  }

  /** One more starter adds one to its own row and nothing elsewhere. */
  lemma RowCountSnoc(starters: seq<SquadPlayer>, posMap: map<int, string>, row: string)
    requires starters != []
    ensures var n := |starters| - 1;
            RowCount(starters, posMap, row) ==
            RowCount(starters[..n], posMap, row) + (if Label(posMap, starters[n].pos) == row then 1 else 0)
  {
    var n := |starters| - 1;
    LabelsSnoc(starters, posMap, n);
    assert starters[..n + 1] == starters;
  }

  /** A fixture of the team's upcoming list. */
  datatype Fixture = Fixture(difficulty: int, opponentShort: string)

  /** `getFixtureStrip`: the team's next three fixtures, none when the
      fixture table has no list for the team. */
  function FixtureStrip(fixtures: map<int, seq<Fixture>>, teamId: int): (r: seq<Fixture>)
    ensures |r| <= 3
    ensures teamId !in fixtures ==> r == []
    ensures teamId in fixtures ==> |r| == Min(3, |fixtures[teamId]|) && r == fixtures[teamId][..|r|]
  {
    if teamId in fixtures then Take(fixtures[teamId], 3) else []
  }

  datatype Colours = Colours(primary: string, secondary: string)

  /** The grey shirt drawn for a team without colours. */
  const DEFAULT_COLOURS: Colours := Colours("#ccc", "#999")

  /** `teamColors[teamId] || { primary: "#ccc", secondary: "#999" }`. */
  function ShirtColours(teamColours: map<int, Colours>, teamId: int): (r: Colours)
    ensures teamId in teamColours ==> r == teamColours[teamId]
    ensures teamId !in teamColours ==> r == DEFAULT_COLOURS
  {
    if teamId in teamColours then teamColours[teamId] else DEFAULT_COLOURS
  }
}
