/** The standings view: the current gameweek, and per rival the
    differentials against the baseline squad and the captain's points. */
module Members {
  import opened Base
  import opened Fpl

  predicate IsCurrentEvent(e: Event) { e.isCurrent }

  /** `events.find(e => e.is_current)?.id || 1`: the id of the first
      current event, or 1 when there is none or its id is 0. */
  function CurrentGW(events: seq<Event>): (gw: int)
    ensures gw != 0
    ensures (forall j :: 0 <= j < |events| ==> !events[j].isCurrent) ==> gw == 1
    ensures forall i :: 0 <= i < |events| && events[i].isCurrent &&
                        (forall j :: 0 <= j < i ==> !events[j].isCurrent) ==>
                        gw == (if events[i].id != 0 then events[i].id else 1)
  {
    match FindIndex(events, IsCurrentEvent)
    case None => 1
    case Some(i) => if events[i].id != 0 then events[i].id else 1
  }

  /** The baseline squad: `yourData?.picks ? yourData.picks.map(p => p.element) : []`. */
  function BaselinePicks(yours: PicksFetch): (r: seq<nat>)
    ensures yours.Picks? ==> r == ElementIds(yours.picks)
    ensures !yours.Picks? ==> r == []
  {
    if yours.Picks? then ElementIds(yours.picks) else []
  }

  /** `rivalPicks.filter(id => !yourPicks.includes(id))`. */
  function NotIn(rival: seq<nat>, base: seq<nat>): (r: seq<nat>)
    ensures IsSubsequence(r, rival)
    ensures forall i :: 0 <= i < |r| ==> r[i] !in base
    ensures forall x :: x !in base ==> multiset(r)[x] == multiset(rival)[x]
  {
    FilterCounts(rival, Outside(base));
    Filter(rival, Outside(base))
  }

  /** The filter's test: not among the baseline picks. */
  function Outside(base: seq<nat>): nat -> bool
  {
    x => x !in base
  }

  /** The two differentials shown per rival, `risks` (`.slice(0, 2)`). */
  function Risks(rival: seq<nat>, base: seq<nat>): (r: seq<nat>)
    ensures |r| <= 2
    ensures IsSubsequence(r, rival)
    ensures forall i :: 0 <= i < |r| ==> r[i] !in base
    ensures |r| == Min(2, |NotIn(rival, base)|) && r == NotIn(rival, base)[..|r|]
  {
    var all := NotIn(rival, base);
    PrefixOfSubsequence(all, rival, Min(2, |all|));
    Take(all, 2)
  }

  /** With an empty baseline the risks are just the first two rival picks. */
  lemma RisksWithoutBaseline(rival: seq<nat>)
    ensures Risks(rival, []) == Take(rival, 2)
  {
    FilterAll(rival, Outside([]));
  }

  /** Baseline {1, 2, 3} against rival picks [5, 2, 9, 1] gives [5, 9]. */
  lemma RisksExample(rival: seq<nat>, base: seq<nat>)
    requires rival == [5, 2, 9, 1] && base == [1, 2, 3]
    ensures Risks(rival, base) == [5, 9]
  {
    RisksExampleTail(rival[1..], base);
    assert rival[0] == 5 && Outside(base)(5);
    assert NotIn(rival, base) == [5, 9];
  }

  lemma RisksExampleTail(rival: seq<nat>, base: seq<nat>)
    requires rival == [2, 9, 1] && base == [1, 2, 3]
    ensures Filter(rival, Outside(base)) == [9]
  {
    var keep := Outside(base);
    assert Filter(rival[2..], keep) == [] by {
      assert rival[2..][1..] == [] && !keep(1);
    }
    assert Filter(rival[1..], keep) == [9] by {
      assert rival[1..][1..] == rival[2..] && keep(9);
    }
    assert rival[0] == 2 && !keep(2);
  }

  /** The captain of a rival's squad and the points shown for it. */
  datatype Captain = Captain(pickIndex: nat, element: Element, points: int)

  predicate IsCaptainPick(p: Pick) { p.isCaptain }

  /** `captainPick = picks.find(p => p.is_captain)`, `captainObj =
      elements.find(e => e.id === captainPick.element)` and
      `captainObj.event_points * captainPick.multiplier`. `None` is the
      TypeError raised when either lookup finds nothing. */
  function CaptainOf(ps: seq<Pick>, elements: seq<Element>): (r: Option<Captain>)
    ensures r.Some? ==>
              var i := r.value.pickIndex;
              && i < |ps| && ps[i].isCaptain
              && (forall j :: 0 <= j < i ==> !ps[j].isCaptain)
              && (exists k :: 0 <= k < |elements| && elements[k] == r.value.element &&
                    forall j :: 0 <= j < k ==> elements[j].id != ps[i].element)
              && r.value.element.id == ps[i].element
              && r.value.points == r.value.element.eventPoints * ps[i].multiplier
    ensures r.None? ==>
              || (forall j :: 0 <= j < |ps| ==> !ps[j].isCaptain)
              || (exists i :: 0 <= i < |ps| && ps[i].isCaptain &&
                    (forall j :: 0 <= j < i ==> !ps[j].isCaptain) &&
                    (forall k :: 0 <= k < |elements| ==> elements[k].id != ps[i].element))
  {
    match FindIndex(ps, IsCaptainPick)
    case None => None
    case Some(i) =>
      match FindIndex(elements, (e: Element) => e.id == ps[i].element)
      case None => None
      case Some(k) => Some(Captain(i, elements[k], elements[k].eventPoints * ps[i].multiplier))
  }

  /** The data of one table row. */
  datatype MemberRow = MemberRow(entry: nat, risks: seq<nat>, captain: Captain)

  /** One iteration over the standings: skip the rival (`continue`), stop
      the whole view (a TypeError), or produce a row. */
  datatype RowOutcome = Skip | Abort | Row(row: MemberRow)

  function MemberOutcome(entry: nat, rival: PicksFetch, base: seq<nat>,
                         elements: seq<Element>): (o: RowOutcome)
    ensures rival.NoData? ==> o.Skip?
    ensures rival.NoPicks? ==> o.Abort?
    ensures rival.Picks? ==> (o.Abort? <==> CaptainOf(rival.picks, elements).None?)
    ensures rival.Picks? && CaptainOf(rival.picks, elements).Some? ==>
              o == Row(MemberRow(entry, Risks(ElementIds(rival.picks), base), CaptainOf(rival.picks, elements).value))
    ensures o.Row? ==> o.row.entry == entry && rival.Picks? &&
                       o.row.risks == Risks(ElementIds(rival.picks), base) &&
                       Some(o.row.captain) == CaptainOf(rival.picks, elements)
  {
    match rival
    case NoData => Skip
    case NoPicks => Abort
    case Picks(ps) =>
      match CaptainOf(ps, elements)
      case None => Abort
      case Some(c) => Row(MemberRow(entry, Risks(ElementIds(ps), base), c))
  }

  function Outcomes(standings: seq<nat>, rivals: seq<PicksFetch>, base: seq<nat>,
                    elements: seq<Element>): (outs: seq<RowOutcome>)
    requires |rivals| == |standings|
    ensures |outs| == |standings|
  {
    if standings == [] then []
    else
      var n := |standings| - 1;
      Outcomes(standings[..n], rivals[..n], base, elements) + [MemberOutcome(standings[n], rivals[n], base, elements)]
  }

  /** The outcome of the `i`-th standing is that rival's `MemberOutcome`. */
  lemma {:induction false} OutcomeAt(standings: seq<nat>, rivals: seq<PicksFetch>, base: seq<nat>,
                                     elements: seq<Element>, i: nat)
    requires |rivals| == |standings| && i < |standings|
    ensures Outcomes(standings, rivals, base, elements)[i] == MemberOutcome(standings[i], rivals[i], base, elements)
  {
    var n := |standings| - 1;
    var prev := Outcomes(standings[..n], rivals[..n], base, elements);
    var last := MemberOutcome(standings[n], rivals[n], base, elements);
    assert Outcomes(standings, rivals, base, elements) == prev + [last];
    if i < n {
      OutcomeAt(standings[..n], rivals[..n], base, elements, i);
      assert standings[..n][i] == standings[i] && rivals[..n][i] == rivals[i];
      assert (prev + [last])[i] == prev[i];
    }
  }

  /** The rows of the produced outcomes, in order. */
  function Kept(outs: seq<RowOutcome>): (rows: seq<MemberRow>)
  {
    if outs == [] then []
    else
      var last := outs[|outs| - 1];
      Kept(outs[..|outs| - 1]) + (if last.Row? then [last.row] else [])
  }

  lemma KeptStep(outs: seq<RowOutcome>, i: nat)
    requires i < |outs|
    ensures Kept(outs[..i + 1]) ==
            Kept(outs[..i]) + (if outs[i].Row? then [outs[i].row] else [])
  {
    assert outs[..i + 1][..i] == outs[..i];
  }

  /** Every row shows at most two differentials, none of them in the baseline. */
  predicate RisksRespect(rows: seq<MemberRow>, base: seq<nat>)
  {
    forall k :: 0 <= k < |rows| ==>
      |rows[k].risks| <= 2 && forall x :: x in rows[k].risks ==> x !in base
  }

  lemma {:induction false} KeptFrom(outs: seq<RowOutcome>, n: nat, base: seq<nat>)
    requires n <= |outs|
    requires forall i :: 0 <= i < |outs| && outs[i].Row? ==> RisksRespect([outs[i].row], base)
    ensures |Kept(outs[..n])| <= n
    ensures RisksRespect(Kept(outs[..n]), base)
  {
    if n > 0 {
      KeptFrom(outs, n - 1, base);
      KeptStep(outs, n - 1);
    }
  }

  /** Every row an outcome produces respects the baseline. */
  lemma OutcomesRespect(standings: seq<nat>, rivals: seq<PicksFetch>, base: seq<nat>, elements: seq<Element>,
                        outs: seq<RowOutcome>)
    requires |rivals| == |standings|
    requires outs == Outcomes(standings, rivals, base, elements)
    ensures forall i :: 0 <= i < |outs| && outs[i].Row? ==> RisksRespect([outs[i].row], base)
  {
    forall i | 0 <= i < |outs| && outs[i].Row? ensures RisksRespect([outs[i].row], base) {
      OutcomeAt(standings, rivals, base, elements, i);
    }
  }

  predicate IsAbort(o: RowOutcome) { o.Abort? }

  /** How many outcomes are produced before the view stops. */
  function Reached(outs: seq<RowOutcome>): (n: nat)
    ensures n <= |outs|
    ensures forall j :: 0 <= j < n ==> !outs[j].Abort?
    ensures n < |outs| ==> outs[n].Abort?
  {
    match FindIndex(outs, IsAbort)
    case None => |outs|
    case Some(i) => i
  }

  lemma ReachedAt(outs: seq<RowOutcome>, i: nat)
    requires i < |outs| && outs[i].Abort?
    requires forall j :: 0 <= j < i ==> !outs[j].Abort?
    ensures Reached(outs) == i
  {
  }

  lemma ReachedAll(outs: seq<RowOutcome>)
    requires forall j :: 0 <= j < |outs| ==> !outs[j].Abort?
    ensures Reached(outs) == |outs|
  {
  }

  /** `renderMembers`: the baseline is the squad of the league leader
      (`results[0]`, its request outcome `yours`); then one row per rival
      in standings order. `rivals[i]` is what the request for
      `standings[i]` returned. `completed` is false when the view stopped
      on a TypeError: with no standings at all, or at the first rival whose
      body has no picks or whose captain cannot be resolved; the rows
      produced before it remain. */
  method RenderMembers(standings: seq<nat>, yours: PicksFetch, rivals: seq<PicksFetch>,
                       elements: seq<Element>)
    returns (rows: seq<MemberRow>, completed: bool)
    requires |rivals| == |standings|
    ensures standings == [] ==> rows == [] && !completed
    ensures standings != [] ==>
              var outs := Outcomes(standings, rivals, BaselinePicks(yours), elements);
              && rows == Kept(outs[..Reached(outs)])
              && (completed <==> Reached(outs) == |outs|)
  {
    if standings == [] {
      return [], false;
    }
    var base := BaselinePicks(yours);
    ghost var outs := Outcomes(standings, rivals, base, elements);
    rows := [];
    var i := 0;
    while i < |standings|
      invariant 0 <= i <= |standings|
      invariant forall j :: 0 <= j < i ==> !outs[j].Abort?
      invariant rows == Kept(outs[..i])
    {
      var o := VisitRival(standings, rivals, base, elements, outs, i);
      KeptStep(outs, i);
      if o.Abort? {
        ReachedAt(outs, i);
        return rows, false;
      }
      if o.Row? {
        rows := rows + [o.row];
      }
      i := i + 1;
    }
    assert outs[..i] == outs;
    ReachedAll(outs);
    completed := true;
  }

  /** One iteration of the standings loop: the outcome for `standings[i]`. */
  method VisitRival(standings: seq<nat>, rivals: seq<PicksFetch>, base: seq<nat>,
                    elements: seq<Element>, ghost outs: seq<RowOutcome>, i: nat)
    returns (o: RowOutcome)
    requires |rivals| == |standings| && i < |standings|
    requires outs == Outcomes(standings, rivals, base, elements)
    ensures o == outs[i]
  {
    OutcomeAt(standings, rivals, base, elements, i);
    o := MemberOutcome(standings[i], rivals[i], base, elements);
  }

  /** The view never has more rows than the league has standings, and every
      row shows at most two differentials, none of them in the baseline. */
  lemma RenderedRowsRespect(standings: seq<nat>, yours: PicksFetch, rivals: seq<PicksFetch>,
                            elements: seq<Element>)
    requires |rivals| == |standings|
    ensures var base := BaselinePicks(yours);
            var outs := Outcomes(standings, rivals, base, elements);
            var rows := Kept(outs[..Reached(outs)]);
            |rows| <= |standings| && RisksRespect(rows, base)
  {
    var base := BaselinePicks(yours);
    var outs := Outcomes(standings, rivals, base, elements);
    OutcomesRespect(standings, rivals, base, elements, outs);
    KeptFrom(outs, Reached(outs), base);
  }
}
