/** The records the dashboard reads from the upstream API, as far as the
    aggregations use them. */
module Fpl {
  import opened Base

  /** An entry of `bootstrap.events`. */
  datatype Event = Event(id: int, isCurrent: bool)

  /** An entry of `bootstrap.elements`: a player of the reference table. */
  datatype Element = Element(id: nat, webName: string, eventPoints: int)

  /** One of the 15 picks of a manager's squad for a gameweek. */
  datatype Pick = Pick(element: nat, isCaptain: bool, multiplier: int)

  /** A picks request, as the aggregations see its result:
      `NoData` when the returned value is falsy (`null` after an exception),
      `NoPicks` when it is truthy but has no `picks` list (an error body),
      `Picks` with the list otherwise. */
  datatype PicksFetch = NoData | NoPicks | Picks(picks: seq<Pick>)

  /** `picks.map(p => p.element)`. */
  function ElementIds(ps: seq<Pick>): (r: seq<nat>)
    ensures |r| == |ps|
    ensures forall i :: 0 <= i < |ps| ==> r[i] == ps[i].element
  {
    seq(|ps|, i requires 0 <= i < |ps| => ps[i].element)
  }

  /** The element ids of the picks flagged captain, in pick order. */
  function CaptainIds(ps: seq<Pick>): seq<nat>
  {
    if ps == [] then []
    else
      var last := ps[|ps| - 1];
      CaptainIds(ps[..|ps| - 1]) + (if last.isCaptain then [last.element] else [])
  }

  /** The picks of a successful request, none otherwise. */
  function PicksOf(f: PicksFetch): seq<Pick>
  {
    if f.Picks? then f.picks else []
  }

  /** The picks of every successful request, in request order. */
  function AllPicks(fs: seq<PicksFetch>): seq<Pick>
  {
    if fs == [] then [] else AllPicks(fs[..|fs| - 1]) + PicksOf(fs[|fs| - 1])
  }

  lemma ElementIdsAppend(a: seq<Pick>, b: seq<Pick>)
    ensures ElementIds(a + b) == ElementIds(a) + ElementIds(b)
  {
  }

  /** Every captain pick is a pick: the captain tally never exceeds the
      pick tally for any id. */
  lemma {:induction false} CaptainIdsIncluded(ps: seq<Pick>)
    ensures multiset(CaptainIds(ps)) <= multiset(ElementIds(ps))
  {
    if ps != [] {
      var last := ps[|ps| - 1];
      var init := ps[..|ps| - 1];
      assert ps == init + [last];
      CaptainIdsIncluded(init);
      ElementIdsAppend(init, [last]);
    }
  }
}
