/** Rival watch (`checkRivalTransfers`): for the top three managers of the
    league, the gameweek transfer count is compared with the count seen on
    the previous round, and a toast is raised when it grew. The remembered
    counts live in the page-global `previousTransfers`, which the watcher
    updates in place; each manager's count comes from a cached picks request
    of the environment. */
module RivalWatch {
  import opened Base

  /** How many managers of the standings are watched. */
  const WATCHED: nat := 3

  /** `data?.entry_history?.event_transfers || 0`: `None` when the request
      returned nothing or the body has no transfer count. */
  function TransferCount(observed: Option<int>): int
  {
    if observed.Some? then observed.value else 0
  }

  /** The toast condition for one manager: a count was seen before and the
      new one is strictly larger. */
  predicate Grew(previous: map<nat, int>, entry: nat, count: int)
  {
    entry in previous && count > previous[entry]
  }

  /** The remembered counts after visiting `entries` in order. */
  function Remembered(previous: map<nat, int>, entries: seq<nat>, observed: seq<Option<int>>): map<nat, int>
    requires |observed| == |entries|
  {
    if entries == [] then previous
    else
      var n := |entries| - 1;
      Remembered(previous, entries[..n], observed[..n])[entries[n] := TransferCount(observed[n])]
  }

  /** The managers a toast is raised for, in visiting order. */
  function Alerts(previous: map<nat, int>, entries: seq<nat>, observed: seq<Option<int>>): seq<nat>
    requires |observed| == |entries|
  {
    if entries == [] then []
    else
      var n := |entries| - 1;
      var before := Remembered(previous, entries[..n], observed[..n]);
      Alerts(previous, entries[..n], observed[..n])
        + (if Grew(before, entries[n], TransferCount(observed[n])) then [entries[n]] else [])
  }

  class TransferWatch {
    /** `previousTransfers`: entry id to the last transfer count seen. */
    var previous: map<nat, int>

    /** The page starts with nothing remembered. */
    constructor ()
      ensures previous == map[]
    {
      previous := map[];
    }

    /** One round of the watcher over the league's standings `results`
        (entry ids in rank order); `observed[i]` is what the picks request of
        `results[i]` yields this round (only the first three are consulted).
        Returns the entries a toast is raised for. */
    method CheckRivalTransfers(results: seq<nat>, observed: seq<Option<int>>) returns (alerts: seq<nat>)
      requires |observed| == |results|
      modifies this
      ensures var top := Take(results, WATCHED);
              previous == Remembered(old(previous), top, observed[..|top|]) &&
              alerts == Alerts(old(previous), top, observed[..|top|])
    {
      var top := Take(results, WATCHED);
      var seen := observed[..|top|];
      ghost var start := previous;
      alerts := [];
      var i := 0;
      assert top[..i] == [] && seen[..i] == [];
      while i < |top|
        invariant 0 <= i <= |top|
        invariant previous == Remembered(start, top[..i], seen[..i])
        invariant alerts == Alerts(start, top[..i], seen[..i])
      {
        var entry := top[i];
        var count := TransferCount(seen[i]);
        assert top[..i + 1][..i] == top[..i] && seen[..i + 1][..i] == seen[..i];
        if entry in previous && count > previous[entry] {
          alerts := alerts + [entry];
        }
        previous := previous[entry := count];
        i := i + 1;
      }
      assert top[..i] == top && seen[..i] == seen;
    }
  }

  /** The remembered map gains exactly the visited entries as keys. */
  lemma {:induction false} RememberedKeys(previous: map<nat, int>, entries: seq<nat>, observed: seq<Option<int>>)
    requires |observed| == |entries|
    ensures Remembered(previous, entries, observed).Keys == previous.Keys + set e | e in entries
  {
    if entries != [] {
      var n := |entries| - 1;
      RememberedKeys(previous, entries[..n], observed[..n]);
      assert entries == entries[..n] + [entries[n]];
    }
  }

  /** Managers that were not visited keep their remembered count. */
  lemma {:induction false} RememberedElsewhere(previous: map<nat, int>, entries: seq<nat>, observed: seq<Option<int>>, k: nat)
    requires |observed| == |entries|
    requires k in previous && k !in entries
    ensures k in Remembered(previous, entries, observed)
    ensures Remembered(previous, entries, observed)[k] == previous[k]
  {
    if entries != [] {
      var n := |entries| - 1;
      assert entries[..n] + [entries[n]] == entries;
      assert k !in entries[..n];
      RememberedElsewhere(previous, entries[..n], observed[..n], k);
    }
  }

  /** With distinct managers, each one's remembered count is the count
      observed for it this round. */
  lemma {:induction false} RememberedAt(previous: map<nat, int>, entries: seq<nat>, observed: seq<Option<int>>, i: nat)
    requires |observed| == |entries| && Distinct(entries) && i < |entries|
    ensures entries[i] in Remembered(previous, entries, observed)
    ensures Remembered(previous, entries, observed)[entries[i]] == TransferCount(observed[i])
  {
    var n := |entries| - 1;
    if i < n {
      assert entries[..n][i] == entries[i];
      assert Distinct(entries[..n]) by {
        forall a, b | 0 <= a < b < n ensures entries[..n][a] != entries[..n][b] {
          assert entries[a] != entries[b];
        }
      }
      RememberedAt(previous, entries[..n], observed[..n], i);
      assert entries[i] != entries[n];
      assert observed[..n][i] == observed[i];
    }
  }

  /** Every toast is for a visited manager whose count grew. */
  lemma {:induction false} AlertsGrew(previous: map<nat, int>, entries: seq<nat>, observed: seq<Option<int>>, e: nat)
    requires |observed| == |entries|
    requires e in Alerts(previous, entries, observed)
    ensures exists i :: 0 <= i < |entries| && entries[i] == e &&
              Grew(Remembered(previous, entries[..i], observed[..i]), e, TransferCount(observed[i]))
  {
    var n := |entries| - 1;
    var before := Remembered(previous, entries[..n], observed[..n]);
    if Grew(before, entries[n], TransferCount(observed[n])) && e == entries[n] {
      assert entries[n] == e;
    } else {
      assert e in Alerts(previous, entries[..n], observed[..n]);
      AlertsGrew(previous, entries[..n], observed[..n], e);
      var i :| 0 <= i < n && entries[..n][i] == e &&
               Grew(Remembered(previous, entries[..n][..i], observed[..n][..i]), e, TransferCount(observed[..n][i]));
      assert entries[..n][..i] == entries[..i] && observed[..n][..i] == observed[..i];
      assert entries[i] == e && observed[..n][i] == observed[i];
    }
  }

  /** Toasts are only raised for visited managers. */
  lemma {:induction false} AlertsWithin(previous: map<nat, int>, entries: seq<nat>, observed: seq<Option<int>>)
    requires |observed| == |entries|
    ensures forall e :: e in Alerts(previous, entries, observed) ==> e in entries
  {
    if entries != [] {
      var n := |entries| - 1;
      AlertsWithin(previous, entries[..n], observed[..n]);
      assert entries == entries[..n] + [entries[n]];
    }
  }

  /** With distinct managers, a toast is raised for a manager exactly when
      a count was remembered for it from earlier rounds and the count
      observed now is larger. */
  lemma {:induction false} AlertIffGrew(previous: map<nat, int>, entries: seq<nat>, observed: seq<Option<int>>, i: nat)
    requires |observed| == |entries| && Distinct(entries) && i < |entries|
    ensures entries[i] in Alerts(previous, entries, observed) <==> Grew(previous, entries[i], TransferCount(observed[i]))
  {
    var n := |entries| - 1;
    var e := entries[i];
    assert Distinct(entries[..n]) by {
      forall a, b | 0 <= a < b < n ensures entries[..n][a] != entries[..n][b] {
        assert entries[a] != entries[b];
      }
    }
    var before := Remembered(previous, entries[..n], observed[..n]);
    if i < n {
      assert entries[..n][i] == e && observed[..n][i] == observed[i];
      assert e != entries[n];
      AlertIffGrew(previous, entries[..n], observed[..n], i);
    } else {
      assert e !in entries[..n] by {
        forall a | 0 <= a < n ensures entries[..n][a] != e {
          assert entries[a] != entries[n];
        }
      }
      AlertsWithin(previous, entries[..n], observed[..n]);
      RememberedKeys(previous, entries[..n], observed[..n]);
      if e in previous {
        RememberedElsewhere(previous, entries[..n], observed[..n], e);
      }
    }
  }

  /** A manager seen for the first time never raises a toast: on the first
      round of a fresh page (and for any distinct managers nobody
      remembers) the watcher is silent. */
  lemma {:induction false} FirstSightingSilent(previous: map<nat, int>, entries: seq<nat>, observed: seq<Option<int>>)
    requires |observed| == |entries| && Distinct(entries)
    requires forall i :: 0 <= i < |entries| ==> entries[i] !in previous
    ensures Alerts(previous, entries, observed) == []
  {
    if entries != [] {
      var n := |entries| - 1;
      assert Distinct(entries[..n]) by {
        forall a, b | 0 <= a < b < n ensures entries[..n][a] != entries[..n][b] {
          assert entries[a] != entries[b];
        }
      }
      FirstSightingSilent(previous, entries[..n], observed[..n]);
      RememberedKeys(previous, entries[..n], observed[..n]);
      assert entries[n] !in entries[..n] by {
        forall a | 0 <= a < n ensures entries[..n][a] != entries[n] {
          assert entries[a] != entries[n];
        }
      }
    }
  }

  /** Rounds observing 2, 2 and then 3 transfers for one rival: no toast on
      the first round (nothing remembered), none on the second (no growth),
      exactly one on the third, and 3 is remembered. */
  lemma RisingCountScenario(e: nat)
    ensures var m0: map<nat, int> := map[];
            var m1 := Remembered(m0, [e], [Some(2)]);
            var m2 := Remembered(m1, [e], [Some(2)]);
            Alerts(m0, [e], [Some(2)]) == [] &&
            Alerts(m1, [e], [Some(2)]) == [] &&
            Alerts(m2, [e], [Some(3)]) == [e] &&
            Remembered(m2, [e], [Some(3)]) == map[e := 3]
  {
    var m0: map<nat, int> := map[];
    var m1 := OneRound(m0, e, 2);
    var m2 := OneRound(m1, e, 2);
    var m3 := OneRound(m2, e, 3);
  }

  /** One round watching a single rival whose picks show `count` transfers. */
  lemma OneRound(previous: map<nat, int>, e: nat, count: int) returns (next: map<nat, int>)
    ensures next == Remembered(previous, [e], [Some(count)]) && next == previous[e := count]
    ensures Alerts(previous, [e], [Some(count)]) ==
            (if e in previous && count > previous[e] then [e] else [])
  {
    assert [e][..0] == [] && [Some(count)][..0] == [];
    next := previous[e := count];
  }
}
