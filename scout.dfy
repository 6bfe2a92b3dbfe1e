/** The scout tool: a case-insensitive name search over the player table,
    and the two-slot lock-and-compare selection (`lockPlayer`, whose only
    state is the page-global `lockedPlayer`). */
module Scout {
  import opened Base
  import opened Fpl

  /** The shortest query the search reacts to. */
  const MIN_QUERY: nat := 3

  /** `toLowerCase` on the ASCII letters; other characters are kept. */
  function LowerChar(c: char): (r: char)
    ensures 'A' <= c <= 'Z' ==> r as int == c as int + 32
    ensures !('A' <= c <= 'Z') ==> r == c
  {
    if 'A' <= c <= 'Z' then (c as int + 32) as char else c
  }

  function Lower(s: string): (r: string)
    ensures |r| == |s|
    ensures forall i :: 0 <= i < |s| ==> r[i] == LowerChar(s[i])
  {
    seq(|s|, i requires 0 <= i < |s| => LowerChar(s[i]))
  }

  /** Lower-casing twice is lower-casing once. */
  lemma LowerIdempotent(s: string)
    ensures Lower(Lower(s)) == Lower(s)
  {
    assert forall i :: 0 <= i < |s| ==> LowerChar(LowerChar(s[i])) == LowerChar(s[i]);
  }

  /** `s.length`: UTF-16 code units, two for a character beyond U+FFFF. */
  function Utf16Length(s: string): (n: nat)
    ensures |s| <= n <= 2 * |s|
  {
    if s == [] then 0
    else Utf16Length(s[..|s| - 1]) + (if s[|s| - 1] as int > 0xFFFF then 2 else 1)
  }

  /** Lower-casing keeps the UTF-16 length, since it only maps ASCII letters. */
  lemma {:induction false} LowerKeepsUtf16Length(s: string)
    ensures Utf16Length(Lower(s)) == Utf16Length(s)
  {
    if s != [] {
      var n := |s| - 1;
      LowerKeepsUtf16Length(s[..n]);
      assert Lower(s)[..n] == Lower(s[..n]);
      assert Lower(s)[n] == LowerChar(s[n]);
    }
  }

  /** A letter followed by one astral character already has length 3. */
  lemma AstralCountsTwice()
    ensures Utf16Length("a\U{1D49C}") == 3
  {
    var s := "a\U{1D49C}";
    assert s[..1] == "a" && s[..1][..0] == [];
  }

  predicate OccursAt(s: string, sub: string, k: nat)
  {
    k + |sub| <= |s| && s[k..k + |sub|] == sub
  }

  /** `s.includes(sub)`: `sub` occurs in `s` at some offset. */
  predicate Contains(s: string, sub: string)
  {
    exists k: nat :: k <= |s| && OccursAt(s, sub, k)
  }

  /** The search predicate: the lower-cased web name contains the query. */
  predicate NameMatches(query: string, e: Element)
  {
    Contains(Lower(e.webName), query)
  }

  /** The `oninput` handler: after lower-casing, a query shorter than three
      UTF-16 code units does nothing; otherwise the first player whose
      lower-cased web name contains it is shown. `None` means the handler
      returns without touching the output, so the previous result stays. */
  function Search(input: string, elements: seq<Element>): (r: Option<Element>)
    ensures Utf16Length(input) < MIN_QUERY ==> r == None
    ensures r.Some? ==> exists i :: 0 <= i < |elements| && elements[i] == r.value &&
                          NameMatches(Lower(input), elements[i]) &&
                          forall j :: 0 <= j < i ==> !NameMatches(Lower(input), elements[j])
    ensures r.None? && Utf16Length(input) >= MIN_QUERY ==>
              forall j :: 0 <= j < |elements| ==> !NameMatches(Lower(input), elements[j])
  {
    var query := Lower(input);
    LowerKeepsUtf16Length(input);
    if Utf16Length(query) < MIN_QUERY then None
    else match FindIndex(elements, e => NameMatches(query, e))
      case None => None
      case Some(i) => Some(elements[i])
  }

  /** Typing in upper or lower case finds the same player. */
  lemma SearchIgnoresCase(input: string, elements: seq<Element>)
    ensures Search(Lower(input), elements) == Search(input, elements)
  {
    LowerIdempotent(input);
  }

  /** The first player whose name matches is the one shown. */
  lemma SearchFindsFirstMatch(input: string, elements: seq<Element>, i: nat)
    requires Utf16Length(input) >= MIN_QUERY && i < |elements|
    requires NameMatches(Lower(input), elements[i])
    requires forall j :: 0 <= j < i ==> !NameMatches(Lower(input), elements[j])
    ensures Search(input, elements) == Some(elements[i])
  {
    FindIndexAt(elements, e => NameMatches(Lower(input), e), i);
  }

  /** The lock button's handler looks players up by id. */
  predicate HasId(id: nat, e: Element)
  {
    e.id == id
  }

  /** `b.elements.find(x => x.id === id)`. */
  function FindById(elements: seq<Element>, id: nat): (r: Option<Element>)
    ensures r.Some? ==>
              r.value.id == id &&
              (exists i :: 0 <= i < |elements| && elements[i] == r.value &&
                 forall j :: 0 <= j < i ==> elements[j].id != id)
    ensures r.None? ==> forall e :: e in elements ==> e.id != id
  {
    match FindIndex(elements, e => HasId(id, e))
      case None => None
      case Some(i) => Some(elements[i])
  }

  /** What a click on the lock button did: the first slot was (re)filled,
      the two players were compared, or the handler threw. */
  datatype LockOutcome = Locked | Compared(a: Element, b: Element) | Threw

  class Planner {
    /** `lockedPlayer`: the player in the first slot. An id that is not in
        the table leaves the slot empty (`undefined`). */
    var locked: Option<Element>

    constructor ()
      ensures locked == None
    {
      locked := None;
    }

    /** The caption of the search result's button. */
    function ButtonLabel(): string
      reads this
    {
      if locked.Some? then "Compare" else "Set A"
    }

    /** `lockPlayer(id)`: `stored` is the player table of the bootstrap
        entry kept in the cache, read without looking at its expiry, and
        `None` when there is no such entry (parsing it then throws). With an
        empty slot the player found (possibly none) is locked; with a full
        slot the two are compared and the slot is emptied, unless the second
        id is unknown, when building the comparison throws first. */
    method LockPlayer(id: nat, stored: Option<seq<Element>>) returns (outcome: LockOutcome)
      modifies this
      ensures stored.None? ==> outcome == Threw && locked == old(locked)
      ensures stored.Some? && old(locked).None? ==>
                outcome == Locked && locked == FindById(stored.value, id)
      ensures stored.Some? && old(locked).Some? && FindById(stored.value, id).Some? ==>
                outcome == Compared(old(locked).value, FindById(stored.value, id).value) && locked == None
      ensures stored.Some? && old(locked).Some? && FindById(stored.value, id).None? ==>
                outcome == Threw && locked == old(locked)
    {
      if stored.None? {
        return Threw;
      }
      var p := FindById(stored.value, id);
      if locked.None? {
        locked := p;
        outcome := Locked;
      } else {
        if p.None? {
          return Threw;
        }
        outcome := Compared(locked.value, p.value);
        locked := None;
      }
    }
  }

  /** Locking two known players in turn compares them, first against
      second, and leaves the planner ready for a new pair. */
  method CompareTwo(a: Element, b: Element, others: seq<Element>)
    returns (first: LockOutcome, second: LockOutcome, slot: Option<Element>)
    requires a.id != b.id
    ensures first == Locked && second == Compared(a, b)
    ensures slot == None
  {
    var table := [a, b] + others;
    var planner := new Planner();
    assert table[0] == a && table[1] == b;
    FindIndexAt(table, e => HasId(a.id, e), 0);
    first := planner.LockPlayer(a.id, Some(table));
    assert planner.ButtonLabel() == "Compare";
    FindIndexAt(table, e => HasId(b.id, e), 1);
    second := planner.LockPlayer(b.id, Some(table));
    slot := planner.locked;
  }
}
