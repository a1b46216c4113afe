/** The investor detail page: a card per asset class with its total and an
    "All" card with the grand total, a table of the investor's commitments,
    and a click on a card that selects or clears a class filter. */
module InvestorDetailPage {
  import opened Wrappers
  import opened Store

  const AllKey := "All"

  // ---- A JavaScript Map from strings to numbers ----

  /** A `Map<string, number>`: its entries in insertion order. */
  type Totals = seq<(string, int)>

  /** `m.keys()`, in insertion order. */
  function Keys(m: Totals): (r: seq<string>)
    ensures |r| == |m|
    decreases |m|
  {
    if |m| == 0 then [] else Keys(m[..|m| - 1]) + [m[|m| - 1].0]
  }

  lemma {:induction false} KeysAt(m: Totals, i: nat)
    requires i < |m|
    ensures Keys(m)[i] == m[i].0
    decreases |m|
  {
    if i < |m| - 1 {
      KeysAt(m[..|m| - 1], i);
    }
  }

  predicate DistinctKeys(m: Totals) {
    forall i, j :: 0 <= i < j < |m| ==> m[i].0 != m[j].0
  }

  /** `m.get(k)`: the value stored under `k`, if `k` is a key. */
  function Get(m: Totals, k: string): Option<int>
    decreases |m|
  {
    if |m| == 0 then None
    else if m[|m| - 1].0 == k then Some(m[|m| - 1].1)
    else Get(m[..|m| - 1], k)
  }

  /** `get` finds a value exactly for the keys of the map. */
  lemma {:induction false} GetDefined(m: Totals, k: string)
    ensures Get(m, k).Some? <==> k in Keys(m)
    decreases |m|
  {
    if |m| > 0 {
      GetDefined(m[..|m| - 1], k);
    }
  }

  /** Where key `k` sits in `m`. */
  function IndexOf(m: Totals, k: string): (i: nat)
    requires k in Keys(m)
    ensures i < |m| && m[i].0 == k
    decreases |m|
  {
    if m[|m| - 1].0 == k then |m| - 1 else IndexOf(m[..|m| - 1], k)
  }

  /** `m.set(k, v)`: an existing key keeps its place with the new value, a new
      key goes last. */
  function Set(m: Totals, k: string, v: int): (r: Totals)
    requires DistinctKeys(m)
    ensures DistinctKeys(r)
    ensures Get(r, k) == Some(v)
    ensures forall k' :: k' != k ==> Get(r, k') == Get(m, k')
  {
    if k in Keys(m) then
      var i := IndexOf(m, k);
      var r := m[i := (k, v)];
      GetUnique(r, i);
      forall k' | k' != k
        ensures Get(r, k') == Get(m, k')
      {
        GetOther(m, i, v, k');
      }
      r
    else
      var r := m + [(k, v)];
      assert r[..|m|] == m;
      forall i | 0 <= i < |m|
        ensures m[i].0 != k
      {
        KeysAt(m, i);
      }
      r
  }

  /** Setting an existing key keeps the key order; setting a new one appends it. */
  lemma SetKeys(m: Totals, k: string, v: int)
    requires DistinctKeys(m)
    ensures Keys(Set(m, k, v)) == if k in Keys(m) then Keys(m) else Keys(m) + [k]
  {
    var r := Set(m, k, v);
    if k in Keys(m) {
      forall i | 0 <= i < |m|
        ensures Keys(r)[i] == Keys(m)[i]
      {
        KeysAt(m, i);
        KeysAt(r, i);
      }
    } else {
      assert r[..|m|] == m;
    }
  }

  /** With distinct keys, the entry at position `i` is what `get` finds. */
  lemma {:induction false} GetUnique(m: Totals, i: nat)
    requires DistinctKeys(m) && i < |m|
    ensures Get(m, m[i].0) == Some(m[i].1)
    decreases |m|
  {
    if i < |m| - 1 {
      GetUnique(m[..|m| - 1], i);
    }
  }

  /** Overwriting the value at position `i` leaves every other key's value alone. */
  lemma {:induction false} GetOther(m: Totals, i: nat, v: int, k: string)
    requires i < |m| && k != m[i].0
    ensures Get(m[i := (m[i].0, v)], k) == Get(m, k)
    decreases |m|
  {
    var r := m[i := (m[i].0, v)];
    if |m| > 0 && m[|m| - 1].0 != k && i < |m| - 1 {
      assert r[..|r| - 1] == m[..|m| - 1][i := (m[i].0, v)];
      GetOther(m[..|m| - 1], i, v, k);
    } else if |m| > 0 && m[|m| - 1].0 != k {
      assert r[..|r| - 1] == m[..|m| - 1];
    }
  }

  // ---- The totals ----

  /** The asset classes present. */
  function Classes(cs: seq<Commitment>): set<string>
    decreases |cs|
  {
    if |cs| == 0 then {} else Classes(cs[..|cs| - 1]) + {cs[|cs| - 1].assetClass}
  }

  /** The commitments of one asset class, in their original order. */
  function OfClass(cs: seq<Commitment>, assetClass: string): (r: seq<Commitment>)
    ensures |r| <= |cs|
    decreases |cs|
  {
    if |cs| == 0 then []
    else
      var prefix := OfClass(cs[..|cs| - 1], assetClass);
      if cs[|cs| - 1].assetClass == assetClass then prefix + [cs[|cs| - 1]] else prefix
  }

  /** The filter keeps exactly the commitments of that class. */
  lemma {:induction false} OfClassMembers(cs: seq<Commitment>, assetClass: string)
    ensures forall c :: c in OfClass(cs, assetClass) <==> c in cs && c.assetClass == assetClass
    decreases |cs|
  {
    if |cs| > 0 {
      OfClassMembers(cs[..|cs| - 1], assetClass);
      assert cs == cs[..|cs| - 1] + [cs[|cs| - 1]];
    }
  }

  /** The filter of a concatenation is the concatenation of the filters: it
      keeps the commitments it selects in their original order. */
  lemma {:induction false} OfClassSplits(a: seq<Commitment>, b: seq<Commitment>, assetClass: string)
    ensures OfClass(a + b, assetClass) == OfClass(a, assetClass) + OfClass(b, assetClass)
    decreases |b|
  {
    if |b| == 0 {
      assert a + b == a;
    } else {
      assert (a + b)[..|a + b| - 1] == a + b[..|b| - 1];
      OfClassSplits(a, b[..|b| - 1], assetClass);
    }
  }

  /** One pass of the `forEach` body on the map: add the amount to its
      class's entry, starting from 0. */
  function Visit(m: Totals, c: Commitment): (r: Totals)
    requires DistinctKeys(m)
    ensures DistinctKeys(r)
    ensures Get(r, c.assetClass) == Some(Get(m, c.assetClass).GetOr(0) + c.amount)
    ensures forall k :: k != c.assetClass ==> Get(r, k) == Get(m, k)
    ensures Keys(r) == if c.assetClass in Keys(m) then Keys(m) else Keys(m) + [c.assetClass]
  {
    var v := Get(m, c.assetClass).GetOr(0) + c.amount;
    SetKeys(m, c.assetClass, v);
    Set(m, c.assetClass, v)
  }

  /** The map after `forEach` has visited `cs`. The running total beside it
      is `SumAmounts`, which adds the amounts in the same order. */
  function Accumulate(cs: seq<Commitment>): (r: Totals)
    ensures DistinctKeys(r)
    decreases |cs|
  {
    if |cs| == 0 then [] else Visit(Accumulate(cs[..|cs| - 1]), cs[|cs| - 1])
  }


  /** What the loop should hold for `k` after visiting `cs`. */
  function Expected(cs: seq<Commitment>, k: string): Option<int> {
    if k in Classes(cs) then Some(SumAmounts(OfClass(cs, k))) else None
  }

  /** `m` holds exactly the classes of `cs`, each with the sum of its own
      commitments. */
  ghost predicate Summarises(m: Totals, cs: seq<Commitment>) {
    forall k :: Get(m, k) == Expected(cs, k)
  }

  /** A class that never occurs has no commitments. */
  lemma {:induction false} EmptyOfClass(cs: seq<Commitment>, assetClass: string)
    requires assetClass !in Classes(cs)
    ensures OfClass(cs, assetClass) == []
    decreases |cs|
  {
    if |cs| > 0 {
      EmptyOfClass(cs[..|cs| - 1], assetClass);
    }
  }

  /** Visiting the last commitment adds its amount to its own class's sum,
      starting from 0 for a class not seen before, and leaves every other
      class's sum alone. */
  lemma ExpectedLast(cs: seq<Commitment>, k: string)
    requires |cs| > 0
    ensures Expected(cs, k) ==
      if k == cs[|cs| - 1].assetClass then Some(Expected(cs[..|cs| - 1], k).GetOr(0) + cs[|cs| - 1].amount)
      else Expected(cs[..|cs| - 1], k)
  {
    var prefix := cs[..|cs| - 1];
    if k == cs[|cs| - 1].assetClass {
      SumAmountsAppend(OfClass(prefix, k), cs[|cs| - 1]);
      if k !in Classes(prefix) {
        EmptyOfClass(prefix, k);
      }
    }
  }

  /** After the loop the map holds exactly the classes seen, each with the
      sum of its own commitments. */
  lemma {:induction false} AccumulateSums(cs: seq<Commitment>)
    ensures Summarises(Accumulate(cs), cs)
    decreases |cs|
  {
    if |cs| > 0 {
      var prefix := cs[..|cs| - 1];
      var c := cs[|cs| - 1];
      AccumulateSums(prefix);
      var m := Accumulate(prefix);
      assert Accumulate(cs) == Visit(m, c);
      forall k
        ensures Get(Visit(m, c), k) == Expected(cs, k)
      {
        ExpectedLast(cs, k);
        assert Get(m, k) == Expected(prefix, k);
      }
    }
  }

  /** The asset classes in the order of their first occurrence. */
  function FirstSeen(cs: seq<Commitment>): (r: seq<string>)
    decreases |cs|
  {
    if |cs| == 0 then []
    else if cs[|cs| - 1].assetClass in FirstSeen(cs[..|cs| - 1]) then FirstSeen(cs[..|cs| - 1])
    else FirstSeen(cs[..|cs| - 1]) + [cs[|cs| - 1].assetClass]
  }

  /** The map's keys are the classes in the order they were first met: a
      later commitment of a known class updates that entry in place. */
  lemma {:induction false} AccumulateOrder(cs: seq<Commitment>)
    ensures Keys(Accumulate(cs)) == FirstSeen(cs)
    decreases |cs|
  {
    if |cs| > 0 {
      var m := Accumulate(cs[..|cs| - 1]);
      var c := cs[|cs| - 1];
      AccumulateOrder(cs[..|cs| - 1]);
      assert Accumulate(cs) == Visit(m, c);
    }
  }

  /** `calculateTotalsByAssetClass`. */
  function TotalsByAssetClass(cs: seq<Commitment>): (r: Totals)
    ensures DistinctKeys(r)
    ensures Get(r, AllKey) == Some(SumAmounts(cs))
    ensures forall k :: k != AllKey ==>
      Get(r, k) == if k in Classes(cs) then Some(SumAmounts(OfClass(cs, k))) else None
  {
    AccumulateSums(cs);
    Set(Accumulate(cs), AllKey, SumAmounts(cs))
  }

  /** The cards come in the order their classes first appear; the "All" card
      comes last, unless some class is itself named "All", whose card then
      shows the grand total in that class's place. */
  lemma AllCardPlacement(cs: seq<Commitment>)
    ensures Keys(TotalsByAssetClass(cs)) ==
      if AllKey in Classes(cs) then FirstSeen(cs) else FirstSeen(cs) + [AllKey]
    ensures AllKey !in Classes(cs) ==>
      TotalsByAssetClass(cs)[|TotalsByAssetClass(cs)| - 1] == (AllKey, SumAmounts(cs))
  {
    var m := Accumulate(cs);
    AccumulateSums(cs);
    assert Get(m, AllKey) == Expected(cs, AllKey);
    GetDefined(m, AllKey);
    SetKeys(m, AllKey, SumAmounts(cs));
    AccumulateOrder(cs);
  }

  /** There is a card for each asset class present and one for "All", and no other. */
  lemma CardsAreClassesAndAll(cs: seq<Commitment>, k: string)
    ensures k in Keys(TotalsByAssetClass(cs)) <==> k in Classes(cs) || k == AllKey
  {
    GetDefined(TotalsByAssetClass(cs), k);
  }

  lemma NoCommitmentsOnlyAll()
    ensures TotalsByAssetClass([]) == [(AllKey, 0)]
  {
  }

  // ---- The selection ----

  /** `selectedAssetClass`: `null` or a class name. */
  type Selection = Option<string>

  /** JavaScript truthiness of the selection: `null` and "" are falsy. */
  predicate Truthy(sel: Selection) {
    sel.Some? && sel.value != ""
  }

  /** `filteredCommitments`. */
  function FilteredCommitments(cs: seq<Commitment>, sel: Selection): (r: seq<Commitment>)
    ensures !Truthy(sel) || sel.value == AllKey ==> r == cs
    ensures Truthy(sel) && sel.value != AllKey ==> forall c :: c in r <==> c in cs && c.assetClass == sel.value
  {
    if Truthy(sel) && sel.value != AllKey then
      OfClassMembers(cs, sel.value);
      OfClass(cs, sel.value)
    else cs
  }

  /** Selecting a class filters piecewise and keeps the original order: a
      single commitment is shown exactly when it is of that class, and the
      filter of a concatenation is the concatenation of the filters. */
  lemma FilterKeepsOrder(a: seq<Commitment>, b: seq<Commitment>, sel: Selection)
    requires Truthy(sel) && sel.value != AllKey
    ensures FilteredCommitments(a + b, sel) == FilteredCommitments(a, sel) + FilteredCommitments(b, sel)
    ensures forall c :: FilteredCommitments([c], sel) == if c.assetClass == sel.value then [c] else []
  {
    OfClassSplits(a, b, sel.value);
    forall c ensures FilteredCommitments([c], sel) == if c.assetClass == sel.value then [c] else [] {
      assert [c][..0] == [];
    }
  }

  /** The table under a selected card adds up to that card's total. */
  lemma TableMatchesCard(cs: seq<Commitment>, k: string)
    requires k in Keys(TotalsByAssetClass(cs)) && k != ""
    ensures Get(TotalsByAssetClass(cs), k) == Some(SumAmounts(FilteredCommitments(cs, Some(k))))
  {
    CardsAreClassesAndAll(cs, k);
  }

  /** A class named "" is selectable, but the empty string is falsy, so the
      table then shows every commitment. */
  lemma EmptyClassShowsEverything(cs: seq<Commitment>)
    ensures FilteredCommitments(cs, Some("")) == cs
  {
  }

  /** `handleAssetClassClick`. */
  function Click(sel: Selection, assetClass: string): (r: Selection)
    ensures r.None? <==> sel == Some(assetClass)
    ensures r.Some? ==> r.value == assetClass
  {
    if sel == Some(assetClass) then None else Some(assetClass)
  }

  /** Clicking a card twice from no selection ends with no selection, and a
      click on another card moves the selection there. */
  lemma ClickToggles(sel: Selection, a: string, b: string)
    ensures Click(Click(None, a), a) == None
    ensures a != b ==> Click(Click(sel, a), b) == Some(b)
  {
  }
}
