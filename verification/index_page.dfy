/** The investor listing page: the sort state its column headers drive, the
    sorted copy of the fetched list, and the dash shown for a zero total. */
module IndexPage {
  import opened Wrappers
  import opened Store
  import opened InvestorHandlers

  // ---- Sort state ----

  /** The four sortable columns of `Investor`. */
  datatype SortField = Name | InvestorType | Country | TotalCommitments

  datatype Direction = Asc | Desc

  datatype SortState = SortState(field: SortField, direction: Direction)

  /** The state on first render. */
  const Initial := SortState(Name, Asc)

  function Flip(d: Direction): (r: Direction)
    ensures r != d
  {
    if d == Asc then Desc else Asc
  }

  /** `handleSort`: a click on the current column reverses the direction; a
      click on another column sorts by it, ascending. */
  function HandleSort(st: SortState, f: SortField): (r: SortState)
    ensures r.field == f
    ensures f == st.field ==> r.direction != st.direction
    ensures f != st.field ==> r.direction == Asc
  {
    if f == st.field then SortState(st.field, Flip(st.direction)) else SortState(f, Asc)
  }

  /** Two clicks on the current column restore the state; two clicks on a new
      column end on it, descending. */
  lemma HandleSortTwice(st: SortState, f: SortField)
    ensures f == st.field ==> HandleSort(HandleSort(st, f), f) == st
    ensures f != st.field ==> HandleSort(HandleSort(st, f), f) == SortState(f, Desc)
  {
  }

  /** Every state is at most two clicks away from the initial one. */
  lemma EveryStateReachable(st: SortState)
    ensures st.field == Name ==> st == Initial || HandleSort(Initial, Name) == st
    ensures st.field != Name ==>
      HandleSort(Initial, st.field) == st || HandleSort(HandleSort(Initial, st.field), st.field) == st
  {
  }

  // ---- Comparing values ----

  /** A column's value: text for the three string columns, a number for the total. */
  datatype Value = Text(s: string) | Number(n: int)

  function Key(f: SortField, row: InvestorOutput): (v: Value)
    ensures f == TotalCommitments <==> v.Number?
  {
    match f
    case Name => Text(row.name)
    case InvestorType => Text(row.investorType)
    case Country => Text(row.country)
    case TotalCommitments => Number(row.totalCommitments)
  }

  /** JavaScript `<` on strings: a proper prefix comes first, otherwise the
      first differing character decides. */
  predicate LexLess(a: string, b: string)
    decreases |a|
  {
    if |a| == 0 then |b| > 0
    else if |b| == 0 then false
    else if a[0] != b[0] then a[0] < b[0]
    else LexLess(a[1..], b[1..])
  }

  /** No two strings are each below the other. */
  lemma {:induction false} LexLessAsymmetric(a: string, b: string)
    ensures !(LexLess(a, b) && LexLess(b, a))
    decreases |a|
  {
    if |a| > 0 && |b| > 0 && a[0] == b[0] {
      LexLessAsymmetric(a[1..], b[1..]);
    }
  }

  lemma {:induction false} LexLessTransitive(a: string, b: string, c: string)
    requires LexLess(a, b) && LexLess(b, c)
    ensures LexLess(a, c)
    decreases |a|
  {
    if |a| > 0 && a[0] == b[0] && b[0] == c[0] {
      LexLessTransitive(a[1..], b[1..], c[1..]);
    }
  }

  /** Distinct strings are ordered one way or the other. */
  lemma {:induction false} LexLessTotal(a: string, b: string)
    requires a != b
    ensures LexLess(a, b) || LexLess(b, a)
    decreases |a|
  {
    if |a| > 0 && |b| > 0 && a[0] == b[0] {
      assert a == [a[0]] + a[1..] && b == [b[0]] + b[1..];
      LexLessTotal(a[1..], b[1..]);
    }
  }

  /** `aValue > bValue` within one column. */
  predicate Greater(a: Value, b: Value) {
    match (a, b)
    case (Text(x), Text(y)) => LexLess(y, x)
    case (Number(x), Number(y)) => x > y
    case _ => false
  }

  lemma GreaterAsymmetric(a: Value, b: Value)
    ensures !(Greater(a, b) && Greater(b, a))
  {
    if a.Text? && b.Text? {
      LexLessAsymmetric(a.s, b.s);
    }
  }

  lemma GreaterTransitive(a: Value, b: Value, c: Value)
    requires Greater(a, b) && Greater(b, c)
    ensures Greater(a, c)
  {
    if a.Text? {
      LexLessTransitive(c.s, b.s, a.s);
    }
  }

  lemma GreaterTotal(a: Value, b: Value)
    requires a.Text? == b.Text? && a != b
    ensures Greater(a, b) || Greater(b, a)
  {
    if a.Text? {
      LexLessTotal(a.s, b.s);
    }
  }

  /** "Not greater" is transitive among values of one column. */
  lemma NotGreaterTransitive(a: Value, b: Value, c: Value)
    requires a.Text? == b.Text? == c.Text?
    requires !Greater(a, b) && !Greater(b, c)
    ensures !Greater(a, c)
  {
    if a != b && b != c {
      GreaterTotal(a, b);
      GreaterTotal(b, c);
      GreaterTransitive(c, b, a);
      GreaterAsymmetric(a, c);
    }
  }

  /** The comparator passed to `sort`: positive puts `a` after `b`. */
  function Compare(st: SortState, a: InvestorOutput, b: InvestorOutput): int {
    if st.direction == Asc then (if Greater(Key(st.field, a), Key(st.field, b)) then 1 else -1)
    else (if Greater(Key(st.field, b), Key(st.field, a)) then 1 else -1)
  }

  /** The comparator never answers 0: it says 1 exactly when `a` is greater
      (ascending) or smaller (descending) than `b` in the sorted column, and
      -1 otherwise, so two rows with equal values each claim to come first. */
  lemma CompareSigns(st: SortState, a: InvestorOutput, b: InvestorOutput)
    ensures Compare(st, a, b) == 1 || Compare(st, a, b) == -1
    ensures Compare(st, a, b) == 1 <==>
      (st.direction == Asc && Greater(Key(st.field, a), Key(st.field, b))) ||
      (st.direction == Desc && Greater(Key(st.field, b), Key(st.field, a)))
    ensures Key(st.field, a) == Key(st.field, b) ==> Compare(st, a, b) == -1 && Compare(st, b, a) == -1
    ensures Key(st.field, a) != Key(st.field, b) ==> Compare(st, a, b) == -Compare(st, b, a)
  {
    var x := Key(st.field, a);
    var y := Key(st.field, b);
    GreaterAsymmetric(x, y);
    if x != y {
      GreaterTotal(x, y);
    }
  }

  // ---- The sorted copy ----

  /** `a` may stand before `b`: its value is not past `b`'s in the direction. */
  predicate Precedes(st: SortState, a: InvestorOutput, b: InvestorOutput) {
    if st.direction == Asc then !Greater(Key(st.field, a), Key(st.field, b))
    else !Greater(Key(st.field, b), Key(st.field, a))
  }

  lemma PrecedesTransitive(st: SortState, a: InvestorOutput, b: InvestorOutput, c: InvestorOutput)
    requires Precedes(st, a, b) && Precedes(st, b, c)
    ensures Precedes(st, a, c)
  {
    var x, y, z := Key(st.field, a), Key(st.field, b), Key(st.field, c);
    if st.direction == Asc {
      NotGreaterTransitive(x, y, z);
    } else {
      NotGreaterTransitive(z, y, x);
    }
  }

  /** A row may stand before itself. */
  lemma PrecedesReflexive(st: SortState, a: InvestorOutput)
    ensures Precedes(st, a, a)
  {
    GreaterAsymmetric(Key(st.field, a), Key(st.field, a));
  }

  /** Two rows that each may stand before the other have equal values. */
  lemma PrecedesBothWays(st: SortState, a: InvestorOutput, b: InvestorOutput)
    requires Precedes(st, a, b) && Precedes(st, b, a)
    ensures Key(st.field, a) == Key(st.field, b)
  {
    var x, y := Key(st.field, a), Key(st.field, b);
    if x != y {
      GreaterTotal(x, y);
    }
  }

  predicate Sorted(st: SortState, rows: seq<InvestorOutput>) {
    forall i, j :: 0 <= i < j < |rows| ==> Precedes(st, rows[i], rows[j])
  }

  /** Place `x` into sorted `rows`, after every row the comparator puts it after. */
  function Insert(st: SortState, x: InvestorOutput, rows: seq<InvestorOutput>): (r: seq<InvestorOutput>)
    requires Sorted(st, rows)
    ensures multiset(r) == multiset(rows) + multiset{x}
    ensures Sorted(st, r)
    decreases |rows|
  {
    if |rows| == 0 then [x]
    else if Compare(st, x, rows[0]) > 0 then
      assert rows == [rows[0]] + rows[1..];
      CompareSigns(st, x, rows[0]);
      GreaterAsymmetric(Key(st.field, x), Key(st.field, rows[0]));
      HeadFirst(st, rows[0], x, rows[1..], Insert(st, x, rows[1..]));
      [rows[0]] + Insert(st, x, rows[1..])
    else
      InsertAtHead(st, x, rows);
      [x] + rows
  }

  lemma InsertAtHead(st: SortState, x: InvestorOutput, rows: seq<InvestorOutput>)
    requires Sorted(st, rows) && |rows| > 0 && Compare(st, x, rows[0]) <= 0
    ensures Sorted(st, [x] + rows)
  {
    CompareSigns(st, x, rows[0]);
    forall j | 0 < j < |rows|
      ensures Precedes(st, x, rows[j])
    {
      PrecedesTransitive(st, x, rows[0], rows[j]);
    }
    forall i, j | 0 <= i < j < |[x] + rows|
      ensures Precedes(st, ([x] + rows)[i], ([x] + rows)[j])
    {
      if i > 0 {
        assert ([x] + rows)[i] == rows[i - 1];
      }
      assert ([x] + rows)[j] == rows[j - 1];
    }
  }

  /** A head that precedes `x` and every row of `rows` still precedes every
      row once `x` has been inserted among them. */
  lemma HeadFirst(st: SortState, h: InvestorOutput, x: InvestorOutput, rows: seq<InvestorOutput>, tail: seq<InvestorOutput>)
    requires Sorted(st, [h] + rows) && Precedes(st, h, x)
    requires Sorted(st, tail) && multiset(tail) == multiset(rows) + multiset{x}
    ensures Sorted(st, [h] + tail)
  {
    forall j | 0 <= j < |tail|
      ensures Precedes(st, h, tail[j])
    {
      assert tail[j] in multiset(tail);
      if tail[j] != x {
        assert tail[j] in multiset(rows);
        var k :| 0 <= k < |rows| && rows[k] == tail[j];
        assert ([h] + rows)[0] == h && ([h] + rows)[k + 1] == tail[j];
      }
    }
    forall i, j | 0 <= i < j < |[h] + tail|
      ensures Precedes(st, ([h] + tail)[i], ([h] + tail)[j])
    {
      if i > 0 {
        assert ([h] + tail)[i] == tail[i - 1];
      }
      assert ([h] + tail)[j] == tail[j - 1];
    }
  }

  /** The sorted copy: every row of the input, each inserted in turn. */
  function SortRows(st: SortState, rows: seq<InvestorOutput>): (r: seq<InvestorOutput>)
    ensures Sorted(st, r)
    ensures multiset(r) == multiset(rows)
    decreases |rows|
  {
    if |rows| == 0 then []
    else
      assert rows == [rows[0]] + rows[1..];
      Insert(st, rows[0], SortRows(st, rows[1..]))
  }

  /** `sortedInvestors`: a sorted copy of the fetched list, or of `[]` when
      nothing was fetched. */
  function SortedInvestors(st: SortState, fetched: Option<seq<InvestorOutput>>): (r: seq<InvestorOutput>)
    ensures Sorted(st, r)
    ensures multiset(r) == multiset(fetched.GetOr([]))
  {
    SortRows(st, fetched.GetOr([]))
  }

  /** Sorted by one column, the values in that column read in order. */
  lemma SortedColumn(st: SortState, fetched: Option<seq<InvestorOutput>>, i: nat, j: nat)
    requires i < j < |SortedInvestors(st, fetched)|
    ensures st.direction == Asc ==>
      !Greater(Key(st.field, SortedInvestors(st, fetched)[i]), Key(st.field, SortedInvestors(st, fetched)[j]))
    ensures st.direction == Desc ==>
      !Greater(Key(st.field, SortedInvestors(st, fetched)[j]), Key(st.field, SortedInvestors(st, fetched)[i]))
  {
  }

  /** Two sorted permutations of rows with distinct values start alike. */
  lemma HeadsAgree(st: SortState, a: seq<InvestorOutput>, b: seq<InvestorOutput>)
    requires Sorted(st, a) && Sorted(st, b) && multiset(a) == multiset(b) && |a| > 0
    requires forall i, j :: 0 <= i < j < |a| ==> Key(st.field, a[i]) != Key(st.field, a[j])
    ensures |b| > 0 && a[0] == b[0]
  {
    assert a[0] in multiset(b);
    var i :| 0 <= i < |b| && b[i] == a[0];
    assert b[0] in multiset(a);
    var j :| 0 <= j < |a| && a[j] == b[0];
    PrecedesReflexive(st, a[0]);
    PrecedesReflexive(st, b[0]);
    assert Precedes(st, a[0], a[j]);
    assert Precedes(st, b[0], b[i]);
    PrecedesBothWays(st, a[0], b[0]);
  }

  lemma MultisetTails(a: seq<InvestorOutput>, b: seq<InvestorOutput>)
    requires |a| > 0 && |b| > 0 && a[0] == b[0] && multiset(a) == multiset(b)
    ensures multiset(a[1..]) == multiset(b[1..])
  {
    assert a == [a[0]] + a[1..];
    assert b == [b[0]] + b[1..];
    assert multiset(a) == multiset([a[0]]) + multiset(a[1..]);
    assert multiset(b) == multiset([b[0]]) + multiset(b[1..]);
    forall x
      ensures multiset(a[1..])[x] == multiset(b[1..])[x]
    {
      assert multiset(a)[x] == multiset([a[0]])[x] + multiset(a[1..])[x];
      assert multiset(b)[x] == multiset([b[0]])[x] + multiset(b[1..])[x];
    }
  }

  /** With distinct values in the sorted column there is only one sorted
      permutation, so any correct sort with this comparator yields this table. */
  lemma {:induction false} SortedUnique(st: SortState, a: seq<InvestorOutput>, b: seq<InvestorOutput>)
    requires Sorted(st, a) && Sorted(st, b) && multiset(a) == multiset(b)
    requires forall i, j :: 0 <= i < j < |a| ==> Key(st.field, a[i]) != Key(st.field, a[j])
    ensures a == b
    decreases |a|
  {
    assert |a| == |multiset(a)| == |multiset(b)| == |b|;
    if |a| > 0 {
      HeadsAgree(st, a, b);
      MultisetTails(a, b);
      SortedUnique(st, a[1..], b[1..]);
      assert a == [a[0]] + a[1..] && b == [b[0]] + b[1..];
    }
  }

  // ---- Total commitment cell ----

  /** What `formatCurrency` shows: a dash, or the amount in billions (the
      one-decimal rendering is not modelled). */
  datatype CurrencyText = Dash | Billions(amount: int)

  function FormatCurrency(amount: int): (r: CurrencyText)
    ensures r == Dash <==> amount == 0
    ensures r.Billions? ==> r.amount == amount
  {
    if amount == 0 then Dash else Billions(amount)
  }

  /** An investor without commitments is listed with a dash. */
  lemma UncommittedInvestorShowsDash(s: Store, i: nat)
    requires i < |s.investors|
    requires forall c :: c in s.commitments ==> c.investorId != s.investors[i].id
    ensures FormatCurrency(Listing(s)[i].totalCommitments) == Dash
  {
    UncommittedInvestorListsZero(s, i);
  }
}
