/** Writing a store out as CSV lines, one per commitment, and importing those
    lines into an empty database: every line counts as successful and the
    store is rebuilt exactly, provided each investor is written with the dates
    it was stored with and is first met in id order. */
module UploadRebuild {
  import opened Wrappers
  import opened Dates
  import opened Store
  import opened Models
  import opened Upload
  import opened UploadProperties

  /** A data line: the text columns as written and the amount column as its number. */
  function CsvRow(
    name: string, investorType: string, country: string, added: string, updated: string,
    assetClass: string, amount: int, currency: string): Row
  {
    Row(
      map[NameColumn := name, TypeColumn := investorType, CountryColumn := country,
          DateAddedColumn := added, LastUpdatedColumn := updated,
          AssetClassColumn := assetClass, CurrencyColumn := currency],
      Some(amount))
  }

  /** A stored investor whose two timestamps are midnights of real dates, as
      every investor read from a CSV line is. */
  predicate AtMidnight(x: Investor) {
    && ValidDate(x.createdAt.date) && x.createdAt == Midnight(x.createdAt.date)
    && ValidDate(x.updatedAt.date) && x.updatedAt == Midnight(x.updatedAt.date)
  }

  /** The line for commitment `c` of investor `x`, dates written `YYYY-MM-DD`. */
  function LineOf(x: Investor, c: Commitment): Row
    requires AtMidnight(x)
  {
    CsvRow(x.name, x.investorType, x.country, FormatDate(x.createdAt.date), FormatDate(x.updatedAt.date),
           c.assetClass, c.amount, c.currency)
  }

  /** The lookup key, dates included, under which investor `x` is found. */
  function KeyOf(x: Investor): (k: InvestorKey)
    ensures MatchesInvestor(k, x)
  {
    InvestorKey(x.name, x.investorType, x.country, Some(x.createdAt), Some(x.updatedAt))
  }

  /** The handler reads back from a line exactly the fields it was written from. */
  lemma LineRead(x: Investor, c: Commitment)
    requires AtMidnight(x)
    ensures InvestorKeyOf(LineOf(x, c)) == Ok(KeyOf(x))
    ensures CommitmentFieldsOf(LineOf(x, c)) == Ok(CommitmentFields(c.assetClass, c.amount, c.currency))
  {
    LineInvestorRead(x, c);
    LineCommitmentRead(x, c);
  }

  lemma LineInvestorRead(x: Investor, c: Commitment)
    requires AtMidnight(x)
    ensures InvestorKeyOf(LineOf(x, c)) == Ok(KeyOf(x))
  {
    var row := LineOf(x, c);
    ParseFormatRoundTrip(x.createdAt.date);
    ParseFormatRoundTrip(x.updatedAt.date);
    assert Column(row, NameColumn) == Ok(x.name);
    assert Column(row, TypeColumn) == Ok(x.investorType);
    assert Column(row, CountryColumn) == Ok(x.country);
    assert DateColumn(row, DateAddedColumn) == Ok(x.createdAt);
    assert DateColumn(row, LastUpdatedColumn) == Ok(x.updatedAt);
  }

  lemma LineCommitmentRead(x: Investor, c: Commitment)
    requires AtMidnight(x)
    ensures CommitmentFieldsOf(LineOf(x, c)) == Ok(CommitmentFields(c.assetClass, c.amount, c.currency))
  {
    var row := LineOf(x, c);
    assert Column(row, AssetClassColumn) == Ok(c.assetClass);
    assert Column(row, CurrencyColumn) == Ok(c.currency);
  }

  /** The highest investor id among some commitments; 0 for none. With
      commitments in `InOrder`, the number of investors met so far. */
  function Introduced(cs: seq<Commitment>): nat
    decreases |cs|
  {
    if |cs| == 0 then 0
    else
      var m := Introduced(cs[..|cs| - 1]);
      if cs[|cs| - 1].investorId > m then cs[|cs| - 1].investorId else m
  }

  lemma {:induction false} IntroducedBound(cs: seq<Commitment>, n: nat)
    requires forall k :: 0 <= k < |cs| ==> cs[k].investorId <= n
    ensures Introduced(cs) <= n
    decreases |cs|
  {
    if |cs| > 0 {
      IntroducedBound(cs[..|cs| - 1], n);
    }
  }

  lemma {:induction false} IntroducedCovers(cs: seq<Commitment>)
    ensures forall j :: 0 <= j < |cs| ==> cs[j].investorId <= Introduced(cs)
    decreases |cs|
  {
    if |cs| > 0 {
      var prefix := cs[..|cs| - 1];
      IntroducedCovers(prefix);
      assert forall j :: 0 <= j < |prefix| ==> cs[j] == prefix[j];
    }
  }

  /** Each commitment's investor is one already met or the next one. */
  predicate InOrder(cs: seq<Commitment>) {
    forall k :: 0 <= k < |cs| ==> cs[k].investorId <= Introduced(cs[..k]) + 1
  }

  /** No two commitments agree on investor, asset class, amount and currency. */
  predicate DistinctCommitments(cs: seq<Commitment>) {
    forall j, k :: 0 <= j < k < |cs| ==> cs[j] != cs[k].(id := cs[j].id)
  }

  predicate AllAtMidnight(s: Store) {
    forall i :: 0 <= i < |s.investors| ==> AtMidnight(s.investors[i])
  }

  /** A store that its own lines rebuild: valid, every investor at midnight
      dates and owning a commitment, investors first met in id order, and
      no repeated commitment. */
  predicate Rebuildable(s: Store) {
    && Valid(s)
    && AllAtMidnight(s)
    && InOrder(s.commitments)
    && DistinctCommitments(s.commitments)
    && Introduced(s.commitments) == |s.investors|
  }

  /** The line of commitment `k`, naming the investor that owns it. */
  function LineAt(s: Store, k: nat): Row
    requires Valid(s) && AllAtMidnight(s) && k < |s.commitments|
  {
    var c := s.commitments[k];
    LineOf(s.investors[c.investorId - 1], c)
  }

  /** The store's lines, one per commitment in id order. */
  function Export(s: Store): (rows: seq<Row>)
    requires Rebuildable(s)
    ensures |rows| == |s.commitments|
    ensures forall k :: 0 <= k < |rows| ==> rows[k] == LineAt(s, k)
  {
    seq(|s.commitments|, k requires 0 <= k < |s.commitments| => LineAt(s, k))
  }

  /** `rows` are the store's lines. The equations are only used once the
      line they describe is mentioned, so the lines are not re-read while
      the loop is unfolded. */
  predicate LinesOf(s: Store, rows: seq<Row>)
    requires Valid(s) && AllAtMidnight(s)
  {
    |rows| == |s.commitments| && forall k {:trigger LineAt(s, k)} :: 0 <= k < |rows| ==> rows[k] == LineAt(s, k)
  }

  /** Line `k` reads back as the key of its investor and its own commitment fields. */
  lemma LineReadAt(s: Store, rows: seq<Row>, k: nat)
    requires Valid(s) && AllAtMidnight(s) && LinesOf(s, rows) && k < |rows|
    ensures
      var c := s.commitments[k];
      var x := s.investors[c.investorId - 1];
      && InvestorKeyOf(rows[k]) == Ok(KeyOf(x))
      && CommitmentFieldsOf(rows[k]) == Ok(CommitmentFields(c.assetClass, c.amount, c.currency))
  {
    var c := s.commitments[k];
    var x := s.investors[c.investorId - 1];
    LineKeyAt(s, rows, k, x, c);
    LineFieldsAt(s, rows, k, x, c);
  }

  lemma LineKeyAt(s: Store, rows: seq<Row>, k: nat, x: Investor, c: Commitment)
    requires Valid(s) && AllAtMidnight(s) && LinesOf(s, rows) && k < |rows|
    requires c == s.commitments[k] && 1 <= c.investorId <= |s.investors| && x == s.investors[c.investorId - 1]
    ensures InvestorKeyOf(rows[k]) == Ok(KeyOf(x))
  {
    LineIs(s, rows, k, x, c);
    RowKeyRead(rows[k], x, c);
  }

  lemma LineFieldsAt(s: Store, rows: seq<Row>, k: nat, x: Investor, c: Commitment)
    requires Valid(s) && AllAtMidnight(s) && LinesOf(s, rows) && k < |rows|
    requires c == s.commitments[k] && 1 <= c.investorId <= |s.investors| && x == s.investors[c.investorId - 1]
    ensures CommitmentFieldsOf(rows[k]) == Ok(CommitmentFields(c.assetClass, c.amount, c.currency))
  {
    LineIs(s, rows, k, x, c);
    RowFieldsRead(rows[k], x, c);
  }

  lemma RowKeyRead(row: Row, x: Investor, c: Commitment)
    requires AtMidnight(x) && row == LineOf(x, c)
    ensures InvestorKeyOf(row) == Ok(KeyOf(x))
  {
    LineInvestorRead(x, c);
  }

  lemma RowFieldsRead(row: Row, x: Investor, c: Commitment)
    requires AtMidnight(x) && row == LineOf(x, c)
    ensures CommitmentFieldsOf(row) == Ok(CommitmentFields(c.assetClass, c.amount, c.currency))
  {
    LineCommitmentRead(x, c);
  }

  lemma LineIs(s: Store, rows: seq<Row>, k: nat, x: Investor, c: Commitment)
    requires Valid(s) && AllAtMidnight(s) && LinesOf(s, rows) && k < |rows|
    requires c == s.commitments[k] && 1 <= c.investorId <= |s.investors| && x == s.investors[c.investorId - 1]
    ensures AtMidnight(x) && rows[k] == LineOf(x, c)
  {
    assert rows[k] == LineAt(s, k);
  }

  /** The tables after the first `k` lines: the investors met so far and the
      first `k` commitments. */
  function Partial(s: Store, k: nat): (p: Store)
    requires Rebuildable(s) && k <= |s.commitments|
    ensures Valid(p)
    ensures |p.investors| == Introduced(s.commitments[..k]) <= |s.investors|
  {
    var cs := s.commitments;
    var m := Introduced(cs[..k]);
    IntroducedBound(cs[..k], |s.investors|);
    IntroducedCovers(cs[..k]);
    PrefixValid(s, m, k);
    Store(s.investors[..m], cs[..k])
  }

  /** The first `m` investors and the first `k` commitments form a valid store
      when those commitments only name those investors. */
  lemma PrefixValid(s: Store, m: nat, k: nat)
    requires Valid(s) && m <= |s.investors| && k <= |s.commitments|
    requires forall j :: 0 <= j < k ==> s.commitments[..k][j].investorId <= m
    ensures Valid(Store(s.investors[..m], s.commitments[..k]))
  {
    var p := Store(s.investors[..m], s.commitments[..k]);
    assert forall j :: 0 <= j < m ==> p.investors[j] == s.investors[j];
    assert forall j :: 0 <= j < k ==> p.commitments[j] == s.commitments[j];
  }

  /** `k` successful outcomes. */
  function Successes(k: nat): (r: seq<RowOutcome>)
    ensures |r| == k
  {
    if k == 0 then [] else Successes(k - 1) + [Imported]
  }

  lemma {:induction false} SuccessesTally(k: nat)
    ensures TallyOf(Successes(k)) == Tally(k, 0, 0)
  {
    if k > 0 {
      SuccessesTally(k - 1);
      TallyNext(Successes(k - 1), Imported);
    }
  }

  lemma {:induction false} SuccessesReportNothing(k: nat)
    ensures Failures(Successes(k)) == []
  {
    if k > 0 {
      SuccessesReportNothing(k - 1);
      FailuresNext(Successes(k - 1), Imported);
    }
  }

  /** A line naming an investor already met adds only its commitment. */
  lemma PartialMet(s: Store, k: nat)
    requires Rebuildable(s) && k < |s.commitments|
    requires s.commitments[k].investorId <= Introduced(s.commitments[..k])
    ensures Partial(s, k + 1) == Store(Partial(s, k).investors, Partial(s, k).commitments + [s.commitments[k]])
  {
    var cs := s.commitments;
    TakeOneMore(cs, k);
    assert cs[..k + 1][..k] == cs[..k];
    assert Introduced(cs[..k + 1]) == Introduced(cs[..k]);
  }

  /** A line naming the next investor adds that investor and its commitment. */
  lemma PartialNext(s: Store, k: nat)
    requires Rebuildable(s) && k < |s.commitments|
    requires s.commitments[k].investorId == Introduced(s.commitments[..k]) + 1
    ensures
      var m := Introduced(s.commitments[..k]);
      m < |s.investors| &&
      Partial(s, k + 1) == Store(Partial(s, k).investors + [s.investors[m]], Partial(s, k).commitments + [s.commitments[k]])
  {
    var inv, cs := s.investors, s.commitments;
    var m := Introduced(cs[..k]);
    assert 1 <= cs[k].investorId <= |inv|;
    TakeOneMore(cs, k);
    assert cs[..k + 1][..k] == cs[..k];
    assert Introduced(cs[..k + 1]) == m + 1;
    TakeOneMore(inv, m);
  }

  /** The investor a line introduces has a name not yet in the table. */
  lemma NextNameFree(s: Store, k: nat, before: Store)
    requires Rebuildable(s) && k < |s.commitments|
    requires s.commitments[k].investorId == Introduced(s.commitments[..k]) + 1
    requires before == Partial(s, k)
    ensures
      var m := Introduced(s.commitments[..k]);
      m < |s.investors| && !NameTaken(before.investors, s.investors[m].name)
  {
    var inv := s.investors;
    var m := Introduced(s.commitments[..k]);
    assert 1 <= s.commitments[k].investorId <= |inv|;
    forall j | 0 <= j < m
      ensures before.investors[j].name != inv[m].name
    {
      assert before.investors[j] == inv[j];
    }
  }

  /** Line `k` introduces the next investor: it creates that investor and its commitment. */
  lemma NextInvestorLine(s: Store, rows: seq<Row>, k: nat, now: Timestamp)
    requires Rebuildable(s) && LinesOf(s, rows) && k < |rows|
    requires s.commitments[k].investorId == Introduced(s.commitments[..k]) + 1
    ensures
      ProcessRow(Open(Partial(s, k)), rows[k], now) == (Open(Partial(s, k + 1)), Imported)
  {
    var inv, cs := s.investors, s.commitments;
    var c := cs[k];
    var m := Introduced(cs[..k]);
    var x := inv[m];
    var before := Partial(s, k);
    LineReadAt(s, rows, k);
    NextNameFree(s, k, before);
    PartialNext(s, k);
    NewLineImported(before, rows[k], now, x, c, Partial(s, k + 1));
  }

  /** A row read as investor `x`, whose name is free, and commitment `c`, both
      carrying the next ids, adds exactly those two records. */
  lemma NewLineImported(store: Store, row: Row, now: Timestamp, x: Investor, c: Commitment, after: Store)
    requires Valid(store)
    requires InvestorKeyOf(row) == Ok(KeyOf(x))
    requires CommitmentFieldsOf(row) == Ok(CommitmentFields(c.assetClass, c.amount, c.currency))
    requires !NameTaken(store.investors, x.name)
    requires x.id == |store.investors| + 1 && c.id == |store.commitments| + 1 && c.investorId == x.id
    requires after == Store(store.investors + [x], store.commitments + [c])
    ensures ProcessRow(Open(store), row, now) == (Open(after), Imported)
  {
    assert !SomeInvestorMatches(store.investors, KeyOf(x));
    NewInvestorRowSucceeds(store, row, now);
    assert NewInvestor(KeyOf(x), x.id, now) == x;
    assert NewCommitment(CommitmentKeyFor(x, c.assetClass, c.amount, c.currency), c.id) == c;
  }

  /** The investor of a line naming one already met is found, and no earlier
      investor matches it. */
  lemma MetInvestorFound(s: Store, k: nat, before: Store, i: nat)
    requires Rebuildable(s) && k < |s.commitments|
    requires s.commitments[k].investorId <= Introduced(s.commitments[..k])
    requires before == Partial(s, k) && i + 1 == s.commitments[k].investorId
    ensures i < |before.investors| && i < |s.investors| && before.investors[i] == s.investors[i]
    ensures forall j :: 0 <= j < i ==> !MatchesInvestor(KeyOf(s.investors[i]), before.investors[j])
  {
    var inv := s.investors;
    forall j | 0 <= j < i
      ensures !MatchesInvestor(KeyOf(inv[i]), before.investors[j])
    {
      assert before.investors[j] == inv[j];
    }
  }

  /** The commitment of line `k` repeats none of the earlier lines'. */
  lemma MetCommitmentFresh(s: Store, k: nat, before: Store, x: Investor)
    requires Rebuildable(s) && k < |s.commitments|
    requires before == Partial(s, k) && x.id == s.commitments[k].investorId
    ensures
      var c := s.commitments[k];
      !SomeCommitmentMatches(before.commitments, CommitmentKeyFor(x, c.assetClass, c.amount, c.currency))
  {
    var cs := s.commitments;
    var c := cs[k];
    var ck := CommitmentKeyFor(x, c.assetClass, c.amount, c.currency);
    forall j | 0 <= j < k
      ensures !MatchesCommitment(ck, before.commitments[j])
    {
      assert before.commitments[j] == cs[j];
      assert cs[j] != cs[k].(id := cs[j].id);
    }
  }

  /** Line `k` names an investor already met: only its commitment is created. */
  lemma MetInvestorLine(s: Store, rows: seq<Row>, k: nat, now: Timestamp)
    requires Rebuildable(s) && LinesOf(s, rows) && k < |rows|
    requires s.commitments[k].investorId <= Introduced(s.commitments[..k])
    ensures
      ProcessRow(Open(Partial(s, k)), rows[k], now) == (Open(Partial(s, k + 1)), Imported)
  {
    var c := s.commitments[k];
    var i := c.investorId - 1;
    var x := s.investors[i];
    var before := Partial(s, k);
    MetInvestorFound(s, k, before, i);
    MetCommitmentFresh(s, k, before, x);
    LineReadAt(s, rows, k);
    KnownInvestorRowImported(before, rows[k], now, i);
    assert NewCommitment(CommitmentKeyFor(x, c.assetClass, c.amount, c.currency), k + 1) == c;
    PartialMet(s, k);
  }

  /** Line `k` of the store's lines is imported into the tables of the first `k` lines. */
  lemma LineImported(s: Store, rows: seq<Row>, k: nat, now: Timestamp, before: Store, after: Store)
    requires Rebuildable(s) && LinesOf(s, rows) && k < |rows|
    requires before == Partial(s, k) && after == Partial(s, k + 1)
    ensures ProcessRow(Open(before), rows[k], now) == (Open(after), Imported)
  {
    if s.commitments[k].investorId == Introduced(s.commitments[..k]) + 1 {
      NextInvestorLine(s, rows, k, now);
    } else {
      MetInvestorLine(s, rows, k, now);
    }
  }

  /** A loop whose body takes the tables from `states[j]` to `states[j + 1]`
      on row `j`, successfully, ends in the last of them. */
  lemma {:induction false} FoldChain(rows: seq<Row>, step: Step, k: nat, states: seq<Store>)
    requires KeepsStoreValid(step) && k <= |rows| && |states| == k + 1 && states[0] == EmptyStore
    requires forall j :: 0 <= j < k ==> Valid(states[j]) && step(Open(states[j]), rows[j]) == (Open(states[j + 1]), Imported)
    ensures Fold(Open(EmptyStore), rows, step, k) == Batch(Open(states[k]), Successes(k))
    decreases k
  {
    if k > 0 {
      var prefix := states[..k];
      assert forall j :: 0 <= j < k ==> prefix[j] == states[j];
      FoldChain(rows, step, k - 1, prefix);
    }
  }

  /** The tables after each prefix of the store's lines. */
  function Stages(s: Store): (states: seq<Store>)
    requires Rebuildable(s)
    ensures |states| == |s.commitments| + 1
    ensures forall j :: 0 <= j < |states| ==> states[j] == Partial(s, j)
  {
    seq(|s.commitments| + 1, j requires 0 <= j <= |s.commitments| => Partial(s, j))
  }

  /** Every line takes the tables one stage further. */
  lemma StagesChained(s: Store, rows: seq<Row>, now: Timestamp, states: seq<Store>)
    requires Rebuildable(s) && LinesOf(s, rows) && states == Stages(s)
    ensures forall j :: 0 <= j < |rows| ==>
      Valid(states[j]) && RowStep(now)(Open(states[j]), rows[j]) == (Open(states[j + 1]), Imported)
  {
    forall j | 0 <= j < |rows|
      ensures Valid(states[j]) && RowStep(now)(Open(states[j]), rows[j]) == (Open(states[j + 1]), Imported)
    {
      LineImported(s, rows, j, now, states[j], states[j + 1]);
      StepIsProcessRow(now, Open(states[j]), rows[j], (Open(states[j + 1]), Imported));
    }
  }

  lemma StepIsProcessRow(now: Timestamp, sess: Session, row: Row, next: (Session, RowOutcome))
    requires Clean(sess) && Valid(sess.committed) && ProcessRow(sess, row, now) == next
    ensures RowStep(now)(sess, row) == next
  {
  }

  /** The whole of a store's lines, imported, leave the last stage. */
  lemma ExportFolds(s: Store, now: Timestamp)
    requires Rebuildable(s)
    ensures Fold(Open(EmptyStore), Export(s), RowStep(now), |s.commitments|) == Batch(Open(Partial(s, |s.commitments|)), Successes(|s.commitments|))
  {
    var rows, states := Export(s), Stages(s);
    StagesChained(s, rows, now, states);
    FoldChain(rows, RowStep(now), |rows|, states);
  }

  /** The last stage is the store itself. */
  lemma PartialWhole(s: Store)
    requires Rebuildable(s)
    ensures Partial(s, |s.commitments|) == s
  {
    assert s.commitments[..|s.commitments|] == s.commitments;
    assert s.investors[..|s.investors|] == s.investors;
  }

  /** Importing a store's own lines into an empty database rebuilds that store,
      with every line counted as successful and no error. */
  lemma ImportRebuilds(s: Store, now: Timestamp)
    requires Rebuildable(s)
    ensures
      var b := Import(EmptyStore, Export(s), now);
      && b.session.committed == s
      && b.outcomes == Successes(|s.commitments|)
      && Summarize(b.outcomes) == Summary("completed", |s.commitments|, 0, 0, [])
  {
    ExportFolds(s, now);
    PartialWhole(s);
    SuccessesTally(|s.commitments|);
    SuccessesReportNothing(|s.commitments|);
  }
}
