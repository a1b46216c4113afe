/** `upload_csv_handler`: the file-name check, then one pass over the rows,
    numbered from 1. Each row resolves its investor, then its commitment, and
    is counted as successful, ignored or failed; a failure is rolled back,
    recorded as "Row n: message", and the next row is processed. */
module Upload {
  import opened Wrappers
  import opened Text
  import opened Dates
  import opened Store
  import opened Models

  // Column headers as the handler reads them. The investor type column is
  // spelled "Investory Type", as in the source and its sample file.
  const NameColumn := "Investor Name"
  const TypeColumn := "Investory Type"
  const CountryColumn := "Investor Country"
  const DateAddedColumn := "Investor Date Added"
  const LastUpdatedColumn := "Investor Last Updated"
  const AssetClassColumn := "Commitment Asset Class"
  const AmountColumn := "Commitment Amount"
  const CurrencyColumn := "Commitment Currency"

  /** One parsed CSV record: the text columns by header, and the amount column
      already read as a number (None when the file has no such column). */
  datatype Row = Row(text: map<string, string>, amount: Option<int>)

  /** The exceptions a row can raise: `KeyError` for a missing column,
      `ValueError` from `strptime`, and the database's `IntegrityError`. */
  datatype RowError =
    | MissingColumn(column: string)
    | BadDate(text: string)
    | StorageFailure(cause: StoreError)

  /** `str(e)` for each exception. */
  function ErrorText(e: RowError): string {
    match e
    case MissingColumn(c) => "'" + c + "'"
    case BadDate(t) => "time data '" + t + "' does not match format '%Y-%m-%d'"
    case StorageFailure(UniqueViolation(c)) => "(sqlite3.IntegrityError) UNIQUE constraint failed: " + c
  }

  /** `row[column]`. */
  function Column(row: Row, column: string): (r: Result<string, RowError>)
    ensures r.Ok? <==> column in row.text
    ensures r.Ok? ==> r.value == row.text[column]
    ensures r.Err? ==> r.error == MissingColumn(column)
  {
    if column in row.text then Ok(row.text[column]) else Err(MissingColumn(column))
  }

  /** `datetime.strptime(row[column], "%Y-%m-%d")`. */
  function DateColumn(row: Row, column: string): (r: Result<Timestamp, RowError>)
    ensures r.Ok? ==> column in row.text && r.value.secondOfDay == 0 && ValidDate(r.value.date)
  {
    var text :- Column(row, column);
    match ParseDate(text)
    case None => Err(BadDate(text))
    case Some(d) => Ok(Midnight(d))
  }

  /** The investor keyword arguments, evaluated left to right as Python does:
      the first missing column or bad date is the error raised. */
  function InvestorKeyOf(row: Row): (r: Result<InvestorKey, RowError>)
    ensures r.Ok? ==> r.value.createdAt.Some? && r.value.updatedAt.Some?
  {
    var name :- Column(row, NameColumn);
    var investorType :- Column(row, TypeColumn);
    var country :- Column(row, CountryColumn);
    var added :- DateColumn(row, DateAddedColumn);
    var updated :- DateColumn(row, LastUpdatedColumn);
    Ok(InvestorKey(name, investorType, country, Some(added), Some(updated)))
  }

  /** The investor key is read when the five investor columns are present and
      both dates parse; its fields are then the columns' texts and the two
      dates at midnight. A missing name column is the first error raised. */
  lemma InvestorKeyRead(row: Row)
    ensures InvestorKeyOf(row).Ok? <==>
      && NameColumn in row.text && TypeColumn in row.text && CountryColumn in row.text
      && DateAddedColumn in row.text && LastUpdatedColumn in row.text
      && ParseDate(row.text[DateAddedColumn]).Some? && ParseDate(row.text[LastUpdatedColumn]).Some?
    ensures InvestorKeyOf(row).Ok? ==>
      InvestorKeyOf(row).value == InvestorKey(
        row.text[NameColumn], row.text[TypeColumn], row.text[CountryColumn],
        Some(Midnight(ParseDate(row.text[DateAddedColumn]).value)),
        Some(Midnight(ParseDate(row.text[LastUpdatedColumn]).value)))
    ensures NameColumn !in row.text ==> InvestorKeyOf(row) == Err(MissingColumn(NameColumn))
  {
  }

  datatype CommitmentFields = CommitmentFields(assetClass: string, amount: int, currency: string)

  /** The commitment keyword arguments, read only after the investor is resolved. */
  function CommitmentFieldsOf(row: Row): (r: Result<CommitmentFields, RowError>)
    ensures r.Ok? <==> AssetClassColumn in row.text && row.amount.Some? && CurrencyColumn in row.text
    ensures r.Ok? ==> r.value == CommitmentFields(row.text[AssetClassColumn], row.amount.value, row.text[CurrencyColumn])
    ensures r.Err? ==> r.error.MissingColumn?
  {
    var assetClass :- Column(row, AssetClassColumn);
    var amount :- if row.amount.Some? then Ok(row.amount.value) else Err(MissingColumn(AmountColumn));
    var currency :- Column(row, CurrencyColumn);
    Ok(CommitmentFields(assetClass, amount, currency))
  }

  datatype RowOutcome = Imported | Ignored | Failed(error: RowError)

  /** The body of the loop for one row. The `created` of the investor call is
      rebound by the commitment call, so only the commitment decides between
      successful and ignored. Each find-or-create commits on its own, so the
      rollback after a failure only discards what was not yet committed. */
  function ProcessRow(sess: Session, row: Row, now: Timestamp): (r: (Session, RowOutcome))
    requires Clean(sess) && Valid(sess.committed)
    ensures InvestorKeyOf(row).Err? ==> r == (sess, Failed(InvestorKeyOf(row).error))
    ensures Clean(r.0) && Valid(r.0.committed) && Extends(sess.committed, r.0.committed)
    ensures |r.0.committed.investors| <= |sess.committed.investors| + 1
    ensures r.1.Imported? ==> |r.0.committed.commitments| == |sess.committed.commitments| + 1
    ensures !r.1.Imported? ==> r.0.committed.commitments == sess.committed.commitments
  {
    match InvestorKeyOf(row)
    case Err(e) => (Rollback(sess), Failed(e))
    case Ok(key) => StoreRow(sess, key, row, now)
  }

  /** The rest of a row once its investor columns have been read into `key`. */
  function StoreRow(sess: Session, key: InvestorKey, row: Row, now: Timestamp): (r: (Session, RowOutcome))
    requires Clean(sess) && Valid(sess.committed)
    ensures Clean(r.0) && Valid(r.0.committed) && Extends(sess.committed, r.0.committed)
    ensures |r.0.committed.investors| <= |sess.committed.investors| + 1
    ensures r.1.Imported? ==> |r.0.committed.commitments| == |sess.committed.commitments| + 1
    ensures !r.1.Imported? ==> r.0.committed.commitments == sess.committed.commitments
  {
    var inv := GetOrCreateInvestor(sess, key, now);
    match inv.result
    case Err(e) => (Rollback(inv.session), Failed(StorageFailure(e)))
    case Ok((investor, _)) =>
      assert investor in inv.session.committed.investors by {
        if inv.result.value.1 {
          assert inv.session.committed.investors[|sess.committed.investors|] == investor;
        }
      }
      match CommitmentFieldsOf(row)
      case Err(e) => (Rollback(inv.session), Failed(e))
      case Ok(f) =>
        var c := GetOrCreateCommitment(inv.session, investor, f.assetClass, f.amount, f.currency);
        (c.session, if c.result.value.1 then Imported else Ignored)
  }

  /** The session and the per-row outcomes after some rows. */
  datatype Batch = Batch(session: Session, outcomes: seq<RowOutcome>)

  /** A loop body: what one row does to the session, and its outcome. */
  type Step = (Session, Row) --> (Session, RowOutcome)

  /** What the loop needs of its body: it runs on any clean session over a
      valid store and leaves one again, whose committed state only grew. */
  ghost predicate KeepsStoreValid(step: Step) {
    forall sess: Session, row: Row | Clean(sess) && Valid(sess.committed) ::
      && step.requires(sess, row)
      && Clean(step(sess, row).0)
      && Valid(step(sess, row).0.committed)
      && Extends(sess.committed, step(sess, row).0.committed)
  }

  /** The loop body, with the clock reading fixed. */
  function RowStep(now: Timestamp): (step: Step)
    ensures KeepsStoreValid(step)
    ensures forall sess: Session, row: Row | Clean(sess) && Valid(sess.committed) ::
      step(sess, row) == ProcessRow(sess, row, now)
  {
    (sess: Session, row: Row) requires Clean(sess) && Valid(sess.committed) => ProcessRow(sess, row, now)
  }

  /** The loop run with body `step` over the first `k` rows. */
  function Fold(sess: Session, rows: seq<Row>, step: Step, k: nat): (b: Batch)
    requires Clean(sess) && Valid(sess.committed) && KeepsStoreValid(step) && k <= |rows|
    ensures |b.outcomes| == k
    ensures Clean(b.session) && Valid(b.session.committed) && Extends(sess.committed, b.session.committed)
    decreases k
  {
    if k == 0 then Batch(sess, [])
    else
      var b := Fold(sess, rows, step, k - 1);
      var next := step(b.session, rows[k - 1]);
      Batch(next.0, b.outcomes + [next.1])
  }

  /** The whole loop over a batch, from the given store. */
  function Import(store: Store, rows: seq<Row>, now: Timestamp): (b: Batch)
    requires Valid(store)
    ensures |b.outcomes| == |rows| && Valid(b.session.committed) && Extends(store, b.session.committed)
  {
    Fold(Open(store), rows, RowStep(now), |rows|)
  }

  datatype Tally = Tally(successful: nat, failed: nat, ignored: nat)

  /** The three counters of the loop. */
  function TallyOf(os: seq<RowOutcome>): (t: Tally)
    ensures t.successful + t.failed + t.ignored == |os|
    decreases |os|
  {
    if |os| == 0 then Tally(0, 0, 0)
    else
      var t := TallyOf(os[..|os| - 1]);
      match os[|os| - 1]
      case Imported => t.(successful := t.successful + 1)
      case Ignored => t.(ignored := t.ignored + 1)
      case Failed(_) => t.(failed := t.failed + 1)
  }

  /** An entry of the `errors` list before it is rendered: the 1-based row
      number and the exception the row raised. */
  datatype RowFailure = RowFailure(row: nat, error: RowError)

  /** The failed rows, in row order. */
  function Failures(os: seq<RowOutcome>): (r: seq<RowFailure>)
    ensures |r| == TallyOf(os).failed
    decreases |os|
  {
    if |os| == 0 then []
    else
      match os[|os| - 1]
      case Failed(e) => Failures(os[..|os| - 1]) + [RowFailure(|os|, e)]
      case _ => Failures(os[..|os| - 1])
  }

  /** Each failure names a failed row and that row's exception. */
  lemma {:induction false} FailuresAreFailedRows(os: seq<RowOutcome>)
    ensures forall i :: 0 <= i < |Failures(os)| ==>
      1 <= Failures(os)[i].row <= |os| && os[Failures(os)[i].row - 1] == Failed(Failures(os)[i].error)
    decreases |os|
  {
    if |os| > 0 {
      var prefix := os[..|os| - 1];
      FailuresAreFailedRows(prefix);
      var last := os[|os| - 1];
      var r, p := Failures(os), Failures(prefix);
      assert r == if last.Failed? then p + [RowFailure(|os|, last.error)] else p;
      forall i | 0 <= i < |r|
        ensures 1 <= r[i].row <= |os| && os[r[i].row - 1] == Failed(r[i].error)
      {
        if i < |p| {
          assert r[i] == p[i];
          assert os[p[i].row - 1] == prefix[p[i].row - 1];
        }
      }
    }
  }

  /** The failures come in increasing row order. */
  lemma {:induction false} FailuresIncreasing(os: seq<RowOutcome>)
    ensures forall i, j :: 0 <= i < j < |Failures(os)| ==> Failures(os)[i].row < Failures(os)[j].row
    decreases |os|
  {
    if |os| > 0 {
      var prefix := os[..|os| - 1];
      FailuresIncreasing(prefix);
      FailuresAreFailedRows(prefix);
      var last := os[|os| - 1];
      var r, p := Failures(os), Failures(prefix);
      assert r == if last.Failed? then p + [RowFailure(|os|, last.error)] else p;
      forall i, j | 0 <= i < j < |r|
        ensures r[i].row < r[j].row
      {
        assert r[i] == p[i];
        if j < |p| {
          assert r[j] == p[j];
        }
      }
    }
  }

  /** Every failed row is among the failures. */
  lemma {:induction false} FailuresComplete(os: seq<RowOutcome>)
    ensures forall k :: 0 <= k < |os| && os[k].Failed? ==> RowFailure(k + 1, os[k].error) in Failures(os)
    decreases |os|
  {
    if |os| > 0 {
      var prefix := os[..|os| - 1];
      FailuresComplete(prefix);
      assert forall k :: 0 <= k < |prefix| ==> prefix[k] == os[k];
    }
  }

  /** f"Row {row_number}: {str(e)}". */
  function RowMessage(f: RowFailure): string {
    "Row " + NatToString(f.row) + ": " + ErrorText(f.error)
  }

  /** The row number a message of the form "Row n: ..." starts with. */
  function ParseRowNumber(msg: string): Option<nat> {
    if |msg| < 4 || msg[..4] != "Row " then None
    else
      var digits := LeadingDigits(msg[4..]);
      if |digits| == 0 then None else Some(DigitsValue(digits))
  }

  lemma RowMessageRoundTrip(f: RowFailure)
    ensures ParseRowNumber(RowMessage(f)) == Some(f.row)
  {
    RowNumberReadBack(f.row, ErrorText(f.error));
  }

  /** The number after "Row " is read back whatever text follows ": ". */
  lemma RowNumberReadBack(n: nat, text: string)
    ensures ParseRowNumber("Row " + NatToString(n) + ": " + text) == Some(n)
  {
    var digits := NatToString(n);
    var rest := ": " + text;
    var msg := "Row " + digits + ": " + text;
    assert msg[..4] == "Row ";
    assert msg[4..] == digits + rest;
    LeadingDigitsOfDigitsThenOther(digits, rest);
    NatToStringRoundTrip(n);
  }

  /** The messages for a list of failures, in the same order. */
  function Render(fs: seq<RowFailure>): (r: seq<string>)
    ensures |r| == |fs|
    ensures forall i :: 0 <= i < |fs| ==> r[i] == RowMessage(fs[i])
  {
    seq(|fs|, i requires 0 <= i < |fs| => RowMessage(fs[i]))
  }

  lemma RenderNext(fs: seq<RowFailure>, f: RowFailure)
    ensures Render(fs + [f]) == Render(fs) + [RowMessage(f)]
  {
  }

  lemma TallyNext(os: seq<RowOutcome>, o: RowOutcome)
    ensures TallyOf(os + [o]) ==
      var t := TallyOf(os);
      match o
      case Imported => t.(successful := t.successful + 1)
      case Ignored => t.(ignored := t.ignored + 1)
      case Failed(_) => t.(failed := t.failed + 1)
  {
    assert (os + [o])[..|os|] == os;
  }

  /** One more row adds a failure exactly when it failed. */
  lemma FailuresNext(os: seq<RowOutcome>, o: RowOutcome)
    ensures Failures(os + [o]) ==
      if o.Failed? then Failures(os) + [RowFailure(|os| + 1, o.error)] else Failures(os)
  {
    assert (os + [o])[..|os|] == os;
  }

  /** `CSVUploadResponse` as the handler fills it. */
  datatype Summary = Summary(
    status: string,
    successfulImports: nat,
    failedImports: nat,
    ignoredImports: nat,
    errors: seq<string>)

  function Summarize(os: seq<RowOutcome>): (s: Summary)
    ensures s.status == "completed"
    ensures s.successfulImports + s.failedImports + s.ignoredImports == |os|
    ensures |s.errors| == s.failedImports == |Failures(os)|
    ensures forall i :: 0 <= i < |s.errors| ==> ParseRowNumber(s.errors[i]) == Some(Failures(os)[i].row)
  {
    var t := TallyOf(os);
    var fs := Failures(os);
    var errors := Render(fs);
    assert forall i :: 0 <= i < |errors| ==> ParseRowNumber(errors[i]) == Some(fs[i].row) by {
      forall i | 0 <= i < |errors|
        ensures ParseRowNumber(errors[i]) == Some(fs[i].row)
      {
        RowMessageRoundTrip(fs[i]);
      }
    }
    Summary("completed", t.successful, t.failed, t.ignored, errors)
  }

  /** The error list names only failed rows, each once, in increasing order. */
  lemma ErrorsInRowOrder(os: seq<RowOutcome>)
    ensures var errors := Summarize(os).errors;
      && (forall i :: 0 <= i < |errors| ==>
            var n := ParseRowNumber(errors[i]); n.Some? && 1 <= n.value <= |os| && os[n.value - 1].Failed?)
      && (forall i, j :: 0 <= i < j < |errors| ==>
            ParseRowNumber(errors[i]).value < ParseRowNumber(errors[j]).value)
  {
    FailuresAreFailedRows(os);
    FailuresIncreasing(os);
    NumberedInOrder(os, Failures(os), Summarize(os).errors);
  }

  /** Messages carrying the row numbers of failures that point at failed rows
      in increasing order carry those properties themselves. */
  lemma NumberedInOrder(os: seq<RowOutcome>, fs: seq<RowFailure>, errors: seq<string>)
    requires |errors| == |fs|
    requires forall i :: 0 <= i < |errors| ==> ParseRowNumber(errors[i]) == Some(fs[i].row)
    requires forall i :: 0 <= i < |fs| ==> 1 <= fs[i].row <= |os| && os[fs[i].row - 1] == Failed(fs[i].error)
    requires forall i, j :: 0 <= i < j < |fs| ==> fs[i].row < fs[j].row
    ensures forall i :: 0 <= i < |errors| ==>
      var n := ParseRowNumber(errors[i]); n.Some? && 1 <= n.value <= |os| && os[n.value - 1].Failed?
    ensures forall i, j :: 0 <= i < j < |errors| ==>
      ParseRowNumber(errors[i]).value < ParseRowNumber(errors[j]).value
  {
  }

  /** Every failed row has its message, with its own exception, in the list. */
  lemma EveryFailureReported(os: seq<RowOutcome>)
    ensures forall k :: 0 <= k < |os| && os[k].Failed? ==>
      RowMessage(RowFailure(k + 1, os[k].error)) in Summarize(os).errors
  {
    var fs := Failures(os);
    var errors := Summarize(os).errors;
    FailuresComplete(os);
    assert errors == Render(fs);
    forall k | 0 <= k < |os| && os[k].Failed?
      ensures RowMessage(RowFailure(k + 1, os[k].error)) in errors
    {
      var i :| 0 <= i < |fs| && fs[i] == RowFailure(k + 1, os[k].error);
      assert errors[i] == RowMessage(fs[i]);
    }
  }

  /** The 400 response for a file whose name does not end in ".csv". */
  datatype UploadError = InvalidFileFormat

  /** The handler with its counters and error list, as the source keeps them. */
  method UploadCsvHandler(filename: string, rows: seq<Row>, store: Store, now: Timestamp)
    returns (r: Result<(Store, Summary), UploadError>)
    requires Valid(store)
    ensures r.Err? <==> !EndsWith(filename, ".csv")
    ensures r.Err? ==> r.error == InvalidFileFormat
    ensures r.Ok? ==>
      var summary := r.value.1;
      && summary.status == "completed"
      && summary.successfulImports + summary.failedImports + summary.ignoredImports == |rows|
      && |summary.errors| == summary.failedImports
      && Valid(r.value.0) && Extends(store, r.value.0)
    ensures r.Ok? ==>
      var b := Import(store, rows, now);
      r.value == (b.session.committed, Summarize(b.outcomes))
  {
    if !EndsWith(filename, ".csv") {
      return Err(InvalidFileFormat);
    }
    var sess := Open(store);
    var successCount: nat := 0;
    var errorCount: nat := 0;
    var ignoredImport: nat := 0;
    var errors: seq<string> := [];
    ghost var step := RowStep(now);
    ghost var outcomes: seq<RowOutcome> := [];
    ghost var failures: seq<RowFailure> := [];
    for i := 0 to |rows|
      invariant Fold(Open(store), rows, step, i) == Batch(sess, outcomes)
      invariant successCount == TallyOf(outcomes).successful
      invariant errorCount == TallyOf(outcomes).failed
      invariant ignoredImport == TallyOf(outcomes).ignored
      invariant failures == Failures(outcomes)
      invariant errors == Render(failures)
    {
      var next := ProcessRow(sess, rows[i], now);
      assert Fold(Open(store), rows, step, i + 1) == Batch(next.0, outcomes + [next.1]);
      TallyNext(outcomes, next.1);
      FailuresNext(outcomes, next.1);
      sess := next.0;
      outcomes := outcomes + [next.1];
      match next.1
      case Imported =>
        successCount := successCount + 1;
      case Ignored =>
        ignoredImport := ignoredImport + 1;
      case Failed(e) =>
        errorCount := errorCount + 1;
        RenderNext(failures, RowFailure(i + 1, e));
        failures := failures + [RowFailure(i + 1, e)];
        errors := errors + [RowMessage(RowFailure(i + 1, e))];
    }
    r := Ok((sess.committed, Summary("completed", successCount, errorCount, ignoredImport, errors)));
  }
}
