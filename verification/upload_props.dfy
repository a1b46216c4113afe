/** Properties of the upload loop that relate several rows or several runs:
    re-import idempotence, isolation of a malformed row, and the consequences
    of per-call commits and of the timestamped investor key. */
module UploadProperties {
  import opened Wrappers
  import opened Dates
  import opened Store
  import opened Models
  import opened Upload

  // ---- Finding again what a lookup found or created ----

  /** If position `i` is the first match in a prefix of the stored investors,
      a lookup on the whole table finds that same record and creates nothing. */
  lemma InvestorFoundAgain(investors: seq<Investor>, final: Store, key: InvestorKey, i: nat, now: Timestamp)
    requires Valid(final) && investors <= final.investors
    requires i < |investors| && MatchesInvestor(key, investors[i])
    requires forall j :: 0 <= j < i ==> !MatchesInvestor(key, investors[j])
    ensures GetOrCreateInvestor(Open(final), key, now) == Resolved(Open(final), Ok((investors[i], false)))
  {
    assert final.investors[i] == investors[i];
    assert SomeInvestorMatches(final.investors, key);
    assert forall j :: 0 <= j < i ==> final.investors[j] == investors[j];
  }

  lemma CommitmentFoundAgain(
    commitments: seq<Commitment>, final: Store, investor: Investor, f: CommitmentFields, i: nat)
    requires Valid(final) && commitments <= final.commitments && investor in final.investors
    requires i < |commitments|
    requires MatchesCommitment(CommitmentKeyFor(investor, f.assetClass, f.amount, f.currency), commitments[i])
    requires forall j :: 0 <= j < i ==>
      !MatchesCommitment(CommitmentKeyFor(investor, f.assetClass, f.amount, f.currency), commitments[j])
    ensures GetOrCreateCommitment(Open(final), investor, f.assetClass, f.amount, f.currency)
      == Resolved(Open(final), Ok((commitments[i], false)))
  {
    var key := CommitmentKeyFor(investor, f.assetClass, f.amount, f.currency);
    assert final.commitments[i] == commitments[i];
    assert SomeCommitmentMatches(final.commitments, key);
    assert forall j :: 0 <= j < i ==> final.commitments[j] == commitments[j];
  }

  /** A key that clashed with a stored name keeps clashing: the unique name
      means no later record can ever match it. */
  lemma InvestorClashAgain(before: Store, final: Store, key: InvestorKey, now: Timestamp, later: Timestamp)
    requires Valid(before) && Valid(final) && Extends(before, final)
    requires GetOrCreateInvestor(Open(before), key, now).result.Err?
    ensures GetOrCreateInvestor(Open(final), key, later).result == GetOrCreateInvestor(Open(before), key, now).result
    ensures GetOrCreateInvestor(Open(final), key, later).session.committed == final
  {
    var m :| 0 <= m < |before.investors| && before.investors[m].name == key.name;
    assert final.investors[m] == before.investors[m];
    assert NameTaken(final.investors, key.name);
    assert forall j :: 0 <= j < |final.investors| && MatchesInvestor(key, final.investors[j]) ==> j == m;
  }

  // ---- Re-import ----

  /** How a row that was processed once fares on a second run. */
  function Replay(o: RowOutcome): RowOutcome {
    match o
    case Failed(e) => Failed(e)
    case _ => Ignored
  }

  /** The investor step run again against a later state of the store finds
      what it found or created the first time, or clashes again. */
  lemma InvestorStepReplay(before: Store, final: Store, key: InvestorKey, now: Timestamp, later: Timestamp)
    requires Valid(before) && Valid(final) && Extends(before, final)
    requires Extends(GetOrCreateInvestor(Open(before), key, now).session.committed, final)
    ensures
      var first := GetOrCreateInvestor(Open(before), key, now);
      var again := GetOrCreateInvestor(Open(final), key, later);
      && again.session.committed == final
      && (first.result.Ok? ==> again == Resolved(Open(final), Ok((first.result.value.0, false))))
      && (first.result.Err? ==> again.result == first.result)
  {
    var first := GetOrCreateInvestor(Open(before), key, now);
    match first.result
    case Err(_) =>
      InvestorClashAgain(before, final, key, now, later);
    case Ok((rec, created)) =>
      var mid := first.session.committed;
      var i: nat := if created then |before.investors| else rec.id - 1;
      assert mid.investors[i] == rec;
      InvestorFoundAgain(mid.investors, final, key, i, later);
  }

  /** The commitment step run again against a later state finds the commitment
      the first run found or created. */
  lemma CommitmentStepReplay(sess: Session, final: Store, investor: Investor, f: CommitmentFields)
    requires Clean(sess) && Valid(sess.committed) && investor in sess.committed.investors && Valid(final)
    requires Extends(GetOrCreateCommitment(sess, investor, f.assetClass, f.amount, f.currency).session.committed, final)
    ensures
      var first := GetOrCreateCommitment(sess, investor, f.assetClass, f.amount, f.currency);
      GetOrCreateCommitment(Open(final), investor, f.assetClass, f.amount, f.currency)
        == Resolved(Open(final), Ok((first.result.value.0, false)))
  {
    var first := GetOrCreateCommitment(sess, investor, f.assetClass, f.amount, f.currency);
    var after := first.session.committed;
    var c := first.result.value.0;
    var k: nat := if first.result.value.1 then |sess.committed.commitments| else c.id - 1;
    assert after.commitments[k] == c;
    assert investor in final.investors by {
      var i :| 0 <= i < |sess.committed.investors| && sess.committed.investors[i] == investor;
      assert final.investors[i] == investor;
    }
    CommitmentFoundAgain(after.commitments, final, investor, f, k);
  }

  /** A row run again against any later state of the store changes nothing:
      what it created before is now found, and what failed fails the same way. */
  lemma ReplayRow(before: Store, final: Store, row: Row, now: Timestamp, later: Timestamp)
    requires Valid(before) && Valid(final)
    requires Extends(ProcessRow(Open(before), row, now).0.committed, final)
    ensures ProcessRow(Open(final), row, later) == (Open(final), Replay(ProcessRow(Open(before), row, now).1))
  {
    if InvestorKeyOf(row).Ok? {
      ReplayStoredRow(before, final, InvestorKeyOf(row).value, row, now, later);
    }
  }

  lemma ReplayStoredRow(before: Store, final: Store, key: InvestorKey, row: Row, now: Timestamp, later: Timestamp)
    requires Valid(before) && Valid(final)
    requires Extends(StoreRow(Open(before), key, row, now).0.committed, final)
    ensures StoreRow(Open(final), key, row, later) == (Open(final), Replay(StoreRow(Open(before), key, row, now).1))
  {
    var after := StoreRow(Open(before), key, row, now).0.committed;
    ExtendsTransitive(before, after, final);
    var invB := GetOrCreateInvestor(Open(before), key, now);
    if invB.result.Err? {
      ReplayClashingRow(before, final, key, row, now, later);
    } else {
      ExtendsTransitive(invB.session.committed, after, final);
      ReplayStoredInvestorRow(before, final, key, row, now, later);
    }
  }

  /** A row whose investor clashed clashes again. */
  lemma ReplayClashingRow(before: Store, final: Store, key: InvestorKey, row: Row, now: Timestamp, later: Timestamp)
    requires Valid(before) && Valid(final) && Extends(before, final)
    requires GetOrCreateInvestor(Open(before), key, now).result.Err?
    ensures StoreRow(Open(final), key, row, later) == (Open(final), Replay(StoreRow(Open(before), key, row, now).1))
  {
    InvestorClashAgain(before, final, key, now, later);
  }

  /** A row whose investor was found or created finds it again, and then fails
      on its commitment columns again or finds its commitment. */
  lemma ReplayStoredInvestorRow(before: Store, final: Store, key: InvestorKey, row: Row, now: Timestamp, later: Timestamp)
    requires Valid(before) && Valid(final) && Extends(before, final)
    requires GetOrCreateInvestor(Open(before), key, now).result.Ok?
    requires Extends(GetOrCreateInvestor(Open(before), key, now).session.committed, final)
    requires Extends(StoreRow(Open(before), key, row, now).0.committed, final)
    ensures StoreRow(Open(final), key, row, later) == (Open(final), Replay(StoreRow(Open(before), key, row, now).1))
  {
    InvestorStepReplay(before, final, key, now, later);
    if CommitmentFieldsOf(row).Ok? {
      ReplayCommitmentColumns(before, final, key, row, now, later);
    } else {
      ReplayBadCommitmentColumns(before, final, key, row, now, later);
    }
  }

  /** With the investor found again, unreadable commitment columns fail the
      row the same way. */
  lemma ReplayBadCommitmentColumns(before: Store, final: Store, key: InvestorKey, row: Row, now: Timestamp, later: Timestamp)
    requires Valid(before) && Valid(final)
    requires GetOrCreateInvestor(Open(before), key, now).result.Ok? && CommitmentFieldsOf(row).Err?
    requires GetOrCreateInvestor(Open(final), key, later)
      == Resolved(Open(final), Ok((GetOrCreateInvestor(Open(before), key, now).result.value.0, false)))
    ensures StoreRow(Open(final), key, row, later) == (Open(final), Failed(CommitmentFieldsOf(row).error))
    ensures StoreRow(Open(before), key, row, now).1 == Failed(CommitmentFieldsOf(row).error)
  {
  }

  /** With the investor found again, the commitment created or found the
      first time is found. */
  lemma ReplayCommitmentColumns(before: Store, final: Store, key: InvestorKey, row: Row, now: Timestamp, later: Timestamp)
    requires Valid(before) && Valid(final) && Extends(before, final)
    requires GetOrCreateInvestor(Open(before), key, now).result.Ok? && CommitmentFieldsOf(row).Ok?
    requires Extends(StoreRow(Open(before), key, row, now).0.committed, final)
    requires GetOrCreateInvestor(Open(final), key, later)
      == Resolved(Open(final), Ok((GetOrCreateInvestor(Open(before), key, now).result.value.0, false)))
    ensures StoreRow(Open(final), key, row, later) == (Open(final), Ignored)
    ensures StoreRow(Open(before), key, row, now).1 != Ignored ==> StoreRow(Open(before), key, row, now).1 == Imported
  {
    var invB := GetOrCreateInvestor(Open(before), key, now);
    CommitmentStepReplay(invB.session, final, invB.result.value.0, CommitmentFieldsOf(row).value);
  }

  /** The loop over fewer rows is a prefix of the loop over more, and the
      store only grows. */
  lemma {:induction false} FoldPrefix(sess: Session, rows: seq<Row>, step: Step, j: nat, k: nat)
    requires Clean(sess) && Valid(sess.committed) && KeepsStoreValid(step) && j <= k <= |rows|
    ensures Fold(sess, rows, step, j).outcomes == Fold(sess, rows, step, k).outcomes[..j]
    ensures Extends(Fold(sess, rows, step, j).session.committed, Fold(sess, rows, step, k).session.committed)
    decreases k - j
  {
    if j < k {
      FoldPrefix(sess, rows, step, j, k - 1);
      var a := Fold(sess, rows, step, j);
      var b := Fold(sess, rows, step, k - 1);
      var c := Fold(sess, rows, step, k);
      assert c.outcomes[..k - 1] == b.outcomes;
      ExtendsTransitive(a.session.committed, b.session.committed, c.session.committed);
      assert c.outcomes[..k - 1][..j] == c.outcomes[..j];
    }
  }

  function ReplayAll(os: seq<RowOutcome>): (r: seq<RowOutcome>)
    ensures |r| == |os|
    ensures forall i :: 0 <= i < |os| ==> r[i] == Replay(os[i])
  {
    seq(|os|, i requires 0 <= i < |os| => Replay(os[i]))
  }

  /** Body `again` run against any later state of the store repeats what body
      `first` did to each row, as `Replay` says. */
  ghost predicate Replays(first: Step, again: Step)
    requires KeepsStoreValid(first) && KeepsStoreValid(again)
  {
    forall before: Store, final: Store, row: Row |
      Valid(before) && Valid(final) && Extends(first(Open(before), row).0.committed, final) ::
      again(Open(final), row) == (Open(final), Replay(first(Open(before), row).1))
  }

  lemma RowStepReplays(now: Timestamp, later: Timestamp)
    ensures Replays(RowStep(now), RowStep(later))
  {
    forall before: Store, final: Store, row: Row |
      Valid(before) && Valid(final) && Extends(RowStep(now)(Open(before), row).0.committed, final)
      ensures RowStep(later)(Open(final), row) == (Open(final), Replay(RowStep(now)(Open(before), row).1))
    {
      ReplayRow(before, final, row, now, later);
    }
  }

  /** A second loop with a replaying body, run against a store that contains
      everything the first loop stored, leaves that store alone and replays
      every outcome. */
  lemma {:induction false} FoldReplay(store: Store, final: Store, rows: seq<Row>, first: Step, again: Step, k: nat)
    requires Valid(store) && Valid(final) && KeepsStoreValid(first) && KeepsStoreValid(again)
    requires Replays(first, again)
    requires k <= |rows| && Extends(Fold(Open(store), rows, first, k).session.committed, final)
    ensures Fold(Open(final), rows, again, k) == Batch(Open(final), ReplayAll(Fold(Open(store), rows, first, k).outcomes))
    decreases k
  {
    if k > 0 {
      var b := Fold(Open(store), rows, first, k - 1);
      var c := Fold(Open(store), rows, first, k);
      ExtendsTransitive(b.session.committed, c.session.committed, final);
      FoldReplay(store, final, rows, first, again, k - 1);
      assert b.session == Open(b.session.committed);
      assert ReplayAll(c.outcomes) == ReplayAll(b.outcomes) + [Replay(c.outcomes[k - 1])];
    }
  }

  lemma {:induction false} ReplayedTally(os: seq<RowOutcome>)
    ensures TallyOf(ReplayAll(os)) ==
      Tally(0, TallyOf(os).failed, TallyOf(os).successful + TallyOf(os).ignored)
    decreases |os|
  {
    if |os| > 0 {
      var prefix := os[..|os| - 1];
      ReplayedTally(prefix);
      assert ReplayAll(os)[..|os| - 1] == ReplayAll(prefix);
    }
  }

  lemma {:induction false} FailuresReplayed(os: seq<RowOutcome>)
    ensures Failures(ReplayAll(os)) == Failures(os)
    decreases |os|
  {
    if |os| > 0 {
      var prefix := os[..|os| - 1];
      FailuresReplayed(prefix);
      assert ReplayAll(os)[..|os| - 1] == ReplayAll(prefix);
    }
  }

  /** Importing the same rows a second time, at any later moment, leaves the
      store as it was; every row that succeeded is now ignored, every failure
      repeats with the same message. */
  lemma ReimportIsIdempotent(store: Store, rows: seq<Row>, now: Timestamp, later: Timestamp)
    requires Valid(store)
    ensures
      var first := Import(store, rows, now);
      var second := Import(first.session.committed, rows, later);
      && second.session.committed == first.session.committed
      && (forall i :: 0 <= i < |rows| && first.outcomes[i].Imported? ==> second.outcomes[i].Ignored?)
      && Summarize(second.outcomes) == Summarize(first.outcomes).(
           successfulImports := 0,
           ignoredImports := Summarize(first.outcomes).successfulImports + Summarize(first.outcomes).ignoredImports)
  {
    var first := Import(store, rows, now);
    RowStepReplays(now, later);
    FoldReplay(store, first.session.committed, rows, RowStep(now), RowStep(later), |rows|);
    SummaryReplayed(first.outcomes);
  }

  /** The summary of a replayed run: no imports, the earlier imports counted
      as ignored, the same failures with the same messages. */
  lemma SummaryReplayed(os: seq<RowOutcome>)
    ensures Summarize(ReplayAll(os)) == Summarize(os).(
      successfulImports := 0,
      ignoredImports := Summarize(os).successfulImports + Summarize(os).ignoredImports)
  {
    ReplayedTally(os);
    FailuresReplayed(os);
  }

  // ---- Isolation of a malformed row ----

  /** The loop over `k` rows reads only the first `k` rows. */
  lemma {:induction false} FoldReadsPrefix(sess: Session, rows: seq<Row>, other: seq<Row>, step: Step, k: nat)
    requires Clean(sess) && Valid(sess.committed) && KeepsStoreValid(step)
    requires k <= |rows| && k <= |other| && rows[..k] == other[..k]
    ensures Fold(sess, rows, step, k) == Fold(sess, other, step, k)
    decreases k
  {
    if k > 0 {
      assert rows[..k - 1] == other[..k - 1];
      assert rows[k - 1] == rows[..k][k - 1] == other[k - 1];
      FoldReadsPrefix(sess, rows, other, step, k - 1);
    }
  }

  /** Body `step` fails row `bad` with `e` and leaves the session as it was. */
  ghost predicate Rejects(step: Step, bad: Row, e: RowError)
    requires KeepsStoreValid(step)
  {
    forall sess: Session | Clean(sess) && Valid(sess.committed) :: step(sess, bad) == (sess, Failed(e))
  }

  lemma RowStepRejectsMalformed(now: Timestamp, bad: Row)
    requires InvestorKeyOf(bad).Err?
    ensures Rejects(RowStep(now), bad, InvestorKeyOf(bad).error)
  {
  }

  /** `rows` with `x` inserted at position `i`. */
  function InsertAt<T>(rows: seq<T>, i: nat, x: T): (r: seq<T>)
    requires i <= |rows|
    ensures |r| == |rows| + 1 && r[i] == x
    ensures r[..i] == rows[..i] && r[i + 1..] == rows[i..]
  {
    rows[..i] + [x] + rows[i..]
  }

  /** Batch `b` is batch `b'` with one more failure `e` at position `i`, in the
      same session. */
  ghost predicate FailureInserted(b: Batch, b': Batch, i: nat, e: RowError) {
    && b.session == b'.session
    && i <= |b'.outcomes|
    && b.outcomes == InsertAt(b'.outcomes, i, Failed(e))
  }

  /** Inserting a rejected row at position `i` adds one failure there and
      leaves every other row's outcome and the session exactly as without it. */
  lemma {:induction false} FoldIsolates(
    sess: Session, rows: seq<Row>, step: Step, bad: Row, e: RowError, i: nat, k: nat)
    requires Clean(sess) && Valid(sess.committed) && KeepsStoreValid(step) && Rejects(step, bad, e)
    requires i < k <= |rows| + 1
    ensures FailureInserted(Fold(sess, InsertAt(rows, i, bad), step, k), Fold(sess, rows, step, k - 1), i, e)
    decreases k
  {
    if k == i + 1 {
      RejectedRowAppended(sess, rows, step, bad, e, i);
    } else {
      FoldIsolates(sess, rows, step, bad, e, i, k - 1);
      IsolatedStep(sess, rows, step, bad, e, i, k);
    }
  }

  /** The inductive step of `FoldIsolates`: a row after the rejected one is
      seen by both loops in the same session and adds the same outcome. */
  lemma IsolatedStep(sess: Session, rows: seq<Row>, step: Step, bad: Row, e: RowError, i: nat, k: nat)
    requires Clean(sess) && Valid(sess.committed) && KeepsStoreValid(step)
    requires i + 1 < k <= |rows| + 1
    requires FailureInserted(Fold(sess, InsertAt(rows, i, bad), step, k - 1), Fold(sess, rows, step, k - 2), i, e)
    ensures FailureInserted(Fold(sess, InsertAt(rows, i, bad), step, k), Fold(sess, rows, step, k - 1), i, e)
  {
    var withBad := InsertAt(rows, i, bad);
    assert withBad[k - 1] == withBad[i + 1..][k - i - 2] == rows[k - 2];
    var b' := Fold(sess, rows, step, k - 2);
    var bb := Fold(sess, withBad, step, k - 1);
    var next := step(b'.session, rows[k - 2]);
    SplitAfterAppend(b'.outcomes, next.1, i);
    assert bb.outcomes + [next.1] == b'.outcomes[..i] + [Failed(e)] + (b'.outcomes[i..] + [next.1]);
  }

  /** The base case: the rejected row is the last one the loop has seen. */
  lemma RejectedRowAppended(sess: Session, rows: seq<Row>, step: Step, bad: Row, e: RowError, i: nat)
    requires Clean(sess) && Valid(sess.committed) && KeepsStoreValid(step) && Rejects(step, bad, e)
    requires i <= |rows|
    ensures FailureInserted(Fold(sess, InsertAt(rows, i, bad), step, i + 1), Fold(sess, rows, step, i), i, e)
  {
    var withBad := InsertAt(rows, i, bad);
    FoldReadsPrefix(sess, withBad, rows, step, i);
    var b' := Fold(sess, rows, step, i);
    assert b'.outcomes[..i] == b'.outcomes && b'.outcomes[i..] == [];
  }

  lemma SplitAfterAppend<T>(prefix: seq<T>, last: T, i: nat)
    requires i <= |prefix|
    ensures (prefix + [last])[..i] == prefix[..i]
    ensures (prefix + [last])[i..] == prefix[i..] + [last]
  {
  }

  /** The whole batch with a malformed row inserted: one more failure at its
      position, every other outcome and the store the same. */
  lemma MalformedRowChangesNothingElse(store: Store, rows: seq<Row>, bad: Row, i: nat, now: Timestamp)
    requires Valid(store) && i <= |rows| && InvestorKeyOf(bad).Err?
    ensures
      var with := Import(store, rows[..i] + [bad] + rows[i..], now);
      var without := Import(store, rows, now);
      && with.session.committed == without.session.committed
      && with.outcomes == without.outcomes[..i] + [Failed(InvestorKeyOf(bad).error)] + without.outcomes[i..]
  {
    var withBad := InsertAt(rows, i, bad);
    var step := RowStep(now);
    RowStepRejectsMalformed(now, bad);
    FoldIsolates(Open(store), rows, step, bad, InvestorKeyOf(bad).error, i, |rows| + 1);
    assert Import(store, withBad, now) == Fold(Open(store), withBad, step, |rows| + 1);
    assert Import(store, rows, now) == Fold(Open(store), rows, step, |rows|);
  }

  // ---- Per-call commits and the timestamped investor key ----

  /** An investor created by a row whose commitment columns then fail stays in
      the store: it was committed before the rollback ran. */
  lemma InvestorSurvivesLaterFailure(store: Store, row: Row, now: Timestamp)
    requires Valid(store) && InvestorKeyOf(row).Ok?
    requires !SomeInvestorMatches(store.investors, InvestorKeyOf(row).value)
    requires !NameTaken(store.investors, InvestorKeyOf(row).value.name)
    requires CommitmentFieldsOf(row).Err?
    ensures
      var r := ProcessRow(Open(store), row, now);
      && r.1 == Failed(CommitmentFieldsOf(row).error)
      && r.0.committed.investors == store.investors + [NewInvestor(InvestorKeyOf(row).value, |store.investors| + 1, now)]
      && r.0.committed.commitments == store.commitments
  {
  }

  /** A row naming a stored investor whose other key fields (type, country or
      either date) differ is not "already there": the insert breaks the unique
      name and the row fails, leaving the store unchanged. */
  lemma NameClashFailsRow(store: Store, row: Row, now: Timestamp, i: nat)
    requires Valid(store) && InvestorKeyOf(row).Ok?
    requires i < |store.investors| && store.investors[i].name == InvestorKeyOf(row).value.name
    requires !MatchesInvestor(InvestorKeyOf(row).value, store.investors[i])
    ensures ProcessRow(Open(store), row, now) == (Open(store), Failed(StorageFailure(UniqueViolation("investor.name"))))
  {
    var key := InvestorKeyOf(row).value;
    assert forall j :: 0 <= j < |store.investors| && MatchesInvestor(key, store.investors[j]) ==> j == i;
    assert NameTaken(store.investors, key.name);
  }

  /** The investor's `created` flag plays no part: a row for a stored investor
      with a commitment not yet stored counts as successful. */
  lemma KnownInvestorNewCommitmentSucceeds(store: Store, row: Row, now: Timestamp)
    requires Valid(store) && InvestorKeyOf(row).Ok? && CommitmentFieldsOf(row).Ok?
    requires SomeInvestorMatches(store.investors, InvestorKeyOf(row).value)
    requires forall c :: c in store.commitments ==>
      var f := CommitmentFieldsOf(row).value;
      !(c.assetClass == f.assetClass && c.amount == f.amount && c.currency == f.currency)
    ensures ProcessRow(Open(store), row, now).1 == Imported
  {
    var key := InvestorKeyOf(row).value;
    var inv := GetOrCreateInvestor(Open(store), key, now);
    var rec := inv.result.value.0;
    var f := CommitmentFieldsOf(row).value;
    var ck := CommitmentKeyFor(rec, f.assetClass, f.amount, f.currency);
    assert !SomeCommitmentMatches(store.commitments, ck) by {
      forall j | 0 <= j < |store.commitments|
        ensures !MatchesCommitment(ck, store.commitments[j])
      {
        assert store.commitments[j] in store.commitments;
      }
    }
  }

  /** A row that creates its investor always creates its commitment: no stored
      commitment can carry the fresh id. */
  lemma NewInvestorRowSucceeds(store: Store, row: Row, now: Timestamp)
    requires Valid(store) && InvestorKeyOf(row).Ok? && CommitmentFieldsOf(row).Ok?
    requires !SomeInvestorMatches(store.investors, InvestorKeyOf(row).value)
    requires !NameTaken(store.investors, InvestorKeyOf(row).value.name)
    ensures ProcessRow(Open(store), row, now).1 == Imported
    ensures |ProcessRow(Open(store), row, now).0.committed.investors| == |store.investors| + 1
    ensures
      var investor := NewInvestor(InvestorKeyOf(row).value, |store.investors| + 1, now);
      var f := CommitmentFieldsOf(row).value;
      var c := NewCommitment(CommitmentKeyFor(investor, f.assetClass, f.amount, f.currency), |store.commitments| + 1);
      ProcessRow(Open(store), row, now).0 == Open(Store(store.investors + [investor], store.commitments + [c]))
  {
    var key := InvestorKeyOf(row).value;
    var inv := GetOrCreateInvestor(Open(store), key, now);
    var rec := inv.result.value.0;
    var f := CommitmentFieldsOf(row).value;
    var ck := CommitmentKeyFor(rec, f.assetClass, f.amount, f.currency);
    assert rec.id == |store.investors| + 1;
    assert !SomeCommitmentMatches(store.commitments, ck);
  }

  /** A row that finds its investor at position `i` (the first match) and
      names a commitment not yet stored adds exactly that commitment. */
  lemma KnownInvestorRowImported(store: Store, row: Row, now: Timestamp, i: nat)
    requires Valid(store) && InvestorKeyOf(row).Ok? && CommitmentFieldsOf(row).Ok?
    requires i < |store.investors| && MatchesInvestor(InvestorKeyOf(row).value, store.investors[i])
    requires forall j :: 0 <= j < i ==> !MatchesInvestor(InvestorKeyOf(row).value, store.investors[j])
    requires
      var f := CommitmentFieldsOf(row).value;
      !SomeCommitmentMatches(store.commitments, CommitmentKeyFor(store.investors[i], f.assetClass, f.amount, f.currency))
    ensures
      var f := CommitmentFieldsOf(row).value;
      var c := NewCommitment(CommitmentKeyFor(store.investors[i], f.assetClass, f.amount, f.currency), |store.commitments| + 1);
      ProcessRow(Open(store), row, now) == (Open(Store(store.investors, store.commitments + [c])), Imported)
  {
    InvestorFoundAgain(store.investors, store, InvestorKeyOf(row).value, i, now);
  }

  /** A row that finds its investor at position `i` (the first match) and
      names a commitment already stored is ignored and changes nothing. */
  lemma KnownInvestorRowIgnored(store: Store, row: Row, now: Timestamp, i: nat)
    requires Valid(store) && InvestorKeyOf(row).Ok? && CommitmentFieldsOf(row).Ok?
    requires i < |store.investors| && MatchesInvestor(InvestorKeyOf(row).value, store.investors[i])
    requires forall j :: 0 <= j < i ==> !MatchesInvestor(InvestorKeyOf(row).value, store.investors[j])
    requires
      var f := CommitmentFieldsOf(row).value;
      SomeCommitmentMatches(store.commitments, CommitmentKeyFor(store.investors[i], f.assetClass, f.amount, f.currency))
    ensures ProcessRow(Open(store), row, now) == (Open(store), Ignored)
  {
    InvestorFoundAgain(store.investors, store, InvestorKeyOf(row).value, i, now);
  }

  /** The row reads, its investor is stored, and so is its commitment for
      that investor. */
  predicate AlreadyStored(store: Store, row: Row) {
    && InvestorKeyOf(row).Ok? && CommitmentFieldsOf(row).Ok?
    && exists i :: 0 <= i < |store.investors| && MatchesInvestor(InvestorKeyOf(row).value, store.investors[i])
         && SomeCommitmentMatches(store.commitments, CommitmentKeyFor(store.investors[i],
              CommitmentFieldsOf(row).value.assetClass, CommitmentFieldsOf(row).value.amount, CommitmentFieldsOf(row).value.currency))
  }

  /** For every row and every valid store: the row is ignored exactly when
      its commitment already existed, and successful exactly when it reads,
      its investor resolves and its commitment did not exist yet. */
  lemma RowIgnoredIffStored(store: Store, row: Row, now: Timestamp)
    requires Valid(store)
    ensures ProcessRow(Open(store), row, now).1 == Ignored <==> AlreadyStored(store, row)
    ensures ProcessRow(Open(store), row, now).1 == Imported <==>
      && InvestorKeyOf(row).Ok? && CommitmentFieldsOf(row).Ok?
      && GetOrCreateInvestor(Open(store), InvestorKeyOf(row).value, now).result.Ok?
      && !AlreadyStored(store, row)
  {
    if AlreadyStored(store, row) {
      var key := InvestorKeyOf(row).value;
      var f := CommitmentFieldsOf(row).value;
      var i :| 0 <= i < |store.investors| && MatchesInvestor(key, store.investors[i])
        && SomeCommitmentMatches(store.commitments, CommitmentKeyFor(store.investors[i], f.assetClass, f.amount, f.currency));
      assert forall j :: 0 <= j < i ==> !MatchesInvestor(key, store.investors[j]) by {
        forall j | 0 <= j < i ensures !MatchesInvestor(key, store.investors[j]) {
          assert store.investors[j].name != store.investors[i].name;
        }
      }
      KnownInvestorRowIgnored(store, row, now, i);
    } else if InvestorKeyOf(row).Ok? {
      UnstoredRowNotIgnored(store, row, now);
    }
  }

  /** A readable row whose commitment is not stored yet is never ignored, and
      is successful once its investor resolves and its commitment columns read. */
  lemma UnstoredRowNotIgnored(store: Store, row: Row, now: Timestamp)
    requires Valid(store) && InvestorKeyOf(row).Ok? && !AlreadyStored(store, row)
    ensures ProcessRow(Open(store), row, now).1 != Ignored
    ensures ProcessRow(Open(store), row, now).1 == Imported <==>
      CommitmentFieldsOf(row).Ok? && GetOrCreateInvestor(Open(store), InvestorKeyOf(row).value, now).result.Ok?
  {
    var key := InvestorKeyOf(row).value;
    var inv := GetOrCreateInvestor(Open(store), key, now);
    if inv.result.Ok? && CommitmentFieldsOf(row).Ok? {
      var rec := inv.result.value.0;
      var f := CommitmentFieldsOf(row).value;
      var ck := CommitmentKeyFor(rec, f.assetClass, f.amount, f.currency);
      if inv.result.value.1 {
        assert rec.id == |store.investors| + 1;
        assert !SomeCommitmentMatches(inv.session.committed.commitments, ck);
      } else {
        assert MatchesInvestor(key, store.investors[rec.id - 1]);
        assert !SomeCommitmentMatches(store.commitments, ck);
      }
    }
  }

  /** A row whose commitment columns cannot be read always fails, whatever
      the store: with its investor error, its insert error, or, once the
      investor has resolved, the missing commitment column. */
  lemma BadCommitmentColumnsFail(store: Store, row: Row, now: Timestamp)
    requires Valid(store) && CommitmentFieldsOf(row).Err?
    ensures ProcessRow(Open(store), row, now).1.Failed?
    ensures ProcessRow(Open(store), row, now).0.committed.commitments == store.commitments
    ensures InvestorKeyOf(row).Ok? && GetOrCreateInvestor(Open(store), InvestorKeyOf(row).value, now).result.Ok? ==>
      ProcessRow(Open(store), row, now).1 == Failed(CommitmentFieldsOf(row).error)
  {
  }
}
