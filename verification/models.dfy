/** `Investor.get_or_create` and `InvestmentCommitment.get_or_create`: an
    exact-match lookup over every supplied key field, and on a miss an insert
    that is committed at once. Both return the record and a `created` flag. */
module Models {
  import opened Wrappers
  import opened Dates
  import opened Store

  /** The keyword arguments of `Investor.get_or_create`. The two timestamps are
      optional: the upload handler supplies them, the single-create handler
      does not. Every supplied field becomes an equality in the lookup. */
  datatype InvestorKey = InvestorKey(
    name: string,
    investorType: string,
    country: string,
    createdAt: Option<Timestamp>,
    updatedAt: Option<Timestamp>)

  predicate MatchesInvestor(key: InvestorKey, r: Investor) {
    && r.name == key.name
    && r.investorType == key.investorType
    && r.country == key.country
    && (key.createdAt.Some? ==> r.createdAt == key.createdAt.value)
    && (key.updatedAt.Some? ==> r.updatedAt == key.updatedAt.value)
  }

  /** `cls(**kwargs)`: an absent timestamp takes its default, the clock reading `now`. */
  function NewInvestor(key: InvestorKey, id: nat, now: Timestamp): (r: Investor)
    ensures MatchesInvestor(key, r) && r.id == id
  {
    Investor(id, key.name, key.investorType, key.country, key.createdAt.GetOr(now), key.updatedAt.GetOr(now))
  }

  predicate SomeInvestorMatches(investors: seq<Investor>, key: InvestorKey) {
    exists i :: 0 <= i < |investors| && MatchesInvestor(key, investors[i])
  }

  /** What a find-or-create hands back: the session after the call, and either
      the record with its `created` flag or the error the commit raised. */
  datatype Resolved<T> = Resolved(session: Session, result: Result<(T, bool), StoreError>)

  lemma UniqueNamesAppend(investors: seq<Investor>, x: Investor)
    requires UniqueNames(investors)
    ensures UniqueNames(investors + [x]) <==> !NameTaken(investors, x.name)
  {
    var ys := investors + [x];
    if NameTaken(investors, x.name) {
      var i :| 0 <= i < |investors| && investors[i].name == x.name;
      assert ys[i].name == ys[|investors|].name;
    }
  }

  function GetOrCreateInvestor(sess: Session, key: InvestorKey, now: Timestamp): (r: Resolved<Investor>)
    requires Clean(sess) && Valid(sess.committed)
    // found: some stored investor equals every supplied field
    ensures (r.result.Ok? && !r.result.value.1) <==> SomeInvestorMatches(sess.committed.investors, key)
    ensures r.result.Ok? && !r.result.value.1 ==>
      var rec := r.result.value.0;
      && r.session == sess
      && 1 <= rec.id <= |sess.committed.investors|
      && rec == sess.committed.investors[rec.id - 1]
      && MatchesInvestor(key, rec)
      && (forall j :: 0 <= j < rec.id - 1 ==> !MatchesInvestor(key, sess.committed.investors[j]))
    // created: a record built from exactly the supplied fields, with a fresh id
    ensures r.result.Ok? && r.result.value.1 ==>
      var rec := r.result.value.0;
      && rec == NewInvestor(key, |sess.committed.investors| + 1, now)
      && Clean(r.session)
      && r.session.committed == Store(sess.committed.investors + [rec], sess.committed.commitments)
    // failed: a miss whose name is already stored violates the unique constraint
    ensures r.result.Err? <==>
      !SomeInvestorMatches(sess.committed.investors, key) && NameTaken(sess.committed.investors, key.name)
    ensures r.result.Err? ==>
      r.result.error == UniqueViolation("investor.name") && r.session.committed == sess.committed
    ensures r.result.Ok? ==> Clean(r.session) && Valid(r.session.committed)
    ensures Extends(sess.committed, r.session.committed)
  {
    var investors := sess.pending.investors;
    match FirstIndex(investors, (x: Investor) => MatchesInvestor(key, x))
    case Some(i) =>
      Resolved(sess, Ok((investors[i], false)))
    case None =>
      var rec := NewInvestor(key, |investors| + 1, now);
      var added := Session(sess.committed, sess.pending.(investors := investors + [rec]));
      UniqueNamesAppend(investors, rec);
      match Commit(added)
      case Ok(s) => Resolved(s, Ok((rec, true)))
      case Err(e) => Resolved(added, Err(e))
  }

  /** The keyword arguments of `InvestmentCommitment.get_or_create`, after it
      has added `investor_id`. */
  datatype CommitmentKey = CommitmentKey(investorId: nat, assetClass: string, amount: int, currency: string)

  /** The lookup key always carries the owning investor's id. */
  function CommitmentKeyFor(investor: Investor, assetClass: string, amount: int, currency: string): (k: CommitmentKey)
    ensures k.investorId == investor.id
    ensures k.assetClass == assetClass && k.amount == amount && k.currency == currency
  {
    CommitmentKey(investor.id, assetClass, amount, currency)
  }

  predicate MatchesCommitment(key: CommitmentKey, c: Commitment) {
    c.investorId == key.investorId && c.assetClass == key.assetClass
    && c.amount == key.amount && c.currency == key.currency
  }

  predicate SomeCommitmentMatches(commitments: seq<Commitment>, key: CommitmentKey) {
    exists i :: 0 <= i < |commitments| && MatchesCommitment(key, commitments[i])
  }

  function NewCommitment(key: CommitmentKey, id: nat): (c: Commitment)
    ensures MatchesCommitment(key, c) && c.id == id
  {
    Commitment(id, key.investorId, key.assetClass, key.amount, key.currency)
  }

  function GetOrCreateCommitment(sess: Session, investor: Investor, assetClass: string, amount: int, currency: string)
    : (r: Resolved<Commitment>)
    requires Clean(sess) && Valid(sess.committed)
    requires investor in sess.committed.investors
    ensures r.result.Ok? && Clean(r.session) && Valid(r.session.committed)
    ensures r.session.committed.investors == sess.committed.investors
    ensures
      var rec := r.result.value.0;
      && rec.investorId == investor.id
      && MatchesCommitment(CommitmentKeyFor(investor, assetClass, amount, currency), rec)
    ensures !r.result.value.1 <==>
      SomeCommitmentMatches(sess.committed.commitments, CommitmentKeyFor(investor, assetClass, amount, currency))
    ensures !r.result.value.1 ==>
      var rec := r.result.value.0;
      && r.session == sess
      && 1 <= rec.id <= |sess.committed.commitments|
      && rec == sess.committed.commitments[rec.id - 1]
      && (forall j :: 0 <= j < rec.id - 1 ==>
            !MatchesCommitment(CommitmentKeyFor(investor, assetClass, amount, currency), sess.committed.commitments[j]))
    ensures r.result.value.1 ==>
      var rec := r.result.value.0;
      && rec == NewCommitment(CommitmentKeyFor(investor, assetClass, amount, currency), |sess.committed.commitments| + 1)
      && r.session.committed.commitments == sess.committed.commitments + [rec]
    ensures Extends(sess.committed, r.session.committed)
  {
    var key := CommitmentKeyFor(investor, assetClass, amount, currency);
    var commitments := sess.pending.commitments;
    match FirstIndex(commitments, (c: Commitment) => MatchesCommitment(key, c))
    case Some(i) =>
      Resolved(sess, Ok((commitments[i], false)))
    case None =>
      var rec := NewCommitment(key, |commitments| + 1);
      var added := Session(sess.committed, sess.pending.(commitments := commitments + [rec]));
      assert added.pending.investors == sess.committed.investors;
      match Commit(added)
      case Ok(s) =>
        assert Valid(s.committed) by {
          var i :| 0 <= i < |sess.committed.investors| && sess.committed.investors[i] == investor;
        }
        Resolved(s, Ok((rec, true)))
      case Err(e) => assert false; Resolved(added, Err(e))
  }

  /** A second identical call finds what the first returned and changes nothing. */
  lemma InvestorGetOrCreateIdempotent(sess: Session, key: InvestorKey, now: Timestamp, later: Timestamp)
    requires Clean(sess) && Valid(sess.committed)
    requires GetOrCreateInvestor(sess, key, now).result.Ok?
    ensures
      var first := GetOrCreateInvestor(sess, key, now);
      var second := GetOrCreateInvestor(first.session, key, later);
      second.session == first.session && second.result == Ok((first.result.value.0, false))
  {
    var first := GetOrCreateInvestor(sess, key, now);
    var rec := first.result.value.0;
    var invs := first.session.committed.investors;
    if first.result.value.1 {
      var n := |sess.committed.investors|;
      assert invs[n] == rec;
      assert SomeInvestorMatches(invs, key);
      var second := GetOrCreateInvestor(first.session, key, later);
      var rec2 := second.result.value.0;
      assert rec2.id - 1 <= n;
    }
  }

  lemma CommitmentGetOrCreateIdempotent(sess: Session, investor: Investor, assetClass: string, amount: int, currency: string)
    requires Clean(sess) && Valid(sess.committed)
    requires investor in sess.committed.investors
    ensures
      var first := GetOrCreateCommitment(sess, investor, assetClass, amount, currency);
      var second := GetOrCreateCommitment(first.session, investor, assetClass, amount, currency);
      second.session == first.session && second.result == Ok((first.result.value.0, false))
  {
    var first := GetOrCreateCommitment(sess, investor, assetClass, amount, currency);
    var key := CommitmentKeyFor(investor, assetClass, amount, currency);
    var rec := first.result.value.0;
    var cs := first.session.committed.commitments;
    if first.result.value.1 {
      var n := |sess.committed.commitments|;
      assert cs[n] == rec;
      assert SomeCommitmentMatches(cs, key);
      var second := GetOrCreateCommitment(first.session, investor, assetClass, amount, currency);
      var rec2 := second.result.value.0;
      assert rec2.id - 1 <= n;
    }
  }

  /** The same asset class, amount and currency under two different investors
      are two different commitments. */
  lemma CommitmentsOfDistinctInvestorsDiffer(
    sess: Session, a: Investor, b: Investor, assetClass: string, amount: int, currency: string)
    requires Clean(sess) && Valid(sess.committed)
    requires a in sess.committed.investors && b in sess.committed.investors && a.id != b.id
    ensures
      var first := GetOrCreateCommitment(sess, a, assetClass, amount, currency);
      var second := GetOrCreateCommitment(first.session, b, assetClass, amount, currency);
      second.result.value.0.id != first.result.value.0.id
  {
    var first := GetOrCreateCommitment(sess, a, assetClass, amount, currency);
    var second := GetOrCreateCommitment(first.session, b, assetClass, amount, currency);
    var c1 := first.result.value.0;
    var c2 := second.result.value.0;
    var cs := second.session.committed.commitments;
    assert c1 == cs[c1.id - 1];
    if second.result.value.1 {
      assert c2.id == |first.session.committed.commitments| + 1;
    } else {
      assert c2 == cs[c2.id - 1];
    }
  }
}
