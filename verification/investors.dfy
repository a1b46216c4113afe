/** The JSON handlers of the backend: the investor listing with summed
    commitments, the single-investor create, the investor detail, and the
    commitment create. Each runs on its own request session; what it
    committed is what the next request sees. */
module InvestorHandlers {
  import opened Wrappers
  import opened Dates
  import opened Store
  import opened Models

  // ---- The listing ----

  /** `InvestorOutput`: the base fields and the summed commitment amounts. */
  datatype InvestorOutput = InvestorOutput(name: string, investorType: string, country: string, totalCommitments: int)

  /** The commitments owned by investor `id`, in table order: the rows the
      outer join pairs with that investor. */
  function OwnedBy(cs: seq<Commitment>, id: nat): (r: seq<Commitment>)
    ensures |r| <= |cs|
    decreases |cs|
  {
    if |cs| == 0 then []
    else
      var prefix := OwnedBy(cs[..|cs| - 1], id);
      if cs[|cs| - 1].investorId == id then prefix + [cs[|cs| - 1]] else prefix
  }

  /** The filter keeps exactly the rows whose owner is `id`. */
  lemma {:induction false} OwnedByMembers(cs: seq<Commitment>, id: nat)
    ensures forall c :: c in OwnedBy(cs, id) <==> c in cs && c.investorId == id
    decreases |cs|
  {
    if |cs| > 0 {
      OwnedByMembers(cs[..|cs| - 1], id);
      assert cs == cs[..|cs| - 1] + [cs[|cs| - 1]];
    }
  }

  lemma OwnedByAppend(cs: seq<Commitment>, c: Commitment, id: nat)
    ensures OwnedBy(cs + [c], id) == if c.investorId == id then OwnedBy(cs, id) + [c] else OwnedBy(cs, id)
  {
    assert (cs + [c])[..|cs|] == cs;
  }

  function Output(investor: Investor, total: int): InvestorOutput {
    InvestorOutput(investor.name, investor.investorType, investor.country, total)
  }

  /** What the grouped query means: one entry per stored investor, in id
      order, whose total is `COALESCE(SUM(amount), 0)` over the commitments
      it owns. */
  function Listing(s: Store): (r: seq<InvestorOutput>)
    ensures |r| == |s.investors|
  {
    seq(|s.investors|, i requires 0 <= i < |s.investors| =>
      Output(s.investors[i], SumAmounts(OwnedBy(s.commitments, s.investors[i].id))))
  }

  /** Per-investor totals of the commitments `cs`, over investors with ids 1..n. */
  function TotalsById(cs: seq<Commitment>, n: nat): (r: seq<int>)
    ensures |r| == n
  {
    seq(n, i requires 0 <= i < n => SumAmounts(OwnedBy(cs, i + 1)))
  }

  lemma OwnerTotalAppend(cs: seq<Commitment>, c: Commitment, id: nat)
    ensures SumAmounts(OwnedBy(cs + [c], id)) == SumAmounts(OwnedBy(cs, id)) + (if c.investorId == id then c.amount else 0)
  {
    OwnedByAppend(cs, c, id);
    SumAmountsAppend(OwnedBy(cs, id), c);
  }

  /** One more commitment adds its amount to its owner's total only. */
  lemma TotalsByIdAppend(cs: seq<Commitment>, c: Commitment, n: nat)
    requires 1 <= c.investorId <= n
    ensures TotalsById(cs + [c], n) == TotalsById(cs, n)[c.investorId - 1 := TotalsById(cs, n)[c.investorId - 1] + c.amount]
  {
    var before := TotalsById(cs, n);
    var after := TotalsById(cs + [c], n);
    var bumped := before[c.investorId - 1 := before[c.investorId - 1] + c.amount];
    forall i | 0 <= i < n
      ensures after[i] == bumped[i]
    {
      TotalAppend(cs, c, n, i);
    }
  }

  lemma TotalAppend(cs: seq<Commitment>, c: Commitment, n: nat, i: nat)
    requires i < n
    ensures TotalsById(cs + [c], n)[i] == TotalsById(cs, n)[i] + (if c.investorId == i + 1 then c.amount else 0)
  {
    OwnerTotalAppend(cs, c, i + 1);
  }

  lemma TotalsByIdAppendTo(cs: seq<Commitment>, c: Commitment, longer: seq<Commitment>, n: nat)
    requires 1 <= c.investorId <= n && longer == cs + [c]
    ensures TotalsById(longer, n) == TotalsById(cs, n)[c.investorId - 1 := TotalsById(cs, n)[c.investorId - 1] + c.amount]
  {
    TotalsByIdAppend(cs, c, n);
  }

  /** The same, for a prefix of the table growing by one row. */
  lemma TotalsByIdNext(cs: seq<Commitment>, k: nat, n: nat)
    requires k < |cs| && 1 <= cs[k].investorId <= n
    ensures TotalsById(cs[..k + 1], n) == TotalsById(cs[..k], n)[cs[k].investorId - 1 := TotalsById(cs[..k], n)[cs[k].investorId - 1] + cs[k].amount]
  {
    var before, after := cs[..k], cs[..k + 1];
    TakeOneMore(cs, k);
    TotalsByIdAppendTo(before, cs[k], after, n);
  }

  /** `get_investor_list`, computed as the database's grouped aggregation does
      it: one pass over the commitments adding each amount to its owner's
      running total, then one entry per investor. */
  method GetInvestorList(s: Store) returns (r: seq<InvestorOutput>)
    requires Valid(s)
    ensures r == Listing(s)
    ensures |r| == |s.investors|
    ensures forall i :: 0 <= i < |r| ==>
      && r[i].name == s.investors[i].name
      && r[i].investorType == s.investors[i].investorType
      && r[i].country == s.investors[i].country
      && r[i].totalCommitments == SumAmounts(OwnedBy(s.commitments, i + 1))
  {
    var n := |s.investors|;
    var totals := seq(n, _ => 0);
    assert totals == TotalsById([], n);
    for k := 0 to |s.commitments|
      invariant totals == TotalsById(s.commitments[..k], n)
    {
      var c := s.commitments[k];
      TotalsByIdNext(s.commitments, k, n);
      totals := totals[c.investorId - 1 := totals[c.investorId - 1] + c.amount];
    }
    assert s.commitments[..|s.commitments|] == s.commitments;
    r := [];
    for i := 0 to |s.investors|
      invariant r == Listing(s)[..i]
    {
      r := r + [Output(s.investors[i], totals[i])];
    }
  }

  /** The sum of the listed totals. */
  function TotalListed(os: seq<InvestorOutput>): int
    decreases |os|
  {
    if |os| == 0 then 0 else TotalListed(os[..|os| - 1]) + os[|os| - 1].totalCommitments
  }

  function SumInts(xs: seq<int>): int
    decreases |xs|
  {
    if |xs| == 0 then 0 else SumInts(xs[..|xs| - 1]) + xs[|xs| - 1]
  }

  /** Adding `a` at one position adds `a` to the sum. */
  lemma {:induction false} SumIntsBump(xs: seq<int>, j: nat, a: int)
    requires j < |xs|
    ensures SumInts(xs[j := xs[j] + a]) == SumInts(xs) + a
    decreases |xs|
  {
    var ys := xs[j := xs[j] + a];
    var n := |xs| - 1;
    assert ys[..n] == if j < n then xs[..n][j := xs[j] + a] else xs[..n];
    if j < n {
      SumIntsBump(xs[..n], j, a);
    }
  }

  lemma {:induction false} TotalsConserved(cs: seq<Commitment>, n: nat)
    requires forall k :: 0 <= k < |cs| ==> 1 <= cs[k].investorId <= n
    ensures SumInts(TotalsById(cs, n)) == SumAmounts(cs)
    decreases |cs|
  {
    if |cs| == 0 {
      var zeros := TotalsById(cs, n);
      ZerosSum(zeros);
    } else {
      var prefix := cs[..|cs| - 1];
      var c := cs[|cs| - 1];
      assert cs == prefix + [c];
      TotalsConserved(prefix, n);
      TotalsStep(prefix, c, n);
      SumAmountsAppend(prefix, c);
    }
  }

  /** One more commitment adds its amount to the sum of the totals. */
  lemma TotalsStep(cs: seq<Commitment>, c: Commitment, n: nat)
    requires 1 <= c.investorId <= n
    ensures SumInts(TotalsById(cs + [c], n)) == SumInts(TotalsById(cs, n)) + c.amount
  {
    var before, after := TotalsById(cs, n), TotalsById(cs + [c], n);
    TotalsByIdAppend(cs, c, n);
    SumIntsBumped(before, after, c.investorId - 1, c.amount);
  }

  lemma SumIntsBumped(xs: seq<int>, ys: seq<int>, j: nat, a: int)
    requires j < |xs| && ys == xs[j := xs[j] + a]
    ensures SumInts(ys) == SumInts(xs) + a
  {
    SumIntsBump(xs, j, a);
  }

  lemma {:induction false} ZerosSum(xs: seq<int>)
    requires forall i :: 0 <= i < |xs| ==> xs[i] == 0
    ensures SumInts(xs) == 0
    decreases |xs|
  {
    if |xs| > 0 {
      ZerosSum(xs[..|xs| - 1]);
    }
  }

  lemma {:induction false} TotalListedIsSum(os: seq<InvestorOutput>, xs: seq<int>)
    requires |os| == |xs| && forall i :: 0 <= i < |os| ==> os[i].totalCommitments == xs[i]
    ensures TotalListed(os) == SumInts(xs)
    decreases |os|
  {
    if |os| > 0 {
      TotalListedIsSum(os[..|os| - 1], xs[..|xs| - 1]);
    }
  }

  /** Every commitment is counted once: the listed totals add up to the sum
      of all stored amounts. */
  lemma ListingConservesAmounts(s: Store)
    requires Valid(s)
    ensures TotalListed(Listing(s)) == SumAmounts(s.commitments)
  {
    var n := |s.investors|;
    TotalsConserved(s.commitments, n);
    TotalListedIsSum(Listing(s), TotalsById(s.commitments, n));
  }

  lemma {:induction false} OwnedByNone(cs: seq<Commitment>, id: nat)
    requires forall c :: c in cs ==> c.investorId != id
    ensures OwnedBy(cs, id) == []
    decreases |cs|
  {
    if |cs| > 0 {
      OwnedByNone(cs[..|cs| - 1], id);
      assert cs[|cs| - 1] in cs;
    }
  }

  /** An investor with no commitments is listed with total 0. */
  lemma UncommittedInvestorListsZero(s: Store, i: nat)
    requires i < |s.investors|
    requires forall c :: c in s.commitments ==> c.investorId != s.investors[i].id
    ensures Listing(s)[i].totalCommitments == 0
  {
    OwnedByNone(s.commitments, s.investors[i].id);
  }

  // ---- Errors ----

  /** The `HTTPException`s the handlers raise, and the database error they let
      propagate. */
  datatype ApiError =
    | NotFound
    | Conflict(name: string)
    | Integrity(cause: StoreError)

  function StatusCode(e: ApiError): nat {
    match e
    case NotFound => 404
    case Conflict(_) => 400
    case Integrity(_) => 500
  }

  // ---- create_investor ----

  /** The request's three fields; the timestamps are left to their defaults. */
  function RequestKey(name: string, investorType: string, country: string): (k: InvestorKey)
    ensures k.createdAt.None? && k.updatedAt.None?
  {
    InvestorKey(name, investorType, country, None, None)
  }

  /** `create_investor`: find-or-create on the three fields; finding one is a
      conflict. The store returned is what the request committed. */
  function CreateInvestor(s: Store, name: string, investorType: string, country: string, now: Timestamp)
    : (r: (Store, Result<Investor, ApiError>))
    requires Valid(s)
    ensures Valid(r.0) && Extends(s, r.0)
    ensures r.1.Ok? <==> !NameTaken(s.investors, name)
    ensures r.1.Ok? ==>
      && r.1.value == Investor(|s.investors| + 1, name, investorType, country, now, now)
      && r.0 == Store(s.investors + [r.1.value], s.commitments)
    ensures r.1 == Err(Conflict(name)) <==> SomeInvestorMatches(s.investors, RequestKey(name, investorType, country))
    ensures r.1.Err? ==> r.0 == s
    ensures r.1.Err? && r.1.error != Conflict(name) ==> r.1.error == Integrity(UniqueViolation("investor.name"))
  {
    var key := RequestKey(name, investorType, country);
    var res := GetOrCreateInvestor(Open(s), key, now);
    assert SomeInvestorMatches(s.investors, key) ==> NameTaken(s.investors, name);
    match res.result
    case Err(e) => (res.session.committed, Err(Integrity(e)))
    case Ok((investor, created)) =>
      if !created then (res.session.committed, Err(Conflict(name))) else (res.session.committed, Ok(investor))
  }

  /** Posting the same investor twice: the second post is a conflict and
      stores nothing. */
  lemma CreateInvestorTwiceConflicts(s: Store, name: string, investorType: string, country: string, now: Timestamp, later: Timestamp)
    requires Valid(s) && CreateInvestor(s, name, investorType, country, now).1.Ok?
    ensures
      var s1 := CreateInvestor(s, name, investorType, country, now).0;
      CreateInvestor(s1, name, investorType, country, later) == (s1, Err(Conflict(name)))
  {
    var s1 := CreateInvestor(s, name, investorType, country, now).0;
    assert MatchesInvestor(RequestKey(name, investorType, country), s1.investors[|s.investors|]);
  }

  /** A post reusing a stored name with another type or country is not a
      conflict: the insert breaks the unique name and the database error
      propagates. */
  lemma SameNameOtherFieldsIsIntegrityError(s: Store, i: nat, investorType: string, country: string, now: Timestamp)
    requires Valid(s) && i < |s.investors|
    requires s.investors[i].investorType != investorType || s.investors[i].country != country
    ensures CreateInvestor(s, s.investors[i].name, investorType, country, now)
      == (s, Err(Integrity(UniqueViolation("investor.name"))))
  {
    var key := RequestKey(s.investors[i].name, investorType, country);
    assert forall j :: 0 <= j < |s.investors| && MatchesInvestor(key, s.investors[j]) ==> j == i;
    assert NameTaken(s.investors, key.name);
  }

  // ---- find_investor ----

  /** `InvestorWithCommitments` as the response filters it. */
  datatype InvestorDetail = InvestorDetail(name: string, investorType: string, country: string, commitments: seq<Commitment>)

  /** `session.get(Investor, id)`: the row with that primary key. */
  function GetInvestor(s: Store, id: int): (r: Option<Investor>)
    ensures r.Some? ==> r.value in s.investors && r.value.id == id
    ensures r.None? ==> forall x :: x in s.investors ==> x.id != id
  {
    match FirstIndex(s.investors, (x: Investor) => x.id == id)
    case Some(i) => Some(s.investors[i])
    case None => None
  }

  /** `find_investor`: the investor's fields and every commitment it owns, in
      table order, or 404. */
  function FindInvestor(s: Store, id: int): (r: Result<InvestorDetail, ApiError>)
    requires Valid(s)
    ensures r.Err? <==> !(1 <= id <= |s.investors|)
    ensures r.Err? ==> r.error == NotFound
    ensures r.Ok? ==>
      var investor := s.investors[id - 1];
      && r.value.name == investor.name
      && r.value.investorType == investor.investorType
      && r.value.country == investor.country
      && (forall c :: c in r.value.commitments <==> c in s.commitments && c.investorId == id)
    ensures r.Ok? ==> r.value.commitments == OwnedBy(s.commitments, id)
  {
    assert 1 <= id <= |s.investors| ==> s.investors[id - 1].id == id;
    match GetInvestor(s, id)
    case None => Err(NotFound)
    case Some(investor) =>
      OwnedByMembers(s.commitments, id);
      Ok(InvestorDetail(investor.name, investor.investorType, investor.country, OwnedBy(s.commitments, id)))
  }

  /** The detail lists exactly the commitments the listing sums. */
  lemma DetailAgreesWithListing(s: Store, id: int)
    requires Valid(s) && 1 <= id <= |s.investors|
    ensures FindInvestor(s, id).Ok?
    ensures SumAmounts(FindInvestor(s, id).value.commitments) == Listing(s)[id - 1].totalCommitments
  {
    assert s.investors[id - 1].id == id;
    assert GetInvestor(s, id) == Some(s.investors[id - 1]);
  }

  // ---- create_investment_commitment ----

  /** A stored commitment equal to the request in investor, asset class,
      amount and currency. */
  predicate Posted(c: Commitment, investorId: int, assetClass: string, amount: int, currency: string) {
    c.investorId == investorId && c.assetClass == assetClass && c.amount == amount && c.currency == currency
  }

  /** `create_investment_commitment`: 404 for an unknown investor, otherwise
      the commitment found or created for it. */
  function CreateInvestmentCommitment(s: Store, investorId: int, assetClass: string, amount: int, currency: string)
    : (r: (Store, Result<Commitment, ApiError>))
    requires Valid(s)
    ensures Valid(r.0) && Extends(s, r.0) && r.0.investors == s.investors
    ensures r.1.Err? <==> !(1 <= investorId <= |s.investors|)
    ensures r.1.Err? ==> r.1.error == NotFound && r.0 == s
    ensures r.1.Ok? ==>
      && r.1.value.investorId == investorId
      && r.1.value.assetClass == assetClass && r.1.value.amount == amount && r.1.value.currency == currency
      && r.1.value in r.0.commitments
    ensures r.1.Ok? && r.0 != s ==> r.0.commitments == s.commitments + [r.1.value]
    ensures r.1.Ok? ==>
      (r.0 == s <==> exists i :: 0 <= i < |s.commitments| && Posted(s.commitments[i], investorId, assetClass, amount, currency))
    ensures r.1.Ok? && r.0 == s ==>
      && 1 <= r.1.value.id <= |s.commitments| && r.1.value == s.commitments[r.1.value.id - 1]
      && forall j :: 0 <= j < r.1.value.id - 1 ==> !Posted(s.commitments[j], investorId, assetClass, amount, currency)
  {
    assert 1 <= investorId <= |s.investors| ==> s.investors[investorId - 1].id == investorId;
    match GetInvestor(s, investorId)
    case None => (s, Err(NotFound))
    case Some(investor) =>
      assert forall c :: Posted(c, investorId, assetClass, amount, currency) <==>
        MatchesCommitment(CommitmentKeyFor(investor, assetClass, amount, currency), c);
      var res := GetOrCreateCommitment(Open(s), investor, assetClass, amount, currency);
      var rec := res.result.value.0;
      assert rec in res.session.committed.commitments by {
        if res.result.value.1 {
          assert res.session.committed.commitments[|s.commitments|] == rec;
        }
      }
      (res.session.committed, Ok(rec))
  }

  /** Posting the same commitment twice returns the same record and the second
      post stores nothing. */
  lemma CreateCommitmentTwiceIsIdempotent(s: Store, investorId: int, assetClass: string, amount: int, currency: string)
    requires Valid(s) && 1 <= investorId <= |s.investors|
    ensures
      var first := CreateInvestmentCommitment(s, investorId, assetClass, amount, currency);
      CreateInvestmentCommitment(first.0, investorId, assetClass, amount, currency) == first
  {
    var first := CreateInvestmentCommitment(s, investorId, assetClass, amount, currency);
    var investor := s.investors[investorId - 1];
    assert GetInvestor(s, investorId) == Some(investor);
    assert GetInvestor(first.0, investorId) == Some(investor);
    CommitmentGetOrCreateIdempotent(Open(s), investor, assetClass, amount, currency);
  }
}
