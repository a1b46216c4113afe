/** The store the sample batch of five rows leaves behind, and what the
    listing and detail pages show for it. */
module Sample {
  import opened Wrappers
  import opened Dates
  import opened Store
  import opened InvestorHandlers
  import Models
  import InvestorDetailPage
  import IndexPage

  const Updated := Midnight(Date(2024, 2, 21))

  const SampleStore := Store(
    [ Investor(1, "Ioo Gryffindor fund", "fund manager", "Singapore", Midnight(Date(2000, 7, 6)), Updated),
      Investor(2, "Ibx Skywalker ltd", "asset manager", "United States", Midnight(Date(1997, 7, 21)), Updated),
      Investor(3, "Cza Weasley fund", "wealth manager", "United Kingdom", Midnight(Date(2002, 5, 29)), Updated),
      Investor(4, "Mjd Jedi fund", "bank", "China", Midnight(Date(2010, 6, 8)), Updated) ],
    [ Commitment(1, 1, "Infrastructure", 15000000, "GBP"),
      Commitment(2, 2, "Infrastructure", 31000000, "GBP"),
      Commitment(3, 3, "Hedge Funds", 58000000, "GBP"),
      Commitment(4, 4, "Private Equity", 72000000, "GBP"),
      Commitment(5, 4, "Natural Resources", 1000000, "GBP") ])

  lemma SampleListing()
    ensures Listing(SampleStore) == [
      InvestorOutput("Ioo Gryffindor fund", "fund manager", "Singapore", 15000000),
      InvestorOutput("Ibx Skywalker ltd", "asset manager", "United States", 31000000),
      InvestorOutput("Cza Weasley fund", "wealth manager", "United Kingdom", 58000000),
      InvestorOutput("Mjd Jedi fund", "bank", "China", 73000000) ]
  {
    var cs := SampleStore.commitments;
    var p0: seq<Commitment> := [];
    var p1, p2, p3, p4 := p0 + [cs[0]], p0 + [cs[0], cs[1]], p0 + [cs[0], cs[1], cs[2]], p0 + [cs[0], cs[1], cs[2], cs[3]];
    assert p2 == p1 + [cs[1]] && p3 == p2 + [cs[2]] && p4 == p3 + [cs[3]] && cs == p4 + [cs[4]];
    assert OwnedBy(p0, 0) == [];
    forall id: nat
      ensures SumAmounts(OwnedBy(cs, id)) ==
        (if id == 1 then 15000000 else 0) + (if id == 2 then 31000000 else 0) + (if id == 3 then 58000000 else 0)
        + (if id == 4 then 73000000 else 0)
    {
      assert OwnedBy(p0, id) == [];
      OwnerTotalAppend(p0, cs[0], id);
      OwnerTotalAppend(p1, cs[1], id);
      OwnerTotalAppend(p2, cs[2], id);
      OwnerTotalAppend(p3, cs[3], id);
      OwnerTotalAppend(p4, cs[4], id);
    }
  }

  /** The detail of investor 4: its two commitments, in table order. */
  lemma SampleDetail()
    ensures FindInvestor(SampleStore, 4) == Ok(InvestorDetail("Mjd Jedi fund", "bank", "China", SampleStore.commitments[3..]))
  {
    var cs := SampleStore.commitments;
    OwnedByNone(cs[..3], 4);
    assert cs[..4] == cs[..3] + [cs[3]] && cs == cs[..4] + [cs[4]];
    OwnedByAppend(cs[..3], cs[3], 4);
    OwnedByAppend(cs[..4], cs[4], 4);
    assert OwnedBy(cs, 4) == cs[3..];
    assert GetInvestor(SampleStore, 4) == Some(SampleStore.investors[3]);
  }

  /** Two commitments of two different classes, neither named "All". */
  predicate TwoClasses(d: seq<Commitment>) {
    && |d| == 2 && d[0].assetClass != d[1].assetClass
    && d[0].assetClass != InvestorDetailPage.AllKey && d[1].assetClass != InvestorDetailPage.AllKey
  }

  lemma TwoClassesSeen(d: seq<Commitment>)
    requires TwoClasses(d)
    ensures InvestorDetailPage.FirstSeen(d) == [d[0].assetClass, d[1].assetClass]
    ensures InvestorDetailPage.Classes(d) == {d[0].assetClass, d[1].assetClass}
    ensures InvestorDetailPage.OfClass(d, d[0].assetClass) == [d[0]]
    ensures InvestorDetailPage.OfClass(d, d[1].assetClass) == [d[1]]
  {
    var p := d[..1];
    assert p[..0] == [] && p == [d[0]] && d[..|d| - 1] == p;
    FirstSeenOfPair(d, p);
    ClassesOfPair(d, p);
    OfClassOfPair(d, p, d[0].assetClass);
    OfClassOfPair(d, p, d[1].assetClass);
  }

  lemma FirstSeenOfPair(d: seq<Commitment>, p: seq<Commitment>)
    requires TwoClasses(d) && p == [d[0]] && p[..0] == [] && d[..|d| - 1] == p
    ensures InvestorDetailPage.FirstSeen(d) == [d[0].assetClass, d[1].assetClass]
  {
    var a, b := d[0].assetClass, d[1].assetClass;
    assert InvestorDetailPage.FirstSeen(p[..0]) == [];
    assert InvestorDetailPage.FirstSeen(p) == [a];
    assert b !in [a];
    assert InvestorDetailPage.FirstSeen(d) == InvestorDetailPage.FirstSeen(p) + [b];
  }

  lemma ClassesOfPair(d: seq<Commitment>, p: seq<Commitment>)
    requires TwoClasses(d) && p == [d[0]] && p[..0] == [] && d[..|d| - 1] == p
    ensures InvestorDetailPage.Classes(d) == {d[0].assetClass, d[1].assetClass}
  {
    assert InvestorDetailPage.Classes(p) == {d[0].assetClass};
  }

  lemma OfClassOfPair(d: seq<Commitment>, p: seq<Commitment>, k: string)
    requires TwoClasses(d) && p == [d[0]] && p[..0] == [] && d[..|d| - 1] == p
    requires k == d[0].assetClass || k == d[1].assetClass
    ensures InvestorDetailPage.OfClass(d, k) == if k == d[0].assetClass then [d[0]] else [d[1]]
  {
    assert InvestorDetailPage.OfClass(p, k) == if k == d[0].assetClass then [d[0]] else [];
  }

  /** For such a pair the page shows a card per class, in order, then "All". */
  lemma TwoClassesCards(d: seq<Commitment>)
    requires TwoClasses(d)
    ensures
      var m := InvestorDetailPage.TotalsByAssetClass(d);
      && InvestorDetailPage.Keys(m) == [d[0].assetClass, d[1].assetClass, InvestorDetailPage.AllKey]
      && InvestorDetailPage.Get(m, d[0].assetClass) == Some(d[0].amount)
      && InvestorDetailPage.Get(m, d[1].assetClass) == Some(d[1].amount)
      && InvestorDetailPage.Get(m, InvestorDetailPage.AllKey) == Some(d[0].amount + d[1].amount)
  {
    TwoClassesKeys(d);
    TwoClassesGets(d);
  }

  lemma TwoClassesKeys(d: seq<Commitment>)
    requires TwoClasses(d)
    ensures InvestorDetailPage.Keys(InvestorDetailPage.TotalsByAssetClass(d)) ==
      [d[0].assetClass, d[1].assetClass, InvestorDetailPage.AllKey]
  {
    TwoClassesSeen(d);
    assert InvestorDetailPage.AllKey !in InvestorDetailPage.Classes(d);
    InvestorDetailPage.AllCardPlacement(d);
  }

  lemma TwoClassesGets(d: seq<Commitment>)
    requires TwoClasses(d)
    ensures
      var m := InvestorDetailPage.TotalsByAssetClass(d);
      && InvestorDetailPage.Get(m, d[0].assetClass) == Some(d[0].amount)
      && InvestorDetailPage.Get(m, d[1].assetClass) == Some(d[1].amount)
      && InvestorDetailPage.Get(m, InvestorDetailPage.AllKey) == Some(d[0].amount + d[1].amount)
  {
    TwoClassesSeen(d);
    assert SumAmounts([d[0]]) == d[0].amount && SumAmounts([d[1]]) == d[1].amount;
    assert d[..1] == [d[0]];
  }

  /** The cards of investor 4's page. */
  lemma SampleCards()
    ensures
      var m := InvestorDetailPage.TotalsByAssetClass(SampleStore.commitments[3..]);
      && InvestorDetailPage.Keys(m) == ["Private Equity", "Natural Resources", InvestorDetailPage.AllKey]
      && InvestorDetailPage.Get(m, "Private Equity") == Some(72000000)
      && InvestorDetailPage.Get(m, "Natural Resources") == Some(1000000)
      && InvestorDetailPage.Get(m, InvestorDetailPage.AllKey) == Some(73000000)
  {
    var d := SampleStore.commitments[3..];
    assert |d[0].assetClass| != |d[1].assetClass|;
    TwoClassesCards(d);
  }

  /** The investor the API walkthrough creates in an empty database. */
  function FirstPost(now: Timestamp): (Store, Result<Investor, ApiError>) {
    CreateInvestor(EmptyStore, "ahmad faiyaz", "hedge fund", "Bangladesh", now)
  }

  function Faiyaz(now: Timestamp): Investor {
    Investor(1, "ahmad faiyaz", "hedge fund", "Bangladesh", now, now)
  }

  const RealEstate := Commitment(1, 1, "real-estate", 5000, "GBP")

  /** From an empty database the first post creates investor 1. */
  lemma ApiFirstPost(now: Timestamp)
    ensures FirstPost(now) == (Store([Faiyaz(now)], []), Ok(Faiyaz(now)))
  {
    assert !NameTaken([], "ahmad faiyaz");
    assert [] + [Faiyaz(now)] == [Faiyaz(now)];
  }

  /** Posting it again is a 400 conflict, and reading it back shows no
      commitments. */
  lemma ApiConflictThenRead(now: Timestamp, later: Timestamp)
    ensures
      var s1 := Store([Faiyaz(now)], []);
      && CreateInvestor(s1, "ahmad faiyaz", "hedge fund", "Bangladesh", later) == (s1, Err(Conflict("ahmad faiyaz")))
      && StatusCode(Conflict("ahmad faiyaz")) == 400
      && FindInvestor(s1, 1) == Ok(InvestorDetail("ahmad faiyaz", "hedge fund", "Bangladesh", []))
  {
    var s1 := Store([Faiyaz(now)], []);
    assert Models.MatchesInvestor(RequestKey("ahmad faiyaz", "hedge fund", "Bangladesh"), s1.investors[0]);
    assert GetInvestor(s1, 1) == Some(s1.investors[0]);
  }

  /** Then a commitment posted for investor 1 is stored with id 1. */
  lemma ApiPostCommitment(now: Timestamp)
    ensures CreateInvestmentCommitment(Store([Faiyaz(now)], []), 1, "real-estate", 5000, "GBP")
      == (Store([Faiyaz(now)], [RealEstate]), Ok(RealEstate))
  {
    var posted := CreateInvestmentCommitment(Store([Faiyaz(now)], []), 1, "real-estate", 5000, "GBP");
    assert posted.0.commitments == [posted.1.value];
  }

  /** The commitment shows on investor 1's detail; investor 2 is a 404; the
      listing totals the one amount. */
  lemma ApiReadBack(now: Timestamp)
    ensures
      var s2 := Store([Faiyaz(now)], [RealEstate]);
      && FindInvestor(s2, 1) == Ok(InvestorDetail("ahmad faiyaz", "hedge fund", "Bangladesh", [RealEstate]))
      && FindInvestor(s2, 2) == Err(NotFound) && StatusCode(NotFound) == 404
      && Listing(s2) == [InvestorOutput("ahmad faiyaz", "hedge fund", "Bangladesh", 5000)]
  {
    var s2 := Store([Faiyaz(now)], [RealEstate]);
    assert s2.commitments == [] + [RealEstate];
    assert GetInvestor(s2, 1) == Some(s2.investors[0]);
    OwnedByAppend([], RealEstate, 1);
    OwnerTotalAppend([], RealEstate, 1);
  }
}
