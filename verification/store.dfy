/** The two tables the backend persists, the invariants the database keeps on
    them, and the unit of work (session) through which they change. */
module Store {
  import opened Wrappers
  import opened Dates

  /** A row of table `investor`. */
  datatype Investor = Investor(
    id: nat,
    name: string,
    investorType: string,
    country: string,
    createdAt: Timestamp,
    updatedAt: Timestamp)

  /** A row of table `investmentcommitment`; `amount` is a whole number of
      currency units. */
  datatype Commitment = Commitment(
    id: nat,
    investorId: nat,
    assetClass: string,
    amount: int,
    currency: string)

  /** The sum of the amounts of some commitments; 0 for none. */
  function SumAmounts(cs: seq<Commitment>): int
    decreases |cs|
  {
    if |cs| == 0 then 0 else SumAmounts(cs[..|cs| - 1]) + cs[|cs| - 1].amount
  }

  lemma SumAmountsAppend(cs: seq<Commitment>, c: Commitment)
    ensures SumAmounts(cs + [c]) == SumAmounts(cs) + c.amount
  {
    assert (cs + [c])[..|cs|] == cs;
  }

  lemma TakeOneMore<T>(s: seq<T>, k: nat)
    requires k < |s|
    ensures s[..k + 1] == s[..k] + [s[k]]
  {
  }

  /** Both tables, each in insertion (rowid) order. */
  datatype Store = Store(investors: seq<Investor>, commitments: seq<Commitment>)

  const EmptyStore := Store([], [])

  predicate NameTaken(investors: seq<Investor>, name: string) {
    exists i :: 0 <= i < |investors| && investors[i].name == name
  }

  /** The `UNIQUE` constraint on column `investor.name`. */
  predicate UniqueNames(investors: seq<Investor>) {
    forall i, j :: 0 <= i < j < |investors| ==> investors[i].name != investors[j].name
  }

  /** What the database guarantees of a committed state: unique investor names,
      auto-assigned ids 1, 2, 3, ... in insertion order (nothing is ever deleted),
      and every commitment owned by a stored investor. */
  predicate Valid(s: Store) {
    && UniqueNames(s.investors)
    && (forall i :: 0 <= i < |s.investors| ==> s.investors[i].id == i + 1)
    && (forall i :: 0 <= i < |s.commitments| ==> s.commitments[i].id == i + 1)
    && (forall i :: 0 <= i < |s.commitments| ==> 1 <= s.commitments[i].investorId <= |s.investors|)
  }

  /** `newer` keeps every row of `older`, unchanged and in place. */
  predicate Extends(older: Store, newer: Store) {
    older.investors <= newer.investors && older.commitments <= newer.commitments
  }

  lemma ExtendsTransitive(a: Store, b: Store, c: Store)
    requires Extends(a, b) && Extends(b, c)
    ensures Extends(a, c)
  {
  }

  /** The position of the first row satisfying `p`: what `session.exec(select ...
      where ...).first()` yields on a table scanned in rowid order. */
  function FirstIndex<T>(rows: seq<T>, p: T -> bool): (r: Option<nat>)
    ensures r.Some? ==> r.value < |rows| && p(rows[r.value])
    ensures r.Some? ==> forall j :: 0 <= j < r.value ==> !p(rows[j])
    ensures r.None? ==> forall j :: 0 <= j < |rows| ==> !p(rows[j])
  {
    if |rows| == 0 then None
    else if p(rows[0]) then Some(0)
    else match FirstIndex(rows[1..], p)
      case None => None
      case Some(i) => Some(i + 1)
  }

  /** Appending rows never changes which row a lookup finds first, once one is found. */
  lemma FirstIndexStable<T>(rows: seq<T>, longer: seq<T>, p: T -> bool)
    requires rows <= longer
    requires FirstIndex(rows, p).Some?
    ensures FirstIndex(longer, p) == FirstIndex(rows, p)
  {
    var i := FirstIndex(rows, p).value;
    assert longer[i] == rows[i];
    assert forall j :: 0 <= j < i ==> longer[j] == rows[j];
  }

  datatype StoreError = UniqueViolation(column: string)

  /** A unit of work: the last committed state and the state the session sees,
      which also holds rows added but not yet committed. */
  datatype Session = Session(committed: Store, pending: Store)

  function Open(s: Store): (r: Session)
    ensures Clean(r) && r.committed == s
  {
    Session(s, s)
  }

  /** Nothing added and left uncommitted. */
  predicate Clean(sess: Session) {
    sess.pending == sess.committed
  }

  /** `session.commit()`: the pending state becomes durable if it satisfies the
      unique-name constraint; otherwise the flush raises and the pending state
      stays as it was, to be discarded by a rollback. */
  function Commit(sess: Session): (r: Result<Session, StoreError>)
    ensures r.Ok? ==> Clean(r.value) && r.value.committed == sess.pending
    ensures r.Ok? <==> UniqueNames(sess.pending.investors)
    ensures r.Err? ==> r.error == UniqueViolation("investor.name")
  {
    if UniqueNames(sess.pending.investors) then Ok(Open(sess.pending))
    else Err(UniqueViolation("investor.name"))
  }

  /** `session.rollback()`: everything not committed is discarded. */
  function Rollback(sess: Session): (r: Session)
    ensures Clean(r) && r.committed == sess.committed
  {
    Open(sess.committed)
  }
}
