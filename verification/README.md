# Investor commitments: ingestion, listing and page rules

A Dafny model of the core of a small investor-commitment service. The service has two parts:
- a Python backend that imports investors and their commitments from a CSV file, keeps them in two tables, and serves them as JSON;
- a React frontend that lists the investors, sorts the list, and shows one investor's commitments grouped by asset class.

The database is modelled as an in-memory `Store` of two sequences, `investor` and `investmentcommitment`. The `id` of a row is its position plus one. The database session is a pair `Session(committed, pending)`, so that commit and rollback can be stated exactly.

Modules, in dependency order:

- `Wrappers`: `Option` and `Result`.
- `Text`: decimal digits and the rendering of row numbers.
- `Dates`: the `%Y-%m-%d` date parse, and the zero-padded date text used to write rows back out.
- `Store`: the two tables; the unique constraint on `investor.name`; the session with `commit` and `rollback`.
- `Models`: `Investor.get_or_create` and `InvestmentCommitment.get_or_create`.
- `Upload`: `upload_csv_handler`. This covers the row fold, the outcome tallies, the "Row n: message" error list and the extension check.
- `UploadProperties`: properties of the import over whole batches. These are re-import idempotence, isolation of a malformed row, and the three commit subtleties described below.
- `UploadRebuild`: writing any well-formed store out as CSV lines and importing them into an empty database gives the same store back, with every line successful.
- `InvestorHandlers`: `get_investor_list`, `create_investor`, `find_investor`, `create_investment_commitment`.
- `InvestorDetailPage`: `calculateTotalsByAssetClass`, `filteredCommitments`, `handleAssetClassClick`.
- `IndexPage`: the `handleSort` state machine, `sortedInvestors` with its comparator, and the zero case of `formatCurrency`.
- `Sample`, `SampleImport`: the backend test scenarios. These are the single-record API walk-through and the five-line sample file with the listing and detail read after it.

Three behaviours of the source are modelled as written:
- The `created` flag of the investor call is overwritten by the commitment call. So a row counts as successful or ignored according to the commitment alone.
- The upload's investor lookup key includes both timestamps, while `name` is unique. A row naming a stored investor with different dates therefore fails at insert with a unique-constraint error. It is not treated as "already exists".
- Each find-or-create commits on its own. So the rollback after a failed row does not remove an investor that the same row already created.

Three further behaviours of the code that a reader may not expect:
- The investor-type column is read as `Investory Type`. The code and its test file both spell it that way.
- Suppose `create_investor` gets a name that is already stored, with a different type or country. That is not an "already exists" conflict (400). The lookup misses and the insert violates the unique constraint, which surfaces as a database error (500).
- On the detail page, the selection is checked for truthiness. So a selected asset class that is the empty string shows every commitment, as `null` and `"All"` do.

## Model

| member | source | states |
|---|---|---|
| Store.Commit | backend/models.py:8 | a commit succeeds exactly when investor names stay unique, and then makes the pending state durable; otherwise it fails with the unique-name violation and the pending state is left for a rollback |
| Store.Rollback | backend/handlers/upload_csv_data.py:73 | a rollback discards exactly what was not committed: the session is clean again at the last committed state |
| Store.FirstIndexStable | backend/models.py:49 | `.first()` is stable under appends: once a matching row exists, adding rows after it never changes which row is found |
| Models.GetOrCreateInvestor | backend/models.py:36-59 | created=false exactly when some stored investor equals every supplied field; the record is then the first such row and nothing changes. On a miss it inserts a record built from exactly the supplied fields with the next id, and the store grows by that one record. If the name is already taken, it fails with the unique-name violation instead and the committed store is unchanged |
| Models.GetOrCreateCommitment | backend/models.py:71-107 | the lookup key always carries the investor's id; the result matches every key field; created=false exactly when a matching commitment exists, and then it is the first one and nothing changes; otherwise exactly one new commitment is appended and the investors are untouched |
| Models.UniqueNamesAppend | backend/models.py:8 | adding an investor keeps names unique exactly when its name is not yet taken |
| Models.InvestorGetOrCreateIdempotent | backend/models.py:37-59 | a second identical call, at any later time, finds the record the first call returned, with created=false, and changes nothing |
| Models.CommitmentGetOrCreateIdempotent | backend/models.py:72-107 | a second identical commitment call finds the first call's record with created=false and changes nothing |
| Models.CommitmentsOfDistinctInvestorsDiffer | backend/models.py:87-96 | equal asset class, amount and currency under two different investors give two distinct commitments |
| Upload.Column | backend/handlers/upload_csv_data.py:46-48 | reading a column succeeds exactly when the header is present, giving its text; otherwise it is a KeyError naming the column |
| Upload.DateColumn | backend/handlers/upload_csv_data.py:49-54 | a date column that reads successfully was present and holds a real calendar date, taken at midnight |
| Upload.InvestorKeyRead | backend/handlers/upload_csv_data.py:44-55 | a row's investor is read exactly when the name, type, country and both date columns are present and both dates parse; the lookup fields are then those texts and the two dates at midnight; a missing name column is the error raised first |
| Upload.CommitmentFieldsOf | backend/handlers/upload_csv_data.py:57-63 | the commitment fields are read exactly when the asset class, amount and currency columns are present, and are then those values; otherwise the error is a missing column |
| Upload.ProcessRow | backend/handlers/upload_csv_data.py:43-73 | a row whose investor columns cannot be read fails with that error and changes nothing. Otherwise, whatever happens, the session is clean, the store stays valid and only grows, by at most one investor. A commitment is added exactly when the row is counted successful |
| UploadProperties.RowIgnoredIffStored | backend/handlers/upload_csv_data.py:44-68 | for every row and valid store: the row is ignored exactly when it reads and its investor and that investor's commitment are already stored; it is successful exactly when it reads, its investor resolves and the commitment is not yet stored |
| UploadProperties.BadCommitmentColumnsFail | backend/handlers/upload_csv_data.py:57-73 | a row whose commitment columns cannot be read always fails and adds no commitment; once its investor resolves, the error is the missing commitment column |
| Upload.StoreRow | backend/handlers/upload_csv_data.py:44-73 | once the investor key is read, the rest of the row keeps the store valid and growing; a commitment is added exactly when the row is counted successful |
| Upload.Fold | backend/handlers/upload_csv_data.py:42-73 | the loop yields one outcome per row processed and leaves a clean session over a valid store that extends the initial one |
| Upload.Import | backend/handlers/upload_csv_data.py:42-73 | an import yields one outcome per row and a valid store extending the one it started from |
| Upload.TallyOf | backend/handlers/upload_csv_data.py:36-73 | successful + failed + ignored equals the number of rows |
| Upload.Failures | backend/handlers/upload_csv_data.py:71-72 | one recorded failure per failed row |
| Upload.FailuresAreFailedRows | backend/handlers/upload_csv_data.py:42-72 | every recorded failure names a 1-based row number whose row really failed, with that error |
| Upload.FailuresIncreasing | backend/handlers/upload_csv_data.py:42-72 | failures are recorded in strictly increasing row order |
| Upload.FailuresComplete | backend/handlers/upload_csv_data.py:70-72 | every failed row is recorded, under its own 1-based number |
| Upload.RowMessageRoundTrip | backend/handlers/upload_csv_data.py:72 | the row number can be read back from any "Row n: message" text |
| Upload.Summarize | backend/handlers/upload_csv_data.py:75-81 | the response says "completed"; its three counts add up to the number of rows; the error list has one entry per failure, each naming that failure's row |
| Upload.ErrorsInRowOrder | backend/handlers/upload_csv_data.py:39-72 | every error message names a row that failed, and the messages appear in increasing row order |
| Upload.EveryFailureReported | backend/handlers/upload_csv_data.py:70-72 | every failed row's "Row n: message" is in the response's error list |
| Upload.UploadCsvHandler | backend/handlers/upload_csv_data.py:19-81 | a file name not ending in ".csv" is rejected and nothing is stored; otherwise the running counters and error list the loop keeps equal the summary of the row outcomes, the counts add up to the rows, and the store only grew |
| UploadProperties.ReimportIsIdempotent | backend/handlers/upload_csv_data.py:44-68 | importing the same rows again, at any later time, changes no record; every row that succeeded the first time is now ignored, failures repeat with the same messages, and nothing is successful |
| UploadProperties.FoldReplay | backend/handlers/upload_csv_data.py:42-73 | running the loop over a store that already holds everything a first run committed changes nothing and turns each outcome into its replay (success becomes ignored) |
| UploadProperties.SummaryReplayed | backend/handlers/upload_csv_data.py:75-81 | the response of a replayed batch has zero successes, the first run's successes and ignores as ignores, and the same failures and errors |
| UploadProperties.MalformedRowChangesNothingElse | backend/handlers/upload_csv_data.py:42-73 | inserting a row with a missing investor column or bad date anywhere in a batch leaves the final store the same and only inserts that row's failure into the outcomes: later rows are unaffected |
| UploadProperties.FoldIsolates | backend/handlers/upload_csv_data.py:70-73 | for any loop body that rejects a row without touching the store, that row adds one failure at its position and nothing else |
| UploadProperties.InvestorSurvivesLaterFailure | backend/models.py:55 | a new investor whose commitment columns are missing is still stored after the row fails, because it was committed before the rollback; no commitment is added |
| UploadProperties.NameClashFailsRow | backend/handlers/upload_csv_data.py:44-55 | a row naming a stored investor with any different type, country or date fails with the unique-name violation and changes nothing |
| UploadProperties.KnownInvestorNewCommitmentSucceeds | backend/handlers/upload_csv_data.py:57-66 | a row for an existing investor with a commitment not yet stored counts as successful, although the investor was not created |
| UploadProperties.NewInvestorRowSucceeds | backend/handlers/upload_csv_data.py:44-66 | a row for a new investor with a free name stores exactly that investor and its commitment, with the next ids, and counts as successful |
| UploadProperties.KnownInvestorRowIgnored | backend/handlers/upload_csv_data.py:44-68 | a row for the first matching stored investor whose commitment is already stored is ignored and changes nothing |
| UploadProperties.KnownInvestorRowImported | backend/handlers/upload_csv_data.py:44-66 | a row for the first matching stored investor with an unseen commitment appends exactly one commitment owned by that investor and is successful |
| UploadRebuild.KeyOf | backend/handlers/upload_csv_data.py:44-55 | the key written for an investor matches that investor in every lookup field |
| UploadRebuild.LineRead | backend/handlers/upload_csv_data.py:44-63 | reading back a line written for an investor and a commitment gives exactly that investor's lookup key and that commitment's fields |
| UploadRebuild.Export | backend/handlers/upload_csv_data.py:46-62 | a store is written as one line per commitment, in table order, each line naming its investor |
| UploadRebuild.LineImported | backend/handlers/upload_csv_data.py:43-68 | importing line k of a written store onto the store rebuilt from lines 1 to k-1 gives the store rebuilt from lines 1 to k, and the line counts as successful |
| UploadRebuild.FoldChain | backend/handlers/upload_csv_data.py:42-68 | a loop whose every row succeeds through a chain of valid stores ends in the last store with only successes |
| UploadRebuild.ImportRebuilds | backend/handlers/upload_csv_data.py:19-81 | importing the lines written for a store into an empty database gives that store back; every line is successful, none failed or ignored, and the error list is empty |
| SampleImport.SampleRowsExported | backend/tests/test_api.py:32-37 | the five sample lines are exactly the lines written for the four-investor sample store |
| SampleImport.SampleUpload | backend/tests/test_api.py:157-169 | uploading the sample file into an empty database gives the sample store, with 5 successful, 0 failed, 0 ignored and no errors |
| InvestorHandlers.OwnedByMembers | backend/handlers/investors.py:44-45 | the rows joined to an investor are exactly the stored commitments with its id |
| InvestorHandlers.GetInvestorList | backend/handlers/investors.py:36-59 | one entry per stored investor, in order; name, type and country are copied; the total is the sum of that investor's commitment amounts |
| InvestorHandlers.ListingConservesAmounts | backend/handlers/investors.py:37-55 | on a valid store, the listed totals add up to the sum of all commitment amounts: no commitment is lost or counted twice |
| InvestorHandlers.UncommittedInvestorListsZero | backend/handlers/investors.py:40-44 | an investor with no commitments is listed, with total 0 |
| InvestorHandlers.CreateInvestor | backend/handlers/investors.py:62-76 | creation succeeds exactly when the name is free, appending that one investor; an exact duplicate is a conflict; a name-only duplicate is a database error; on any error the store is unchanged |
| InvestorHandlers.CreateInvestorTwiceConflicts | backend/tests/test_api.py:73-79 | posting the same investor twice gives a conflict the second time and leaves the store as the first post left it |
| InvestorHandlers.SameNameOtherFieldsIsIntegrityError | backend/handlers/investors.py:63-68 | a name already stored with a different type or country is a unique-constraint error, not a conflict |
| InvestorHandlers.GetInvestor | backend/handlers/investors.py:80 | lookup by primary key finds the stored investor with that id, or shows that none has it |
| InvestorHandlers.FindInvestor | backend/handlers/investors.py:79-89 | unknown ids are not-found; otherwise the investor's fields are returned with exactly the commitments carrying its id, in table order |
| InvestorHandlers.DetailAgreesWithListing | backend/handlers/investors.py:36-89 | an investor's detail commitments sum to its total in the listing |
| InvestorHandlers.CreateInvestmentCommitment | backend/handlers/investors.py:92-107 | an unknown investor id is not-found and changes nothing; otherwise the result carries the requested investor and fields and is stored. The store is unchanged exactly when an equal commitment was already stored, and the result is then the first such record; otherwise exactly that one commitment is appended |
| InvestorHandlers.CreateCommitmentTwiceIsIdempotent | backend/handlers/investors.py:99-107 | posting the same commitment twice returns the same record and leaves the store as after the first post |
| Sample.SampleListing | backend/tests/test_api.py:171-204 | the listing of the sample store has its four investors in order, "Mjd Jedi fund" totalling 73000000 |
| Sample.SampleDetail | backend/tests/test_api.py:206-232 | the detail of investor 4 holds its two commitments, ids 4 and 5 |
| Sample.SampleCards | frontend/src/pages/InvestorDetail.tsx:56-68 | the detail page of "Mjd Jedi fund" shows cards Private Equity 72000000, Natural Resources 1000000 and All 73000000, in that order |
| Sample.ApiFirstPost | backend/tests/test_api.py:65-71 | the first post of an investor into an empty database stores and returns it with id 1 |
| Sample.ApiConflictThenRead | backend/tests/test_api.py:73-89 | posting it again is a 400 conflict, and reading id 1 gives its fields with no commitments |
| Sample.ApiPostCommitment | backend/tests/test_api.py:98-112 | posting a commitment for investor 1 stores and returns it with id 1 |
| Sample.ApiReadBack | backend/tests/test_api.py:114-143 | the detail then lists that commitment, id 2 is a 404, and the listing totals 5000 |
| InvestorDetailPage.Visit | frontend/src/pages/InvestorDetail.tsx:61-62 | one step adds the amount to its class's running total, starting from 0, keeps every other entry, and appends a new key at the end |
| InvestorDetailPage.AccumulateSums | frontend/src/pages/InvestorDetail.tsx:60-64 | after the loop, each class seen maps to the sum of its commitments and no other key is present |
| InvestorDetailPage.AccumulateOrder | frontend/src/pages/InvestorDetail.tsx:60-62 | the map's keys are the asset classes in order of first appearance |
| InvestorDetailPage.TotalsByAssetClass | frontend/src/pages/InvestorDetail.tsx:56-68 | "All" holds the grand total, even if a class is named "All"; every other present class holds the sum of its commitments; absent classes have no entry |
| InvestorDetailPage.AllCardPlacement | frontend/src/pages/InvestorDetail.tsx:66 | "All" comes last with the grand total unless a class of that name was seen first, in which case it keeps that class's position |
| InvestorDetailPage.CardsAreClassesAndAll | frontend/src/pages/InvestorDetail.tsx:60-66 | the cards are exactly the present asset classes plus "All" |
| InvestorDetailPage.NoCommitmentsOnlyAll | frontend/src/pages/InvestorDetail.tsx:57-66 | with no commitments the only card is "All" with 0 |
| InvestorDetailPage.FilteredCommitments | frontend/src/pages/InvestorDetail.tsx:72-77 | no selection, an empty one or "All" shows every commitment; any other selection shows exactly the commitments of that class |
| InvestorDetailPage.FilterKeepsOrder | frontend/src/pages/InvestorDetail.tsx:72-77 | a class selection shows one commitment exactly when it is of that class, and filters a concatenation piecewise, so the shown commitments keep their original order |
| InvestorDetailPage.TableMatchesCard | frontend/src/pages/InvestorDetail.tsx:56-77 | selecting a card of a class shows commitments summing to that card's total |
| InvestorDetailPage.EmptyClassShowsEverything | frontend/src/pages/InvestorDetail.tsx:73 | selecting an empty-named class shows every commitment |
| InvestorDetailPage.Click | frontend/src/pages/InvestorDetail.tsx:79-83 | clicking clears the selection exactly when that class was selected; otherwise it selects the clicked class |
| InvestorDetailPage.ClickToggles | frontend/src/pages/InvestorDetail.tsx:79-83 | from the initial null, two clicks on a class return to null; clicking a second class selects it |
| InvestorDetailPage.Set | frontend/src/pages/InvestorDetail.tsx:62-66 | a map write sets its key and leaves every other key unchanged |
| IndexPage.HandleSort | frontend/src/pages/Index.tsx:66-73 | sorting on the current field flips the direction; sorting on another field selects it in ascending order |
| IndexPage.HandleSortTwice | frontend/src/pages/Index.tsx:66-73 | two clicks on the current field restore the state; two clicks on a new field leave it descending |
| IndexPage.EveryStateReachable | frontend/src/pages/Index.tsx:20-73 | from the initial state (name, ascending), every field and direction is reachable in at most two clicks |
| IndexPage.CompareSigns | frontend/src/pages/Index.tsx:60-63 | the comparator returns 1 only when a is greater ascending or smaller descending, else -1, and it returns -1 both ways on equal keys |
| IndexPage.PrecedesTransitive | frontend/src/pages/Index.tsx:56-64 | the order the comparator induces is transitive, so sorting by it is meaningful |
| IndexPage.SortRows | frontend/src/pages/Index.tsx:56-64 | the sorted copy is a permutation of the fetched rows and is in comparator order |
| IndexPage.SortedInvestors | frontend/src/pages/Index.tsx:56 | a missing list sorts as empty; the result is a sorted permutation of the fetched list |
| IndexPage.SortedColumn | frontend/src/pages/Index.tsx:56-64 | in the sorted list, the sorted column never decreases when ascending and never increases when descending |
| IndexPage.SortedUnique | frontend/src/pages/Index.tsx:56-64 | when the sorted column has no ties, only one ordering of the rows is sorted |
| IndexPage.FormatCurrency | frontend/src/pages/Index.tsx:50-54 | the cell is a dash exactly when the amount is 0 |
| IndexPage.UncommittedInvestorShowsDash | frontend/src/pages/Index.tsx:50-51 | an investor with no commitments shows a dash in the listing |
| Dates.ParseFormatRoundTrip | backend/handlers/upload_csv_data.py:49-54 | every valid date, written zero-padded, parses back to itself |
| Dates.OneDigitMonthAndDayAccepted | backend/handlers/upload_csv_data.py:50 | the format also accepts an unpadded month and day |
| Dates.NonexistentDayRejected | backend/handlers/upload_csv_data.py:50 | a day that does not exist in its month is rejected |
| Text.NatToStringRoundTrip | backend/handlers/upload_csv_data.py:72 | a row number's decimal text reads back as that number |
| Text.NatToStringInjective | backend/handlers/upload_csv_data.py:72 | distinct row numbers give distinct texts |

## Left out

- HTTP routing, status-code mapping, the response `detail` texts, CORS, startup and shutdown are not modelled. Errors are result variants; `InvestorHandlers.StatusCode` only names the code each one carries. `/investment-commitment` is not routed in `backend/main.py`, but its handler is modelled.
- The upload's async file read, UTF-8 decoding and CSV dialect are not modelled, nor is closing the file. The batch is given as a sequence of header-to-text maps. The `csv.Error` → 400 and other-exception → 500 mapping at lines 83-91 is also left out.
- `Upload.ErrorText`: the wording of Python exception messages is approximated. Every date `ValueError` gets the same message, including the "day is out of range" variant. The model relies on the row-number prefix only.
- `Dates.ParseDate`: models the accepted language of `%Y-%m-%d`, including one-digit months and days and the leap-year check. It does not model Unicode digits beyond ASCII or strptime's year range beyond four ASCII digits.
- The `Commitment Amount` column is read as an already numeric whole amount. The store's coercion of the raw text and float arithmetic are not modelled: `float(total)`, `toFixed`, `formatAmount`, and the billions rendering of `formatCurrency`. `IndexPage.FormatCurrency` keeps only the dash case and the amount.
- Timestamps come from one `now` parameter per call, standing for `datetime.utcnow` and `server_default`/`onupdate`. Sub-second differences between `created_at` and `updated_at` are not modelled.
- SQLAlchemy session internals (flush, refresh, identity map) are abstracted to `Session(committed, pending)`. The order of `GROUP BY` rows is taken as investor id order.
- `IndexPage.SortRows`: JavaScript's sort algorithm is engine-defined, and with an inconsistent comparator on ties its order is unspecified. The model sorts by insertion driven by the same comparator. It proves the result sorted and a permutation, and unique when the column has no ties. String order is by code point, not UTF-16 code unit.
- `InvestorDetailPage.TotalsByAssetClass`: the `|| 0` fallback also turns a NaN running total into 0; with whole amounts no NaN arises.
- React hooks, rendering, toasts, loading and error states, navigation, and the index-based detail link at `frontend/src/pages/Index.tsx:129` are not modelled. That link goes to `/investor/{position+1}` in the sorted order, not to the investor's id.
- Database engine and settings selection, the network fetch services, and the type declarations are not modelled. The type declarations serve only as the shapes of the datatypes.
