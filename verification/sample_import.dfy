/** The sample batch of five data lines, imported into an empty database:
    every line counts as successful, no error is reported, and the store left
    behind is the sample store the listing and detail pages are shown for. */
module SampleImport {
  import opened Wrappers
  import opened Dates
  import opened Store
  import opened Upload
  import opened UploadRebuild
  import opened Sample

  /** The five data lines of the sample file, in file order. */
  const SampleRows: seq<Row> := [
    CsvRow("Ioo Gryffindor fund", "fund manager", "Singapore", "2000-07-06", "2024-02-21", "Infrastructure", 15000000, "GBP"),
    CsvRow("Ibx Skywalker ltd", "asset manager", "United States", "1997-07-21", "2024-02-21", "Infrastructure", 31000000, "GBP"),
    CsvRow("Cza Weasley fund", "wealth manager", "United Kingdom", "2002-05-29", "2024-02-21", "Hedge Funds", 58000000, "GBP"),
    CsvRow("Mjd Jedi fund", "bank", "China", "2010-06-08", "2024-02-21", "Private Equity", 72000000, "GBP"),
    CsvRow("Mjd Jedi fund", "bank", "China", "2010-06-08", "2024-02-21", "Natural Resources", 1000000, "GBP") ]

  /** Adding one commitment to a prefix raises the count of investors met to its investor id at most. */
  lemma IntroducedNext(cs: seq<Commitment>, k: nat)
    requires k < |cs|
    ensures Introduced(cs[..k + 1]) == if cs[k].investorId > Introduced(cs[..k]) then cs[k].investorId else Introduced(cs[..k])
  {
    assert cs[..k + 1][..k] == cs[..k];
  }

  /** The investors met after each prefix of the sample commitments: 0, 1, 2, 3, 4, 4. */
  lemma SampleIntroduced()
    ensures Introduced(SampleStore.commitments[..0]) == 0
    ensures Introduced(SampleStore.commitments[..1]) == 1
    ensures Introduced(SampleStore.commitments[..2]) == 2
    ensures Introduced(SampleStore.commitments[..3]) == 3
    ensures Introduced(SampleStore.commitments[..4]) == 4
    ensures Introduced(SampleStore.commitments[..5]) == 4
  {
    var cs := SampleStore.commitments;
    IntroducedNext(cs, 0);
    IntroducedNext(cs, 1);
    IntroducedNext(cs, 2);
    IntroducedNext(cs, 3);
    IntroducedNext(cs, 4);
  }

  lemma SampleDatesValid()
    ensures AllAtMidnight(SampleStore)
  {
  }

  lemma SampleCommitmentsDistinct()
    ensures DistinctCommitments(SampleStore.commitments)
  {
  }

  lemma SampleRebuildable()
    ensures Rebuildable(SampleStore)
  {
    SampleIntroduced();
    SampleDatesValid();
    SampleCommitmentsDistinct();
    assert SampleStore.commitments[..5] == SampleStore.commitments;
  }

  lemma Date1Text()
    ensures FormatDate(Date(2000, 7, 6)) == "2000-07-06"
  {
  }

  lemma Date2Text()
    ensures FormatDate(Date(1997, 7, 21)) == "1997-07-21"
  {
  }

  lemma Date3Text()
    ensures FormatDate(Date(2002, 5, 29)) == "2002-05-29"
  {
  }

  lemma Date4Text()
    ensures FormatDate(Date(2010, 6, 8)) == "2010-06-08"
  {
  }

  lemma UpdatedText()
    ensures FormatDate(Updated.date) == "2024-02-21"
  {
  }

  /** Lines 1 to 3 of the sample file are those of the first three commitments. */
  lemma FirstLinesExported()
    requires Rebuildable(SampleStore)
    ensures Export(SampleStore)[..3] == SampleRows[..3]
  {
    Date1Text();
    Date2Text();
    Date3Text();
    UpdatedText();
    var rows := Export(SampleStore);
    assert rows[0] == SampleRows[0];
    assert rows[1] == SampleRows[1];
    assert rows[2] == SampleRows[2];
  }

  /** Lines 4 and 5 both name the fourth investor. */
  lemma LastLinesExported()
    requires Rebuildable(SampleStore)
    ensures Export(SampleStore)[3..] == SampleRows[3..]
  {
    Date4Text();
    UpdatedText();
    var rows := Export(SampleStore);
    assert rows[3] == SampleRows[3];
    assert rows[4] == SampleRows[4];
  }

  /** The sample file is the sample store written out line by line. */
  lemma SampleRowsExported()
    ensures Rebuildable(SampleStore) && Export(SampleStore) == SampleRows
  {
    SampleRebuildable();
    var rows := Export(SampleStore);
    FirstLinesExported();
    LastLinesExported();
    assert rows == rows[..3] + rows[3..];
    assert SampleRows == SampleRows[..3] + SampleRows[3..];
  }

  /** Uploading the sample file into an empty database leaves the sample store
      and reports five successful imports, no failure, nothing ignored and an
      empty error list. */
  lemma SampleUpload(now: Timestamp)
    ensures
      var b := Import(EmptyStore, SampleRows, now);
      && b.session.committed == SampleStore
      && Summarize(b.outcomes) == Summary("completed", 5, 0, 0, [])
  {
    SampleRowsExported();
    ImportRebuilds(SampleStore, now);
  }
}
