/**
 * The control flow of ingest.py's `main`: load the run metadata, keep the issues created
 * after the stored watermark, clean, prepare, enrich, postprocess, add the feedback round,
 * write the partition, and save the next watermark only when every step has completed.
 * The metadata file is a value passed in and returned; the outcome of every step that can
 * raise is a field of the environment.
 */
module Pipeline {
  import opened Wrappers
  import opened Seqs
  import opened Records
  import opened Vocabulary
  import opened Clients
  import opened Batching
  import opened Cleaning
  import opened Calendar

  /** The first eight issues of the tracker are not feedback. */
  const IdsToExclude: seq<int> := [1, 2, 3, 4, 5, 6, 7, 8]

  /** Placeholder descriptions. */
  const DescToExclude: seq<string> := ["", "test", "Test"]

  // ---- run metadata ----

  datatype RunMetadata = RunMetadata(
    lastSuccessfulRun: Option<Timestamp>,
    lastFetchedIssues: nat,
    totalIssuesProcessed: Option<nat>)

  /** The metadata file: missing, present but not readable as metadata, or stored. */
  datatype MetadataFile = Absent | Unreadable | Stored(metadata: RunMetadata)

  /** `load_run_metadata`: the stored metadata, or the defaults when the file is missing
      or cannot be read. */
  function LoadRunMetadata(file: MetadataFile): (m: RunMetadata)
    ensures file.Stored? ==> m == file.metadata
    ensures !file.Stored? ==> m.lastSuccessfulRun.None? && m.lastFetchedIssues == 0
  {
    match file
    case Stored(metadata) => metadata
    case _ => RunMetadata(None, 0, None)
  }

  // ---- the incremental filter ----

  function CreatedAfter(t: Timestamp): RawIssue -> bool {
    (x: RawIssue) => x.createdAt > t
  }

  /** The issues a run processes: all of them without a watermark, otherwise those created
      strictly after it, in fetch order. */
  function NewIssues(issues: seq<RawIssue>, watermark: Option<Timestamp>): seq<RawIssue> {
    if watermark.None? then issues else Filter(issues, CreatedAfter(watermark.value))
  }

  /** The loop of `main` that appends each issue newer than the watermark. */
  method FilterNewIssues(issues: seq<RawIssue>, watermark: Option<Timestamp>) returns (newIssues: seq<RawIssue>)
    ensures newIssues == NewIssues(issues, watermark)
  {
    if watermark.None? {
      return issues;
    }
    var lastRun := watermark.value;
    newIssues := [];
    for i := 0 to |issues|
      invariant newIssues == Filter(issues[..i], CreatedAfter(lastRun))
    {
      assert issues[..i + 1][..i] == issues[..i];
      if issues[i].createdAt > lastRun {
        newIssues := newIssues + [issues[i]];
      }
    }
    assert issues[..|issues|] == issues;
  }

  /** With a watermark, an issue is new exactly when it was created after it. */
  lemma NewIssuesExact(issues: seq<RawIssue>, t: Timestamp, x: RawIssue)
    ensures x in NewIssues(issues, Some(t)) <==> x in issues && x.createdAt > t
  {
  }

  /** Of issues created just before, at and just after the watermark, only the last is new. */
  lemma NewIssuesStrict(a: RawIssue, b: RawIssue, c: RawIssue, t: Timestamp)
    requires a.createdAt == t - 1 && b.createdAt == t && c.createdAt == t + 1
    ensures NewIssues([a, b, c], Some(t)) == [c]
  {
    var p := CreatedAfter(t);
    assert [a, b, c][..2] == [a, b] && [a, b][..1] == [a];
    FilterSingleton(a, p);
    assert Filter([a, b], p) == [];
  }

  /** A missing or unreadable metadata file makes a run process every fetched issue. */
  lemma DefaultsProcessEverything(file: MetadataFile, issues: seq<RawIssue>)
    requires !file.Stored?
    ensures NewIssues(issues, LoadRunMetadata(file).lastSuccessfulRun) == issues
  {
  }

  // ---- feedback round ----

  /** The consultation round of a year: the second one is 2026. */
  function FeedbackRound(year: int): (round: int)
    ensures round == 1 || round == 2
    ensures round == 2 <==> year == 2026
  {
    if year == 2026 then 2 else 1
  }

  /** An issue belongs to the second round exactly when it was created in 2026 (UTC); the
      issues of the last instant of 2025 and the first of 2027 belong to the first. */
  lemma FeedbackRoundOf2026(t: Timestamp)
    ensures FeedbackRound(YearOf(t)) == 2 <==> Start2026 <= t < Start2027
    ensures FeedbackRound(YearOf(Start2026 - 1)) == 1 && FeedbackRound(YearOf(Start2027)) == 1
  {
    YearOfIs2026(t);
    YearOfBoundaries();
  }

  function WithFeedbackRound(x: Issue): Issue {
    x.(feedbackRound := Some(FeedbackRound(YearOf(x.base.createdAt))))
  }

  /** Step 7: the `feedback_round` column from the year of `created_at`. */
  function AddFeedbackRounds(rows: seq<Issue>): seq<Issue> {
    Map(rows, WithFeedbackRound)
  }

  // ---- the next watermark ----

  /** The largest `created_at` of the rows; none for no rows. */
  function LatestCreated(rows: seq<Issue>): (w: Option<Timestamp>)
    ensures w.None? <==> rows == []
    ensures w.Some? ==> forall x :: x in rows ==> x.base.createdAt <= w.value
    ensures w.Some? ==> exists x :: x in rows && x.base.createdAt == w.value
  {
    if rows == [] then None
    else
      var last := rows[|rows| - 1];
      var rest := LatestCreated(rows[..|rows| - 1]);
      assert rows == rows[..|rows| - 1] + [last];
      if rest.Some? && rest.value > last.base.createdAt then rest else Some(last.base.createdAt)
  }

  // ---- the run ----

  /** Everything a run depends on but does not compute. */
  datatype Environment = Environment(
    fetched: Result<seq<RawIssue>>,   // the tracker's listing, or the error that ended the fetch
    labelConfig: string,              // the text of the label file
    sentimentClientReady: bool,       // `init_sentiment_client` returns
    genaiClientReady: bool,           // `init_genai_client` returns
    sentiment: SentimentService,
    labelling: LabelService,
    attribution: OrgService,
    partitionWritten: bool,           // the partition directory and parquet file are written
    metadataWritten: bool)            // `save_run_metadata` writes (a failure there is only logged)

  /** What a run reports, leaves in the metadata file, and writes as its partition. */
  datatype RunOutcome = RunOutcome(succeeded: bool, metadata: MetadataFile, partition: Option<seq<Issue>>)

  /** Step 2 on the new issues: the rows left to enrich. */
  function Prepared(newIssues: seq<RawIssue>): seq<Issue> {
    PrepareIssues(CleanIssues(newIssues, IdsToExclude), DescToExclude)
  }

  /** Steps 3 to 5 on the prepared rows: sentiment, labels, organisation. */
  function Enriched(newIssues: seq<RawIssue>, env: Environment): seq<Issue> {
    var scored := AddSentimentScores(Prepared(newIssues), env.sentiment);
    var labeled := LabelColumn(scored, env.labelling, ParseLabelConfig(env.labelConfig));
    OrgColumn(labeled, env.attribution)
  }

  /** Steps 2 to 7 on the new issues. */
  function Processed(newIssues: seq<RawIssue>, env: Environment): seq<Issue> {
    AddFeedbackRounds(PostprocessIssues(Enriched(newIssues, env)))
  }

  /** The metadata a completed run saves. */
  function NextMetadata(newIssues: seq<RawIssue>, table: seq<Issue>): RunMetadata {
    RunMetadata(LatestCreated(table), |newIssues|, Some(|table|))
  }

  /** The outcome of `main`, step by step. */
  function Run(file: MetadataFile, env: Environment): RunOutcome {
    match env.fetched
    case Failure(_) => RunOutcome(false, file, None)
    case Success(issues) =>
      var newIssues := NewIssues(issues, LoadRunMetadata(file).lastSuccessfulRun);
      if newIssues == [] then RunOutcome(true, file, None)
      else if !env.sentimentClientReady || !env.genaiClientReady then RunOutcome(false, file, None)
      // with no row left to enrich, the label loop never runs, no labels column is added,
      // and postprocessing raises on the missing column
      else if Prepared(newIssues) == [] then RunOutcome(false, file, None)
      else
        var table := Processed(newIssues, env);
        if !env.partitionWritten then RunOutcome(false, file, None)
        else
          var saved := if env.metadataWritten then Stored(NextMetadata(newIssues, table)) else file;
          RunOutcome(true, saved, Some(table))
  }

  /** Steps 3 to 7 of `main` on the new issues, with both clients ready: scoring, the two
      batch drivers, postprocessing and the feedback round. `labelled` tells whether the
      label driver ran a batch, that is whether the table has its labels column. */
  method EnrichNewIssues(issues: seq<RawIssue>, env: Environment) returns (table: seq<Issue>, labelled: bool)
    ensures labelled <==> Prepared(issues) != []
    ensures table == Processed(issues, env)
  {
    var prepared := Prepared(issues);
    var scored := AddSentimentScores(prepared, env.sentiment);
    var labeled, labelBatches, labelPause := AddLabels(scored, env.labelling, ParseLabelConfig(env.labelConfig));
    var attributed, orgBatches, orgPause := AddOrganizationAttribution(labeled, env.attribution);
    labelled := labelBatches != [];
    table := AddFeedbackRounds(PostprocessIssues(attributed));
  }

  /** `main`: the same steps, with the incremental filter and the two batch drivers run as
      the loops they are. */
  method RunPipeline(file: MetadataFile, env: Environment) returns (outcome: RunOutcome)
    ensures outcome == Run(file, env)
  {
    var metadata := LoadRunMetadata(file);
    if env.fetched.Failure? {
      return RunOutcome(false, file, None);
    }
    var issues := FilterNewIssues(env.fetched.value, metadata.lastSuccessfulRun);
    if issues == [] {
      return RunOutcome(true, file, None);
    }
    if !env.sentimentClientReady || !env.genaiClientReady {
      return RunOutcome(false, file, None);
    }
    var table, labelled := EnrichNewIssues(issues, env);
    if !labelled {
      // no label batch ran, so the labels column is missing: postprocessing raises
      return RunOutcome(false, file, None);
    }
    if !env.partitionWritten {
      return RunOutcome(false, file, None);
    }
    var saved := if env.metadataWritten then Stored(NextMetadata(issues, table)) else file;
    outcome := RunOutcome(true, saved, Some(table));
  }

  // ---- what a run guarantees ----

  /** A run that fails leaves the metadata untouched and writes no partition. */
  lemma FailedRunKeepsMetadata(file: MetadataFile, env: Environment)
    requires !Run(file, env).succeeded
    ensures Run(file, env).metadata == file && Run(file, env).partition.None?
  {
  }

  /** With nothing new, a run succeeds and changes nothing. */
  lemma NothingNewChangesNothing(file: MetadataFile, env: Environment)
    requires env.fetched.Success?
    requires NewIssues(env.fetched.value, LoadRunMetadata(file).lastSuccessfulRun) == []
    ensures Run(file, env) == RunOutcome(true, file, None)
  {
  }

  /** The metadata changes only after every step has completed, and then records the latest
      `created_at` of the written rows, the number of new issues and the number of rows. */
  lemma MetadataSavedOnlyOnCompletion(file: MetadataFile, env: Environment)
    requires Run(file, env).metadata != file
    ensures env.fetched.Success? && env.sentimentClientReady && env.genaiClientReady
    ensures env.partitionWritten && env.metadataWritten
    ensures var newIssues := NewIssues(env.fetched.value, LoadRunMetadata(file).lastSuccessfulRun);
      newIssues != [] && Prepared(newIssues) != [] && Run(file, env) == RunOutcome(true, Stored(NextMetadata(newIssues, Processed(newIssues, env))), Some(Processed(newIssues, env)))
  {
  }

  /** What every row of a written partition satisfies. */
  ghost predicate FinalRow(y: Issue, vocabulary: seq<string>) {
    && y.sentiment.Some?
    && y.labels.Some? && y.labels.value != []
    && (forall l :: l in y.labels.value ==> l in vocabulary || l == Unklar)
    && y.org.Some?
    && y.feedbackRound.Some? && (y.feedbackRound.value == 1 || y.feedbackRound.value == 2)
    && y.descClean !in DescToExclude
    && !(1 <= y.base.iid <= 8)
  }

  /** A row after the three enrichment steps, before postprocessing. */
  ghost predicate EnrichedRow(x: Issue, vocabulary: seq<string>, newIssues: seq<RawIssue>) {
    && x.sentiment.Some?
    && x.labels.Some? && (forall l :: l in x.labels.value ==> l in vocabulary)
    && x.org.Some?
    && x.descClean !in DescToExclude
    && x.base.iid !in IdsToExclude
    && exists r :: r in newIssues && x.base == Project(r)
  }

  lemma EnrichedRows(newIssues: seq<RawIssue>, env: Environment)
    ensures var prepared := PrepareIssues(CleanIssues(newIssues, IdsToExclude), DescToExclude);
      var scored := AddSentimentScores(prepared, env.sentiment);
      var labeled := LabelColumn(scored, env.labelling, ParseLabelConfig(env.labelConfig));
      var attributed := OrgColumn(labeled, env.attribution);
      forall x :: x in attributed ==> EnrichedRow(x, ParseLabelConfig(env.labelConfig), newIssues)
  {
    var vocabulary := ParseLabelConfig(env.labelConfig);
    var cleaned := CleanIssues(newIssues, IdsToExclude);
    var prepared := PrepareIssues(cleaned, DescToExclude);
    var scored := AddSentimentScores(prepared, env.sentiment);
    var labeled := LabelColumn(scored, env.labelling, vocabulary);
    var attributed := OrgColumn(labeled, env.attribution);
    CleanIssuesSound(newIssues, IdsToExclude);
    PrepareIssuesExact(cleaned, DescToExclude);
    forall x | x in attributed
      ensures EnrichedRow(x, vocabulary, newIssues)
    {
      var k :| 0 <= k < |attributed| && attributed[k] == x;
      var p := prepared[k];
      assert p in prepared;
      assert scored[k] == p.(sentiment := scored[k].sentiment) && scored[k].sentiment.Some?;
      assert labeled[k] == scored[k].(labels := labeled[k].labels);
      assert x == labeled[k].(org := x.org);
    }
  }

  lemma OutsideFirstEight(iid: int)
    requires iid !in IdsToExclude
    ensures !(1 <= iid <= 8)
  {
  }

  /** Postprocessing and the feedback round turn an enriched row into a final one. */
  lemma FinalFromEnriched(x: Issue, vocabulary: seq<string>, newIssues: seq<RawIssue>)
    requires EnrichedRow(x, vocabulary, newIssues)
    ensures FinalRow(WithFeedbackRound(PostprocessRow(x)), vocabulary)
    ensures WithFeedbackRound(PostprocessRow(x)).base == x.base
  {
    OutsideFirstEight(x.base.iid);
  }

  /** Every row of the table a run writes has labels, all from the vocabulary or the
      default, a sentiment score, an organisation and a feedback round; it is the projection
      of one of the new issues, whose description is not a placeholder and whose iid is not
      one of the first eight. */
  lemma ProcessedRowsFinal(newIssues: seq<RawIssue>, env: Environment)
    ensures forall y :: y in Processed(newIssues, env) ==>
      FinalRow(y, ParseLabelConfig(env.labelConfig)) && exists r :: r in newIssues && y.base == Project(r)
  {
    var vocabulary := ParseLabelConfig(env.labelConfig);
    var prepared := PrepareIssues(CleanIssues(newIssues, IdsToExclude), DescToExclude);
    var scored := AddSentimentScores(prepared, env.sentiment);
    var labeled := LabelColumn(scored, env.labelling, vocabulary);
    var attributed := OrgColumn(labeled, env.attribution);
    var post := PostprocessIssues(attributed);
    var table := Processed(newIssues, env);
    assert table == AddFeedbackRounds(post);
    EnrichedRows(newIssues, env);
    PostprocessIssuesExact(attributed);
    forall y | y in table
      ensures FinalRow(y, vocabulary) && exists r :: r in newIssues && y.base == Project(r)
    {
      var k :| 0 <= k < |table| && table[k] == y;
      assert post[k] in post;
      var x :| x in attributed && x.formPage !in ExcludedPages && post[k] == PostprocessRow(x);
      FinalFromEnriched(x, vocabulary, newIssues);
    }
  }

  /** The saved watermark: strictly later than the one the run started from, no earlier than
      any written row, so the next run does not pick up an issue whose row was written. */
  lemma WatermarkAdvances(file: MetadataFile, env: Environment, r: RawIssue)
    requires Run(file, env).metadata != file
    requires Run(file, env).metadata.metadata.lastSuccessfulRun.Some?
    ensures var w := Run(file, env).metadata.metadata.lastSuccessfulRun.value;
      && (forall y :: y in Run(file, env).partition.value ==> y.base.createdAt <= w)
      && (LoadRunMetadata(file).lastSuccessfulRun.Some? ==> LoadRunMetadata(file).lastSuccessfulRun.value < w)
      && ((exists y :: y in Run(file, env).partition.value && y.base == Project(r)) ==> r !in NewIssues([r], Some(w)))
  {
    MetadataSavedOnlyOnCompletion(file, env);
    var previous := LoadRunMetadata(file).lastSuccessfulRun;
    var newIssues := NewIssues(env.fetched.value, previous);
    var table := Processed(newIssues, env);
    var w := LatestCreated(table).value;
    ProcessedRowsFinal(newIssues, env);
    if previous.Some? {
      var y :| y in table && y.base.createdAt == w;
      var x :| x in newIssues && y.base == Project(x);
      assert x.createdAt > previous.value;
    }
  }

  /** When no new issue survives cleaning and preparation, the run fails whatever else
      happens: the metadata is kept and no partition is written. */
  lemma NothingPreparedFails(file: MetadataFile, env: Environment)
    requires env.fetched.Success?
    requires var newIssues := NewIssues(env.fetched.value, LoadRunMetadata(file).lastSuccessfulRun);
      newIssues != [] && Prepared(newIssues) == []
    ensures Run(file, env) == RunOutcome(false, file, None)
  {
  }

  /** The enrichment steps keep the rows of preparation, in order, with their pages. */
  lemma EnrichedPages(newIssues: seq<RawIssue>, env: Environment)
    ensures |Enriched(newIssues, env)| == |Prepared(newIssues)|
    ensures forall k :: 0 <= k < |Prepared(newIssues)| ==>
      Enriched(newIssues, env)[k].formPage == Prepared(newIssues)[k].formPage
  {
  }

  /** When every prepared row is on an excluded page, the written table is empty. */
  lemma EmptyTableWhenPagesExcluded(newIssues: seq<RawIssue>, env: Environment)
    requires forall x :: x in Prepared(newIssues) ==> x.formPage in ExcludedPages
    ensures Processed(newIssues, env) == []
  {
    var prepared := Prepared(newIssues);
    var attributed := Enriched(newIssues, env);
    EnrichedPages(newIssues, env);
    forall k | 0 <= k < |attributed|
      ensures attributed[k].formPage in ExcludedPages
    {
      assert prepared[k] in prepared;
    }
    PostprocessAllExcluded(attributed);
  }

  /** A prepared row on a page that is not excluded leaves a row in the written table. */
  lemma KeptPageLeavesRow(newIssues: seq<RawIssue>, env: Environment, x: Issue)
    requires x in Prepared(newIssues) && x.formPage !in ExcludedPages
    ensures Processed(newIssues, env) != []
  {
    var prepared := Prepared(newIssues);
    var attributed := Enriched(newIssues, env);
    EnrichedPages(newIssues, env);
    var k :| 0 <= k < |prepared| && prepared[k] == x;
    PostprocessKeepsPage(attributed, k);
  }

  /** When new issues survive preparation but every one is on an excluded page, the run
      writes an empty partition and saves an empty watermark, so the next run processes
      every issue again. */
  lemma EmptyTableResetsWatermark(file: MetadataFile, env: Environment, next: seq<RawIssue>)
    requires env.fetched.Success? && env.sentimentClientReady && env.genaiClientReady
    requires env.partitionWritten && env.metadataWritten
    requires var prepared := Prepared(NewIssues(env.fetched.value, LoadRunMetadata(file).lastSuccessfulRun));
      prepared != [] && forall x :: x in prepared ==> x.formPage in ExcludedPages
    ensures Run(file, env).succeeded && Run(file, env).partition == Some([])
    ensures Run(file, env).metadata.Stored? && Run(file, env).metadata.metadata.lastSuccessfulRun.None?
    ensures NewIssues(next, LoadRunMetadata(Run(file, env).metadata).lastSuccessfulRun) == next
  {
    var newIssues := NewIssues(env.fetched.value, LoadRunMetadata(file).lastSuccessfulRun);
    EmptyTableWhenPagesExcluded(newIssues, env);
  }
}
