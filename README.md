# D-Stack feedback ingestion, modelled in Dafny

This project models the ingestion half of the D-Stack feedback analysis. The pipeline
fetches the consultation issues of a GitLab project and keeps only those created after the
last successful run. It cleans and deduplicates them and derives the web-form page. It then
enriches every issue with a sentiment score, labels from a fixed vocabulary and an
organisation; the labels and the organisation are asked for in batches of ten. After
postprocessing and the feedback round, it writes a dated partition. Only after all that
does it record the latest `created_at` as the next run's watermark.

Modules, following the two files of the pipeline:

| module | file | models |
|---|---|---|
| `Wrappers` | wrappers.dfy | `Option` and `Result` (a call that returns, or the exception it raised) |
| `Seqs` | seqs.dfy | order-preserving `Filter` and `Map`, the shape of every row-wise table step |
| `Text` | text.dfy | Python `str.strip`, `str.split(",")` and `str.splitlines`; polars `strip_chars`, `replace_all(literal=True)` and `strip_suffix` |
| `Records` | records.dfy | the raw issue, the cleaned 14-column row, and the working row whose later columns are `None` until added |
| `Vocabulary` | vocabulary.dfy | `LABELS` read from the label file, and `validate_labels` |
| `Clients` | clients.dfy | the fallbacks of the three enrichment clients, and `add_sentiment_scores` |
| `Batching` | batching.dfy | the batch driver of `add_labels` and `add_organization_attribution`: a preallocated array filled by index in a batch loop and a row loop |
| `Cleaning` | cleaning.dfy | `clean_issues_df`, `prepare_issues_df` and `postprocess_issues` |
| `Calendar` | calendar.dfy | the UTC year of a timestamp, which the feedback round reads |
| `Pipeline` | pipeline.dfy | `load_run_metadata`, the incremental filter loop, the feedback round and the control flow of `main` |

The remote services are oracles: total functions from the text sent to `Success(reply)` or
`Failure(error)`. Timestamps are integers, in microseconds since the epoch, the unit of a
polars `Datetime` column. In `main`, the outcome of each step whose failure the model
follows is a field of an `Environment`: the fetch, the two client initialisations and the
partition write, and also the metadata write, whose failure `save_run_metadata` only logs. The metadata file is an input value, and an output value of the run.

Behaviour of the code that is easy to miss:

- **Trailing slashes.** Only one trailing `/` is removed, so a page can still end in `/`
  (`"x//"` becomes `"x/"`, `Cleaning.NormaliseOneSlash`).
- **Failures that end a run.** These are not only fetch failures. A run also ends with
  `False` when either client cannot be initialised, or when the partition cannot be written.
  A failed metadata write is only logged, and the run still reports success
  (`Pipeline.Run`).
- **Postprocessing is not idempotent.** It is only idempotent when no surviving page still
  ends in `/` and no page has become an excluded page by losing its slash. `"/wtf/"`
  survives one pass and is dropped by a second (`Cleaning.PostprocessNotIdempotent`).
- **No prepared row ends the run.** When every new issue is dropped by cleaning or
  preparation, `add_labels` never enters its batch loop, so it returns the table without a
  labels column, and `postprocess_issues` raises when it reads that column. The run reports
  failure and keeps the metadata (`Pipeline.NothingPreparedFails`).
- **The watermark can reset.** When some rows survive preparation but every one is on an
  excluded page, postprocessing drops them all. The run then writes an empty partition and
  saves an empty watermark, so the next run processes the whole history again
  (`Pipeline.EmptyTableResetsWatermark`).

As written, `main` passes two arguments to `postprocess_issues`, which takes one
(ingest.py:401, utils.py:85). `add_labels` also writes the column `labels_v1`, while
postprocessing reads `labels` (ingest.py:263, utils.py:94). With new issues to process, the
run therefore always ends in a caught exception. The model joins the stages through a
single `labels` column and a one-argument postprocess. It models what each function does,
not that runtime error.

## Model

| member | source | states |
|---|---|---|
| Text.Strip | ingest.py:71-73 | the result neither begins nor ends with whitespace, and is no longer than the input |
| Text.StripPadded | ingest.py:204 | surrounding a stripped text with whitespace on both sides and stripping again gives the text back |
| Text.StripStripped | ingest.py:204 | stripping is idempotent on a stripped text |
| Text.SplitOn | ingest.py:204 | `str.split(",")`: at least one piece; characterised by `SplitOnJoin`, `SplitJoin` and `SplitOnConcat` |
| Text.SplitOnJoin | ingest.py:204 | joining the pieces of `split(",")` with commas gives the input back |
| Text.SplitJoin | ingest.py:204 | splitting a comma-join of comma-free pieces gives the pieces back (at least one piece) |
| Text.SplitOnConcat | ingest.py:204 | splitting `a + "," + b` gives the pieces of `a` followed by those of `b` |
| Text.SplitLines | ingest.py:72 | `str.splitlines()`: no piece holds a line boundary; its value on every text is fixed by `SplitLinesNoBreak`, `SplitLinesCut` and `SplitLinesCrLf` |
| Text.SplitLinesNoBreak | ingest.py:72 | a text without boundaries is one line (an unterminated last line is kept), and the empty text has no lines |
| Text.SplitLinesCut | ingest.py:72 | any boundary character ends the line before it and splitting resumes right after it; a lone `'\r'` does so when no `'\n'` follows |
| Text.SplitLinesCrLf | ingest.py:72 | `"\r\n"` is one boundary: it ends the line before it and no empty line appears between the two characters |
| Text.SplitLinesJoin | ingest.py:72 | `splitlines` of the newline-join of break-free lines gives the lines back |
| Text.RemoveAll | utils.py:67 | literal `str.replace_all(pat, "")`; its value on every text is fixed by `RemoveAllFirstMatch` and `NoMatchUnchanged` |
| Text.RemoveAllFirstMatch | utils.py:67 | the first occurrence of the pattern is deleted, everything before it is kept unchanged and the removal continues right after it |
| Text.NoMatchUnchanged | utils.py:67 | a text in which the pattern does not occur is left unchanged |
| Text.RemoveAllLength | utils.py:67 | literal `replace_all(pat, "")` shortens the text by the pattern length once per non-overlapping match |
| Text.RemoveAllUnchangedIff | utils.py:67 | the removal leaves a text unchanged exactly when the pattern does not occur in it |
| Text.StripSuffix | utils.py:108 | with the suffix present, result plus suffix is the input; otherwise the input is unchanged |
| Vocabulary.LabelLines | ingest.py:70-74 | every entry is non-empty, stripped and does not start with `#`; the entries are exactly the stripped kept lines |
| Vocabulary.ParseLabelConfig | ingest.py:70-74 | every label of the file is a valid label; the empty string is never a label |
| Vocabulary.LabelLinesConcat | ingest.py:70-74 | the labels keep the file's line order |
| Vocabulary.ParseLabelConfigRoundTrip | ingest.py:70-74 | a file written as one valid label per line reads back, in order, as exactly those labels |
| Vocabulary.Tokens | ingest.py:204 | a reply always yields at least one token |
| Vocabulary.ValidateLabels | ingest.py:202-205 | a label is returned exactly when it is allowed and is one of the reply's stripped tokens |
| Vocabulary.ValidateLabelsMultiplicity | ingest.py:204-205 | an allowed token is returned as often as the reply holds it, so duplicates are kept |
| Vocabulary.ValidateLabelsConcat | ingest.py:204-205 | the result follows reply order: `a + "," + b` validates to `a`'s labels followed by `b`'s |
| Vocabulary.ValidateBlankReply | ingest.py:202-205 | a blank reply gives no labels when the blank token is not allowed |
| Vocabulary.ValidateLabelsExample | ingest.py:202-205 | `"A, C, B"` with allowed `["A", "B"]` gives `["A", "B"]` |
| Vocabulary.SingleToken | ingest.py:202-205 | a comma-free reply gives its stripped token if allowed, else nothing |
| Clients.SentimentScore | ingest.py:158-175 | 0.0 for empty text whatever the service does, 0.0 when the call raises, the service's score otherwise |
| Clients.EmptyTextIgnoresService | ingest.py:163-164 | for empty text the score does not depend on the service |
| Clients.AddSentimentScores | ingest.py:178-186 | one score per row, from the row's cleaned description, nothing else changed |
| Clients.ClassifyIssueMultilabel | ingest.py:208-232 | no labels when the call raises; otherwise the validated stripped reply; every label is from the vocabulary |
| Clients.AttributeOrganization | ingest.py:283-306 | "Unklar" when the call raises; otherwise the stripped reply, which has no surrounding whitespace |
| Batching.BatchRanges | ingest.py:243-245 | ceil(n/10) batches, each non-empty and at most ten rows, contiguous, from 0 to n |
| Batching.BatchRangesPartition | ingest.py:240-246 | row k lies in batch k/10 and in no other batch |
| Batching.Pacing | ingest.py:253-259 | the seconds slept over a run of calls, 2 after each returned call and 5 after each raised one; characterised by `PacingAllSucceed` and the `EnrichInBatches` contract |
| Batching.PacingAllSucceed | ingest.py:253-259 | when no call raises, the pause is two seconds per row |
| Batching.FillRow | ingest.py:249-259 | one iteration of the inner loop: the slots of the rows up to and including this one hold their calls' results or the fallback, the later slots still hold the preallocated value, and the row's pause is added |
| Batching.FillBatch | ingest.py:248-259 | the inner `for j` loop: after it, the rows of the batch are filled as `FilledUpTo` says, the called rows are `0 .. end - 1`, and the pause is `Pacing` of the rows so far |
| Batching.EnrichInBatches | ingest.py:235-267 | one entry per row; entry k is row k's result or the fallback if its call raised; batches as `BatchRanges`; rows called once each, in order; pause 2 s per returned call and 5 s per raised one |
| Batching.LabelColumn | ingest.py:235-267 | every row gets a label list from the vocabulary, empty when its call raised |
| Batching.OrgColumn | ingest.py:309-340 | every row gets an organisation, "Unklar" when its call raised |
| Batching.AddLabels | ingest.py:235-267 | the batched loop computes `LabelColumn` with `BatchRanges` batches and two seconds per row |
| Batching.AddOrganizationAttribution | ingest.py:309-340 | the batched loop computes `OrgColumn` with `BatchRanges` batches and two seconds per row |
| Cleaning.Dedup | utils.py:61 | output rows come from the input, no two share (title, description), and the key sets agree |
| Cleaning.Project | utils.py:50-54 | the author columns equal the nested author fields; iid, title, description and `created_at` are kept |
| Cleaning.CleanIssues | utils.py:49-62 | `clean_issues_df`; characterised by `CleanIssuesSound`, `CleanIssuesComplete`, `CleanIssuesCount` and `DuplicatesCollapse` |
| Cleaning.CleanIssuesSound | utils.py:49-62 | every cleaned row projects a non-excluded input row, and no two cleaned rows share (title, description) |
| Cleaning.CleanIssuesComplete | utils.py:60-61 | every non-excluded input row's key is the key of some cleaned row |
| Cleaning.CleanIssuesCount | utils.py:60-61 | the cleaned table has exactly one row per distinct (title, description) of the non-excluded input rows |
| Cleaning.DuplicatesCollapse | utils.py:60-61 | two issues with the same title and description clean to exactly one row when either is not excluded, and to none when both are |
| Cleaning.CleanDescription | utils.py:66-68 | `desc_clean` is shorter by 18 characters per boilerplate match, and equals the description exactly when no boilerplate occurs |
| Cleaning.CleanDescriptionFirstMatch | utils.py:66-68 | `desc_clean` keeps the description up to its first boilerplate line, drops that line and cleans the rest the same way |
| Cleaning.FormPage | utils.py:71-80 | for a form title, a stripped page no longer than the rest of the title; otherwise "Via OpenCode" |
| Cleaning.FormPageRoundTrip | utils.py:71-78 | a form title built from a page and surrounding whitespace gives that page back |
| Cleaning.PrepareIssues | utils.py:64-83 | `prepare_issues_df`; characterised by `PrepareIssuesExact` and `PrepareIssuesConcat` |
| Cleaning.PrepareIssuesExact | utils.py:64-83 | a prepared row is the annotation of an input row with a description whose cleaned form is not excluded, and every such row is prepared |
| Cleaning.PrepareIssuesConcat | utils.py:82 | preparation keeps the rows' order |
| Cleaning.DefaultLabel | utils.py:93-98 | an empty list becomes ["Unklar"], a non-empty list is unchanged, a null one stays null |
| Cleaning.NormalisePage | utils.py:105-110 | "/" becomes "home"; otherwise one trailing "/" is removed, and a page without one is unchanged |
| Cleaning.PostprocessIssues | utils.py:85-112 | `postprocess_issues`; characterised by `PostprocessIssuesExact`, `PostprocessIssuesConcat`, `PostprocessIdempotent`, `PostprocessAllExcluded` and `PostprocessNotIdempotent` |
| Cleaning.PostprocessIssuesExact | utils.py:85-112 | the survivors are exactly the rows whose page is not excluded, each with default label and normalised page; labels never empty |
| Cleaning.PostprocessIssuesConcat | utils.py:85-112 | postprocessing keeps the rows' order |
| Cleaning.PostprocessIdempotent | utils.py:85-112 | a second pass changes nothing when no output page ends in "/" or is excluded |
| Cleaning.NormaliseOneSlash | utils.py:108 | `"x//"` becomes `"x/"` |
| Cleaning.PostprocessKeepsPage | utils.py:100-102 | a row on a page that is not excluded survives postprocessing, as its postprocessed form |
| Cleaning.PostprocessAllExcluded | utils.py:100-102 | a table whose every page is excluded postprocesses to no rows |
| Cleaning.PostprocessNotIdempotent | utils.py:101-110 | a `"/wtf/"` row survives the first pass and is dropped by the second |
| Calendar.YearOf | ingest.py:406 | `dt.year()` of a UTC instant; characterised by `YearOf2026`, `YearOfIs2026` and `YearOfBoundaries` |
| Calendar.YearOf2026 | ingest.py:406 | every instant of 2026 (UTC) has year 2026 |
| Calendar.CivilYearOutside2026 | ingest.py:406 | no day before 2026-01-01 or after 2026-12-31 has year 2026 |
| Calendar.YearOfIs2026 | ingest.py:406 | an instant has year 2026 exactly when it lies in [2026-01-01, 2027-01-01) UTC |
| Calendar.YearOfBoundaries | ingest.py:406 | the last instant of 2025 and the first of 2027 have years 2025 and 2027 |
| Pipeline.LoadRunMetadata | ingest.py:80-88 | the stored metadata, or no watermark and zero fetched issues when the file is missing or unreadable |
| Pipeline.DefaultsProcessEverything | ingest.py:82-88 | without readable metadata every fetched issue is processed |
| Pipeline.NewIssues | ingest.py:359-371 | the order-preserving selection of issues created after the watermark; characterised by `NewIssuesExact`, `NewIssuesStrict` and `DefaultsProcessEverything` |
| Pipeline.FilterNewIssues | ingest.py:359-371 | no watermark keeps all issues; otherwise exactly those created strictly after it, in order |
| Pipeline.NewIssuesExact | ingest.py:367 | with a watermark, an issue is kept iff it is fetched and created after the watermark |
| Pipeline.NewIssuesStrict | ingest.py:367 | of issues at T-1, T and T+1 only the T+1 issue is kept |
| Pipeline.FeedbackRound | ingest.py:405-410 | the round is 1 or 2, and 2 exactly for 2026 |
| Pipeline.FeedbackRoundOf2026 | ingest.py:405-410 | an issue gets round 2 exactly when it was created in 2026 (UTC); those of the instants just outside 2026 get round 1 |
| Pipeline.AddFeedbackRounds | ingest.py:403-410 | step 7, the round of each row from its creation year; characterised by `FeedbackRound` and `FeedbackRoundOf2026` |
| Pipeline.LatestCreated | ingest.py:425-427 | none exactly for no rows; otherwise a `created_at` of some row, no smaller than any row's |
| Pipeline.NextMetadata | ingest.py:424-430 | the saved metadata: latest `created_at` of the written rows, new-issue count, row count; characterised by `LatestCreated` and `WatermarkAdvances` |
| Pipeline.Processed | ingest.py:379-410 | steps 2 to 7 on the new issues; characterised by `ProcessedRowsFinal`, `EmptyTableWhenPagesExcluded` and `KeptPageLeavesRow` |
| Pipeline.Run | ingest.py:344-438 | the outcome of `main`; characterised by `FailedRunKeepsMetadata`, `NothingNewChangesNothing`, `NothingPreparedFails`, `MetadataSavedOnlyOnCompletion`, `WatermarkAdvances` and `EmptyTableResetsWatermark` |
| Pipeline.EnrichNewIssues | ingest.py:385-410 | steps 3 to 7 as run by `main`, with the two batch drivers as loops: the table `Processed` describes, and whether the label driver ran a batch, which it does exactly when some row was prepared |
| Pipeline.RunPipeline | ingest.py:344-438 | the imperative `main` computes the outcome `Run` describes, failing when no label batch ran |
| Pipeline.FailedRunKeepsMetadata | ingest.py:436-438 | a failed run leaves the metadata untouched and writes no partition |
| Pipeline.NothingNewChangesNothing | ingest.py:373-375 | with no new issues a run succeeds and changes nothing |
| Pipeline.MetadataSavedOnlyOnCompletion | ingest.py:424-434 | the metadata changes only when every step completed, and then records the latest `created_at` of the written rows, the new-issue count and the row count |
| Pipeline.ProcessedRowsFinal | ingest.py:379-410 | every written row has non-empty labels from the vocabulary or "Unklar", a score, an organisation and round 1 or 2; it projects a new issue, its description is no placeholder, its iid is not 1..8 |
| Pipeline.WatermarkAdvances | ingest.py:424-430 | the saved watermark is greater than the previous one and no earlier than any written row, so no written issue is new to the next run |
| Pipeline.NothingPreparedFails | ingest.py:379-438 | when new issues exist but none survives cleaning and preparation, the run fails, keeps the metadata and writes no partition |
| Pipeline.EnrichedPages | ingest.py:385-397 | the three enrichment steps keep the prepared rows, in order, with their pages |
| Pipeline.EmptyTableWhenPagesExcluded | ingest.py:399-401 | when every prepared row is on an excluded page, the written table is empty |
| Pipeline.KeptPageLeavesRow | ingest.py:399-401 | a prepared row on a page that is not excluded leaves the written table non-empty |
| Pipeline.EmptyTableResetsWatermark | ingest.py:425-427 | when rows survive preparation but all are on excluded pages, the run succeeds with an empty partition, saves no watermark, and the next run processes every issue again |

## Left out

- `fetch_all_gitlab_issues` (utils.py:4-47): HTTP pagination. The fetched listing, or the error that ended it, is an input.
- The prompts, the client construction and the remote calls (ingest.py:134-154, 188-199, 210-228, 270-303): each service is an oracle from the text it is sent to its reply or failure. The label list and system instruction that go into the prompt are not inputs of the oracle.
- Sentiment scores: they are whatever the service returns. No [-1, 1] bound is checked by the code, and none is claimed.
- `time.sleep`: modelled only as a count of seconds.
- Timestamp parsing and formatting (`strptime`, `fromisoformat`, `isoformat() + "Z"`, `utcnow`): timestamps are integers. The partition's date name, and a timestamp that fails to parse, are not modelled.
- JSON reading and writing, parquet writing, directory creation and the upload to cloud storage: only their success or failure is an input. An upload failure is returned rather than raised, and does not change the outcome.
- Reading the label file at import time: its text is an input; a missing file (which stops the script before `main`) is not modelled.
- A metadata file whose JSON lacks keys or holds other types: the file is absent, unreadable, or holds well-typed metadata.
- The unused constant `EXCLUDE_PAGES` at ingest.py:67 plays no part in the run; postprocessing uses its own two-page list (utils.py:101).
- Cleaning.Dedup: polars `unique` keeps an arbitrary survivor in an arbitrary order. The model keeps the last occurrence, but the proved contracts speak only of key sets, provenance and distinctness, not of which row of a duplicate group survives or of row order.
- Batching.AddLabels: when there are no rows, `add_labels` returns the table without a labels column, which a sequence of rows cannot show. The method returns the batches it walked, and `Pipeline.RunPipeline` fails when there were none, the point where postprocessing raises on the missing column.
- Batching.EnrichInBatches: the driver's own `except` branch cannot be reached from the two real clients, which catch every exception themselves. It is modelled generically, with per-row failure, and the two instances show that the short pause is always taken.
