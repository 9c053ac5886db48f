/**
 * The batch enrichment driver of ingest.py (`add_labels`, `add_organization_attribution`):
 * a result list preallocated with one slot per row, filled by index in nested loops over
 * batches of ten rows, with the working column replaced by the list after every batch.
 * Rate-limit pauses are counted in seconds instead of slept.
 */
module Batching {
  import opened Wrappers
  import opened Seqs
  import opened Records
  import opened Clients

  const BatchSize: nat := 10
  const RateLimitSleep: nat := 2
  const RateLimitErrorSleep: nat := 5

  /** The rows `[start, end)` of one batch. */
  datatype Batch = Batch(start: nat, end: nat)

  function Min(a: int, b: int): int {
    if a <= b then a else b
  }

  /** The batches `range(0, n, 10)` walks: batch `b` covers rows `[10 b, min(10 b + 10, n))`. */
  function BatchRanges(n: nat): (batches: seq<Batch>)
    ensures |batches| * BatchSize >= n
    ensures |batches| == 0 || (|batches| - 1) * BatchSize < n
    ensures forall b :: 0 <= b < |batches| ==>
      batches[b].start < batches[b].end <= n && batches[b].end - batches[b].start <= BatchSize
    ensures n > 0 ==> batches[0].start == 0 && batches[|batches| - 1].end == n
    ensures forall b :: 0 <= b < |batches| - 1 ==> batches[b].end == batches[b + 1].start
  {
    var count := (n + BatchSize - 1) / BatchSize;
    seq(count, b requires 0 <= b < count => Batch(b * BatchSize, Min(b * BatchSize + BatchSize, n)))
  }

  /** The batches partition the rows: row `k` lies in batch `k / 10` and in no other. */
  lemma BatchRangesPartition(n: nat, k: nat)
    requires k < n
    ensures k / BatchSize < |BatchRanges(n)|
    ensures forall b :: 0 <= b < |BatchRanges(n)| ==>
      (BatchRanges(n)[b].start <= k < BatchRanges(n)[b].end <==> b == k / BatchSize)
  {
    var batches := BatchRanges(n);
    forall b | 0 <= b < |batches|
      ensures batches[b].start <= k < batches[b].end <==> b == k / BatchSize
    {
      assert batches[b].start == b * BatchSize;
    }
  }

  /** The seconds slept while calling `call` on `items` in order: 2 after a call that returns,
      5 after one that raises. */
  function Pacing<I, T>(items: seq<I>, call: I -> Result<T>): nat {
    if items == [] then 0
    else
      Pacing(items[..|items| - 1], call)
      + (if call(items[|items| - 1]).Success? then RateLimitSleep else RateLimitErrorSleep)
  }

  /** When no call raises, every row costs the short pause. */
  lemma {:induction false} PacingAllSucceed<I, T>(items: seq<I>, call: I -> Result<T>)
    requires forall k :: 0 <= k < |items| ==> call(items[k]).Success?
    ensures Pacing(items, call) == RateLimitSleep * |items|
  {
    if items != [] {
      PacingAllSucceed(items[..|items| - 1], call);
    }
  }

  /** `0, 1, ..., n - 1`. */
  function Range(n: nat): (r: seq<nat>)
    ensures |r| == n && forall k :: 0 <= k < n ==> r[k] == k
  {
    seq(n, k => k)
  }

  /** The slots after the first `done` rows have been called: an outcome for each of those,
      the preallocated value for the rest. */
  ghost predicate FilledUpTo<I, T>(slots: seq<T>, items: seq<I>, call: I -> Result<T>, initial: T, fallback: T, done: nat)
  {
    |slots| == |items| && done <= |items|
    && (forall k :: 0 <= k < done ==> slots[k] == call(items[k]).GetOr(fallback))
    && (forall k :: done <= k < |items| ==> slots[k] == initial)
  }

  lemma FillStep<I, T>(slots: seq<T>, items: seq<I>, call: I -> Result<T>, initial: T, fallback: T, done: nat)
    requires FilledUpTo(slots, items, call, initial, fallback, done) && done < |items|
    ensures FilledUpTo(slots[done := call(items[done]).GetOr(fallback)], items, call, initial, fallback, done + 1)
  {
  }

  lemma PacingStep<I, T>(items: seq<I>, call: I -> Result<T>, done: nat)
    requires done < |items|
    ensures Pacing(items[..done + 1], call)
      == Pacing(items[..done], call) + (if call(items[done]).Success? then RateLimitSleep else RateLimitErrorSleep)
  {
    assert items[..done + 1][..done] == items[..done];
  }

  lemma RangeStep(n: nat)
    ensures Range(n + 1) == Range(n) + [n]
  {
  }

  /** One row of the row loop: the call's outcome goes to the row's slot, and its pause is added. */
  method FillRow<I, T>(slots: array<T>, items: seq<I>, call: I -> Result<T>, initial: T, fallback: T,
                       row: nat, pause0: nat)
    returns (pause: nat)
    requires row < |items| && FilledUpTo(slots[..], items, call, initial, fallback, row)
    modifies slots
    ensures FilledUpTo(slots[..], items, call, initial, fallback, row + 1)
    ensures pause == pause0 + (if call(items[row]).Success? then RateLimitSleep else RateLimitErrorSleep)
  {
    ghost var before := slots[..];
    FillStep(before, items, call, initial, fallback, row);
    match call(items[row]) {
      case Success(v) =>
        slots[row] := v;
        pause := pause0 + RateLimitSleep;
      case Failure(_) =>
        slots[row] := fallback;
        pause := pause0 + RateLimitErrorSleep;
    }
    assert slots[..] == before[row := call(items[row]).GetOr(fallback)];
  }

  /** The row loop of one batch: calls the rows `[start, end)` in order, writing each
      outcome to its slot and adding its pause. */
  method FillBatch<I, T>(slots: array<T>, items: seq<I>, call: I -> Result<T>, initial: T, fallback: T,
                         start: nat, end: nat, called0: seq<nat>, pause0: nat)
    returns (called: seq<nat>, pause: nat)
    requires start <= end <= |items|
    requires FilledUpTo(slots[..], items, call, initial, fallback, start)
    requires called0 == Range(start) && pause0 == Pacing(items[..start], call)
    modifies slots
    ensures FilledUpTo(slots[..], items, call, initial, fallback, end)
    ensures called == Range(end) && pause == Pacing(items[..end], call)
  {
    called, pause := called0, pause0;
    for j := 0 to end - start
      invariant FilledUpTo(slots[..], items, call, initial, fallback, start + j)
      invariant called == Range(start + j)
      invariant pause == Pacing(items[..start + j], call)
    {
      var row := start + j;
      PacingStep(items, call, row);
      RangeStep(row);
      pause := FillRow(slots, items, call, initial, fallback, row, pause);
      called := called + [row];
    }
  }

  /** Batch `b` starts at row `b * BatchSize` and ends at the next multiple of `BatchSize` or at `n`. */
  lemma NextBatch(n: nat, b: nat)
    requires b * BatchSize < n
    ensures b < |BatchRanges(n)|
    ensures BatchRanges(n)[b] == Batch(b * BatchSize, Min(b * BatchSize + BatchSize, n))
  {
  }

  /**
   * The shared shape of `add_labels` and `add_organization_attribution`. A slot per row is
   * preallocated with `initial`; batch by batch, each row's call is made and its value, or
   * `fallback` when the call raises, is written to the row's slot; after each batch the
   * working column is replaced by the slots. Returns that column, the batches walked, the
   * rows called in call order, and the seconds paused.
   */
  method EnrichInBatches<I, T>(items: seq<I>, call: I -> Result<T>, initial: T, fallback: T)
    returns (column: seq<T>, batches: seq<Batch>, called: seq<nat>, pause: nat)
    ensures |column| == |items|
    ensures forall k :: 0 <= k < |items| ==> column[k] == call(items[k]).GetOr(fallback)
    ensures batches == BatchRanges(|items|)
    ensures called == Range(|items|)
    ensures pause == Pacing(items, call)
  {
    var n := |items|;
    var slots := new T[n](_ => initial);
    column, batches, called, pause := [], [], [], 0;
    var i := 0;
    ghost var done := 0;
    while i < n
      invariant |batches| * BatchSize == i
      invariant |batches| <= |BatchRanges(n)|
      invariant done == Min(i, n)
      invariant batches == BatchRanges(n)[..|batches|]
      invariant FilledUpTo(slots[..], items, call, initial, fallback, done)
      invariant called == Range(done)
      invariant pause == Pacing(items[..done], call)
      invariant i == 0 ==> column == []
      invariant i > 0 ==> column == slots[..]
    {
      var endIdx := Min(i + BatchSize, n);
      NextBatch(n, |batches|);
      batches := batches + [Batch(i, endIdx)];
      called, pause := FillBatch(slots, items, call, initial, fallback, i, endIdx, called, pause);
      done := endIdx;
      column := slots[..];
      i := i + BatchSize;
    }
    assert items[..n] == items;
  }

  /** The label column the driver produces: every row labelled by the classifier. */
  function LabelColumn(rows: seq<Issue>, service: LabelService, vocabulary: seq<string>): (labeled: seq<Issue>)
    ensures |labeled| == |rows|
    ensures forall k :: 0 <= k < |rows| ==>
      labeled[k] == rows[k].(labels := Some(ClassifyIssueMultilabel(service, rows[k].descClean, vocabulary)))
    ensures forall k :: 0 <= k < |rows| && service(rows[k].descClean).Failure? ==> labeled[k].labels == Some([])
    ensures forall k, l :: 0 <= k < |rows| && l in labeled[k].labels.value ==> l in vocabulary
  {
    Map(rows, (x: Issue) => x.(labels := Some(ClassifyIssueMultilabel(service, x.descClean, vocabulary))))
  }

  /** The organisation column the driver produces: every row attributed. */
  function OrgColumn(rows: seq<Issue>, service: OrgService): (attributed: seq<Issue>)
    ensures |attributed| == |rows|
    ensures forall k :: 0 <= k < |rows| ==>
      attributed[k] == rows[k].(org := Some(AttributeOrganization(service, rows[k].base.title, rows[k].descClean)))
    ensures forall k :: 0 <= k < |rows| && service(rows[k].base.title, rows[k].descClean).Failure? ==>
      attributed[k].org == Some(Unklar)
  {
    Map(rows, (x: Issue) => x.(org := Some(AttributeOrganization(service, x.base.title, x.descClean))))
  }

  function DescOf(x: Issue): string {
    x.descClean
  }

  function TitleAndDescOf(x: Issue): (string, string) {
    (x.base.title, x.descClean)
  }

  /** `add_labels`: one label list per row, in row order, in batches of ten. The classifier
      absorbs a failing call itself, so the driver's own fallback is never taken and every
      row costs the short pause. */
  method AddLabels(rows: seq<Issue>, service: LabelService, vocabulary: seq<string>)
    returns (labeled: seq<Issue>, batches: seq<Batch>, pause: nat)
    ensures labeled == LabelColumn(rows, service, vocabulary)
    ensures batches == BatchRanges(|rows|)
    ensures pause == RateLimitSleep * |rows|
  {
    var classify := (d: string) => Success(ClassifyIssueMultilabel(service, d, vocabulary));
    var descs := Map(rows, DescOf);
    var column, called;
    column, batches, called, pause := EnrichInBatches(descs, classify, [], []);
    PacingAllSucceed(descs, classify);
    labeled := seq(|rows|, k requires 0 <= k < |rows| => rows[k].(labels := Some(column[k])));
  }

  /** `add_organization_attribution`: one organisation per row, in row order, in batches of
      ten; preallocated with "" and replaced by "Unklar" for a row whose call raises. */
  method AddOrganizationAttribution(rows: seq<Issue>, service: OrgService)
    returns (attributed: seq<Issue>, batches: seq<Batch>, pause: nat)
    ensures attributed == OrgColumn(rows, service)
    ensures batches == BatchRanges(|rows|)
    ensures pause == RateLimitSleep * |rows|
  {
    var attribute := (td: (string, string)) => Success(AttributeOrganization(service, td.0, td.1));
    var pairs := Map(rows, TitleAndDescOf);
    var column, called;
    column, batches, called, pause := EnrichInBatches(pairs, attribute, "", Unklar);
    PacingAllSucceed(pairs, attribute);
    attributed := seq(|rows|, k requires 0 <= k < |rows| => rows[k].(org := Some(column[k])));
  }
}
