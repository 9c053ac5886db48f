/**
 * The three table transformations of utils.py, each as a function over a sequence of rows:
 * `clean_issues_df` (flatten the author, drop excluded issues, one row per title and
 * description, project), `prepare_issues_df` (strip the form boilerplate, derive the form
 * page, drop sentinel descriptions) and `postprocess_issues` (default label, excluded
 * pages, trailing slash).
 */
module Cleaning {
  import opened Wrappers
  import opened Seqs
  import opened Text
  import opened Records

  // ---- clean_issues_df ----

  /** The deduplication key: two issues are duplicates when title and description agree. */
  datatype Key = Key(title: string, description: Option<string>)

  function KeyOf(x: RawIssue): Key {
    Key(x.title, x.description)
  }

  function Keys(rows: seq<RawIssue>): set<Key> {
    set x | x in rows :: KeyOf(x)
  }

  /** No two rows share a key. */
  predicate DistinctKeys(rows: seq<RawIssue>) {
    forall i, j :: 0 <= i < j < |rows| ==> KeyOf(rows[i]) != KeyOf(rows[j])
  }

  /**
   * polars `unique(subset=["title", "description"])`: one row per key. Which duplicate
   * survives, and in which order, polars leaves open; this model keeps the last, and only
   * the key-set facts below are claimed.
   */
  function Dedup(rows: seq<RawIssue>): (r: seq<RawIssue>)
    ensures forall x :: x in r ==> x in rows
    ensures DistinctKeys(r)
    ensures Keys(r) == Keys(rows)
  {
    if rows == [] then []
    else
      var rest := Dedup(rows[1..]);
      KeysCons(rows);
      if KeyOf(rows[0]) in Keys(rest) then rest
      else
        assert forall x :: x in [rows[0]] + rest <==> x == rows[0] || x in rest;
        [rows[0]] + rest
  }

  /** The selection `~iid.is_in(rows_to_exclude)`. */
  function NotExcluded(rowsToExclude: seq<int>): RawIssue -> bool {
    (x: RawIssue) => x.iid !in rowsToExclude
  }

  /** The fourteen kept columns, the author struct flattened into three of them. */
  function Project(x: RawIssue): (c: CleanIssue)
    ensures c.authorId == x.author.id && c.authorName == x.author.name && c.authorState == x.author.state
    ensures c.iid == x.iid && c.title == x.title && c.description == x.description
    ensures c.createdAt == x.createdAt
  {
    CleanIssue(x.iid, x.title, x.description, x.state, x.createdAt, x.updatedAt, x.closedAt,
      x.author.id, x.author.name, x.author.state,
      x.userNotesCount, x.upvotes, x.downvotes, x.references)
  }

  /** `clean_issues_df(df, COLUMNS_TO_KEEP, rows_to_exclude)`. */
  function CleanIssues(rows: seq<RawIssue>, rowsToExclude: seq<int>): seq<CleanIssue> {
    Map(Dedup(Filter(rows, NotExcluded(rowsToExclude))), Project)
  }

  /** The key of a cleaned row. */
  function CleanKey(c: CleanIssue): Key {
    Key(c.title, c.description)
  }

  /** Every cleaned row is the projection of a kept input row, no excluded issue survives,
      and no two cleaned rows share a key. */
  lemma CleanIssuesSound(rows: seq<RawIssue>, rowsToExclude: seq<int>)
    ensures forall c :: c in CleanIssues(rows, rowsToExclude) ==>
      c.iid !in rowsToExclude && exists x :: x in rows && x.iid !in rowsToExclude && c == Project(x)
    ensures forall i, j :: 0 <= i < j < |CleanIssues(rows, rowsToExclude)| ==>
      CleanKey(CleanIssues(rows, rowsToExclude)[i]) != CleanKey(CleanIssues(rows, rowsToExclude)[j])
  {
    var kept := Filter(rows, NotExcluded(rowsToExclude));
    var unique := Dedup(kept);
    var r := CleanIssues(rows, rowsToExclude);
    forall c | c in r
      ensures c.iid !in rowsToExclude && exists x :: x in rows && x.iid !in rowsToExclude && c == Project(x)
    {
      var k :| 0 <= k < |r| && r[k] == c;
      assert unique[k] in kept;
    }
    forall i, j | 0 <= i < j < |r|
      ensures CleanKey(r[i]) != CleanKey(r[j])
    {
      assert CleanKey(r[i]) == KeyOf(unique[i]) && CleanKey(r[j]) == KeyOf(unique[j]);
    }
  }

  /** Every key of a kept input row is the key of some cleaned row (and by the soundness
      lemma every cleaned row's key is that of a kept input row). */
  lemma CleanIssuesComplete(rows: seq<RawIssue>, rowsToExclude: seq<int>, x: RawIssue)
    requires x in rows && x.iid !in rowsToExclude
    ensures exists c :: c in CleanIssues(rows, rowsToExclude) && CleanKey(c) == KeyOf(x)
  {
    var kept := Filter(rows, NotExcluded(rowsToExclude));
    var unique := Dedup(kept);
    assert x in kept;
    assert KeyOf(x) in Keys(unique) by {
      assert KeyOf(x) in Keys(kept);
    }
    var y :| y in unique && KeyOf(y) == KeyOf(x);
    var k :| 0 <= k < |unique| && unique[k] == y;
    assert CleanKey(CleanIssues(rows, rowsToExclude)[k]) == KeyOf(x);
  }

  lemma KeysCons(rows: seq<RawIssue>)
    requires rows != []
    ensures Keys(rows) == {KeyOf(rows[0])} + Keys(rows[1..])
  {
    assert forall x :: x in rows <==> x == rows[0] || x in rows[1..];
  }

  lemma DistinctTail(rows: seq<RawIssue>)
    requires rows != [] && DistinctKeys(rows)
    ensures DistinctKeys(rows[1..])
    ensures KeyOf(rows[0]) !in Keys(rows[1..])
  {
    var rest := rows[1..];
    forall i, j | 0 <= i < j < |rest|
      ensures KeyOf(rest[i]) != KeyOf(rest[j])
    {
      assert rest[i] == rows[i + 1] && rest[j] == rows[j + 1];
    }
    forall x | x in rest
      ensures KeyOf(x) != KeyOf(rows[0])
    {
      var j :| 0 <= j < |rest| && rest[j] == x;
      assert rows[j + 1] == x;
    }
  }

  /** Rows with distinct keys have as many keys as rows. */
  lemma {:induction false} DistinctKeysCount(rows: seq<RawIssue>)
    requires DistinctKeys(rows)
    ensures |Keys(rows)| == |rows|
  {
    if rows != [] {
      DistinctTail(rows);
      DistinctKeysCount(rows[1..]);
      KeysCons(rows);
    }
  }

  /** The cleaned table has one row per distinct key of the kept input rows. */
  lemma CleanIssuesCount(rows: seq<RawIssue>, rowsToExclude: seq<int>)
    ensures |CleanIssues(rows, rowsToExclude)| == |Keys(Filter(rows, NotExcluded(rowsToExclude)))|
  {
    DistinctKeysCount(Dedup(Filter(rows, NotExcluded(rowsToExclude))));
  }

  /** Rows that all share one key have that key alone, or none when there are no rows. */
  lemma KeysOfOneKey(rows: seq<RawIssue>, k: Key)
    requires forall x :: x in rows ==> KeyOf(x) == k
    ensures Keys(rows) == if rows == [] then {} else {k}
  {
    if rows != [] {
      assert rows[0] in rows;
    }
  }

  /** Two issues with the same title and description clean to exactly one row when either
      is not excluded, and to none when both are. */
  lemma DuplicatesCollapse(a: RawIssue, b: RawIssue, rowsToExclude: seq<int>)
    requires KeyOf(a) == KeyOf(b)
    ensures a.iid !in rowsToExclude || b.iid !in rowsToExclude ==> |CleanIssues([a, b], rowsToExclude)| == 1
    ensures a.iid in rowsToExclude && b.iid in rowsToExclude ==> CleanIssues([a, b], rowsToExclude) == []
  {
    var p := NotExcluded(rowsToExclude);
    var kept := Filter([a, b], p);
    CleanIssuesCount([a, b], rowsToExclude);
    KeysOfOneKey(kept, KeyOf(a));
    if a.iid !in rowsToExclude {
      assert a in kept;
    } else if b.iid !in rowsToExclude {
      assert b in kept;
    } else {
      FilterNone([a, b], p);
    }
  }

  // ---- prepare_issues_df ----

  /** The boilerplate line the web form prepends to a description. */
  const FeedbackBoilerplate := "**Feedback:** <br>"

  /** The title prefix of an issue filed through the web form. */
  const FormTitlePrefix := "Feedback für die Seite"

  /** The page of an issue filed directly in the tracker. */
  const ViaOpenCode := "Via OpenCode"

  /** `desc_clean`: the description with every non-overlapping boilerplate occurrence
      removed, left to right. */
  function CleanDescription(d: string): (r: string)
    ensures |r| == |d| - |FeedbackBoilerplate| * Matches(d, FeedbackBoilerplate)
    ensures r == d <==> !ContainsInfix(d, FeedbackBoilerplate)
  {
    RemoveAllLength(d, FeedbackBoilerplate);
    RemoveAllUnchangedIff(d, FeedbackBoilerplate);
    RemoveAll(d, FeedbackBoilerplate)
  }

  /** Cleaning keeps the description up to the first boilerplate line, drops that line and
      cleans the rest. */
  lemma CleanDescriptionFirstMatch(d: string, i: nat)
    requires MatchAt(d, FeedbackBoilerplate, i)
    requires forall j: nat :: j < i ==> !MatchAt(d, FeedbackBoilerplate, j)
    ensures CleanDescription(d) == d[..i] + CleanDescription(d[i + |FeedbackBoilerplate|..])
  {
    RemoveAllFirstMatch(d, FeedbackBoilerplate, i);
  }

  predicate IsFromForm(title: string) {
    StartsWith(title, FormTitlePrefix)
  }

  /** `form_page`: for a form title, what follows the prefix with surrounding whitespace
      stripped; otherwise "Via OpenCode". */
  function FormPage(title: string): (page: string)
    ensures IsFromForm(title) ==> IsStripped(page, Polars) && |page| <= |title| - |FormTitlePrefix|
    ensures !IsFromForm(title) ==> page == ViaOpenCode
  {
    if IsFromForm(title) then Strip(title[|FormTitlePrefix|..], Polars) else ViaOpenCode
  }

  /** The page a form title was built from is read back, whatever whitespace surrounds it. */
  lemma FormPageRoundTrip(pre: string, page: string, post: string)
    requires AllIn(pre, Polars) && AllIn(post, Polars) && IsStripped(page, Polars)
    ensures IsFromForm(FormTitlePrefix + pre + page + post)
    ensures FormPage(FormTitlePrefix + pre + page + post) == page
  {
    var title := FormTitlePrefix + pre + page + post;
    assert title[..|FormTitlePrefix|] == FormTitlePrefix;
    assert title[|FormTitlePrefix|..] == pre + page + post;
    StripPadded(pre, page, post, Polars);
  }

  /** The new columns of a prepared row; the enrichment columns are still absent. Only rows
      with a description are ever annotated. */
  function Annotate(c: CleanIssue): Issue {
    Issue(c, CleanDescription(c.description.GetOr("")), IsFromForm(c.title), FormPage(c.title),
      None, None, None, None)
  }

  /** The selection `~desc_clean.is_in(desc_to_exclude)`. A null description gives a null
      `desc_clean`, and a null selection drops the row. */
  function KeepsDescription(descToExclude: seq<string>): CleanIssue -> bool {
    (c: CleanIssue) => c.description.Some? && CleanDescription(c.description.value) !in descToExclude
  }

  /** `prepare_issues_df(df, desc_to_exclude)`. */
  function PrepareIssues(rows: seq<CleanIssue>, descToExclude: seq<string>): seq<Issue> {
    Map(Filter(rows, KeepsDescription(descToExclude)), Annotate)
  }

  /** A prepared row is the annotation of an input row with a description whose cleaned
      form is not excluded, and every such input row is prepared. */
  lemma PrepareIssuesExact(rows: seq<CleanIssue>, descToExclude: seq<string>)
    ensures |PrepareIssues(rows, descToExclude)| <= |rows|
    ensures forall x :: x in PrepareIssues(rows, descToExclude) ==>
      x.base in rows && x.base.description.Some? && x == Annotate(x.base) && x.descClean !in descToExclude
    ensures forall c :: c in rows && c.description.Some? && CleanDescription(c.description.value) !in descToExclude ==>
      Annotate(c) in PrepareIssues(rows, descToExclude)
  {
    var kept := Filter(rows, KeepsDescription(descToExclude));
    var r := PrepareIssues(rows, descToExclude);
    forall x | x in r
      ensures x.base in rows && x.base.description.Some? && x == Annotate(x.base) && x.descClean !in descToExclude
    {
      var k :| 0 <= k < |r| && r[k] == x;
      assert kept[k] in kept;
    }
    forall c | c in rows && c.description.Some? && CleanDescription(c.description.value) !in descToExclude
      ensures Annotate(c) in r
    {
      assert c in kept;
      var k :| 0 <= k < |kept| && kept[k] == c;
      assert r[k] == Annotate(c);
    }
  }

  /** Preparation works row by row: it keeps the rows' order. */
  lemma PrepareIssuesConcat(a: seq<CleanIssue>, b: seq<CleanIssue>, descToExclude: seq<string>)
    ensures PrepareIssues(a + b, descToExclude) == PrepareIssues(a, descToExclude) + PrepareIssues(b, descToExclude)
  {
    FilterConcat(a, b, KeepsDescription(descToExclude));
    MapConcat(Filter(a, KeepsDescription(descToExclude)), Filter(b, KeepsDescription(descToExclude)), Annotate);
  }

  // ---- postprocess_issues ----

  /** The pages whose feedback is dropped. */
  const ExcludedPages := ["/beteiligung?utm_source=chatgpt.com", "/wtf"]

  /** An empty label list becomes ["Unklar"]; a null one stays null. */
  function DefaultLabel(labels: Option<seq<string>>): (r: Option<seq<string>>)
    ensures r.Some? <==> labels.Some?
    ensures r.Some? ==> r.value != []
    ensures labels.Some? && labels.value != [] ==> r == labels
    ensures labels == Some([]) ==> r == Some([Unklar])
  {
    match labels
    case Some(ls) => if ls == [] then Some([Unklar]) else labels
    case None => None
  }

  /** "/" becomes "home"; any other page loses one trailing "/". */
  function NormalisePage(page: string): (r: string)
    ensures page == "/" ==> r == "home"
    ensures page != "/" && EndsWith(page, "/") ==> r + "/" == page
    ensures page != "/" && !EndsWith(page, "/") ==> r == page
  {
    if page == "/" then "home" else StripSuffix(page, "/")
  }

  function WithDefaultLabel(x: Issue): Issue {
    x.(labels := DefaultLabel(x.labels))
  }

  function PageKept(x: Issue): bool {
    x.formPage !in ExcludedPages
  }

  function WithNormalPage(x: Issue): Issue {
    x.(formPage := NormalisePage(x.formPage))
  }

  /** `postprocess_issues(df)`: default label, then the page filter, then the page cleanup. */
  function PostprocessIssues(rows: seq<Issue>): seq<Issue> {
    Map(Filter(Map(rows, WithDefaultLabel), PageKept), WithNormalPage)
  }

  /** What postprocessing makes of one surviving row. */
  function PostprocessRow(x: Issue): Issue {
    WithNormalPage(WithDefaultLabel(x))
  }

  /** The surviving rows are exactly those whose page is not excluded before normalisation,
      each with its default label and normalised page; their labels are never empty. */
  lemma PostprocessIssuesExact(rows: seq<Issue>)
    ensures |PostprocessIssues(rows)| <= |rows|
    ensures forall y :: y in PostprocessIssues(rows) ==>
      exists x :: x in rows && x.formPage !in ExcludedPages && y == PostprocessRow(x)
    ensures forall x :: x in rows && x.formPage !in ExcludedPages ==> PostprocessRow(x) in PostprocessIssues(rows)
    ensures forall y :: y in PostprocessIssues(rows) && y.labels.Some? ==> y.labels.value != []
  {
    var labeled := Map(rows, WithDefaultLabel);
    var kept := Filter(labeled, PageKept);
    var r := PostprocessIssues(rows);
    forall y | y in r
      ensures exists x :: x in rows && x.formPage !in ExcludedPages && y == PostprocessRow(x)
    {
      var k :| 0 <= k < |r| && r[k] == y;
      assert kept[k] in labeled;
      var m :| 0 <= m < |labeled| && labeled[m] == kept[k];
      assert rows[m] in rows && y == PostprocessRow(rows[m]);
    }
    forall x | x in rows && x.formPage !in ExcludedPages
      ensures PostprocessRow(x) in r
    {
      var m :| 0 <= m < |rows| && rows[m] == x;
      assert labeled[m] in kept;
      var k :| 0 <= k < |kept| && kept[k] == labeled[m];
      assert r[k] == PostprocessRow(x);
    }
  }

  /** Postprocessing works row by row: it keeps the rows' order. */
  lemma PostprocessIssuesConcat(a: seq<Issue>, b: seq<Issue>)
    ensures PostprocessIssues(a + b) == PostprocessIssues(a) + PostprocessIssues(b)
  {
    MapConcat(a, b, WithDefaultLabel);
    FilterConcat(Map(a, WithDefaultLabel), Map(b, WithDefaultLabel), PageKept);
    MapConcat(Filter(Map(a, WithDefaultLabel), PageKept), Filter(Map(b, WithDefaultLabel), PageKept), WithNormalPage);
  }

  /** A second pass changes nothing, provided no surviving page still ends in "/" and none
      has become an excluded page by losing its slash. */
  lemma PostprocessIdempotent(rows: seq<Issue>)
    requires forall y :: y in PostprocessIssues(rows) ==>
      !EndsWith(y.formPage, "/") && y.formPage !in ExcludedPages
    ensures PostprocessIssues(PostprocessIssues(rows)) == PostprocessIssues(rows)
  {
    var once := PostprocessIssues(rows);
    PostprocessIssuesExact(rows);
    MapFixed(once, WithDefaultLabel);
    FilterAll(once, PageKept);
    forall y | y in once
      ensures WithNormalPage(y) == y
    {
      assert !EndsWith(y.formPage, "/");
      assert EndsWith("/", "/");
    }
    MapFixed(once, WithNormalPage);
  }

  /** A row whose page is not excluded survives postprocessing. */
  lemma PostprocessKeepsPage(rows: seq<Issue>, k: nat)
    requires k < |rows| && rows[k].formPage !in ExcludedPages
    ensures PostprocessRow(rows[k]) in PostprocessIssues(rows)
  {
    PostprocessIssuesExact(rows);
    assert rows[k] in rows;
  }

  /** A table whose every page is excluded postprocesses to no rows. */
  lemma PostprocessAllExcluded(rows: seq<Issue>)
    requires forall k :: 0 <= k < |rows| ==> rows[k].formPage in ExcludedPages
    ensures PostprocessIssues(rows) == []
  {
    var labeled := Map(rows, WithDefaultLabel);
    forall y | y in labeled
      ensures !PageKept(y)
    {
      var k :| 0 <= k < |labeled| && labeled[k] == y;
      assert y.formPage == rows[k].formPage;
    }
    FilterNone(labeled, PageKept);
  }

  /** Only one trailing slash is removed: "x//" becomes "x/". */
  lemma NormaliseOneSlash()
    ensures NormalisePage("x//") == "x/"
  {
    assert EndsWith("x//", "/");
  }

  /** A page that becomes excluded only after losing its slash survives a first pass and is
      dropped by a second, so postprocessing is not idempotent in general. */
  lemma PostprocessNotIdempotent(x: Issue)
    requires x.formPage == "/wtf/"
    ensures |PostprocessIssues([x])| == 1
    ensures PostprocessIssues(PostprocessIssues([x])) == []
  {
    var y := WithDefaultLabel(x);
    assert y.formPage == "/wtf/";
    assert "/wtf/" != ExcludedPages[0] && "/wtf/" != ExcludedPages[1];
    assert PageKept(y);
    FilterSingleton(y, PageKept);
    assert EndsWith("/wtf/", "/");
    var z := WithNormalPage(y);
    assert z.formPage == "/wtf";
    assert PostprocessIssues([x]) == [z];
    var z' := WithDefaultLabel(z);
    assert !PageKept(z');
    FilterSingleton(z', PageKept);
  }
}
