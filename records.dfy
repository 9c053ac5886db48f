/**
 * The records the ingestion pipeline moves from stage to stage: an issue as the tracker
 * delivers it, the projected row the cleaner produces, and the working row that the
 * preparation step creates and the enrichment steps extend column by column.
 */
module Records {
  import opened Wrappers

  /** Microseconds since 1970-01-01T00:00:00Z, the unit of a polars `Datetime` column. */
  type Timestamp = int

  /** The sentinel for "no label fits" and "no organisation identifiable". */
  const Unklar := "Unklar"

  datatype Author = Author(id: int, name: string, state: string)

  datatype References = References(short: string, relative: string, full: string)

  /** One issue as the tracker's listing returns it, its timestamps already read as instants. */
  datatype RawIssue = RawIssue(
    iid: int,
    title: string,
    description: Option<string>,
    state: string,
    createdAt: Timestamp,
    updatedAt: Timestamp,
    closedAt: Option<Timestamp>,
    author: Author,
    userNotesCount: int,
    upvotes: int,
    downvotes: int,
    references: References,
    // the tracker's further fields (web_url, labels, milestone, ...), dropped by the projection
    otherFields: map<string, string>)

  /** A row of the cleaned table: exactly the fourteen projected columns, author flattened. */
  datatype CleanIssue = CleanIssue(
    iid: int,
    title: string,
    description: Option<string>,
    state: string,
    createdAt: Timestamp,
    updatedAt: Timestamp,
    closedAt: Option<Timestamp>,
    authorId: int,
    authorName: string,
    authorState: string,
    userNotesCount: int,
    upvotes: int,
    downvotes: int,
    references: References)

  /** A row of the working table from preparation on. A column that a later stage adds is
      `None` until that stage has run. */
  datatype Issue = Issue(
    base: CleanIssue,
    descClean: string,
    isFromForm: bool,
    formPage: string,
    sentiment: Option<real>,
    labels: Option<seq<string>>,
    org: Option<string>,
    feedbackRound: Option<int>)
}
