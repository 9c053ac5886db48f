/**
 * The three enrichment clients of ingest.py and the sentiment column they feed. Each remote
 * service is an oracle: a total function from the text it is given to the service's answer
 * or to the failure the call raised. The prompt wording sent with each call is not modelled.
 */
module Clients {
  import opened Wrappers
  import opened Text
  import opened Seqs
  import opened Records
  import opened Vocabulary

  /** The sentiment service: a document's text to its score. */
  type SentimentService = string -> Result<real>

  /** The generative model asked for labels: the issue text to its raw reply. */
  type LabelService = string -> Result<string>

  /** The generative model asked for an organisation: (title, issue text) to its raw reply. */
  type OrgService = (string, string) -> Result<string>

  /** `get_sentiment_score`: the service's score, or 0.0 when the text is empty (the service is
      then not asked) or when the call raises. No bound on a returned score is checked. */
  function SentimentScore(service: SentimentService, text: string): (score: real)
    ensures text == "" ==> score == 0.0
    ensures text != "" && service(text).Failure? ==> score == 0.0
    ensures text != "" && service(text).Success? ==> score == service(text).value
  {
    if text == "" then 0.0
    else
      match service(text)
      case Success(s) => s
      case Failure(_) => 0.0
  }

  /** For the empty text the score does not depend on the service at all. */
  lemma EmptyTextIgnoresService(a: SentimentService, b: SentimentService)
    ensures SentimentScore(a, "") == SentimentScore(b, "") == 0.0
  {
  }

  /** `add_sentiment_scores`: one score per row, from the row's cleaned description; nothing else changes. */
  function AddSentimentScores(rows: seq<Issue>, service: SentimentService): (scored: seq<Issue>)
    ensures |scored| == |rows|
    ensures forall k :: 0 <= k < |rows| ==>
      scored[k] == rows[k].(sentiment := Some(SentimentScore(service, rows[k].descClean)))
  {
    Map(rows, (x: Issue) => x.(sentiment := Some(SentimentScore(service, x.descClean))))
  }

  /** `classify_issue_multilabel`: the validated labels of the stripped reply; no labels when
      the call raises. Every label returned is a vocabulary entry. */
  function ClassifyIssueMultilabel(service: LabelService, issueText: string, labels: seq<string>): (r: seq<string>)
    ensures service(issueText).Failure? ==> r == []
    ensures service(issueText).Success? ==>
      r == ValidateLabels(Strip(service(issueText).value, Python), labels)
    ensures forall l :: l in r ==> l in labels
  {
    match service(issueText)
    case Success(reply) => ValidateLabels(Strip(reply, Python), labels)
    case Failure(_) => []
  }

  /** `add_issue_org_attribution`: the stripped reply, or "Unklar" when the call raises.
      A reply is taken as it is: no check against a list of organisations. */
  function AttributeOrganization(service: OrgService, title: string, issueText: string): (org: string)
    ensures service(title, issueText).Failure? ==> org == Unklar
    ensures service(title, issueText).Success? ==>
      org == Strip(service(title, issueText).value, Python) && IsStripped(org, Python)
  {
    match service(title, issueText)
    case Success(reply) => Strip(reply, Python)
    case Failure(_) => Unklar
  }
}
