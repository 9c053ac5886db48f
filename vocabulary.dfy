/**
 * The label vocabulary of the multi-label classifier: reading the versioned label list from
 * its configuration text (ingest.py, `LABELS`), and validating a model reply against it
 * (ingest.py, `validate_labels`).
 */
module Vocabulary {
  import opened Text
  import opened Seqs

  /** A usable vocabulary entry: not blank, no surrounding whitespace, not a comment. */
  predicate IsLabel(l: string) {
    l != [] && IsStripped(l, Python) && l[0] != '#'
  }

  /** A configuration line contributes an entry unless it is blank or, after its leading
      whitespace, starts with `#`. */
  predicate KeepsLine(line: string) {
    Strip(line, Python) != [] && !StartsWith(TrimLeft(line, Python), "#")
  }

  /** `str.strip()`, which both the configuration lines and the reply tokens go through. */
  function StripSpace(s: string): string {
    Strip(s, Python)
  }

  /** A kept line yields a usable entry. */
  lemma KeptLineIsLabel(line: string)
    requires KeepsLine(line)
    ensures IsLabel(StripSpace(line))
  {
    var t := TrimLeft(line, Python);
    assert t[..1] != "#";
  }

  /** The entries the given configuration lines yield, in line order. */
  function LabelLines(lines: seq<string>): (labels: seq<string>)
    ensures forall k :: 0 <= k < |labels| ==> IsLabel(labels[k])
    ensures forall l :: l in labels <==> exists line :: line in lines && KeepsLine(line) && StripSpace(line) == l
  {
    var kept := Filter(lines, KeepsLine);
    var r := Map(kept, StripSpace);
    LabelLinesFacts(lines, kept, r);
    r
  }

  lemma LabelLinesFacts(lines: seq<string>, kept: seq<string>, r: seq<string>)
    requires kept == Filter(lines, KeepsLine) && r == Map(kept, StripSpace)
    ensures forall k :: 0 <= k < |r| ==> IsLabel(r[k])
    ensures forall l :: l in r <==> exists line :: line in lines && KeepsLine(line) && StripSpace(line) == l
  {
    forall k | 0 <= k < |r| ensures IsLabel(r[k]) {
      assert kept[k] in kept;
      KeptLineIsLabel(kept[k]);
    }
    forall l | l in r ensures exists line :: line in lines && KeepsLine(line) && StripSpace(line) == l {
      var k :| 0 <= k < |r| && r[k] == l;
      assert kept[k] in kept;
    }
    forall line | line in lines && KeepsLine(line) ensures StripSpace(line) in r {
      var k :| 0 <= k < |kept| && kept[k] == line;
      assert r[k] == StripSpace(line);
    }
  }

  /** The `LABELS` list: the entries of the label file's lines, in file order. */
  function ParseLabelConfig(text: string): (labels: seq<string>)
    ensures forall k :: 0 <= k < |labels| ==> IsLabel(labels[k])
    ensures "" !in labels
  {
    LabelLines(SplitLines(text))
  }

  /** The entries of two blocks of lines are those of the first block followed by those of the second. */
  lemma LabelLinesConcat(a: seq<string>, b: seq<string>)
    ensures LabelLines(a + b) == LabelLines(a) + LabelLines(b)
  {
    FilterConcat(a, b, KeepsLine);
    MapConcat(Filter(a, KeepsLine), Filter(b, KeepsLine), StripSpace);
  }

  /** A valid entry written on its own line is read back unchanged. */
  lemma LabelLineKept(l: string)
    requires IsLabel(l)
    ensures KeepsLine(l) && StripSpace(l) == l
  {
    StripStripped(l, Python);
    TrimLeftPadded([], l, Python);
    assert [] + l == l;
    assert TrimLeft(l, Python) == l;
    assert l[..1] != "#";
  }

  /** Writing a list of valid entries one per line and reading the file back gives the same list. */
  lemma ParseLabelConfigRoundTrip(labels: seq<string>)
    requires forall k :: 0 <= k < |labels| ==> IsLabel(labels[k]) && NoLineBreak(labels[k])
    ensures ParseLabelConfig(JoinLines(labels)) == labels
  {
    SplitLinesJoin(labels);
    assert SplitLines(JoinLines(labels)) == labels;
    forall l | l in labels ensures KeepsLine(l) {
      LabelLineKept(l);
    }
    FilterAll(labels, KeepsLine);
    assert Filter(labels, KeepsLine) == labels;
    forall k | 0 <= k < |labels| ensures Map(labels, StripSpace)[k] == labels[k] {
      LabelLineKept(labels[k]);
    }
    assert Map(labels, StripSpace) == labels;
  }

  // ---- validate_labels ----

  /** The reply's comma-separated tokens, each with its surrounding whitespace removed. */
  function Tokens(reply: string): (tokens: seq<string>)
    ensures |tokens| >= 1
  {
    Map(SplitOn(reply, ','), StripSpace)
  }

  /** Membership in the vocabulary, as a selection predicate. */
  function Admits(allowed: seq<string>): string -> bool {
    t => t in allowed
  }

  /** The reply's tokens that belong to the vocabulary, in reply order, duplicates kept. */
  function ValidateLabels(reply: string, allowed: seq<string>): (labels: seq<string>)
    ensures forall l :: l in labels <==> l in allowed && l in Tokens(reply)
  {
    Filter(Tokens(reply), Admits(allowed))
  }

  /** Every occurrence of an allowed token is kept, so duplicates in the reply survive. */
  lemma ValidateLabelsMultiplicity(reply: string, allowed: seq<string>, l: string)
    ensures multiset(ValidateLabels(reply, allowed))[l] == if l in allowed then multiset(Tokens(reply))[l] else 0
  {
    FilterMultiplicity(Tokens(reply), Admits(allowed), l);
  }

  /** A reply holding no comma and only whitespace (the empty reply among them) validates to
      nothing, because the blank token is never a vocabulary entry. */
  lemma ValidateBlankReply(reply: string, allowed: seq<string>)
    requires AllIn(reply, Python) && Free(reply, ',')
    requires "" !in allowed
    ensures ValidateLabels(reply, allowed) == []
  {
    IndexOfAbsent(reply, ',');
    assert SplitOn(reply, ',') == [reply];
    assert reply + [] + [] == reply;
    StripPadded(reply, [], [], Python);
    assert Tokens(reply) == [""];
    FilterSingleton("", Admits(allowed));
  }

  /** The validated labels of two reply parts joined by a comma are those of the first part
      followed by those of the second: the result follows reply order, not vocabulary order. */
  lemma ValidateLabelsConcat(a: string, b: string, allowed: seq<string>)
    ensures ValidateLabels(a + "," + b, allowed) == ValidateLabels(a, allowed) + ValidateLabels(b, allowed)
  {
    SplitOnConcat(a, b, ',');
    MapConcat(SplitOn(a, ','), SplitOn(b, ','), StripSpace);
    FilterConcat(Tokens(a), Tokens(b), Admits(allowed));
  }

  /** The reply `"A, C, B"` against the vocabulary `["A", "B"]` validates to `["A", "B"]`:
      the hallucinated `C` is dropped and reply order is kept. */
  lemma ValidateLabelsExample()
    ensures ValidateLabels("A, C, B", ["A", "B"]) == ["A", "B"]
  {
    ExampleTokens();
    ExampleFilter();
  }

  lemma ExampleFilter()
    ensures Filter(["A", "C", "B"], Admits(["A", "B"])) == ["A", "B"]
  {
    var p := Admits(["A", "B"]);
    assert "C"[0] != "A"[0] && "C"[0] != "B"[0];
    assert !p("C") && p("A") && p("B");
    FilterConcat(["A", "C"], ["B"], p);
    FilterConcat(["A"], ["C"], p);
    FilterSingleton("A", p);
    FilterSingleton("C", p);
    FilterSingleton("B", p);
    assert ["A", "C", "B"] == ["A", "C"] + ["B"] && ["A", "C"] == ["A"] + ["C"];
  }

  lemma ExampleTokens()
    ensures Tokens("A, C, B") == ["A", "C", "B"]
  {
    var pieces := ["A", " C", " B"];
    ExampleSplit();
    ExampleStrip(pieces);
  }

  lemma ExampleSplit()
    ensures SplitOn("A, C, B", ',') == ["A", " C", " B"]
  {
    var pieces := ["A", " C", " B"];
    assert Join(pieces, ',') == "A, C, B";
    assert forall k :: 0 <= k < |pieces| ==> Free(pieces[k], ',');
    SplitJoin(pieces, ',');
  }

  lemma ExampleStrip(pieces: seq<string>)
    requires pieces == ["A", " C", " B"]
    ensures Map(pieces, StripSpace) == ["A", "C", "B"]
  {
    StripPadded([], "A", [], Python);
    StripPadded(" ", "C", [], Python);
    StripPadded(" ", "B", [], Python);
    assert [] + "A" + [] == "A" && " " + "C" + [] == " C" && " " + "B" + [] == " B";
  }

  lemma SingleToken(reply: string, token: string, allowed: seq<string>)
    requires Free(reply, ',') && StripSpace(reply) == token
    ensures ValidateLabels(reply, allowed) == if token in allowed then [token] else []
  {
    IndexOfAbsent(reply, ',');
    assert Tokens(reply) == [token];
    FilterSingleton(token, Admits(allowed));
  }
}
