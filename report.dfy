/**
 * `generate_report`: the overview counts over `self.results` and the Markdown text with
 * one detail block per result.
 */
module Report {
  import opened Wrappers
  import opened Text
  import opened Classifier
  import opened Filters

  // ---------------------------------------------------------------- counts

  predicate HasQuery(r: ConversationResult) {
    r.analysis.hasQuery
  }

  /** `[r for r in results if r.get('has_query', False)]`, in result order. */
  function QueryResults(rs: seq<ConversationResult>): (q: seq<ConversationResult>)
    ensures |q| <= |rs|
    ensures forall r :: r in q <==> r in rs && r.analysis.hasQuery
  {
    var q := Filter(rs, HasQuery);
    assert forall i :: 0 <= i < |rs| && rs[i].analysis.hasQuery ==> rs[i] in q;
    q
  }

  /**
   * The query results are the results with a query, each as often as in the list and in
   * result order; there are as many as there are positions whose result has a query.
   */
  lemma QueryResultsInOrder(rs: seq<ConversationResult>)
    ensures forall r :: multiset(QueryResults(rs))[r] == if r.analysis.hasQuery then multiset(rs)[r] else 0
    ensures var ps := Positions(rs, HasQuery);
            |QueryResults(rs)| == |ps|
            && (forall i :: 0 <= i < |ps| ==> QueryResults(rs)[i] == rs[ps[i]])
            && (forall i, j :: 0 <= i < j < |ps| ==> ps[i] < ps[j])
            && (forall j :: 0 <= j < |rs| ==> (rs[j].analysis.hasQuery <==> j in ps))
  {
    FilterMultiset(rs, HasQuery);
    FilterAtPositions(rs, HasQuery);
  }

  /** The results without a query, in result order. */
  function NoQueryResults(rs: seq<ConversationResult>): seq<ConversationResult> {
    if rs == [] then []
    else
      var prefix := rs[..|rs| - 1];
      var last := rs[|rs| - 1];
      if last.analysis.hasQuery then NoQueryResults(prefix) else NoQueryResults(prefix) + [last]
  }

  /** `no_query_count = len(results) - len(query_results)`. */
  function NoQueryCount(rs: seq<ConversationResult>): nat {
    |rs| - |QueryResults(rs)|
  }

  /**
   * The subtraction counts exactly the results whose flag is false, whatever their
   * categorical fields say, so no-query and with-query counts add up to the total.
   */
  lemma {:induction false} NoQueryCountCountsNoQuery(rs: seq<ConversationResult>)
    ensures NoQueryCount(rs) == |NoQueryResults(rs)|
    ensures NoQueryCount(rs) + |QueryResults(rs)| == |rs|
  {
    if rs != [] {
      NoQueryCountCountsNoQuery(rs[..|rs| - 1]);
    }
  }

  /** `str(resolution).upper() == 'RESOLVED'`. */
  predicate IsResolved(resolution: string) {
    Upper(resolution) == "RESOLVED"
  }

  /** The resolution matches `RESOLVED` up to case, character by character. */
  lemma IsResolvedIgnoresCase(resolution: string)
    ensures IsResolved(resolution) <==>
              |resolution| == 8 &&
              forall i :: 0 <= i < 8 ==> resolution[i] == "RESOLVED"[i] || resolution[i] == "resolved"[i]
  {
    UpperMatches(resolution, "RESOLVED");
    assert forall i :: 0 <= i < 8 ==> "resolved"[i] as int == "RESOLVED"[i] as int + 32;
  }

  /** How many of `qs` have a resolution equal to `RESOLVED` up to case. */
  function CountResolved(qs: seq<ConversationResult>): (n: nat)
    ensures n <= |qs|
  {
    if qs == [] then 0
    else CountResolved(qs[..|qs| - 1]) + if IsResolved(qs[|qs| - 1].analysis.resolution) then 1 else 0
  }

  /** How many of `qs` have exactly `kind` as resolution type (case matters). */
  function CountType(qs: seq<ConversationResult>, kind: string): (n: nat)
    ensures n <= |qs|
  {
    if qs == [] then 0
    else CountType(qs[..|qs| - 1], kind) + if qs[|qs| - 1].analysis.resolutionType == kind then 1 else 0
  }

  function Resolved(rs: seq<ConversationResult>): nat {
    CountResolved(QueryResults(rs))
  }

  function HardCount(rs: seq<ConversationResult>): nat {
    CountType(QueryResults(rs), "Hard")
  }

  function SoftCount(rs: seq<ConversationResult>): nat {
    CountType(QueryResults(rs), "Soft")
  }

  /** No result is counted both Hard and Soft, so together they are at most the query results. */
  lemma {:induction false} HardSoftBound(qs: seq<ConversationResult>)
    ensures CountType(qs, "Hard") + CountType(qs, "Soft") <= |qs|
  {
    if qs != [] {
      HardSoftBound(qs[..|qs| - 1]);
      assert "Hard" != "Soft" by { assert "Hard"[0] != "Soft"[0]; }
    }
  }

  /** A result typed `hard` in lower case adds nothing to the Hard count. */
  lemma LowercaseHardNotCounted(qs: seq<ConversationResult>, r: ConversationResult)
    requires r.analysis.resolutionType == "hard"
    ensures CountType(qs + [r], "Hard") == CountType(qs, "Hard")
  {
    assert (qs + [r])[..|qs|] == qs;
    assert "hard" != "Hard" by { assert "hard"[0] != "Hard"[0]; }
  }

  /**
   * `part / whole * 100`, or 0 for an empty whole: scaled back by `whole` it is
   * 100 times `part`, and a part no larger than the whole gives a percentage.
   */
  function Percent(part: nat, whole: nat): (p: real)
    ensures whole == 0 ==> p == 0.0
    ensures whole > 0 ==> p * (whole as real) == (part as real) * 100.0
    ensures part <= whole ==> 0.0 <= p <= 100.0
  {
    if whole > 0 then (part as real) / (whole as real) * 100.0 else 0.0
  }

  /** `resolution_rate`: resolved query results per query result, in percent. */
  function ResolutionRate(rs: seq<ConversationResult>): (rate: real)
    ensures |QueryResults(rs)| == 0 ==> rate == 0.0
    ensures 0.0 <= rate <= 100.0
  {
    Percent(Resolved(rs), |QueryResults(rs)|)
  }

  /** With query results present, the rate scaled back by their number is 100 times the resolved count. */
  lemma ResolutionRateIdentity(rs: seq<ConversationResult>)
    ensures |QueryResults(rs)| > 0 ==>
              ResolutionRate(rs) * (|QueryResults(rs)| as real) == (Resolved(rs) as real) * 100.0
  {
    assert ResolutionRate(rs) == Percent(Resolved(rs), |QueryResults(rs)|);
  }

  /** `Resolved` and `RESOLVED` count as resolved, `UNRESOLVED` does not. */
  lemma ResolvedSpellings()
    ensures IsResolved("Resolved") && IsResolved("RESOLVED") && !IsResolved("UNRESOLVED")
  {
    var u := Upper("Resolved");
    assert u[0] == 'R' && u[1] == 'E' && u[2] == 'S' && u[3] == 'O';
    assert u[4] == 'L' && u[5] == 'V' && u[6] == 'E' && u[7] == 'D';
    assert u == "RESOLVED";
    assert Upper("RESOLVED") == "RESOLVED";
    assert |Upper("UNRESOLVED")| == 10;
  }

  /**
   * One more result adds itself to the query results exactly when it has a query, and
   * adds one to the resolved count exactly when it also reads as resolved in any case.
   */
  lemma ResolvedSnoc(rs: seq<ConversationResult>, r: ConversationResult)
    ensures QueryResults(rs + [r]) == if r.analysis.hasQuery then QueryResults(rs) + [r] else QueryResults(rs)
    ensures Resolved(rs + [r]) ==
              Resolved(rs) + if r.analysis.hasQuery && IsResolved(r.analysis.resolution) then 1 else 0
  {
    assert (rs + [r])[..|rs|] == rs;
    if r.analysis.hasQuery {
      var qs := QueryResults(rs) + [r];
      assert qs[..|qs| - 1] == QueryResults(rs);
    }
  }

  /** Two query results out of three resolved, in any case: the rate is 200/3 percent. */
  lemma RateOfTwoInThree(x: ConversationResult, y: ConversationResult, z: ConversationResult)
    requires x.analysis.hasQuery && x.analysis.resolution == "Resolved"
    requires y.analysis.hasQuery && y.analysis.resolution == "RESOLVED"
    requires z.analysis.hasQuery && z.analysis.resolution == "UNRESOLVED"
    ensures ResolutionRate([x, y, z]) == 200.0 / 3.0
  {
    ResolvedSpellings();
    TwoInThreeCounts(x, y, z);
  }

  lemma TwoInThreeCounts(x: ConversationResult, y: ConversationResult, z: ConversationResult)
    requires x.analysis.hasQuery && IsResolved(x.analysis.resolution)
    requires y.analysis.hasQuery && IsResolved(y.analysis.resolution)
    requires z.analysis.hasQuery && !IsResolved(z.analysis.resolution)
    ensures |QueryResults([x, y, z])| == 3 && Resolved([x, y, z]) == 2
  {
    assert QueryResults([x]) == [x] && Resolved([x]) == 1 by {
      assert [x] == [] + [x];
      ResolvedSnoc([], x);
    }
    assert QueryResults([x, y]) == [x, y] && Resolved([x, y]) == 2 by {
      assert [x, y] == [x] + [y];
      ResolvedSnoc([x], y);
    }
    assert [x, y, z] == [x, y] + [z];
    ResolvedSnoc([x, y], z);
  }

  // ---------------------------------------------------------------- report text

  /** An overview line `- <kind>: <n>`. */
  function CountLine(kind: string, n: nat): string {
    "- " + kind + ": " + NatText(n)
  }

  /** Reads the count back from an overview line with the given kind. */
  function ReadCountLine(kind: string, line: string): Option<nat> {
    var p := "- " + kind + ": ";
    if |line| >= |p| + 1 && line[..|p|] == p && forall c :: c in line[|p|..] ==> IsDigit(c)
    then Some(ParseNat(line[|p|..]))
    else None
  }

  /** Re-scanning an overview line gives back the count it shows. */
  lemma CountLineReadsBack(kind: string, n: nat)
    ensures ReadCountLine(kind, CountLine(kind, n)) == Some(n)
  {
    var p := "- " + kind + ": ";
    var line := CountLine(kind, n);
    assert line[..|p|] == p;
    assert line[|p|..] == NatText(n);
    ParseNatText(n);
  }

  /** The figures `generate_report` puts in its overview. */
  datatype Summary = Summary(total: nat, noQuery: nat, withQuery: nat, rate: real, hard: nat, soft: nat)

  function Summarize(rs: seq<ConversationResult>): Summary {
    Summary(|rs|, NoQueryCount(rs), |QueryResults(rs)|, ResolutionRate(rs), HardCount(rs), SoftCount(rs))
  }

  /**
   * The overview figures are consistent: the results without and with a query add up
   * to the total, the Hard and Soft counts to at most those with a query, and the rate
   * is a percentage that is 0 when no result has a query.
   */
  lemma SummaryConsistent(rs: seq<ConversationResult>)
    ensures var s := Summarize(rs);
            && s.noQuery + s.withQuery == s.total
            && s.hard + s.soft <= s.withQuery
            && 0.0 <= s.rate <= 100.0
            && (s.withQuery == 0 ==> s.rate == 0.0)
  {
    NoQueryCountCountsNoQuery(rs);
    HardSoftBound(QueryResults(rs));
  }

  /** The lines of the report's title and overview, ending with the detail section's heading. */
  function OverviewLines(formatRate: real -> string, s: Summary): seq<string> {
    ["# Conversation Analysis Report", "", "## Overview",
     CountLine("Total Conversations", s.total),
     CountLine("Conversations Without Queries", s.noQuery),
     CountLine("Conversations With Queries", s.withQuery),
     "- Resolution Rate " + "(for conversations " + "with queries): " + formatRate(s.rate) + "%",
     CountLine("Hard Resolutions", s.hard),
     CountLine("Soft Resolutions", s.soft),
     "", "## Detailed Analysis", ""]
  }

  /** The report's overview text, one newline after each line. */
  function Overview(formatRate: real -> string, rs: seq<ConversationResult>): string {
    Join(OverviewLines(formatRate, Summarize(rs)), '\n')
  }

  // The fixed texts of a detail block.
  const ConversationHeading := "### Conversation "
  const StatusLabel := "**Query Status:** "
  const QueryTypeLabel := "**Query Type:** "
  const ResolutionStatusLabel := "**Resolution Status:** "
  const ResolutionTypeLabel := "**Resolution Type:** "
  const AnalysisHeading := "**Analysis:**"
  const Rule := "---"
  const QueryPresent := "Query Present"
  const NoQuery := "No Query"

  function QueryStatus(r: ConversationResult): string {
    if r.analysis.hasQuery then QueryPresent else NoQuery
  }

  /** The lines of one detail block (the block starts and ends with a newline). */
  function BlockLines(r: ConversationResult): seq<string> {
    ["", ConversationHeading + r.conversationId,
     StatusLabel + QueryStatus(r),
     QueryTypeLabel + r.analysis.queryType,
     ResolutionStatusLabel + r.analysis.resolution,
     ResolutionTypeLabel + r.analysis.resolutionType,
     "", AnalysisHeading, r.analysis.reasoning, "", Rule, ""]
  }

  function Block(r: ConversationResult): string {
    Join(BlockLines(r), '\n')
  }

  /** The detail section: the results' blocks one after another, in result order. */
  function Details(rs: seq<ConversationResult>): string {
    if rs == [] then "" else Details(rs[..|rs| - 1]) + Block(rs[|rs| - 1])
  }

  /** Adding a result to the list adds its block at the end of the detail section. */
  lemma DetailsSnoc(rs: seq<ConversationResult>, i: nat)
    requires i < |rs|
    ensures Details(rs[..i + 1]) == Details(rs[..i]) + Block(rs[i])
  {
    assert rs[..i + 1][..i] == rs[..i];
  }

  /** The whole report `generate_report` returns. */
  function ReportText(formatRate: real -> string, rs: seq<ConversationResult>): string {
    Overview(formatRate, rs) + Details(rs)
  }

  /** Reads a query flag back from a `**Query Status:**` line. */
  function ReadStatusLine(line: string): Option<bool> {
    if line == StatusLabel + QueryPresent then Some(true)
    else if line == StatusLabel + NoQuery then Some(false)
    else None
  }

  /** Reads the query status back from a detail block. */
  function ReadQueryStatus(block: string): Option<bool> {
    var lines := Split(block, '\n');
    if |lines| >= 3 then ReadStatusLine(lines[2]) else None
  }

  /**
   * The lines of the whole detail section: its leading empty line, then the eleven lines
   * of each block after the first (each block's empty first line is the previous one's last).
   */
  function DetailLines(rs: seq<ConversationResult>): seq<string> {
    if rs == [] then [""]
    else DetailLines(rs[..|rs| - 1]) + BlockLines(rs[|rs| - 1])[1..]
  }

  /** A block is a newline followed by the join of its lines after the first. */
  lemma BlockAfterFirstLine(r: ConversationResult)
    ensures Block(r) == ['\n'] + Join(BlockLines(r)[1..], '\n')
  {
    var bl := BlockLines(r);
    assert |bl| == 12 && bl[0] == "";
  }

  /** The detail section is its lines joined with newlines. */
  lemma {:induction false} DetailsJoin(rs: seq<ConversationResult>)
    ensures Details(rs) == Join(DetailLines(rs), '\n')
  {
    if rs != [] {
      var n := |rs|;
      var prefix := rs[..n - 1];
      DetailsJoin(prefix);
      var pl, tail := DetailLines(prefix), BlockLines(rs[n - 1])[1..];
      BlockAfterFirstLine(rs[n - 1]);
      JoinAfterSeparator(pl, tail, '\n');
      assert DetailLines(rs) == pl + tail;
    }
  }

  /**
   * The detail section has eleven lines per result after its leading empty line, and
   * lines `11 * i + 1` to `11 * i + 11` are lines 1 to 11 of the `i`-th result's block.
   */
  lemma {:induction false} DetailLinesAt(rs: seq<ConversationResult>)
    ensures |DetailLines(rs)| == 11 * |rs| + 1
    ensures DetailLines(rs)[0] == ""
    ensures forall i, k :: 0 <= i < |rs| && 1 <= k < 12 ==>
              DetailLines(rs)[11 * i + k] == BlockLines(rs[i])[k]
  {
    if rs != [] {
      var n := |rs|;
      var prefix := rs[..n - 1];
      DetailLinesAt(prefix);
      var dl, pl, bl := DetailLines(rs), DetailLines(prefix), BlockLines(rs[n - 1]);
      assert dl == pl + bl[1..];
      forall i, k | 0 <= i < n && 1 <= k < 12 ensures dl[11 * i + k] == BlockLines(rs[i])[k] {
        if i < n - 1 {
          assert dl[11 * i + k] == pl[11 * i + k];
          assert rs[i] == prefix[i];
        } else {
          assert dl[11 * i + k] == bl[1..][k - 1];
        }
      }
    }
  }

  /** The conversation id and the analysis's text fields are each one line. */
  predicate SingleLineFields(r: ConversationResult) {
    && '\n' !in r.conversationId
    && '\n' !in r.analysis.queryType
    && '\n' !in r.analysis.resolution
    && '\n' !in r.analysis.resolutionType
    && '\n' !in r.analysis.reasoning
  }

  /** Splitting a join gives back every leading piece that has no separator. */
  lemma {:induction false} SplitJoinLeading(parts: seq<string>, sep: char, k: nat)
    requires k < |parts|
    requires forall i :: 0 <= i < k ==> sep !in parts[i]
    ensures |Split(Join(parts, sep), sep)| > k
    ensures forall i :: 0 <= i < k ==> Split(Join(parts, sep), sep)[i] == parts[i]
  {
    if k > 0 {
      SplitAfterPiece(parts[0], sep, Join(parts[1..], sep));
      SplitJoinLeading(parts[1..], sep, k - 1);
    }
  }

  /** An overview count line is one line when its kind is. */
  lemma CountLineSingle(kind: string, n: nat)
    requires '\n' !in kind
    ensures '\n' !in CountLine(kind, n)
  {
    assert '\n' !in "- " && '\n' !in ": ";
    assert !IsDigit('\n');
  }

  // None of the fixed overview texts holds a newline (one lemma per few literals keeps
  // each proof small).

  lemma TitleSingleLine()
    ensures '\n' !in "# Conversation Analysis Report"
  {
  }

  lemma TotalKindsSingleLines()
    ensures '\n' !in "## Overview" && '\n' !in "Total Conversations"
  {
  }

  lemma WithoutKindSingleLine()
    ensures '\n' !in "Conversations Without Queries"
  {
  }

  lemma WithKindSingleLine()
    ensures '\n' !in "Conversations With Queries"
  {
  }

  lemma RateTextsSingleLines()
    ensures '\n' !in "- Resolution Rate " && '\n' !in "%"
    ensures '\n' !in "(for conversations " && '\n' !in "with queries): "
  {
  }

  lemma TypeKindsSingleLines()
    ensures '\n' !in "Hard Resolutions" && '\n' !in "Soft Resolutions"
  {
  }

  /** The first nine overview lines hold no newline when the formatted rate holds none. */
  lemma OverviewHeadSingleLines(formatRate: real -> string, s: Summary)
    requires '\n' !in formatRate(s.rate)
    ensures forall i :: 0 <= i < 9 ==> '\n' !in OverviewLines(formatRate, s)[i]
  {
    TitleSingleLine();
    TotalKindsSingleLines();
    WithoutKindSingleLine();
    WithKindSingleLine();
    RateTextsSingleLines();
    TypeKindsSingleLines();
    CountLineSingle("Total Conversations", s.total);
    CountLineSingle("Conversations Without Queries", s.noQuery);
    CountLineSingle("Conversations With Queries", s.withQuery);
    CountLineSingle("Hard Resolutions", s.hard);
    CountLineSingle("Soft Resolutions", s.soft);
  }

  /** Re-scanning the overview lines gives back the figures they show. */
  lemma SummaryReadsBack(formatRate: real -> string, s: Summary)
    requires '\n' !in formatRate(s.rate)
    ensures var lines := Split(Join(OverviewLines(formatRate, s), '\n'), '\n');
            && |lines| > 8
            && ReadCountLine("Total Conversations", lines[3]) == Some(s.total)
            && ReadCountLine("Conversations Without Queries", lines[4]) == Some(s.noQuery)
            && ReadCountLine("Conversations With Queries", lines[5]) == Some(s.withQuery)
            && ReadCountLine("Hard Resolutions", lines[7]) == Some(s.hard)
            && ReadCountLine("Soft Resolutions", lines[8]) == Some(s.soft)
  {
    OverviewSplit(formatRate, s);
    OverviewCountsRead(formatRate, s);
  }

  /**
   * Re-scanning the overview gives back the counts it shows, as long as the formatted
   * rate holds no newline.
   */
  lemma OverviewReadsBack(formatRate: real -> string, rs: seq<ConversationResult>)
    requires '\n' !in formatRate(ResolutionRate(rs))
    ensures var lines := Split(Overview(formatRate, rs), '\n');
            && |lines| > 8
            && ReadCountLine("Total Conversations", lines[3]) == Some(|rs|)
            && ReadCountLine("Conversations Without Queries", lines[4]) == Some(NoQueryCount(rs))
            && ReadCountLine("Conversations With Queries", lines[5]) == Some(|QueryResults(rs)|)
            && ReadCountLine("Hard Resolutions", lines[7]) == Some(HardCount(rs))
            && ReadCountLine("Soft Resolutions", lines[8]) == Some(SoftCount(rs))
  {
    SummaryReadsBack(formatRate, Summarize(rs));
  }

  lemma DetailsHeadingSingleLine()
    ensures '\n' !in "## Detailed Analysis"
  {
  }

  /** No overview line before the detail section's blank line holds a newline. */
  lemma OverviewFrontSingleLines(formatRate: real -> string, s: Summary)
    requires '\n' !in formatRate(s.rate)
    ensures forall k :: 0 <= k < 11 ==> '\n' !in OverviewLines(formatRate, s)[k]
  {
    OverviewHeadSingleLines(formatRate, s);
    DetailsHeadingSingleLine();
  }

  /** The overview splits back into its lines. */
  lemma OverviewSplit(formatRate: real -> string, s: Summary)
    requires '\n' !in formatRate(s.rate)
    ensures Split(Join(OverviewLines(formatRate, s), '\n'), '\n') == OverviewLines(formatRate, s)
  {
    var ol := OverviewLines(formatRate, s);
    OverviewFrontSingleLines(formatRate, s);
    forall p | p in ol ensures '\n' !in p {
      var k :| 0 <= k < 12 && ol[k] == p;
    }
    SplitJoin(ol, '\n');
  }

  /** The count lines of the overview read back as the figures they show. */
  lemma OverviewCountsRead(formatRate: real -> string, s: Summary)
    ensures var ls := OverviewLines(formatRate, s);
            && ReadCountLine("Total Conversations", ls[3]) == Some(s.total)
            && ReadCountLine("Conversations Without Queries", ls[4]) == Some(s.noQuery)
            && ReadCountLine("Conversations With Queries", ls[5]) == Some(s.withQuery)
            && ReadCountLine("Hard Resolutions", ls[7]) == Some(s.hard)
            && ReadCountLine("Soft Resolutions", ls[8]) == Some(s.soft)
  {
    CountLineReadsBack("Total Conversations", s.total);
    CountLineReadsBack("Conversations Without Queries", s.noQuery);
    CountLineReadsBack("Conversations With Queries", s.withQuery);
    CountLineReadsBack("Hard Resolutions", s.hard);
    CountLineReadsBack("Soft Resolutions", s.soft);
  }

  /**
   * An overview followed by any text splits into the first eleven overview lines
   * followed by the pieces of that text.
   */
  lemma OverviewThen(formatRate: real -> string, s: Summary, rest: string)
    requires '\n' !in formatRate(s.rate)
    ensures var ol := OverviewLines(formatRate, s);
            Split(Join(ol, '\n') + rest, '\n') == ol[..11] + Split(rest, '\n')
  {
    var ol := OverviewLines(formatRate, s);
    var front := ol[..11];
    assert ol == front + [""];
    JoinAppend(front, [""], '\n');
    assert Join(ol, '\n') + rest == Join(front, '\n') + ['\n'] + rest;
    OverviewFrontSingleLines(formatRate, s);
    SplitJoinThen(front, '\n', rest);
  }

  /**
   * An overview of the figures `s` followed by the detail section of `rs` splits into the
   * overview's lines up to its last (empty) one, followed by the detail section's lines.
   */
  lemma SectionsSplit(formatRate: real -> string, s: Summary, rs: seq<ConversationResult>)
    requires '\n' !in formatRate(s.rate)
    ensures var ov := Join(OverviewLines(formatRate, s), '\n');
            && |Split(ov, '\n')| == 12
            && Split(ov + Details(rs), '\n')
                 == Split(ov, '\n')[..11] + Split(Details(rs), '\n')
  {
    OverviewThen(formatRate, s, Details(rs));
    OverviewSplit(formatRate, s);
  }

  /**
   * The whole report splits into the overview's lines up to its final empty one, followed
   * by the detail section's lines, whatever the results hold, as long as the formatted
   * rate holds no newline; `OverviewReadsBack` and `DetailsReadBack` read both parts back.
   */
  lemma ReportReadsBack(formatRate: real -> string, rs: seq<ConversationResult>)
    requires '\n' !in formatRate(ResolutionRate(rs))
    ensures |Split(Overview(formatRate, rs), '\n')| == 12
    ensures Split(ReportText(formatRate, rs), '\n')
              == Split(Overview(formatRate, rs), '\n')[..11] + Split(Details(rs), '\n')
  {
    SectionsSplit(formatRate, Summarize(rs), rs);
  }

  /** The first three lines of a block hold no newline when the conversation id holds none. */
  lemma BlockHeadSingleLines(r: ConversationResult)
    requires '\n' !in r.conversationId
    ensures forall i :: 0 <= i < 3 ==> '\n' !in BlockLines(r)[i]
  {
    assert '\n' !in ConversationHeading;
    assert '\n' !in StatusLabel && '\n' !in QueryPresent && '\n' !in NoQuery;
  }

  lemma QueryTypeLabelSingleLine()
    ensures '\n' !in QueryTypeLabel
  {
  }

  lemma ResolutionStatusLabelSingleLine()
    ensures '\n' !in ResolutionStatusLabel
  {
  }

  lemma ResolutionTypeLabelSingleLine()
    ensures '\n' !in ResolutionTypeLabel
  {
  }

  lemma BlockTailSingleLines()
    ensures '\n' !in AnalysisHeading && '\n' !in Rule
  {
  }

  /** Every line of a block is one line when the result's fields are. */
  lemma BlockLinesSingle(r: ConversationResult)
    requires SingleLineFields(r)
    ensures forall k :: 0 <= k < 12 ==> '\n' !in BlockLines(r)[k]
  {
    BlockHeadSingleLines(r);
    QueryTypeLabelSingleLine();
    ResolutionStatusLabelSingleLine();
    ResolutionTypeLabelSingleLine();
    BlockTailSingleLines();
  }

  /** A status line reads back as the flag it shows. */
  lemma StatusLineReadsBack(r: ConversationResult)
    ensures ReadStatusLine(BlockLines(r)[2]) == Some(r.analysis.hasQuery)
  {
    assert StatusLabel + QueryPresent != StatusLabel + NoQuery by {
      assert (StatusLabel + QueryPresent)[18] != (StatusLabel + NoQuery)[18];
    }
  }

  /** The lines of the detail section hold no newline when no result's fields do. */
  lemma {:induction false} DetailsSingleLines(rs: seq<ConversationResult>)
    requires forall i :: 0 <= i < |rs| ==> SingleLineFields(rs[i])
    ensures |DetailLines(rs)| >= 1
    ensures forall j :: 0 <= j < |DetailLines(rs)| ==> '\n' !in DetailLines(rs)[j]
  {
    if rs != [] {
      var n := |rs|;
      var prefix := rs[..n - 1];
      assert forall i :: 0 <= i < |prefix| ==> prefix[i] == rs[i];
      DetailsSingleLines(prefix);
      var pl, bl := DetailLines(prefix), BlockLines(rs[n - 1]);
      BlockLinesSingle(rs[n - 1]);
      var dl := DetailLines(rs);
      assert dl == pl + bl[1..];
      forall j | 0 <= j < |dl| ensures '\n' !in dl[j] {
        if j < |pl| {
          assert dl[j] == pl[j];
        } else {
          assert dl[j] == bl[j - |pl| + 1];
        }
      }
    }
  }

  /**
   * Re-scanning the detail section gives back every block line by line, eleven lines per
   * result after a leading empty line, and the `i`-th result's query flag on line
   * `11 * i + 2`, as long as no result's fields hold a newline.
   */
  lemma DetailsReadBack(rs: seq<ConversationResult>)
    requires forall i :: 0 <= i < |rs| ==> SingleLineFields(rs[i])
    ensures var lines := Split(Details(rs), '\n');
            && |lines| == 11 * |rs| + 1
            && (forall i, k :: 0 <= i < |rs| && 1 <= k < 12 ==> lines[11 * i + k] == BlockLines(rs[i])[k])
            && (forall i :: 0 <= i < |rs| ==> ReadStatusLine(lines[11 * i + 2]) == Some(rs[i].analysis.hasQuery))
  {
    DetailsSplit(rs);
    DetailLinesAt(rs);
    StatusLinesAt(rs);
  }

  /** The detail section splits into its lines when no result's fields hold a newline. */
  lemma DetailsSplit(rs: seq<ConversationResult>)
    requires forall i :: 0 <= i < |rs| ==> SingleLineFields(rs[i])
    ensures |Split(Details(rs), '\n')| == |DetailLines(rs)|
    ensures forall j :: 0 <= j < |DetailLines(rs)| ==> Split(Details(rs), '\n')[j] == DetailLines(rs)[j]
  {
    DetailsJoin(rs);
    DetailsSingleLines(rs);
    SplitOfJoin(Details(rs), DetailLines(rs), '\n');
  }

  /** Line `11 * i + 2` of the detail section is the `i`-th result's status line. */
  lemma {:induction false} StatusLinesAt(rs: seq<ConversationResult>)
    ensures |DetailLines(rs)| == 11 * |rs| + 1
    ensures forall i :: 0 <= i < |rs| ==> ReadStatusLine(DetailLines(rs)[11 * i + 2]) == Some(rs[i].analysis.hasQuery)
  {
    if rs != [] {
      var n := |rs|;
      var prefix := rs[..n - 1];
      StatusLinesAt(prefix);
      var dl, pl, bl := DetailLines(rs), DetailLines(prefix), BlockLines(rs[n - 1]);
      assert dl == pl + bl[1..];
      forall i | 0 <= i < n ensures ReadStatusLine(dl[11 * i + 2]) == Some(rs[i].analysis.hasQuery) {
        if i < n - 1 {
          assert dl[11 * i + 2] == pl[11 * i + 2];
          assert rs[i] == prefix[i];
        } else {
          assert dl[11 * i + 2] == bl[2];
          StatusLineReadsBack(rs[i]);
        }
      }
    }
  }

  /**
   * Re-scanning a detail block gives back the result's query flag, as long as the
   * conversation id holds no newline.
   */
  lemma BlockQueryStatusReadsBack(r: ConversationResult)
    requires '\n' !in r.conversationId
    ensures ReadQueryStatus(Block(r)) == Some(r.analysis.hasQuery)
  {
    var ls := BlockLines(r);
    BlockHeadSingleLines(r);
    SplitJoinLeading(ls, '\n', 3);
    assert Split(Block(r), '\n')[2] == ls[2];
    StatusLineReadsBack(r);
  }
}
