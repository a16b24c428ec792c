/**
 * Per-thread classification (`analyze_conversation`, `_format_conversation`) and the
 * result records `process_conversations` appends.
 */
module Classifier {
  import opened Wrappers
  import opened Text
  import opened Rows
  import opened Threads
  import opened Filters

  /** The five-field record the language model is asked for. */
  datatype Analysis = Analysis(hasQuery: bool, queryType: string, resolution: string,
                               resolutionType: string, reasoning: string)

  /**
   * What the external classification call (chat completion followed by `json.loads`)
   * gives back for a pair of transcripts: a parsed record, or the text of the exception.
   */
  datatype Outcome = Reply(analysis: Analysis) | Failure(error: string)

  /** The record returned without calling the model when a thread has no AI message. */
  const NoQueryAnalysis: Analysis :=
    Analysis(false, "NO_QUERY", "NO_QUERY", "NO_QUERY", "No AI messages found in conversation")

  /** The record returned when the call or the parsing raised `error`. */
  function ErrorAnalysis(error: string): Analysis {
    Analysis(false, "ERROR", "ERROR", "ERROR", "Error analyzing conversation: " + error)
  }

  predicate SentByAi(m: Message) {
    m.isAi
  }

  /** `[msg for msg in messages if msg['is_ai']]`: the AI messages, in thread order. */
  function AiMessages(msgs: seq<Message>): (ai: seq<Message>)
    ensures |ai| <= |msgs|
    ensures forall m :: m in ai ==> m.isAi && m in msgs
    ensures forall m :: m in msgs && m.isAi ==> m in ai
    ensures ai == [] <==> forall i :: 0 <= i < |msgs| ==> !msgs[i].isAi
  {
    var ai := Filter(msgs, SentByAi);
    assert forall i :: 0 <= i < |msgs| && msgs[i].isAi ==> msgs[i] in ai;
    assert ai != [] ==> exists i :: 0 <= i < |msgs| && msgs[i] == ai[0] && msgs[i].isAi;
    ai
  }

  /**
   * The AI messages are the thread's AI messages, each as often as in the thread and in
   * thread order: the `i`-th is the message at the `i`-th AI position.
   */
  lemma AiMessagesInOrder(msgs: seq<Message>)
    ensures forall m :: multiset(AiMessages(msgs))[m] == if m.isAi then multiset(msgs)[m] else 0
    ensures var ps := Positions(msgs, SentByAi);
            |AiMessages(msgs)| == |ps|
            && (forall i :: 0 <= i < |ps| ==> AiMessages(msgs)[i] == msgs[ps[i]])
            && (forall i, j :: 0 <= i < j < |ps| ==> ps[i] < ps[j])
            && (forall j :: 0 <= j < |msgs| ==> (msgs[j].isAi <==> j in ps))
  {
    FilterMultiset(msgs, SentByAi);
    FilterAtPositions(msgs, SentByAi);
  }

  function Sender(m: Message): string {
    if m.isAi then "AI" else "Customer"
  }

  /** One transcript line `"<time> - <AI|Customer>: <body>"`; `render` formats the timestamp. */
  function FormatLine(render: int -> string, m: Message): string {
    render(m.timestamp) + " - " + Sender(m) + ": " + CellText(m.body)
  }

  /** The transcript lines, one per message and in the same order. */
  function Lines(render: int -> string, msgs: seq<Message>): (lines: seq<string>)
    ensures |lines| == |msgs|
    ensures forall i :: 0 <= i < |msgs| ==> lines[i] == FormatLine(render, msgs[i])
  {
    if msgs == [] then []
    else Lines(render, msgs[..|msgs| - 1]) + [FormatLine(render, msgs[|msgs| - 1])]
  }

  /** The transcript handed to the model: the lines joined with newlines. */
  function Transcript(render: int -> string, msgs: seq<Message>): string {
    Join(Lines(render, msgs), '\n')
  }

  /**
   * As long as no line contains a newline, the transcript splits back into exactly one
   * line per message, each that message's line.
   */
  lemma TranscriptLines(render: int -> string, msgs: seq<Message>)
    requires |msgs| > 0
    requires forall i :: 0 <= i < |msgs| ==> '\n' !in FormatLine(render, msgs[i])
    ensures |Split(Transcript(render, msgs), '\n')| == |msgs|
    ensures forall i :: 0 <= i < |msgs| ==>
              Split(Transcript(render, msgs), '\n')[i] == FormatLine(render, msgs[i])
  {
    var lines := Lines(render, msgs);
    forall p | p in lines ensures '\n' !in p {
      var i :| 0 <= i < |lines| && lines[i] == p;
    }
    SplitJoin(lines, '\n');
  }

  /**
   * The analysis of one thread: the no-query record when it has no AI message, otherwise
   * the model's record for the full and the AI-only transcripts, or the error record.
   */
  function AnalysisOf(client: (string, string) -> Outcome, render: int -> string,
                      msgs: seq<Message>): Analysis
  {
    var ai := AiMessages(msgs);
    if ai == [] then NoQueryAnalysis
    else
      match client(Transcript(render, msgs), Transcript(render, ai))
      case Reply(a) => a
      case Failure(e) => ErrorAnalysis(e)
  }

  /**
   * A thread without an AI message gets the no-query record: no query, `NO_QUERY` in all
   * three categorical fields.
   */
  lemma NoAiShortCircuit(client: (string, string) -> Outcome, render: int -> string, msgs: seq<Message>)
    requires forall i :: 0 <= i < |msgs| ==> !msgs[i].isAi
    ensures AnalysisOf(client, render, msgs)
              == Analysis(false, "NO_QUERY", "NO_QUERY", "NO_QUERY", "No AI messages found in conversation")
  {
  }

  /**
   * When the thread has an AI message and the call fails, the record says no query,
   * `ERROR` in all three categorical fields, and gives the failure's text as reasoning.
   */
  lemma FailureGivesErrorRecord(client: (string, string) -> Outcome, render: int -> string,
                                msgs: seq<Message>, i: nat)
    requires i < |msgs| && msgs[i].isAi
    requires client(Transcript(render, msgs), Transcript(render, AiMessages(msgs))).Failure?
    ensures var e := client(Transcript(render, msgs), Transcript(render, AiMessages(msgs))).error;
            AnalysisOf(client, render, msgs)
              == Analysis(false, "ERROR", "ERROR", "ERROR", "Error analyzing conversation: " + e)
  {
    assert msgs[i] in AiMessages(msgs);
  }

  /** When the call succeeds on a thread with an AI message, its record is the analysis. */
  lemma ReplyIsTheAnalysis(client: (string, string) -> Outcome, render: int -> string,
                           msgs: seq<Message>, i: nat)
    requires i < |msgs| && msgs[i].isAi
    requires client(Transcript(render, msgs), Transcript(render, AiMessages(msgs))).Reply?
    ensures AnalysisOf(client, render, msgs)
              == client(Transcript(render, msgs), Transcript(render, AiMessages(msgs))).analysis
  {
    assert msgs[i] in AiMessages(msgs);
  }

  /** When a thread has no AI message its analysis is the same whatever the client does. */
  lemma ShortCircuitIgnoresClient(c1: (string, string) -> Outcome, c2: (string, string) -> Outcome,
                                  render: int -> string, msgs: seq<Message>)
    requires forall i :: 0 <= i < |msgs| ==> !msgs[i].isAi
    ensures AnalysisOf(c1, render, msgs) == AnalysisOf(c2, render, msgs) == NoQueryAnalysis
  {
  }

  // ---------------------------------------------------------------- result records

  /** One entry of `self.results`: the synthetic id, the message count and the analysis. */
  datatype ConversationResult = ConversationResult(conversationId: string, messages: nat,
                                                   analysis: Analysis)

  /** `f"{customer}-{first timestamp}"`; `text` is what `str()` makes of a timestamp. */
  function ConversationId(text: int -> string, key: string, thread: seq<Message>): string
    requires |thread| > 0
  {
    key + "-" + text(thread[0].timestamp)
  }

  function ResultOf(client: (string, string) -> Outcome, render: int -> string,
                    text: int -> string, key: string, thread: seq<Message>): ConversationResult
    requires |thread| > 0
  {
    ConversationResult(ConversationId(text, key, thread), |thread|, AnalysisOf(client, render, thread))
  }

  /** Python's truth value of a string: it is non-empty. */
  predicate Truthy(k: string) {
    k != ""
  }

  /** The keys `process_conversations` does not skip: the non-empty (truthy) ones, in order. */
  function TruthyKeys(ks: seq<string>): (t: seq<string>)
    ensures |t| <= |ks|
    ensures forall k :: k in t <==> k in ks && k != ""
  {
    var t := Filter(ks, Truthy);
    assert forall i :: 0 <= i < |ks| && ks[i] != "" ==> ks[i] in t;
    t
  }

  /**
   * The processed keys are the non-empty keys, each as often as it occurs and in key order;
   * keys without repetitions stay without repetitions.
   */
  lemma TruthyKeysInOrder(ks: seq<string>)
    ensures multiset(TruthyKeys(ks)) == multiset(ks)["" := 0]
    ensures var ps := Positions(ks, Truthy);
            |TruthyKeys(ks)| == |ps|
            && (forall i :: 0 <= i < |ps| ==> TruthyKeys(ks)[i] == ks[ps[i]])
            && (forall i, j :: 0 <= i < j < |ps| ==> ps[i] < ps[j])
            && (forall j :: 0 <= j < |ks| ==> (ks[j] != "" <==> j in ps))
    ensures Distinct(ks) ==> Distinct(TruthyKeys(ks))
  {
    var t := TruthyKeys(ks);
    assert multiset(t) == multiset(ks)["" := 0] by {
      FilterMultiset(ks, Truthy);
      forall x ensures multiset(t)[x] == multiset(ks)["" := 0][x] {
        if x == "" {
          assert !Truthy(x);
        }
      }
    }
    FilterAtPositions(ks, Truthy);
    if Distinct(ks) {
      FilterDistinct(ks, Truthy);
    }
  }

  /** The records for the keys `ks`, one per key and in key order. */
  function ResultsFor(client: (string, string) -> Outcome, render: int -> string,
                      text: int -> string, ks: seq<string>,
                      conversations: map<string, seq<Message>>): seq<ConversationResult>
    requires forall k :: k in ks ==> k in conversations && |conversations[k]| > 0
  {
    if ks == [] then []
    else
      var k := ks[|ks| - 1];
      ResultsFor(client, render, text, ks[..|ks| - 1], conversations)
        + [ResultOf(client, render, text, k, conversations[k])]
  }

  /** Processing one more key appends its truthy name, if any, to the processed keys. */
  lemma TruthyKeysSnoc(ks: seq<string>, k: string)
    ensures TruthyKeys(ks + [k]) == if k == "" then TruthyKeys(ks) else TruthyKeys(ks) + [k]
  {
    assert (ks + [k])[..|ks|] == ks;
  }

  /** One more key adds its record at the end. */
  lemma ResultsForSnoc(client: (string, string) -> Outcome, render: int -> string,
                       text: int -> string, ks: seq<string>, k: string,
                       conversations: map<string, seq<Message>>)
    requires forall k' :: k' in ks + [k] ==> k' in conversations && |conversations[k']| > 0
    ensures ResultsFor(client, render, text, ks + [k], conversations)
              == ResultsFor(client, render, text, ks, conversations)
                 + [ResultOf(client, render, text, k, conversations[k])]
  {
    assert (ks + [k])[..|ks|] == ks;
  }

  /**
   * One step of `process_conversations`: after key `k`, the records so far are followed
   * by `k`'s record if `k` is truthy.
   */
  lemma ProcessStep(client: (string, string) -> Outcome, render: int -> string,
                    text: int -> string, ks: seq<string>, i: nat,
                    conversations: map<string, seq<Message>>, analysis: Analysis)
    requires i < |ks|
    requires forall k :: k in ks ==> k in conversations && |conversations[k]| > 0
    requires ks[i] != "" ==> analysis == AnalysisOf(client, render, conversations[ks[i]])
    ensures var after := ResultsFor(client, render, text, TruthyKeys(ks[..i + 1]), conversations);
            var prev := ResultsFor(client, render, text, TruthyKeys(ks[..i]), conversations);
            if ks[i] == "" then after == prev
            else
              after == prev + [ConversationResult(ks[i] + "-" + text(conversations[ks[i]][0].timestamp),
                                                  |conversations[ks[i]]|, analysis)]
  {
    assert ks[..i + 1] == ks[..i] + [ks[i]];
    TruthyKeysSnoc(ks[..i], ks[i]);
    if ks[i] != "" {
      ResultsForSnoc(client, render, text, TruthyKeys(ks[..i]), ks[i], conversations);
    }
  }

  lemma {:induction false} ResultsForAt(client: (string, string) -> Outcome, render: int -> string,
                                        text: int -> string, ks: seq<string>,
                                        conversations: map<string, seq<Message>>)
    requires forall k :: k in ks ==> k in conversations && |conversations[k]| > 0
    ensures |ResultsFor(client, render, text, ks, conversations)| == |ks|
    ensures forall i :: 0 <= i < |ks| ==>
              ResultsFor(client, render, text, ks, conversations)[i]
                == ResultOf(client, render, text, ks[i], conversations[ks[i]])
  {
    if ks != [] {
      var prefix := ks[..|ks| - 1];
      assert forall k :: k in prefix ==> k in ks;
      ResultsForAt(client, render, text, prefix, conversations);
      var rs := ResultsFor(client, render, text, ks, conversations);
      var k := ks[|ks| - 1];
      var prev := ResultsFor(client, render, text, prefix, conversations);
      assert rs == prev + [ResultOf(client, render, text, k, conversations[k])];
      forall i | 0 <= i < |ks|
        ensures rs[i] == ResultOf(client, render, text, ks[i], conversations[ks[i]])
      {
        if i < |prefix| {
          assert rs[i] == prev[i];
          assert ks[i] == prefix[i];
        }
      }
    }
  }

  /**
   * Exactly one record per key, in key order: the `i`-th carries the `i`-th key's id,
   * that thread's length and that thread's analysis.
   */
  lemma OneResultPerKey(client: (string, string) -> Outcome, render: int -> string,
                        text: int -> string, ks: seq<string>,
                        conversations: map<string, seq<Message>>)
    requires forall k :: k in ks ==> k in conversations && |conversations[k]| > 0
    ensures |ResultsFor(client, render, text, ks, conversations)| == |ks|
    ensures forall i :: 0 <= i < |ks| ==>
              var r := ResultsFor(client, render, text, ks, conversations)[i];
              r.conversationId == ks[i] + "-" + text(conversations[ks[i]][0].timestamp)
              && r.messages == |conversations[ks[i]]| > 0
              && r.analysis == AnalysisOf(client, render, conversations[ks[i]])
  {
    ResultsForAt(client, render, text, ks, conversations);
  }
}
