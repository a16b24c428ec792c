/**
 * The `ConversationAnalyzer` object: its data frame, its `conversations` dictionary and
 * its `results` list, and the steps of the batch that update them in place.
 */
module Analyzer {
  import opened Wrappers
  import opened Text
  import opened Rows
  import opened Threads
  import opened Classifier
  import opened Report

  class ConversationAnalyzer {
    /** The model call plus `json.loads`. */
    const client: (string, string) -> Outcome
    /** `strftime("%Y-%m-%d %H:%M:%S")` of a timestamp. */
    const formatTimestamp: int -> string
    /** `str()` of a timestamp, as used in conversation ids. */
    const timestampText: int -> string
    /** `"{:.1f}"` of the resolution rate. */
    const formatRate: real -> string

    /** `self.df` before its derived columns are added. */
    var df: seq<RawRow>
    /** `self.df` with the `is_ai` and `customer_number` columns. */
    var frame: seq<Row>
    /** `self.conversations`; `keys` is its insertion order. */
    var conversations: map<string, seq<Message>>
    var keys: seq<string>
    /** `self.results`. */
    var results: seq<ConversationResult>

    /** The dictionary's keys are listed once each, and no thread is empty. */
    ghost predicate Valid()
      reads this
    {
      WellFormed(conversations, keys)
    }

    constructor (rows: seq<RawRow>, client: (string, string) -> Outcome,
                 formatTimestamp: int -> string, timestampText: int -> string,
                 formatRate: real -> string)
      ensures Valid()
      ensures df == rows && frame == [] && conversations == map[] && keys == [] && results == []
      ensures this.client == client && this.formatTimestamp == formatTimestamp
      ensures this.timestampText == timestampText && this.formatRate == formatRate
    {
      this.client := client;
      this.formatTimestamp := formatTimestamp;
      this.timestampText := timestampText;
      this.formatRate := formatRate;
      df := rows;
      frame := [];
      conversations := map[];
      keys := [];
      results := [];
    }

    /**
     * `preprocess_data`: drop the activation notices, sort by timestamp and add the
     * derived columns. Only sortedness and the multiset of rows are promised.
     */
    method PreprocessData()
      modifies this`df, this`frame
      ensures RawSorted(df)
      ensures forall r :: multiset(df)[r] == if IsActivationNotice(r) then 0 else multiset(old(df))[r]
      ensures frame == Augment(df)
      ensures RowsSorted(frame)
      ensures forall i :: 0 <= i < |df| ==> !IsActivationNotice(df[i])
    {
      ghost var input := df;
      df := KeepRows(df);
      df := SortByTimestamp(df);
      frame := Augment(df);
      PreprocessedFrame(input, df);
    }

    /**
     * `group_conversations`: every row with a customer is appended to that customer's
     * list, the key being created just before its first append.
     */
    method GroupConversations()
      requires Valid()
      modifies this`conversations, this`keys
      ensures Valid()
      ensures keys == KeysAfter(old(keys), frame)
      ensures forall c :: c in conversations <==> c in old(conversations) || ThreadOf(frame, c) != []
      ensures forall c :: c in conversations ==>
                conversations[c] == Lookup(old(conversations), c) + ThreadOf(frame, c)
      ensures old(keys) == [] ==>
                keys == Customers(frame) && TotalLength(frame, keys) == DefinedCount(frame)
      ensures old(keys) == [] && RowsSorted(frame) ==>
                forall c :: c in conversations ==> MessagesSorted(conversations[c])
    {
      ghost var conv0, keys0 := conversations, keys;
      var i := 0;
      assert frame[..0] == [];
      while i < |frame|
        invariant 0 <= i <= |frame|
        invariant GroupedFrom(conv0, keys0, conversations, keys, frame[..i])
      {
        GroupStep(conv0, keys0, conversations, keys, frame, i);
        AppendRow(frame[i]);
        i := i + 1;
      }
      assert frame[..i] == frame;
      if old(keys) == [] {
        ThreadsPartitionRows(frame);
        if RowsSorted(frame) {
          forall c | c in conversations ensures MessagesSorted(conversations[c]) {
            ThreadSorted(frame, c);
          }
        }
      }
    }

    /** One pass of the loop in `group_conversations`: file the row under its customer. */
    method AppendRow(row: Row)
      modifies this`conversations, this`keys
      ensures conversations == AddRow(old(conversations), row)
      ensures keys == AddKey(old(conversations), old(keys), row)
    {
      if row.customer.Some? {
        var customer := row.customer.value;
        if customer !in conversations {
          UpdateTwice(conversations, customer, [], [ToMessage(row)]);
          conversations := conversations[customer := []];
          keys := keys + [customer];
        }
        conversations := conversations[customer := conversations[customer] + [ToMessage(row)]];
      }
    }

    /** `_format_conversation`: one line per message, joined with newlines. */
    method FormatConversation(messages: seq<Message>) returns (text: string)
      ensures text == Transcript(formatTimestamp, messages)
    {
      var formatted: seq<string> := [];
      for i := 0 to |messages|
        invariant formatted == Lines(formatTimestamp, messages[..i])
      {
        var msg := messages[i];
        assert messages[..i + 1][..i] == messages[..i];
        var sender := if msg.isAi then "AI" else "Customer";
        formatted := formatted + [formatTimestamp(msg.timestamp) + " - " + sender + ": " + CellText(msg.body)];
      }
      assert messages[..|messages|] == messages;
      text := Join(formatted, '\n');
    }

    /**
     * `analyze_conversation`: the no-query record without calling the client when no
     * message is from the AI, otherwise the client's record, or the error record when
     * the call fails (see `Classifier.NoAiShortCircuit` and `Classifier.FailureGivesErrorRecord`).
     */
    method AnalyzeConversation(messages: seq<Message>) returns (analysis: Analysis)
      ensures analysis == AnalysisOf(client, formatTimestamp, messages)
    {
      var aiMessages := AiMessages(messages);
      if aiMessages == [] {
        return NoQueryAnalysis;
      }
      var fullConversation := FormatConversation(messages);
      var aiConversation := FormatConversation(aiMessages);
      match client(fullConversation, aiConversation)
      case Reply(a) =>
        analysis := a;
      case Failure(e) =>
        analysis := ErrorAnalysis(e);
    }

    /**
     * `process_conversations`: one record appended per key with a non-empty name, in
     * dictionary order, and nothing else.
     */
    method ProcessConversations()
      requires Valid()
      modifies this`results
      ensures results == old(results)
                + ResultsFor(client, formatTimestamp, timestampText, TruthyKeys(keys), conversations)
    {
      var i := 0;
      while i < |keys|
        invariant 0 <= i <= |keys|
        invariant results == old(results)
                    + ResultsFor(client, formatTimestamp, timestampText, TruthyKeys(keys[..i]), conversations)
      {
        var customer := keys[i];
        if customer != "" {
          var messages := conversations[customer];
          var analysis := AnalyzeConversation(messages);
          ProcessStep(client, formatTimestamp, timestampText, keys, i, conversations, analysis);
          var record := ConversationResult(customer + "-" + timestampText(messages[0].timestamp),
                                           |messages|, analysis);
          AppendAssoc(old(results), ResultsFor(client, formatTimestamp, timestampText, TruthyKeys(keys[..i]), conversations), [record]);
          results := results + [record];
        } else {
          ProcessStep(client, formatTimestamp, timestampText, keys, i, conversations, NoQueryAnalysis);
        }
        i := i + 1;
      }
      assert keys[..i] == keys;
    }

    /** `generate_report`: the overview followed by one detail block per result, in order. */
    method GenerateReport() returns (report: string)
      ensures report == ReportText(formatRate, results)
    {
      var overview := Overview(formatRate, results);
      report := overview;
      assert results[..0] == [];
      for i := 0 to |results|
        invariant report == overview + Details(results[..i])
      {
        DetailsSnoc(results, i);
        AppendAssoc(overview, Details(results[..i]), Block(results[i]));
        report := report + Block(results[i]);
      }
      assert results[..|results|] == results;
    }

    /** `run_analysis` without the timing, the logging and the file write. */
    method RunAnalysis() returns (report: string)
      requires Valid()
      modifies this`df, this`frame, this`conversations, this`keys, this`results
      ensures Valid()
      ensures RawSorted(df)
      ensures forall r :: multiset(df)[r] == if IsActivationNotice(r) then 0 else multiset(old(df))[r]
      ensures frame == Augment(df)
      ensures keys == KeysAfter(old(keys), frame)
      ensures forall c :: c in conversations ==>
                conversations[c] == Lookup(old(conversations), c) + ThreadOf(frame, c)
      ensures results == old(results)
                + ResultsFor(client, formatTimestamp, timestampText, TruthyKeys(keys), conversations)
      ensures report == ReportText(formatRate, results)
    {
      PreprocessData();
      ghost var df1, frame1 := df, frame;
      assert conversations == old(conversations) && keys == old(keys) && results == old(results);
      GroupConversations();
      ghost var conversations2, keys2 := conversations, keys;
      assert df == df1 && frame == frame1 && results == old(results);
      ProcessConversations();
      assert df == df1 && frame == frame1 && conversations == conversations2 && keys == keys2;
      report := GenerateReport();
    }
  }
}
