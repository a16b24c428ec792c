# Conversation analyzer, modelled in Dafny

This project models the batch pipeline of `ConversationAnalyzer`. The pipeline turns a
log of support text messages into a Markdown report in four stages:

1. `preprocess_data` drops the rows that carry the phone-activation notice. It sorts the
   rest by timestamp and derives two columns: `is_ai` and `customer_number`.
2. `group_conversations` files each row under its customer number. A key is created just
   before its first append.
3. `process_conversations` gives every thread with a non-empty key to
   `analyze_conversation`. The analysis is either a fixed no-query record, the language
   model's record, or an error record. One result record is appended per thread.
4. `generate_report` writes the overview counts and one detail block per result.

Layout, one module per file:

- `wrappers.dfy` (`Wrappers`): the `Option` type.
- `text.dfy` (`Text`): the Python string operations the pipeline uses, over `seq<char>`:
  - `str.split` and `str.join`;
  - `str.strip` with Python's white-space set;
  - substring search;
  - ASCII upper-casing;
  - decimal rendering of a count.
- `filters.dfy` (`Filters`): list comprehensions with a condition, the positions
  they keep, and their order, multiplicity and distinctness facts.
- `rows.dfy` (`Rows`): the input and preprocessed rows, the notice filter, the timestamp
  sort, and the two derived columns.
- `threads.dfy` (`Threads`): what grouping means. `ThreadOf` is a customer's thread and
  `KeysAfter` is the key creation order. The lemmas state the partition, ordering and
  non-emptiness facts.
- `classifier.dfy` (`Classifier`): the transcript format, the per-thread analysis and the
  result records.
- `report.dfy` (`Report`): the counts, the resolution rate and the report text, plus
  lemmas that read the figures back out of the text.
- `analyzer.dfy` (`Analyzer`): the class `ConversationAnalyzer`. Its fields are:
  - `df`, the data frame before the derived columns;
  - `frame`, the data frame with them;
  - the `conversations` dictionary and its insertion-ordered `keys`;
  - the `results` list.

  The mutating methods (`PreprocessData`, `GroupConversations`, `ProcessConversations`,
  `RunAnalysis`) update these fields in place, as the Python methods do.
  `FormatConversation`, `AnalyzeConversation` and `GenerateReport` change no field and
  return a value. Every method is proved against the functions of the other modules.

Parameters of the model:

- Timestamps are integers.
- Three renderings are constant function-valued fields of the class:
  - `strftime` of a timestamp;
  - `str()` of a timestamp, used in conversation ids;
  - `"{:.1f}"` of the rate.
- The chat-completion call together with `json.loads` is the field `client`. It maps
  the full transcript and the AI-only transcript to `Reply(analysis)` or
  `Failure(error text)`.
- A missing (NaN) cell is `None`. `str()` of a missing cell is `nan`.

Modelling choices:

- Customer extraction, as written, raises `IndexError` when every participant is the
  support number: its `len(numbers) > 0` guard can never fail. The code's own `else None`
  branch shows the intended result, which is no customer. The pipeline uses that
  corrected extraction, `Rows.ExtractCustomerNumber`. The raising version is modelled
  separately as `Rows.ExtractCustomerNumberAsWritten`; see the finding below.
- `has_query` is a boolean. The other four analysis fields are kept as the strings the
  model returns, not as closed enumerations. `generate_report` reads them as strings:
  upper-casing for `RESOLVED`, exact comparison for `Hard` and `Soft`.
- Threads are processed in dictionary insertion order, which is first appearance in the
  sorted rows. That order is modelled by `keys`.
- The two list comprehensions with a condition (the AI messages of a thread, the
  non-empty keys) are instances of one generic `Filters.Filter`, with the kept positions
  given by `Filters.Positions`.

Definitions the contracts below are stated against (they carry no contract of their own):

- `Classifier.AnalysisOf` (conversation_analyzer.py:66-176): one thread's analysis. It is
  the no-query record when the thread has no AI message. Otherwise it is the client's
  record for the full transcript and the AI-only transcript, or the error record when the
  call fails.
- `Classifier.ResultsFor` (conversation_analyzer.py:183-199): the result records for a key
  list, one per key and in key order. Each holds the key's conversation id, its thread
  length and `AnalysisOf` its thread.
- `Threads.ThreadOf` (conversation_analyzer.py:250-261): customer `c`'s thread, meaning
  the messages of the rows whose customer is `c`, in row order.
- `Threads.KeysAfter` (conversation_analyzer.py:250-261): the dictionary's keys after
  grouping more rows. A customer is appended when its first row is met, and rows without
  a customer are skipped.
- `Report.OverviewLines` (conversation_analyzer.py:217-228): the twelve overview lines:
  the title and overview headings, the three conversation counts, the resolution rate,
  the Hard and Soft counts, and the detail heading.
- `Report.BlockLines` (conversation_analyzer.py:230-243): the twelve lines of one
  result's detail block, starting and ending with an empty line.
- `Report.Details` (conversation_analyzer.py:230-243): the detail section, meaning the
  results' blocks one after another, in result order.
- `Report.ReportText` (conversation_analyzer.py:203-245): the returned report, which is
  the overview followed by the detail section.

## Model

| member | source | states |
|---|---|---|
| Text.Split | conversation_analyzer.py:54 | `str.split` always yields at least one piece, and no piece contains the separator |
| Text.JoinSplit | conversation_analyzer.py:54 | joining the pieces of a split with the separator gives back the original string |
| Text.SplitJoin | conversation_analyzer.py:64 | splitting the join of separator-free pieces gives back exactly those pieces |
| Text.SplitSingle | conversation_analyzer.py:40 | a string splits into exactly one piece if and only if it does not contain the separator |
| Text.StripIsTrimmedSlice | conversation_analyzer.py:55 | `strip()` returns a contiguous slice of the input with only white space cut off, and that slice neither starts nor ends with white space |
| Text.Contains | conversation_analyzer.py:27-30 | substring search is true exactly when the pattern occurs at some index |
| Text.UpperMatches | conversation_analyzer.py:211 | an upper-cased string equals an upper-case target exactly when each character is the target's character or its lower-case form |
| Text.ParseNatText | conversation_analyzer.py:219-225 | reading the decimal text of a count gives back the count |
| Rows.KeepRows | conversation_analyzer.py:27-30 | no kept row carries the activation notice; every other row keeps its multiplicity; a missing body never matches, so such rows stay |
| Rows.Insert | conversation_analyzer.py:36 | inserting into a timestamp-sorted list gives a sorted list holding one more copy of the row |
| Rows.SortByTimestamp | conversation_analyzer.py:36 | the output is sorted by non-decreasing timestamp and is a permutation of the input; stability is not promised |
| Rows.IsAi | conversation_analyzer.py:39-41 | `is_ai` holds exactly when `str(members)` splits into a single piece on `,`, i.e. has no comma; a missing cell (`nan`) counts as AI |
| Rows.Candidates | conversation_analyzer.py:55 | the stripped participants that are not the support number; empty exactly when every stripped participant is the support number |
| Rows.FirstCandidate | conversation_analyzer.py:55 | the first candidate is the stripped participant at the first index that is not the support number |
| Rows.ExtractCustomerNumberAsWritten | conversation_analyzer.py:50-55 | the extraction as written: `None` for a missing cell, the first candidate when there is one, `IndexError` otherwise |
| Rows.AsWrittenRaisesOnSupportOnly | conversation_analyzer.py:55 | the as-written extraction raises `IndexError` for a message whose only participant is the support number |
| Rows.ExtractCustomerNumber | conversation_analyzer.py:50-55 | the corrected extraction: `None` for a missing cell or for an all-support list; otherwise the first stripped participant that is not the support number, so never the support number |
| Rows.AsWrittenAgrees | conversation_analyzer.py:50-55 | the as-written extraction raises exactly when the cell is present and the corrected one gives `None`; otherwise both give the same value |
| Rows.Augment | conversation_analyzer.py:38-46 | adding the derived columns to timestamp-sorted rows gives a timestamp-sorted frame, and no derived customer is the support number |
| Rows.PreprocessedFrame | conversation_analyzer.py:22-46 | a sorted permutation of the filtered rows gives a sorted frame without notices, in which every other input row keeps its multiplicity |
| Threads.ThreadProvenance | conversation_analyzer.py:250-261 | every message in customer `c`'s thread comes from a row whose customer is `c`, and a thread is never longer than the rows |
| Threads.KeysAfterMembers | conversation_analyzer.py:254-255 | a customer is a key afterwards exactly when it was one before or it has a non-empty thread |
| Threads.KeysAfterDistinct | conversation_analyzer.py:254-256 | adding rows never creates a key twice |
| Threads.ThreadsNonEmpty | conversation_analyzer.py:254-261 | every key created from nothing has a non-empty thread |
| Threads.ThreadSorted | conversation_analyzer.py:250-261 | over timestamp-sorted rows, every thread is sorted by timestamp |
| Threads.ThreadsPartitionRows | conversation_analyzer.py:250-261 | the thread lengths over all keys add up to the number of rows with a customer |
| Threads.GroupStep | conversation_analyzer.py:250-261 | one more row keeps the dictionary equal to the threads and keys of the rows seen so far, and keeps it well formed |
| Filters.Filter | conversation_analyzer.py:70 | every kept element is an element of the input that the condition accepts, and every accepted element is kept |
| Filters.Positions | conversation_analyzer.py:70 | the kept positions are in range, strictly increasing, accepted by the condition, and include every accepted position |
| Filters.FilterAtPositions | conversation_analyzer.py:70 | the `i`-th kept element is the input element at the `i`-th kept position, so the kept elements are in input order |
| Filters.FilterMultiset | conversation_analyzer.py:70 | an accepted value is kept as often as it occurs in the input, a rejected one never |
| Filters.FilterDistinct | conversation_analyzer.py:183-185 | filtering a list without repetitions gives a list without repetitions |
| Classifier.AiMessages | conversation_analyzer.py:70 | the AI messages: exactly the messages with `is_ai` set; empty exactly when no message is from the AI |
| Classifier.AiMessagesInOrder | conversation_analyzer.py:70 | each AI message is kept as often as it occurs in the thread and no other message is kept; the `i`-th kept message is the thread's message at its `i`-th AI position, positions increasing, and a position is an AI position exactly when its message has `is_ai` set |
| Classifier.Lines | conversation_analyzer.py:57-63 | one line per message, in the same order, each `"<time> - <AI\|Customer>: <body>"` |
| Classifier.TranscriptLines | conversation_analyzer.py:57-64 | when no line contains a newline, the transcript splits back into exactly the messages' lines |
| Classifier.NoAiShortCircuit | conversation_analyzer.py:70-80 | a thread without AI messages gets `has_query` false and `NO_QUERY` in all three categorical fields |
| Classifier.ShortCircuitIgnoresClient | conversation_analyzer.py:72-80 | a thread without AI messages gets the same record whatever the client would answer, so the client's answer is not used |
| Classifier.FailureGivesErrorRecord | conversation_analyzer.py:168-176 | when the call fails, the record has `has_query` false, `ERROR` in all three categorical fields, and the error text after `Error analyzing conversation: ` |
| Classifier.ReplyIsTheAnalysis | conversation_analyzer.py:82-167 | when the call succeeds on a thread with an AI message, the record is the client's analysis of the two transcripts |
| Classifier.TruthyKeys | conversation_analyzer.py:183-185 | the processed keys are exactly the non-empty keys |
| Classifier.TruthyKeysInOrder | conversation_analyzer.py:183-185 | the processed keys are the key list with every empty key removed: the same multiset minus the empty key, in key order (the `i`-th is the key at the `i`-th non-empty position), and without repetitions when the keys have none |
| Classifier.ProcessStep | conversation_analyzer.py:183-199 | after key `k`, the records so far are unchanged when `k` is empty, and otherwise gain one record with id `k + "-" + str(first timestamp)`, the thread length and the analysis |
| Classifier.ResultsForAt | conversation_analyzer.py:183-199 | there is one record per processed key, and the `i`-th is that key's record |
| Classifier.OneResultPerKey | conversation_analyzer.py:195-199 | the `i`-th record has the `i`-th key's id, its thread's length, which is positive, and its thread's analysis |
| Report.QueryResults | conversation_analyzer.py:206 | the query results are exactly the results whose `has_query` is true |
| Report.QueryResultsInOrder | conversation_analyzer.py:206 | each query result is kept as often as it occurs and no other result is kept; the `i`-th query result is the result at the `i`-th position with a query, positions increasing, and a position is kept exactly when its result has a query |
| Report.NoQueryCountCountsNoQuery | conversation_analyzer.py:206-207 | `no_query_count` counts exactly the results whose `has_query` is false, and adds up with the with-query count to the total |
| Report.IsResolvedIgnoresCase | conversation_analyzer.py:211 | a resolution counts as resolved exactly when it spells `RESOLVED` with each letter in either case |
| Report.ResolvedSpellings | conversation_analyzer.py:211 | `Resolved` and `RESOLVED` count as resolved; `UNRESOLVED` does not |
| Report.CountResolved | conversation_analyzer.py:211 | the resolved count is at most the number of query results |
| Report.CountType | conversation_analyzer.py:214-215 | a resolution-type count is at most the number of query results |
| Report.HardSoftBound | conversation_analyzer.py:214-215 | the Hard and Soft counts add up to at most the number of query results |
| Report.LowercaseHardNotCounted | conversation_analyzer.py:214 | a result typed `hard` in lower case does not add to the Hard count |
| Report.ResolvedSnoc | conversation_analyzer.py:206-211 | one more result joins the query results exactly when it has a query, and adds one to the resolved count exactly when it also reads as resolved |
| Report.Percent | conversation_analyzer.py:212 | the rate is 0 for an empty denominator; otherwise the rate times the denominator is 100 times the numerator; a numerator no larger than the denominator gives a value between 0 and 100 |
| Report.ResolutionRate | conversation_analyzer.py:212 | the resolution rate is 0 when there is no query result, and always between 0 and 100 |
| Report.ResolutionRateIdentity | conversation_analyzer.py:206-212 | with at least one query result, the rate times the number of query results is 100 times the resolved count |
| Report.RateOfTwoInThree | conversation_analyzer.py:211-212 | with three query results resolved as `Resolved`, `RESOLVED` and `UNRESOLVED`, the rate is 200/3 percent |
| Report.CountLineReadsBack | conversation_analyzer.py:219-225 | re-reading an overview count line gives back its count |
| Report.SummaryConsistent | conversation_analyzer.py:206-215 | the overview figures agree: without plus with queries is the total; Hard plus Soft is at most those with queries; the rate is within 0..100 and is 0 when there are no queries |
| Report.SummaryReadsBack | conversation_analyzer.py:217-228 | re-reading lines 4 to 6, 8 and 9 of the overview gives back the five counts it shows |
| Report.OverviewReadsBack | conversation_analyzer.py:217-228 | re-reading the report's overview gives back the total, no-query, with-query, Hard and Soft counts of the results |
| Report.DetailLinesAt | conversation_analyzer.py:230-243 | the detail section has one leading empty line and then eleven lines per result; lines `11i+1` to `11i+11` are the `i`-th result's block lines after its first |
| Report.DetailsJoin | conversation_analyzer.py:230-243 | the detail section is its lines joined with newlines, each block's empty first line being the previous block's last |
| Report.DetailsSplit | conversation_analyzer.py:230-243 | when no result's id or text field holds a newline, splitting the detail section gives exactly its lines, one by one |
| Report.StatusLinesAt | conversation_analyzer.py:231-233 | line `11i+2` of the detail section reads back as the `i`-th result's `has_query` flag |
| Report.DetailsReadBack | conversation_analyzer.py:230-243 | when no result's id or text field holds a newline, splitting the detail section gives `11n+1` lines, the `i`-th result's block lines at `11i+1` to `11i+11`, and its query flag read back from line `11i+2` |
| Report.StatusLineReadsBack | conversation_analyzer.py:231-233 | a status line reads back as the result's `has_query` flag |
| Report.OverviewSplit | conversation_analyzer.py:217-228 | when the formatted rate holds no newline, the overview splits back into its twelve lines |
| Text.SplitJoinThen | conversation_analyzer.py:217-245 | splitting the join of separator-free pieces, then a separator, then any text gives those pieces followed by the pieces of that text |
| Report.OverviewThen | conversation_analyzer.py:217-245 | an overview followed by any text splits into the overview's first eleven lines followed by the pieces of that text |
| Report.SectionsSplit | conversation_analyzer.py:217-245 | whatever the results hold, an overview followed by the detail section splits into the overview's first eleven lines followed by the detail section's lines, when the formatted rate holds no newline |
| Report.ReportReadsBack | conversation_analyzer.py:203-245 | whatever the results hold, the whole report splits into the overview's lines up to its final empty one, followed by the detail section's lines, when the formatted rate holds no newline; so both read-back lemmas apply to the returned text |
| Report.DetailsSnoc | conversation_analyzer.py:230-243 | one more result appends exactly its block to the detail section |
| Report.BlockQueryStatusReadsBack | conversation_analyzer.py:231-233 | the third line of a block reads `Query Present` exactly when the result has a query, and `No Query` otherwise |
| Analyzer.ConversationAnalyzer.constructor | conversation_analyzer.py:9-15 | the analyzer starts with the input rows, an empty dictionary and no results |
| Analyzer.ConversationAnalyzer.PreprocessData | conversation_analyzer.py:22-46 | the new data frame is sorted by timestamp and holds no notice row; every other row keeps its multiplicity; the derived columns are added row by row, and the augmented frame is sorted too |
| Analyzer.ConversationAnalyzer.AppendRow | conversation_analyzer.py:252-261 | a row without a customer changes nothing; otherwise the customer's key is created if missing and the row's message is appended to its list |
| Analyzer.ConversationAnalyzer.GroupConversations | conversation_analyzer.py:247-263 | each key's list is its old list followed by its thread from the frame, in row order; keys are added in order of first appearance; no list is empty; from an empty dictionary the lists partition the rows with a customer and are sorted |
| Analyzer.ConversationAnalyzer.FormatConversation | conversation_analyzer.py:57-64 | the loop builds the newline-joined transcript of the messages |
| Analyzer.ConversationAnalyzer.AnalyzeConversation | conversation_analyzer.py:66-176 | the result is the thread's analysis: the no-query record without a call, otherwise the client's record, or the error record on failure |
| Analyzer.ConversationAnalyzer.ProcessConversations | conversation_analyzer.py:178-201 | the results gain exactly one record per non-empty key, in key order, and nothing else |
| Analyzer.ConversationAnalyzer.GenerateReport | conversation_analyzer.py:203-245 | the returned text is the overview followed by every result's block, in result order |
| Analyzer.ConversationAnalyzer.RunAnalysis | conversation_analyzer.py:265-283 | the four stages run in order, and the final state and report are the composition of their specifications |

## Left out

- Loading the CSV file (`pd.read_csv`) and `pd.to_datetime`: rows arrive already parsed, with integer timestamps. Unparsable or missing timestamps (NaT) are not modelled.
- `strftime`, `str()` of a timestamp and `"{:.1f}"` formatting: floating-point and library behaviour. They are function parameters.
- The test for whether a timestamp is a `datetime` is not modelled: parsed timestamps always are one, so the rendering parameter is used on every message line.
- The OpenAI call, its prompt text and `json.loads`: network and non-determinism. Together they are the `client` parameter, with the exception text as `Failure`.
- `**analysis` merging: a model reply with extra or overriding keys, or a reply that is valid JSON but not an object, is not modelled. The reply is always the five-field record. So the outer `except` of `process_conversations`, which drops a thread's record, is never reached in the model.
- Logging, `time.time()` timings and writing `conversation_analysis.md`: I/O and clocks.
- `run_analysis.py`: environment and credential loading and the entry point.
- `is_ai` and the customer number read `str(members)`. Only strings and missing cells are modelled. For a string cell `str` is the identity.
- Text.Upper: only ASCII letters are upper-cased. Python's `str.upper()` also maps other characters (for example `'ſ'.upper() == 'S'`), so a non-ASCII spelling of `RESOLVED` would count in Python but not in the model.
- Rows.SortByTimestamp: stated as "sorted and a permutation" only. The order pandas' default quicksort gives to equal timestamps is not modelled.
- The notice filter searches for the notice as a plain substring. pandas reads it as a regular expression, which matches the same texts because the notice holds no metacharacter.
- When preprocessing raises `IndexError`, the whole batch stops. The pipeline instead uses the corrected extraction, which gives such a row no customer. The raising behaviour itself is modelled by Rows.ExtractCustomerNumberAsWritten.

## Findings

| source | as written | input that shows it | evidently intended | confidence | as-written member | corrected member |
|---|---|---|---|---|---|---|
| conversation_analyzer.py:55 | `[...][0] if len(numbers) > 0 else None`: `str.split` never returns an empty list, so the guard always holds and an empty candidate list is indexed | members `"+14159436084"`: the only participant is the support number, and `preprocess_data` raises `IndexError` | return `None`, so the row gets no customer and grouping skips it | high (not executed) | Rows.ExtractCustomerNumberAsWritten (see Rows.AsWrittenGuardAlwaysHolds and Rows.AsWrittenRaisesOnSupportOnly) | Rows.ExtractCustomerNumber |
