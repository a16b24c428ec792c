/**
 * The meaning of `group_conversations`: which messages each customer's thread holds
 * and in which order the customer keys are created.
 */
module Threads {
  import opened Wrappers
  import opened Text
  import opened Rows

  /** The three fields `group_conversations` copies out of a row. */
  datatype Message = Message(timestamp: int, body: Option<string>, isAi: bool)

  function ToMessage(r: Row): Message {
    Message(r.timestamp, r.body, r.isAi)
  }

  predicate MessagesSorted(msgs: seq<Message>) {
    forall i, j :: 0 <= i < j < |msgs| ==> msgs[i].timestamp <= msgs[j].timestamp
  }

  predicate Distinct(ks: seq<string>) {
    forall i, j :: 0 <= i < j < |ks| ==> ks[i] != ks[j]
  }

  /** The row `r` came from customer `c`'s side and produced message `m`. */
  ghost predicate From(r: Row, c: string, m: Message) {
    r.customer == Some(c) && ToMessage(r) == m
  }

  /**
   * Customer `c`'s thread: the messages of the rows whose customer is `c`, in row order.
   * Every message in it comes from such a row.
   */
  function ThreadOf(rows: seq<Row>, c: string): seq<Message> {
    if rows == [] then []
    else
      var prev := ThreadOf(rows[..|rows| - 1], c);
      var r := rows[|rows| - 1];
      if r.customer == Some(c) then prev + [ToMessage(r)] else prev
  }

  /** Every message of `c`'s thread comes from a row of `c`, and the thread is no longer than the rows. */
  lemma {:induction false} ThreadProvenance(rows: seq<Row>, c: string)
    ensures |ThreadOf(rows, c)| <= |rows|
    ensures forall m :: m in ThreadOf(rows, c) ==> exists r :: r in rows && From(r, c, m)
  {
    if rows != [] {
      var prefix := rows[..|rows| - 1];
      var r := rows[|rows| - 1];
      ThreadProvenance(prefix, c);
      assert forall x :: x in prefix ==> x in rows;
      assert r in rows;
      assert r.customer == Some(c) ==> From(r, c, ToMessage(r));
    }
  }

  /**
   * The keys after adding `rows` to a dictionary whose keys were `ks`: a customer is
   * appended when its first row is met, rows without a customer are skipped.
   */
  function KeysAfter(ks: seq<string>, rows: seq<Row>): seq<string> {
    if rows == [] then ks
    else
      var prev := KeysAfter(ks, rows[..|rows| - 1]);
      match rows[|rows| - 1].customer
      case None => prev
      case Some(c) => if c in prev then prev else prev + [c]
  }

  /** The keys of a dictionary built from nothing, in order of first appearance. */
  function Customers(rows: seq<Row>): seq<string> {
    KeysAfter([], rows)
  }

  /** One more row extends the thread of its own customer by its message, and no other. */
  lemma ThreadOfSnoc(rows: seq<Row>, i: nat, c: string)
    requires i < |rows|
    ensures ThreadOf(rows[..i + 1], c)
              == ThreadOf(rows[..i], c) + if rows[i].customer == Some(c) then [ToMessage(rows[i])] else []
  {
    assert rows[..i + 1][..i] == rows[..i];
  }

  /** One more row adds its customer to the keys when it is not one yet. */
  lemma KeysAfterSnoc(ks: seq<string>, rows: seq<Row>, i: nat)
    requires i < |rows|
    ensures KeysAfter(ks, rows[..i + 1])
              == match rows[i].customer
                 case None => KeysAfter(ks, rows[..i])
                 case Some(c) => if c in KeysAfter(ks, rows[..i]) then KeysAfter(ks, rows[..i])
                                 else KeysAfter(ks, rows[..i]) + [c]
  {
    assert rows[..i + 1][..i] == rows[..i];
  }

  /** A customer is a key exactly when it was one already or it has a non-empty thread. */
  lemma {:induction false} KeysAfterMembers(ks: seq<string>, rows: seq<Row>, c: string)
    ensures c in KeysAfter(ks, rows) <==> c in ks || ThreadOf(rows, c) != []
  {
    if rows != [] {
      KeysAfterMembers(ks, rows[..|rows| - 1], c);
    }
  }

  /** Adding rows never creates a key twice. */
  lemma {:induction false} KeysAfterDistinct(ks: seq<string>, rows: seq<Row>)
    requires Distinct(ks)
    ensures Distinct(KeysAfter(ks, rows))
  {
    if rows != [] {
      KeysAfterDistinct(ks, rows[..|rows| - 1]);
    }
  }

  /** Every customer key has a non-empty thread. */
  lemma ThreadsNonEmpty(rows: seq<Row>)
    ensures forall c :: c in Customers(rows) ==> ThreadOf(rows, c) != []
  {
    forall c | c in Customers(rows) ensures ThreadOf(rows, c) != [] {
      KeysAfterMembers([], rows, c);
    }
  }

  /** Over timestamp-sorted rows, every thread is sorted by timestamp. */
  lemma {:induction false} ThreadSorted(rows: seq<Row>, c: string)
    requires RowsSorted(rows)
    ensures MessagesSorted(ThreadOf(rows, c))
  {
    if rows != [] {
      var n := |rows| - 1;
      var prefix := rows[..n];
      ThreadSorted(prefix, c);
      ThreadProvenance(prefix, c);
      var prev := ThreadOf(prefix, c);
      if rows[n].customer == Some(c) {
        forall k | 0 <= k < |prev| ensures prev[k].timestamp <= rows[n].timestamp {
          assert prev[k] in prev;
          var r :| r in prefix && From(r, c, prev[k]);
          var j :| 0 <= j < n && prefix[j] == r;
          assert rows[j] == r;
        }
      }
    }
  }

  // ---------------------------------------------------------------- the dictionary

  /** The thread a dictionary holds for `c`, or nothing when `c` is not a key. */
  function Lookup(m: map<string, seq<Message>>, c: string): seq<Message> {
    if c in m then m[c] else []
  }

  /** The dictionary's keys are listed once each, in `keys`, and no thread is empty. */
  ghost predicate WellFormed(conversations: map<string, seq<Message>>, keys: seq<string>) {
    Distinct(keys)
    && (forall k :: k in conversations <==> k in keys)
    && (forall k :: k in conversations ==> |conversations[k]| > 0)
  }

  /**
   * `conversations`/`keys` is what appending the messages of `rows` to the dictionary
   * `conv0`/`keys0` gives.
   */
  ghost predicate GroupedFrom(conv0: map<string, seq<Message>>, keys0: seq<string>,
                              conversations: map<string, seq<Message>>, keys: seq<string>,
                              rows: seq<Row>) {
    WellFormed(conversations, keys)
    && keys == KeysAfter(keys0, rows)
    && (forall c :: c in conversations <==> c in conv0 || ThreadOf(rows, c) != [])
    && (forall c :: c in conversations ==> conversations[c] == Lookup(conv0, c) + ThreadOf(rows, c))
  }

  /** Creating a key and then replacing its value is one update. */
  lemma UpdateTwice(m: map<string, seq<Message>>, k: string, v: seq<Message>, w: seq<Message>)
    ensures m[k := v][k := v + w] == m[k := v + w]
  {
  }

  /** The loop body of `group_conversations` applied to the dictionary. */
  function AddRow(conversations: map<string, seq<Message>>, row: Row): map<string, seq<Message>> {
    match row.customer
    case None => conversations
    case Some(c) => conversations[c := Lookup(conversations, c) + [ToMessage(row)]]
  }

  /** The loop body of `group_conversations` applied to the key order. */
  function AddKey(conversations: map<string, seq<Message>>, keys: seq<string>, row: Row): seq<string> {
    match row.customer
    case None => keys
    case Some(c) => if c in conversations then keys else keys + [c]
  }

  /** The loop body keeps the dictionary in step with the rows it has seen. */
  lemma GroupStep(conv0: map<string, seq<Message>>, keys0: seq<string>,
                  conversations: map<string, seq<Message>>, keys: seq<string>,
                  rows: seq<Row>, i: nat)
    requires i < |rows|
    requires GroupedFrom(conv0, keys0, conversations, keys, rows[..i])
    ensures GroupedFrom(conv0, keys0, AddRow(conversations, rows[i]),
                        AddKey(conversations, keys, rows[i]), rows[..i + 1])
  {
    GroupStepWellFormed(conversations, keys, rows[i]);
    GroupStepKeys(conv0, keys0, conversations, keys, rows, i);
    GroupStepMembers(conv0, keys0, conversations, keys, rows, i);
    GroupStepContents(conv0, keys0, conversations, keys, rows, i);
  }

  lemma GroupStepKeys(conv0: map<string, seq<Message>>, keys0: seq<string>,
                      conversations: map<string, seq<Message>>, keys: seq<string>,
                      rows: seq<Row>, i: nat)
    requires i < |rows|
    requires GroupedFrom(conv0, keys0, conversations, keys, rows[..i])
    ensures AddKey(conversations, keys, rows[i]) == KeysAfter(keys0, rows[..i + 1])
  {
    KeysAfterSnoc(keys0, rows, i);
  }

  lemma GroupStepMembers(conv0: map<string, seq<Message>>, keys0: seq<string>,
                         conversations: map<string, seq<Message>>, keys: seq<string>,
                         rows: seq<Row>, i: nat)
    requires i < |rows|
    requires GroupedFrom(conv0, keys0, conversations, keys, rows[..i])
    ensures forall c :: c in AddRow(conversations, rows[i]) <==> c in conv0 || ThreadOf(rows[..i + 1], c) != []
  {
    forall c ensures c in AddRow(conversations, rows[i]) <==> c in conv0 || ThreadOf(rows[..i + 1], c) != [] {
      ThreadOfSnoc(rows, i, c);
    }
  }

  lemma GroupStepContents(conv0: map<string, seq<Message>>, keys0: seq<string>,
                          conversations: map<string, seq<Message>>, keys: seq<string>,
                          rows: seq<Row>, i: nat)
    requires i < |rows|
    requires GroupedFrom(conv0, keys0, conversations, keys, rows[..i])
    ensures forall c :: c in AddRow(conversations, rows[i]) ==>
              AddRow(conversations, rows[i])[c] == Lookup(conv0, c) + ThreadOf(rows[..i + 1], c)
  {
    var row := rows[i];
    var conv := AddRow(conversations, row);
    forall c | c in conv ensures conv[c] == Lookup(conv0, c) + ThreadOf(rows[..i + 1], c) {
      ThreadOfSnoc(rows, i, c);
      if row.customer == Some(c) {
        AppendAssoc(Lookup(conv0, c), ThreadOf(rows[..i], c), [ToMessage(row)]);
      }
    }
  }

  lemma GroupStepWellFormed(conversations: map<string, seq<Message>>, keys: seq<string>, row: Row)
    requires WellFormed(conversations, keys)
    ensures WellFormed(AddRow(conversations, row), AddKey(conversations, keys, row))
  {
  }

  // ---------------------------------------------------------------- partition

  /** The rows `group_conversations` does not skip. */
  function DefinedCount(rows: seq<Row>): nat {
    if rows == [] then 0
    else DefinedCount(rows[..|rows| - 1]) + if rows[|rows| - 1].customer.Some? then 1 else 0
  }

  /** The sum of the thread lengths of the keys `ks`. */
  function TotalLength(rows: seq<Row>, ks: seq<string>): nat {
    if ks == [] then 0 else |ThreadOf(rows, ks[0])| + TotalLength(rows, ks[1..])
  }

  /** How many of the keys `ks` the row `r` belongs to. */
  function Hits(r: Row, ks: seq<string>): nat {
    if ks == [] then 0 else (if r.customer == Some(ks[0]) then 1 else 0) + Hits(r, ks[1..])
  }

  lemma {:induction false} HitsDistinct(r: Row, ks: seq<string>)
    requires Distinct(ks)
    ensures Hits(r, ks) == if r.customer.Some? && r.customer.value in ks then 1 else 0
  {
    if ks != [] {
      HitsDistinct(r, ks[1..]);
      assert ks == [ks[0]] + ks[1..];
      if r.customer == Some(ks[0]) {
        assert ks[0] !in ks[1..];
      }
    }
  }

  lemma {:induction false} TotalLengthAppendRow(rows: seq<Row>, r: Row, ks: seq<string>)
    ensures TotalLength(rows + [r], ks) == TotalLength(rows, ks) + Hits(r, ks)
  {
    if ks != [] {
      TotalLengthAppendRow(rows, r, ks[1..]);
      assert (rows + [r])[..|rows + [r]| - 1] == rows;
    }
  }

  lemma {:induction false} TotalLengthAppendKey(rows: seq<Row>, ks: seq<string>, c: string)
    ensures TotalLength(rows, ks + [c]) == TotalLength(rows, ks) + |ThreadOf(rows, c)|
  {
    if ks != [] {
      assert (ks + [c])[1..] == ks[1..] + [c];
      TotalLengthAppendKey(rows, ks[1..], c);
    } else {
      assert ([c])[1..] == [];
    }
  }

  /**
   * Grouping is a partition: the threads of all customer keys together hold exactly as
   * many messages as there are rows with a customer.
   */
  lemma {:induction false} ThreadsPartitionRows(rows: seq<Row>)
    ensures TotalLength(rows, Customers(rows)) == DefinedCount(rows)
  {
    if rows != [] {
      var n := |rows| - 1;
      var prefix := rows[..n];
      var r := rows[n];
      assert rows == prefix + [r];
      ThreadsPartitionRows(prefix);
      var ks := Customers(prefix);
      KeysAfterDistinct([], prefix);
      TotalLengthAppendRow(prefix, r, ks);
      HitsDistinct(r, ks);
      match r.customer
      case None =>
      case Some(c) =>
        if c !in ks {
          TotalLengthAppendKey(rows, ks, c);
          KeysAfterMembers([], prefix, c);
          assert ThreadOf(prefix, c) == [];
        }
    }
  }
}
