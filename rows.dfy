/**
 * Row normalisation: the activation-notice filter, the timestamp sort and the two
 * derived columns (`is_ai` and `customer_number`) of `preprocess_data`.
 */
module Rows {
  import opened Wrappers
  import opened Text

  /** The support line's own number (`self.support_number`). */
  const SupportNumber: string := "+14159436084"

  /** The system-generated message every row containing it is dropped for. */
  const ActivationNotice: string := "Congratulations \U{1F389}, your phone number is now active!"

  /** A row of the input table; a missing (NaN) cell is `None`, timestamps are already parsed. */
  datatype RawRow = RawRow(timestamp: int, body: Option<string>, members: Option<string>)

  /** A row after preprocessing, with the two columns `preprocess_data` adds. */
  datatype Row = Row(timestamp: int, body: Option<string>, members: Option<string>,
                     isAi: bool, customer: Option<string>)

  // ---------------------------------------------------------------- filter

  /**
   * `message_body.str.contains(notice, na=False)`: a missing body never matches. pandas
   * reads the notice as a regular expression; it holds no metacharacter, so the pattern
   * matches exactly where the notice occurs as a substring.
   */
  predicate IsActivationNotice(r: RawRow) {
    r.body.Some? && Contains(r.body.value, ActivationNotice)
  }

  /**
   * The rows kept by the filter: every row that does not carry the notice, with its
   * multiplicity, and no row that does.
   */
  function KeepRows(rows: seq<RawRow>): (kept: seq<RawRow>)
    ensures forall r :: r in kept ==> !IsActivationNotice(r)
    ensures forall r :: multiset(kept)[r] == if IsActivationNotice(r) then 0 else multiset(rows)[r]
  {
    if rows == [] then []
    else
      var rest := KeepRows(rows[1..]);
      assert multiset(rows) == multiset{rows[0]} + multiset(rows[1..]) by {
        assert rows == [rows[0]] + rows[1..];
      }
      if IsActivationNotice(rows[0]) then rest else [rows[0]] + rest
  }

  // ---------------------------------------------------------------- sort

  predicate RawSorted(rows: seq<RawRow>) {
    forall i, j :: 0 <= i < j < |rows| ==> rows[i].timestamp <= rows[j].timestamp
  }

  predicate RowsSorted(rows: seq<Row>) {
    forall i, j :: 0 <= i < j < |rows| ==> rows[i].timestamp <= rows[j].timestamp
  }

  function Insert(r: RawRow, s: seq<RawRow>): (t: seq<RawRow>)
    requires RawSorted(s)
    ensures RawSorted(t)
    ensures multiset(t) == multiset(s) + multiset{r}
  {
    if s == [] then [r]
    else if r.timestamp <= s[0].timestamp then [r] + s
    else
      var t' := Insert(r, s[1..]);
      assert s == [s[0]] + s[1..];
      LowerBound(s[1..], r, t', s[0].timestamp);
      [s[0]] + t'
  }

  /** A permutation of `s` and `r` keeps a lower bound that all of them meet. */
  lemma LowerBound(s: seq<RawRow>, r: RawRow, t: seq<RawRow>, lo: int)
    requires multiset(t) == multiset(s) + multiset{r}
    requires forall k :: 0 <= k < |s| ==> lo <= s[k].timestamp
    requires lo <= r.timestamp
    ensures forall k :: 0 <= k < |t| ==> lo <= t[k].timestamp
  {
    forall k | 0 <= k < |t| ensures lo <= t[k].timestamp {
      var x := t[k];
      assert x in multiset(t);
      if x != r {
        assert x in multiset(s);
        var j :| 0 <= j < |s| && s[j] == x;
      }
    }
  }

  /**
   * Some ordering of `rows` by ascending timestamp. Callers are only told that it is
   * sorted and a permutation: the order among equal timestamps is not promised.
   */
  function SortByTimestamp(rows: seq<RawRow>): (sorted: seq<RawRow>)
    ensures RawSorted(sorted)
    ensures multiset(sorted) == multiset(rows)
  {
    if rows == [] then []
    else
      assert rows == [rows[0]] + rows[1..];
      Insert(rows[0], SortByTimestamp(rows[1..]))
  }

  // ---------------------------------------------------------------- derived columns

  /** What `str()` or an f-string shows of a text cell: a missing (NaN) cell prints as `nan`. */
  function CellText(cell: Option<string>): string {
    match cell
    case None => "nan"
    case Some(s) => s
  }

  /** The `is_ai` column: the participant list, as text, has no comma. */
  function IsAi(members: Option<string>): (ai: bool)
    ensures ai <==> |Split(CellText(members), ',')| == 1
  {
    SplitSingle(CellText(members), ',');
    ',' !in CellText(members)
  }

  /** The first index of `numbers` whose stripped entry is not the support number. */
  ghost predicate FirstCustomerAt(numbers: seq<string>, i: int) {
    0 <= i < |numbers| && Strip(numbers[i]) != SupportNumber
    && forall j :: 0 <= j < i ==> Strip(numbers[j]) == SupportNumber
  }

  /** `[n.strip() for n in numbers if n.strip() != support_number]`. */
  function Candidates(numbers: seq<string>): (c: seq<string>)
    ensures |c| <= |numbers|
    ensures forall x :: x in c ==> x != SupportNumber
    ensures c == [] <==> forall i :: 0 <= i < |numbers| ==> Strip(numbers[i]) == SupportNumber
  {
    if numbers == [] then []
    else
      var rest := Candidates(numbers[1..]);
      var n := Strip(numbers[0]);
      if n != SupportNumber then
        assert FirstCustomerAt(numbers, 0);
        [n] + rest
      else
        assert forall i :: 0 <= i < |numbers[1..]| ==> numbers[1..][i] == numbers[i + 1];
        rest
  }

  /** The first candidate is the entry at the first index that is not the support number. */
  lemma {:induction false} FirstCandidate(numbers: seq<string>)
    requires Candidates(numbers) != []
    ensures exists i :: FirstCustomerAt(numbers, i) && Candidates(numbers)[0] == Strip(numbers[i])
  {
    if Strip(numbers[0]) != SupportNumber {
      assert FirstCustomerAt(numbers, 0);
    } else {
      FirstCandidate(numbers[1..]);
      var i :| FirstCustomerAt(numbers[1..], i) && Candidates(numbers[1..])[0] == Strip(numbers[1..][i]);
      assert FirstCustomerAt(numbers, i + 1);
    }
  }

  /** What `_extract_customer_number` produces when it returns, or the exception it raises. */
  datatype Extraction = Number(value: Option<string>) | IndexError

  /**
   * `_extract_customer_number` as written: the `else None` branch is guarded by
   * `len(numbers) > 0`, which always holds, so a list without any customer entry
   * indexes an empty list.
   */
  function ExtractCustomerNumberAsWritten(members: Option<string>): (e: Extraction)
    ensures members.None? ==> e == Number(None)
  {
    match members
    case None => Number(None)
    case Some(s) =>
      var numbers := Split(s, ',');
      if |numbers| > 0 then
        var c := Candidates(numbers);
        if |c| > 0 then Number(Some(c[0])) else IndexError
      else Number(None)
  }

  /** The guard of the as-written extraction is always true: a split never comes back empty. */
  lemma AsWrittenGuardAlwaysHolds(s: string)
    ensures |Split(s, ',')| > 0
  {
  }

  /** A message sent to the support line alone makes the as-written extraction raise. */
  lemma {:induction false} AsWrittenRaisesOnSupportOnly()
    ensures ExtractCustomerNumberAsWritten(Some(SupportNumber)) == IndexError
  {
    var s := SupportNumber;
    assert s[0] == '+' && s[|s| - 1] == '4';
    StripUntrimmed(s);
    SplitNoSeparator(s, ',');
    assert Candidates([s]) == [];
  }

  /**
   * The customer column: the first stripped participant that is not the support number,
   * and `None` for a missing cell or when every participant is the support number.
   */
  function ExtractCustomerNumber(members: Option<string>): (r: Option<string>)
    ensures members.None? ==> r.None?
    ensures r.Some? ==> r.value != SupportNumber
    ensures members.Some? ==>
              (r.None? <==> forall p :: p in Split(members.value, ',') ==> Strip(p) == SupportNumber)
    ensures r.Some? ==>
              exists i :: FirstCustomerAt(Split(members.value, ','), i)
                       && r.value == Strip(Split(members.value, ',')[i])
  {
    match members
    case None => None
    case Some(s) =>
      var c := Candidates(Split(s, ','));
      if |c| > 0 then FirstCandidate(Split(s, ',')); Some(c[0]) else None
  }

  /** Wherever the as-written extraction returns, it agrees with the corrected one. */
  lemma AsWrittenAgrees(members: Option<string>)
    ensures ExtractCustomerNumberAsWritten(members) == IndexError <==>
              members.Some? && ExtractCustomerNumber(members).None?
    ensures ExtractCustomerNumberAsWritten(members) != IndexError ==>
              ExtractCustomerNumberAsWritten(members) == Number(ExtractCustomerNumber(members))
  {
  }

  /** One row with its derived columns. */
  function Derive(r: RawRow): Row {
    Row(r.timestamp, r.body, r.members, IsAi(r.members), ExtractCustomerNumber(r.members))
  }

  /** The frame with both columns added, row by row and in the same order. */
  function Augment(rows: seq<RawRow>): (frame: seq<Row>)
    ensures RawSorted(rows) ==> RowsSorted(frame)
    ensures forall i :: 0 <= i < |frame| ==> frame[i].customer != Some(SupportNumber)
  {
    seq(|rows|, i requires 0 <= i < |rows| => Derive(rows[i]))
  }

  /**
   * What preprocessing leaves: sorted by timestamp, no activation notice left, every kept
   * input row present with its multiplicity, no customer equal to the support number.
   */
  lemma PreprocessedFrame(input: seq<RawRow>, df: seq<RawRow>)
    requires RawSorted(df)
    requires multiset(df) == multiset(KeepRows(input))
    ensures RowsSorted(Augment(df))
    ensures forall i :: 0 <= i < |df| ==> !IsActivationNotice(df[i])
    ensures forall r :: multiset(df)[r] == (if IsActivationNotice(r) then 0 else multiset(input)[r])
  {
    forall i | 0 <= i < |df| ensures !IsActivationNotice(df[i]) {
      assert df[i] in multiset(KeepRows(input));
    }
  }
}
