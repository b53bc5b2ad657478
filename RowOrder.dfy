/** The order in which has_round_for_district visits the snapshot's rows
    (app.py:124-127): `sorted(items, key=...)` with the row key's integer value
    when it is all digits and 999999 otherwise. Python's sort is stable, so
    rows with equal sort keys keep their order in the snapshot. */
module RowOrder {
  import opened Text
  import opened Values

  /** One `(row key, row)` pair of the snapshot. */
  type Entry = (string, Value)

  /** The sort key given to keys that are not all digits. */
  const NonDigitKey := 999999

  function SortKey(key: string): (n: int)
    ensures IsDigits(key) ==> n == DigitsValue(key)
    ensures !IsDigits(key) ==> n == NonDigitKey
  {
    if IsDigits(key) then DigitsValue(key) else NonDigitKey
  }

  ghost predicate SortedByKey(s: seq<Entry>) {
    forall i, j :: 0 <= i < j < |s| ==> SortKey(s[i].0) <= SortKey(s[j].0)
  }

  /** The entries of `s` whose sort key is `k`, in their order in `s`. */
  function WithKey(s: seq<Entry>, k: int): seq<Entry> {
    if s == [] then []
    else if SortKey(s[0].0) == k then [s[0]] + WithKey(s[1..], k)
    else WithKey(s[1..], k)
  }

  /** Every key of `t` is at least `k` when `t` holds the entries of `rest`
      and `e`, all of whose keys are. */
  lemma LowerBoundKept(k: int, e: Entry, rest: seq<Entry>, t: seq<Entry>)
    requires k <= SortKey(e.0)
    requires forall j :: 0 <= j < |rest| ==> k <= SortKey(rest[j].0)
    requires multiset(t) == multiset(rest) + multiset{e}
    ensures forall j :: 0 <= j < |t| ==> k <= SortKey(t[j].0)
  {
    forall j | 0 <= j < |t| ensures k <= SortKey(t[j].0) {
      assert t[j] in multiset(rest) + multiset{e};
      if t[j] != e {
        assert t[j] in rest;
      }
    }
  }

  /** An entry whose key is at most every key of a sorted `t` can go in front. */
  lemma ConsSorted(x: Entry, t: seq<Entry>)
    requires SortedByKey(t)
    requires forall j :: 0 <= j < |t| ==> SortKey(x.0) <= SortKey(t[j].0)
    ensures SortedByKey([x] + t)
  {
    var r := [x] + t;
    forall i, j | 0 <= i < j < |r| ensures SortKey(r[i].0) <= SortKey(r[j].0) {
      assert r[j] == t[j - 1];
      if i > 0 {
        assert r[i] == t[i - 1];
      }
    }
  }

  /** The first entry of a sorted sequence has the smallest key, and the rest
      is sorted. */
  lemma SortedSplit(s: seq<Entry>)
    requires SortedByKey(s) && s != []
    ensures SortedByKey(s[1..])
    ensures forall j :: 0 <= j < |s| ==> SortKey(s[0].0) <= SortKey(s[j].0)
    ensures forall j :: 0 <= j < |s[1..]| ==> SortKey(s[0].0) <= SortKey(s[1..][j].0)
  {
    forall j | 0 <= j < |s[1..]| ensures SortKey(s[0].0) <= SortKey(s[1..][j].0) {
      assert s[1..][j] == s[j + 1];
    }
  }

  /** Places `e` before the first entry of `s` whose key is not smaller. */
  function Insert(e: Entry, s: seq<Entry>): (r: seq<Entry>)
    requires SortedByKey(s)
    ensures SortedByKey(r)
    ensures multiset(r) == multiset(s) + multiset{e}
  {
    if s == [] then [e]
    else
      SortedSplit(s);
      if SortKey(e.0) <= SortKey(s[0].0) then
        ConsSorted(e, s);
        [e] + s
      else
        var rest := s[1..];
        var t := Insert(e, rest);
        assert s == [s[0]] + rest;
        LowerBoundKept(SortKey(s[0].0), e, rest, t);
        ConsSorted(s[0], t);
        [s[0]] + t
  }

  /** The rows in the order the scan visits them. */
  function SortRows(s: seq<Entry>): (r: seq<Entry>)
    ensures SortedByKey(r)
    ensures multiset(r) == multiset(s)
  {
    if s == [] then []
    else
      assert s == [s[0]] + s[1..];
      Insert(s[0], SortRows(s[1..]))
  }

  lemma {:induction false} WithKeyInsert(e: Entry, s: seq<Entry>, k: int)
    requires SortedByKey(s)
    ensures WithKey(Insert(e, s), k) ==
            if SortKey(e.0) == k then [e] + WithKey(s, k) else WithKey(s, k)
    decreases |s|
  {
    if s == [] || SortKey(e.0) <= SortKey(s[0].0) {
      assert ([e] + s)[1..] == s;
    } else {
      var t := Insert(e, s[1..]);
      assert ([s[0]] + t)[1..] == t;
      WithKeyInsert(e, s[1..], k);
    }
  }

  /** Stability: among rows with the same sort key, the scan order is the
      snapshot's order. */
  lemma {:induction false} SortRowsStable(s: seq<Entry>, k: int)
    ensures WithKey(SortRows(s), k) == WithKey(s, k)
    decreases |s|
  {
    if s != [] {
      SortRowsStable(s[1..], k);
      WithKeyInsert(s[0], SortRows(s[1..]), k);
    }
  }

  /** An entry whose key does not consist of digits. */
  predicate NonDigit(e: Entry) {
    !IsDigits(e.0)
  }

  /** The entries of `s` whose keys are not all digits, in their order in `s`. */
  function NonDigitEntries(s: seq<Entry>): seq<Entry> {
    if s == [] then []
    else if NonDigit(s[0]) then [s[0]] + NonDigitEntries(s[1..])
    else NonDigitEntries(s[1..])
  }

  lemma {:induction false} NonDigitWithinClass(s: seq<Entry>)
    ensures NonDigitEntries(WithKey(s, NonDigitKey)) == NonDigitEntries(s)
    decreases |s|
  {
    if s != [] {
      NonDigitWithinClass(s[1..]);
      if SortKey(s[0].0) == NonDigitKey {
        assert ([s[0]] + WithKey(s[1..], NonDigitKey))[1..] == WithKey(s[1..], NonDigitKey);
      }
    }
  }

  /** Rows whose keys are not all digits come after every row with a
      numeric key below 999999, and among themselves keep their snapshot
      order. (A numeric key of exactly 999999 ties with them, and a larger
      one sorts after them.) */
  lemma NonDigitRowsLast(s: seq<Entry>)
    ensures var r := SortRows(s);
      forall i, j :: 0 <= i < |r| && 0 <= j < |r| && NonDigit(r[i]) && !NonDigit(r[j]) && DigitsValue(r[j].0) < NonDigitKey ==> j < i
    ensures NonDigitEntries(SortRows(s)) == NonDigitEntries(s)
  {
    NonDigitWithinClass(SortRows(s));
    SortRowsStable(s, NonDigitKey);
    NonDigitWithinClass(s);
  }

  lemma SingleDigitKey(c: char)
    requires IsDigitChar(c)
    ensures SortKey([c]) == c as int - '0' as int
  {
    assert [c][..|[c]| - 1] == [];
    assert [c][|[c]| - 1] == c;
    assert DigitsValue([]) == 0;
    assert IsDigits([c]);
  }

  lemma InsertBefore(e: Entry, s: seq<Entry>)
    requires SortedByKey(s) && s != [] && SortKey(e.0) <= SortKey(s[0].0)
    ensures Insert(e, s) == [e] + s
  {
  }

  lemma InsertAfter(e: Entry, s: seq<Entry>)
    requires SortedByKey(s) && s != [] && SortKey(s[0].0) < SortKey(e.0)
    ensures Insert(e, s) == [s[0]] + Insert(e, s[1..])
  {
  }

  /** Rows "1", "2" already are in order. */
  lemma OrderedPair(h: Value, b: Value)
    ensures SortRows([("1", h), ("2", b)]) == [("1", h), ("2", b)]
  {
    var e1, e2 := ("1", h), ("2", b);
    SingleDigitKey('1');
    SingleDigitKey('2');
    assert [e2][1..] == [];
    assert SortRows([e2]) == Insert(e2, []) == [e2];
    assert [e1, e2][1..] == [e2];
    InsertBefore(e1, [e2]);
  }

  /** Row keys "3", "1", "2" are visited as "1", "2", "3". */
  lemma NumericOrderExample(a: Value, h: Value, b: Value)
    ensures SortRows([("3", a), ("1", h), ("2", b)]) == [("1", h), ("2", b), ("3", a)]
  {
    var e3, e1, e2 := ("3", a), ("1", h), ("2", b);
    OrderedPair(h, b);
    var s12 := [e1, e2];
    SingleDigitKey('1');
    SingleDigitKey('2');
    SingleDigitKey('3');
    assert [e3, e1, e2][1..] == s12;
    assert SortRows([e3, e1, e2]) == Insert(e3, s12);
    InsertAfter(e3, s12);
    assert s12[1..] == [e2];
    InsertAfter(e3, [e2]);
    assert Insert(e3, []) == [e3];
  }

  /** Digit keys sort by number, not by text: a key without a leading zero
      and with more digits comes later, whatever its digits. */
  lemma LongerNumberSortsLater(s: string, t: string)
    requires IsDigits(s) && IsDigits(t) && t[0] != '0' && |s| < |t|
    ensures SortKey(s) < SortKey(t)
  {
    DigitsBounds(s);
    DigitsBounds(t);
    Pow10Monotone(|s|, |t| - 1);
  }

  lemma NineBelowTen()
    ensures SortKey("9") < SortKey("10")
  {
    assert IsDigits("9") && IsDigits("10");
    LongerNumberSortsLater("9", "10");
  }

  /** Row "9" is visited before row "10", although "10" < "9" as text. */
  lemma MultiDigitOrderExample(a: Value, b: Value)
    ensures SortRows([("10", a), ("9", b)]) == [("9", b), ("10", a)]
  {
    var e10, e9 := ("10", a), ("9", b);
    NineBelowTen();
    assert [e10, e9][1..] == [e9];
    assert [e9][1..] == [];
    assert SortRows([e9]) == Insert(e9, []) == [e9];
    assert SortRows([e10, e9]) == Insert(e10, [e9]);
    InsertAfter(e10, [e9]);
    assert Insert(e10, []) == [e10];
  }

  /** Two rows already in key order stay as they are. */
  lemma PairInOrder(e1: Entry, e2: Entry)
    requires SortKey(e1.0) <= SortKey(e2.0)
    ensures SortRows([e1, e2]) == [e1, e2]
  {
    assert [e1, e2][1..] == [e2];
    assert [e2][1..] == [];
    assert SortRows([e2]) == Insert(e2, []) == [e2];
    InsertBefore(e1, [e2]);
  }

  /** Two rows out of key order are swapped. */
  lemma PairSwapped(e1: Entry, e2: Entry)
    requires SortKey(e2.0) < SortKey(e1.0)
    ensures SortRows([e1, e2]) == [e2, e1]
  {
    assert [e1, e2][1..] == [e2];
    assert [e2][1..] == [];
    assert SortRows([e2]) == Insert(e2, []) == [e2];
    InsertAfter(e1, [e2]);
    assert Insert(e1, []) == [e1];
  }
}
