/** How the translated rows become a CSV table (app/services/translator.py, `_json_to_csv`):
    the header is the first row's keys in order, then every other key in sorted order. The
    textual CSV encoding itself (quoting, line ends) is not part of this model. */
module CsvHeader {
  import opened Wrappers
  import opened Json
  import opened StringOrder

  /** What `_json_to_csv` returns: "" for no rows, or a header and one record per row, each
      record holding the row's values in header order and "" where the row lacks a key (the
      `restval` of Python's `csv.DictWriter`). */
  datatype CsvText = Blank | Table(fieldnames: seq<string>, records: seq<seq<Json>>)

  /** The `ValueError` raised for the first list item that is not a dict. */
  datatype CsvError = NotAnObject(index: nat)

  /** The position of the first item that is not an object, if any. */
  function FirstNonObject(items: seq<Json>): (r: Option<nat>)
    ensures r.Some? ==> r.value < |items| && !items[r.value].JObject?
    ensures r.Some? ==> forall j :: 0 <= j < r.value ==> items[j].JObject?
    ensures r.None? ==> forall j :: 0 <= j < |items| ==> items[j].JObject?
  {
    if |items| == 0 then None
    else if !items[0].JObject? then Some(0)
    else match FirstNonObject(items[1..])
      case None => None
      case Some(i) => Some(i + 1)
  }

  /** The rows of a list whose items are all objects. */
  function Fields(items: seq<Json>): (rows: seq<Row>)
    requires forall j :: 0 <= j < |items| ==> items[j].JObject?
    ensures |rows| == |items|
    ensures forall j :: 0 <= j < |items| ==> rows[j] == items[j].fields
  {
    seq(|items|, j requires 0 <= j < |items| => items[j].fields)
  }

  /** Every key used by any of the rows. */
  function AllKeys(rows: seq<Row>): (s: set<string>)
    ensures forall k :: k in s <==> exists i :: 0 <= i < |rows| && k in Names(rows[i])
  {
    if |rows| == 0 then {}
    else
      var init := AllKeys(rows[..|rows| - 1]);
      assert forall i :: 0 <= i < |rows| - 1 ==> rows[..|rows| - 1][i] == rows[i];
      init + KeySet(rows[|rows| - 1])
  }

  /** What makes `h` the header of `rows`: it starts with the first row's keys in their order,
      the rest is in ascending order, no key is repeated, and it holds exactly the keys that
      some row uses. */
  ghost predicate IsHeaderFor(h: seq<string>, rows: seq<Row>)
    requires |rows| > 0
  {
    var first := Keys(rows[0]);
    && |first| <= |h| && h[..|first|] == first
    && Sorted(h[|first|..])
    && Distinct(h)
    && (forall k :: k in h <==> k in AllKeys(rows))
  }

  lemma SortedDistinct(s: seq<string>)
    requires Sorted(s)
    ensures Distinct(s)
  {
    forall i, j | 0 <= i < j < |s| ensures s[i] != s[j] {
      LessIrreflexive(s[i]);
    }
  }

  lemma DistinctConcat(a: seq<string>, b: seq<string>)
    requires Distinct(a) && Distinct(b)
    requires forall x :: x in a ==> x !in b
    ensures Distinct(a + b)
  {
    var c := a + b;
    forall i, j | 0 <= i < j < |c| ensures c[i] != c[j] {
      if i < |a| && j >= |a| {
        assert c[i] in a && c[j] == b[j - |a|];
      }
    }
  }

  /** The header of a non-empty list of rows. */
  function Header(rows: seq<Row>): (h: seq<string>)
    requires |rows| > 0
    ensures IsHeaderFor(h, rows)
  {
    var first := Keys(rows[0]);
    var extras := SortedStrings(AllKeys(rows) - KeySet(rows[0]));
    var h := first + extras;
    SortedDistinct(extras);
    DistinctConcat(first, extras);
    assert h[..|first|] == first && h[|first|..] == extras;
    assert forall k :: k in first ==> k in AllKeys(rows);
    h
  }

  /** The header is determined by the rows: no other sequence has the properties above. */
  lemma HeaderUnique(h: seq<string>, rows: seq<Row>)
    requires |rows| > 0 && IsHeaderFor(h, rows)
    ensures h == Header(rows)
  {
    var first := Keys(rows[0]);
    assert KeySet(rows[0]) == set k | k in first;
    SplitHeader(h, first, AllKeys(rows));
  }

  /** A repetition-free sequence that starts with `first`, continues in ascending order and
      holds exactly the elements of `all` is `first` followed by the sorted rest of `all`. */
  lemma SplitHeader(h: seq<string>, first: seq<string>, all: set<string>)
    requires |first| <= |h| && h[..|first|] == first
    requires Sorted(h[|first|..]) && Distinct(h)
    requires forall k :: k in h <==> k in all
    ensures h == first + SortedStrings(all - set k | k in first)
  {
    var extras := SortedStrings(all - set k | k in first);
    var tail := h[|first|..];
    assert h == first + tail;
    forall x ensures x in tail <==> x in extras {
      if x in tail {
        var j :| 0 <= j < |tail| && tail[j] == x;
        assert h[|first| + j] == x;
        forall i | 0 <= i < |first| ensures first[i] != x {
          assert h[i] == first[i];
        }
      }
      if x in extras {
        assert x in h;
        var j :| 0 <= j < |h| && h[j] == x;
        if j >= |first| {
          assert tail[j - |first|] == x;
        }
      }
    }
    SortedUnique(tail, extras);
  }

  /** One CSV record: the row's value for each header key, "" where the row lacks the key. */
  function Record(row: Row, h: seq<string>): (r: seq<Json>)
    ensures |r| == |h|
    ensures forall j :: 0 <= j < |h| ==> r[j] == Get(row, h[j]).GetOr(JString(""))
  {
    seq(|h|, j requires 0 <= j < |h| => Get(row, h[j]).GetOr(JString("")))
  }

  function Records(rows: seq<Row>, h: seq<string>): (rs: seq<seq<Json>>)
    ensures |rs| == |rows|
    ensures forall i :: 0 <= i < |rows| ==> rs[i] == Record(rows[i], h)
  {
    seq(|rows|, i requires 0 <= i < |rows| => Record(rows[i], h))
  }

  /** The table for a list of translated items: an empty list gives "", a list with an item that
      is not an object fails at the first such item, and otherwise every item becomes one record
      under the header above. */
  function ToCsv(items: seq<Json>): (r: Result<CsvText, CsvError>)
    ensures items == [] ==> r == Ok(Blank)
    ensures items != [] ==> (r.Err? <==> exists i :: 0 <= i < |items| && !items[i].JObject?)
    ensures r.Err? ==> var i := r.error.index;
      i < |items| && !items[i].JObject? && forall j :: 0 <= j < i ==> items[j].JObject?
    ensures r.Ok? && items != [] ==>
      && r.value.Table?
      && IsHeaderFor(r.value.fieldnames, Fields(items))
      && |r.value.records| == |items|
      && (forall i :: 0 <= i < |items| ==> r.value.records[i] == Record(items[i].fields, r.value.fieldnames))
  {
    if |items| == 0 then Ok(Blank)
    else match FirstNonObject(items)
      case Some(i) => Err(NotAnObject(i))
      case None =>
        var rows := Fields(items);
        var h := Header(rows);
        Ok(Table(h, Records(rows, h)))
  }

  /** A set holds as many elements as a repetition-free sequence listing them. */
  lemma {:induction false} DistinctCard(ks: seq<string>)
    requires Distinct(ks)
    ensures |set k | k in ks| == |ks|
  {
    if |ks| > 0 {
      var init := ks[..|ks| - 1];
      DistinctCard(init);
      assert (set k | k in ks) == (set k | k in init) + {ks[|ks| - 1]};
      assert ks[|ks| - 1] !in init;
    }
  }

  /** What the last step of `_json_to_csv` does with the collected key set gives the header:
      when the key set is no larger than the first row's key list, nothing is missing. */
  lemma HeaderFromKeySets(rows: seq<Row>, allKeys: set<string>)
    requires |rows| > 0 && allKeys == AllKeys(rows)
    ensures (if |allKeys| > |Keys(rows[0])|
             then Keys(rows[0]) + SortedStrings(allKeys - KeySet(rows[0]))
             else Keys(rows[0])) == Header(rows)
  {
    var first, firstKeys := Keys(rows[0]), KeySet(rows[0]);
    if |allKeys| <= |first| {
      assert firstKeys == set k | k in first;
      assert firstKeys <= allKeys;
      NothingMissing(first, firstKeys, allKeys);
      assert SortedStrings(allKeys - firstKeys) == [];
      assert first == first + SortedStrings(allKeys - firstKeys);
    }
  }

  /** A set that contains the elements of a repetition-free sequence and is no larger than it
      holds nothing else. */
  lemma NothingMissing(first: seq<string>, firstKeys: set<string>, allKeys: set<string>)
    requires Distinct(first) && firstKeys == (set k | k in first) && firstKeys <= allKeys
    requires |allKeys| <= |first|
    ensures allKeys - firstKeys == {}
  {
    DistinctCard(first);
    assert allKeys == firstKeys + (allKeys - firstKeys);
  }

  /** The item that fails validation decides the error. */
  lemma ToCsvRejects(items: seq<Json>, i: nat)
    requires i < |items| && !items[i].JObject?
    requires forall j :: 0 <= j < i ==> items[j].JObject?
    ensures ToCsv(items) == Err(NotAnObject(i))
  {
    var f := FirstNonObject(items);
    assert f.Some?;
  }

  /** A non-empty list of objects gives a table. */
  lemma ToCsvAccepts(items: seq<Json>)
    requires |items| > 0 && forall j :: 0 <= j < |items| ==> items[j].JObject?
    ensures ToCsv(items) == Ok(Table(Header(Fields(items)), Records(Fields(items), Header(Fields(items)))))
  {
    assert FirstNonObject(items).None?;
  }

  /** The key set `_json_to_csv` gathers: the first row's keys, updated with each later row's. */
  method CollectKeys(rows: seq<Row>) returns (allKeys: set<string>)
    requires |rows| > 0
    ensures allKeys == AllKeys(rows)
  {
    allKeys := KeySet(rows[0]);
    var n := 1;
    while n < |rows|
      invariant 1 <= n <= |rows|
      invariant allKeys == AllKeys(rows[..n])
    {
      assert rows[..n + 1][..n] == rows[..n];
      allKeys := allKeys + KeySet(rows[n]);
      n := n + 1;
    }
    assert rows[..n] == rows;
  }

  /** `_json_to_csv`, step by step: validate every item, collect the keys of the rows after
      the first into the first row's key set, and append the missing keys in sorted order. */
  method JsonToCsv(items: seq<Json>) returns (r: Result<CsvText, CsvError>)
    ensures r == ToCsv(items)
  {
    if |items| == 0 {
      return Ok(Blank);
    }
    var i := 0;
    while i < |items|
      invariant 0 <= i <= |items|
      invariant forall j :: 0 <= j < i ==> items[j].JObject?
    {
      if !items[i].JObject? {
        ToCsvRejects(items, i);
        return Err(NotAnObject(i));
      }
      i := i + 1;
    }
    var rows := Fields(items);
    var fieldnames := Keys(rows[0]);
    var allKeys := CollectKeys(rows);
    if |allKeys| > |fieldnames| {
      var extraKeys := allKeys - KeySet(rows[0]);
      fieldnames := fieldnames + SortedStrings(extraKeys);
    }
    HeaderFromKeySets(rows, allKeys);
    ToCsvAccepts(items);
    r := Ok(Table(fieldnames, Records(rows, fieldnames)));
  }
}
