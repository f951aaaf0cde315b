/** The JSON values that travel between the translator and the language model, and the
    dictionary view Python takes of a JSON object. */
module Json {
  import opened Wrappers

  /** A JSON value: an object is its bindings in written order; numbers, booleans and null
      are not looked into and are all `JOther`. */
  datatype Json =
    | JObject(fields: seq<(string, Json)>)
    | JArray(items: seq<Json>)
    | JString(text: string)
    | JOther

  /** One table row as the translator holds it: a dict from column name to cell value. */
  type Row = seq<(string, Json)>

  predicate Distinct<T(==)>(s: seq<T>) {
    forall i, j :: 0 <= i < j < |s| ==> s[i] != s[j]
  }

  /** The names of a row's bindings, in written order and with repetitions. */
  function Names(row: Row): (ns: seq<string>)
    ensures |ns| == |row|
    ensures forall i :: 0 <= i < |row| ==> ns[i] == row[i].0
  {
    if |row| == 0 then [] else Names(row[..|row| - 1]) + [row[|row| - 1].0]
  }

  /** The keys of a Python dict built from `ks`: each name once, at its first position. */
  function Dedup(ks: seq<string>): (r: seq<string>)
    ensures Distinct(r)
    ensures forall k :: k in r <==> k in ks
    ensures ks != [] ==> r != [] && r[0] == ks[0]
  {
    if |ks| == 0 then []
    else
      var d := Dedup(ks[..|ks| - 1]);
      var k := ks[|ks| - 1];
      if k in d then d else d + [k]
  }

  /** The keys keep the order of first occurrence: wherever a later key occurs in `ks`, every
      earlier key has already occurred before that point. */
  lemma {:induction false} DedupOrder(ks: seq<string>)
    ensures forall i, j, p :: 0 <= i < j < |Dedup(ks)| && 0 <= p < |ks| && ks[p] == Dedup(ks)[j] ==> Dedup(ks)[i] in ks[..p]
  {
    if |ks| > 0 {
      var init, k := ks[..|ks| - 1], ks[|ks| - 1];
      DedupOrder(init);
      var d, r := Dedup(init), Dedup(ks);
      forall i, j, p | 0 <= i < j < |r| && 0 <= p < |ks| && ks[p] == r[j] ensures r[i] in ks[..p] {
        assert r[i] == d[i] && d[i] in init;
        if p < |init| {
          if j < |d| {
            assert r[i] == d[i] && r[j] == d[j] && init[p] == d[j];
            assert d[i] in init[..p];
            assert init[..p] == ks[..p];
          } else {
            assert false;
          }
        } else {
          assert p == |init| && ks[..p] == init;
        }
      }
    }
  }

  /** A name list without repetitions is its own key list. */
  lemma {:induction false} DedupDistinct(ks: seq<string>)
    requires Distinct(ks)
    ensures Dedup(ks) == ks
  {
    if |ks| > 0 {
      DedupDistinct(ks[..|ks| - 1]);
    }
  }

  /** Python's `list(d.keys())` for the dict a row stands for. */
  function Keys(row: Row): (ks: seq<string>)
    ensures Distinct(ks)
    ensures forall k :: k in ks <==> k in Names(row)
  {
    Dedup(Names(row))
  }

  /** Python's `set(d.keys())`. */
  function KeySet(row: Row): (s: set<string>)
    ensures forall k :: k in s <==> k in Names(row)
  {
    set k | k in Names(row)
  }

  /** Python's `d.get(k)`: the value of the last binding named `k`, as `json.loads` keeps it. */
  function Get(row: Row, k: string): (v: Option<Json>)
    ensures v.Some? <==> k in Names(row)
  {
    if |row| == 0 then None
    else if row[|row| - 1].0 == k then Some(row[|row| - 1].1)
    else Get(row[..|row| - 1], k)
  }

  /** In a row without repeated names, `Get` finds the one binding of that name. */
  lemma {:induction false} GetDistinct(row: Row, i: nat)
    requires i < |row| && Distinct(Names(row))
    ensures Get(row, row[i].0) == Some(row[i].1)
  {
    if i < |row| - 1 {
      assert Names(row[..|row| - 1]) == Names(row)[..|row| - 1];
      GetDistinct(row[..|row| - 1], i);
    }
  }

  /** The rows as JSON objects, as `json.dumps` writes a list of dicts. */
  function Objects(rows: seq<Row>): (js: seq<Json>)
    ensures |js| == |rows|
    ensures forall i :: 0 <= i < |rows| ==> js[i] == JObject(rows[i])
  {
    seq(|rows|, i requires 0 <= i < |rows| => JObject(rows[i]))
  }
}
