/** The sheet-styling arithmetic of `ExcelConverter.apply_excel_styling`
    (app/services/converter.py): freeze panes, header and body styling with minimum row heights,
    column widths fitted to the longest line of each column, and a table whose name does not
    clash with the sheet's existing tables. The worksheet is a grid of optional cell texts with
    row-height, column-width and cell-style arrays beside it. */
module Styling {
  import opened Wrappers
  import opened Decimal

  /** The line boundaries of Python's `str.splitlines()`. */
  predicate IsLineBreak(c: char) {
    || c == '\n' || c == '\r' || c == '\U{000B}' || c == '\U{000C}'
    || c == '\U{001C}' || c == '\U{001D}' || c == '\U{001E}'
    || c == '\U{0085}' || c == '\U{2028}' || c == '\U{2029}'
  }

  /** The index of the first line boundary in `s`, or `|s|` when there is none. */
  function LineEnd(s: string): (i: nat)
    ensures i <= |s|
    ensures forall k :: 0 <= k < i ==> !IsLineBreak(s[k])
    ensures i < |s| ==> IsLineBreak(s[i])
  {
    if |s| == 0 || IsLineBreak(s[0]) then 0 else 1 + LineEnd(s[1..])
  }

  /** Python's `s.splitlines()`: the lines without their boundaries, `"\r\n"` counting as one
      boundary, and no empty line after a final boundary. */
  function SplitLines(s: string): (lines: seq<string>)
    ensures forall k, m :: 0 <= k < |lines| && 0 <= m < |lines[k]| ==> !IsLineBreak(lines[k][m])
    ensures |lines| == 0 <==> s == ""
    decreases |s|
  {
    if s == "" then []
    else
      var i := LineEnd(s);
      var next :=
        if i == |s| then i
        else if s[i] == '\r' && i + 1 < |s| && s[i + 1] == '\n' then i + 2
        else i + 1;
      [s[..i]] + SplitLines(s[next..])
  }

  /** The first boundary of `a + rest` is at the end of a boundary-free `a` when `rest` is
      empty or starts with a boundary. */
  lemma {:induction false} LineEndAfter(a: string, rest: string)
    requires forall k :: 0 <= k < |a| ==> !IsLineBreak(a[k])
    requires rest == "" || IsLineBreak(rest[0])
    ensures LineEnd(a + rest) == |a|
    decreases |a|
  {
    if |a| > 0 {
      assert (a + rest)[1..] == a[1..] + rest;
      LineEndAfter(a[1..], rest);
    } else {
      assert a + rest == rest;
    }
  }

  /** A boundary other than the `"\r"` of a `"\r\n"` pair ends exactly the line before it. */
  lemma SplitLinesAt(a: string, c: char, rest: string)
    requires forall k :: 0 <= k < |a| ==> !IsLineBreak(a[k])
    requires IsLineBreak(c) && !(c == '\r' && rest != "" && rest[0] == '\n')
    ensures SplitLines(a + [c] + rest) == [a] + SplitLines(rest)
  {
    var s := a + [c] + rest;
    LineEndAfter(a, [c] + rest);
    assert s == a + ([c] + rest);
    assert s[..|a|] == a && s[|a|] == c;
    assert s[|a| + 1..] == rest;
  }

  /** `"\r\n"` is one boundary: it ends the line before it and starts no empty line. */
  lemma SplitLinesCrLf(a: string, rest: string)
    requires forall k :: 0 <= k < |a| ==> !IsLineBreak(a[k])
    ensures SplitLines(a + "\r\n" + rest) == [a] + SplitLines(rest)
  {
    var s := a + "\r\n" + rest;
    LineEndAfter(a, "\r\n" + rest);
    assert s == a + ("\r\n" + rest);
    assert s[..|a|] == a && s[|a|] == '\r' && s[|a| + 1] == '\n';
    assert s[|a| + 2..] == rest;
  }

  /** Text without line boundaries is a single line. */
  lemma SingleLine(s: string)
    requires s != "" && forall k :: 0 <= k < |s| ==> !IsLineBreak(s[k])
    ensures SplitLines(s) == [s]
  {
    assert LineEnd(s) == |s|;
    assert s[..|s|] == s;
  }

  /** `max((len(line) for line in s.splitlines()), default=len(s))`; the default only applies to
      the empty text, whose length is 0. */
  function LongestLine(s: string): nat
  {
    LongestOf(SplitLines(s))
  }

  /** A cell's length is the length of its longest line. */
  lemma LongestLineIsLongest(s: string)
    ensures forall k :: 0 <= k < |SplitLines(s)| ==> |SplitLines(s)[k]| <= LongestLine(s)
    ensures (s == "" && LongestLine(s) == 0)
            || exists k :: 0 <= k < |SplitLines(s)| && |SplitLines(s)[k]| == LongestLine(s)
  {
    var lines := SplitLines(s);
    var n := LongestOf(lines);
    assert |lines| == 0 ==> s == "";
  }

  /** The greatest length among `lines`, 0 for none. */
  function LongestOf(lines: seq<string>): (n: nat)
    ensures forall k :: 0 <= k < |lines| ==> |lines[k]| <= n
    ensures (|lines| == 0 && n == 0) || exists k :: 0 <= k < |lines| && |lines[k]| == n
  {
    if |lines| == 0 then 0
    else
      var rest := LongestOf(lines[..|lines| - 1]);
      var last := |lines[|lines| - 1]|;
      if last > rest then last else rest
  }

  /** A one-line cell measures its own length. */
  lemma SingleLineLength(s: string)
    requires s != "" && forall k :: 0 <= k < |s| ==> !IsLineBreak(s[k])
    ensures LongestLine(s) == |s|
  {
    SingleLine(s);
  }

  /** The running maximum of the width loop: the longest line over the cells of a column that
      hold a value; 0 when none does. */
  function MaxLength(values: seq<Option<string>>): nat
  {
    if |values| == 0 then 0
    else
      var rest := MaxLength(values[..|values| - 1]);
      var last := values[|values| - 1];
      if last.Some? && LongestLine(last.value) > rest then LongestLine(last.value) else rest
  }

  /** The column length is the longest line of some cell that holds a value, and no such cell
      has a longer line; a column without values has length 0. */
  lemma {:induction false} MaxLengthIsMax(values: seq<Option<string>>)
    ensures forall k :: 0 <= k < |values| && values[k].Some? ==> LongestLine(values[k].value) <= MaxLength(values)
    ensures || MaxLength(values) == 0
            || exists k :: 0 <= k < |values| && values[k].Some? && LongestLine(values[k].value) == MaxLength(values)
  {
    if |values| > 0 {
      var init := values[..|values| - 1];
      MaxLengthIsMax(init);
      assert forall k :: 0 <= k < |init| ==> init[k] == values[k];
    }
  }

  /** `min(60, max(10, int(max_len * 1.1) + 2))`, with the product taken exactly. */
  function ColumnWidth(maxLen: nat): (w: int)
    ensures 10 <= w <= 60
    ensures w == 60 || w >= maxLen + 2
    ensures maxLen <= 7 ==> w == 10
  {
    var padded := (maxLen * 11) / 10 + 2;
    if padded < 10 then 10 else if padded > 60 then 60 else padded
  }

  /** A longer column is never narrower. */
  lemma ColumnWidthMonotone(a: nat, b: nat)
    requires a <= b
    ensures ColumnWidth(a) <= ColumnWidth(b)
  {
  }

  /** A column whose cells are all absent or empty gets the floor width of 10. */
  lemma EmptyColumnWidth(values: seq<Option<string>>)
    requires forall k :: 0 <= k < |values| ==> values[k].None? || values[k].value == ""
    ensures ColumnWidth(MaxLength(values)) == 10
  {
    MaxLengthIsMax(values);
  }

  /** How a cell is styled: not touched, as a header cell (fill, bold font, centred, border) or
      as a body cell (top-left, wrapping as asked, border). */
  datatype CellStyle = Unstyled | HeaderStyle | BodyStyle(wrap: bool)

  /** A table over the range from column A of `firstRow` to column `lastCol` of `lastRow`. */
  datatype TableRange = TableRange(firstRow: int, lastCol: int, lastRow: int)
  datatype Table = Table(name: string, range: TableRange, style: string)

  /** `{t.name for t in ws._tables}`. */
  function TableNames(tables: seq<Table>): (names: set<string>)
    ensures forall t :: t in tables ==> t.name in names
    ensures forall n :: n in names ==> exists t :: t in tables && t.name == n
  {
    set t | t in tables :: t.name
  }

  /** The worksheet: `max_row` and `max_column` are the grid's dimensions, and row `r`, column
      `c` (both from 1) sit at index `r - 1`, `c - 1`. Row heights are optional, as in
      `row_dimensions`. */
  class Worksheet {
    const cells: array2<Option<string>>
    const rowHeight: array<Option<real>>
    const colWidth: array<int>
    const styles: array2<CellStyle>
    var freezePanes: Option<string>
    var tables: seq<Table>
    var autoFilter: Option<TableRange>

    ghost predicate Valid()
      reads this
    {
      && rowHeight.Length == cells.Length0
      && colWidth.Length == cells.Length1
      && styles.Length0 == cells.Length0 && styles.Length1 == cells.Length1
    }

    constructor (cells: array2<Option<string>>, rowHeight: array<Option<real>>, colWidth: array<int>,
                 styles: array2<CellStyle>, tables: seq<Table>)
      requires rowHeight.Length == cells.Length0 && colWidth.Length == cells.Length1
      requires styles.Length0 == cells.Length0 && styles.Length1 == cells.Length1
      ensures Valid()
      ensures this.cells == cells && this.rowHeight == rowHeight && this.colWidth == colWidth
      ensures this.styles == styles && this.tables == tables
      ensures freezePanes == None && autoFilter == None
    {
      this.cells := cells;
      this.rowHeight := rowHeight;
      this.colWidth := colWidth;
      this.styles := styles;
      this.tables := tables;
      freezePanes := None;
      autoFilter := None;
    }

    /** The values of column `c` (from 0), top to bottom. */
    function Column(c: nat): (values: seq<Option<string>>)
      requires c < cells.Length1
      reads cells
      ensures |values| == cells.Length0
      ensures forall r :: 0 <= r < cells.Length0 ==> values[r] == cells[r, c]
    {
      seq(cells.Length0, r requires 0 <= r < cells.Length0 reads cells => cells[r, c])
    }
  }

  /** `max(current_height or 0, min_row_height)`. */
  function RaisedHeight(current: Option<real>, minimum: real): (h: real)
    ensures h >= minimum && h >= current.GetOr(0.0)
    ensures h == minimum || h == current.GetOr(0.0)
  {
    var c := current.GetOr(0.0);
    if c > minimum then c else minimum
  }

  /** Step 4: the header row gets its height and every one of its cells the header style. */
  method StyleHeader(ws: Worksheet, headerRow: int, headerRowHeight: real)
    requires ws.Valid() && 1 <= headerRow <= ws.cells.Length0
    modifies ws.rowHeight, ws.styles
    ensures ws.rowHeight[..] == old(ws.rowHeight[..])[headerRow - 1 := Some(headerRowHeight)]
    ensures forall i, j :: 0 <= i < ws.styles.Length0 && 0 <= j < ws.styles.Length1 ==>
      ws.styles[i, j] == if i == headerRow - 1 then HeaderStyle else old(ws.styles[i, j])
  {
    ws.rowHeight[headerRow - 1] := Some(headerRowHeight);
    var c := 1;
    while c <= ws.cells.Length1
      invariant 1 <= c <= ws.cells.Length1 + 1
      invariant ws.rowHeight[..] == old(ws.rowHeight[..])[headerRow - 1 := Some(headerRowHeight)]
      invariant forall i, j :: 0 <= i < ws.styles.Length0 && 0 <= j < ws.styles.Length1 ==>
        ws.styles[i, j] == if i == headerRow - 1 && j < c - 1 then HeaderStyle else old(ws.styles[i, j])
    {
      ws.styles[headerRow - 1, c - 1] := HeaderStyle;
      c := c + 1;
    }
  }

  /** Step 5: every row below the header is raised to at least `minRowHeight`, and every one of
      its cells gets the body style. */
  method StyleBody(ws: Worksheet, headerRow: int, minRowHeight: real, wrap: bool)
    requires ws.Valid() && 1 <= headerRow
    modifies ws.rowHeight, ws.styles
    ensures forall i :: 0 <= i < ws.rowHeight.Length ==>
      ws.rowHeight[i] == if i >= headerRow then Some(RaisedHeight(old(ws.rowHeight[i]), minRowHeight)) else old(ws.rowHeight[i])
    ensures forall i, j :: 0 <= i < ws.styles.Length0 && 0 <= j < ws.styles.Length1 ==>
      ws.styles[i, j] == if i >= headerRow then BodyStyle(wrap) else old(ws.styles[i, j])
  {
    var r := headerRow + 1;
    while r <= ws.cells.Length0
      invariant headerRow + 1 <= r
      invariant r <= ws.cells.Length0 + 1 || r == headerRow + 1
      invariant forall i :: 0 <= i < ws.rowHeight.Length ==>
        ws.rowHeight[i] == if headerRow <= i < r - 1 then Some(RaisedHeight(old(ws.rowHeight[i]), minRowHeight)) else old(ws.rowHeight[i])
      invariant forall i, j :: 0 <= i < ws.styles.Length0 && 0 <= j < ws.styles.Length1 ==>
        ws.styles[i, j] == if headerRow <= i < r - 1 then BodyStyle(wrap) else old(ws.styles[i, j])
    {
      ws.rowHeight[r - 1] := Some(RaisedHeight(ws.rowHeight[r - 1], minRowHeight));
      StyleBodyRow(ws, r - 1, wrap);
      r := r + 1;
    }
  }

  /** The inner loop of step 5: the body style on every cell of row index `i`. */
  method StyleBodyRow(ws: Worksheet, i: nat, wrap: bool)
    requires ws.Valid() && i < ws.styles.Length0
    modifies ws.styles
    ensures forall i', j :: 0 <= i' < ws.styles.Length0 && 0 <= j < ws.styles.Length1 ==>
      ws.styles[i', j] == if i' == i then BodyStyle(wrap) else old(ws.styles[i', j])
  {
    var c := 0;
    while c < ws.styles.Length1
      invariant 0 <= c <= ws.styles.Length1
      invariant forall i', j :: 0 <= i' < ws.styles.Length0 && 0 <= j < ws.styles.Length1 ==>
        ws.styles[i', j] == if i' == i && j < c then BodyStyle(wrap) else old(ws.styles[i', j])
    {
      ws.styles[i, c] := BodyStyle(wrap);
      c := c + 1;
    }
  }

  /** The inner loop of step 6: the running `max_len` over rows 1 to `max_row` of column `c`
      (from 0), skipping empty cells. */
  method MaxCellLength(ws: Worksheet, c: nat) returns (maxLen: nat)
    requires c < ws.cells.Length1
    ensures maxLen == MaxLength(ws.Column(c))
  {
    ghost var values := ws.Column(c);
    maxLen := 0;
    var r := 0;
    while r < ws.cells.Length0
      invariant 0 <= r <= ws.cells.Length0
      invariant maxLen == MaxLength(values[..r])
    {
      MaxLengthStep(values, r);
      var v := ws.cells[r, c];
      assert v == values[r];
      if v.Some? {
        var longest := LongestLine(v.value);
        if longest > maxLen {
          maxLen := longest;
        }
      }
      r := r + 1;
    }
    assert values[..r] == values;
  }

  /** One more value raises the running maximum to its longest line when that is longer. */
  lemma MaxLengthStep(values: seq<Option<string>>, r: nat)
    requires r < |values|
    ensures MaxLength(values[..r + 1]) ==
      if values[r].Some? && LongestLine(values[r].value) > MaxLength(values[..r])
      then LongestLine(values[r].value) else MaxLength(values[..r])
  {
    assert values[..r + 1][..r] == values[..r];
  }

  /** Step 6: every column gets the width its longest line asks for, between 10 and 60. */
  method FitColumns(ws: Worksheet)
    requires ws.Valid()
    modifies ws.colWidth
    ensures forall c :: 0 <= c < ws.colWidth.Length ==> ws.colWidth[c] == ColumnWidth(MaxLength(ws.Column(c)))
  {
    var c := 0;
    while c < ws.colWidth.Length
      invariant 0 <= c <= ws.colWidth.Length
      invariant forall k :: 0 <= k < c ==> ws.colWidth[k] == ColumnWidth(MaxLength(ws.Column(k)))
    {
      var maxLen := MaxCellLength(ws, c);
      ws.colWidth[c] := ColumnWidth(maxLen);
      assert ws.colWidth[c] == ColumnWidth(MaxLength(ws.Column(c)));
      c := c + 1;
    }
  }

  /** The name the de-duplication loop settles on: not taken; the requested name when it is
      free; otherwise the name followed by the least number from 2 on that is free. */
  ghost predicate IsFreeName(existing: set<string>, name: string, chosen: string) {
    && chosen !in existing
    && (name !in existing ==> chosen == name)
    && (name in existing ==>
          exists k: nat :: k >= 2 && chosen == name + NatToString(k)
                           && forall j: nat :: 2 <= j < k ==> name + NatToString(j) in existing)
  }

  /** The loop can settle on only one name. */
  lemma FreeNameUnique(existing: set<string>, name: string, a: string, b: string)
    requires IsFreeName(existing, name, a) && IsFreeName(existing, name, b)
    ensures a == b
  {
  }

  /** Numbered names differ from the bare name and from each other. */
  lemma NumberedNamesDistinct(name: string, j: nat, k: nat)
    ensures name != name + NatToString(k)
    ensures j != k ==> name + NatToString(j) != name + NatToString(k)
  {
    assert |name + NatToString(k)| > |name|;
    if j != k && name + NatToString(j) == name + NatToString(k) {
      assert NatToString(j) == (name + NatToString(j))[|name|..];
      assert NatToString(k) == (name + NatToString(k))[|name|..];
      NatToStringInjective(j, k);
    }
  }

  /** Step 7's loop: try the name, then the name with 2, 3, ... appended, until one is free.
      Every name tried and found taken is a different member of `existing`, so the loop ends. */
  method ChooseTableName(existing: set<string>, name: string) returns (chosen: string)
    ensures IsFreeName(existing, name, chosen)
  {
    chosen := name;
    var i: nat := 2;
    ghost var tried: set<string> := {};
    while chosen in existing
      invariant i >= 2
      invariant chosen == if i == 2 then name else name + NatToString(i - 1)
      invariant i > 2 ==> name in existing
      invariant forall j: nat :: 2 <= j < i - 1 ==> name + NatToString(j) in existing
      invariant tried <= existing && |tried| == i - 2 && |tried| <= |existing|
      invariant forall t :: t in tried ==> t == name || exists j: nat :: 2 <= j < i - 1 && t == name + NatToString(j)
      decreases |existing| - |tried|
    {
      NotTriedYet(name, i, tried, chosen);
      tried := tried + {chosen};
      SubsetCard(tried, existing);
      chosen := name + NatToString(i);
      i := i + 1;
    }
    if i > 2 {
      assert name + NatToString(i - 1) == chosen;
    }
  }

  /** A subset is no larger than its superset. */
  lemma SubsetCard<T>(a: set<T>, b: set<T>)
    requires a <= b
    ensures |a| <= |b|
  {
    if a != {} {
      var x :| x in a;
      SubsetCard(a - {x}, b - {x});
    }
  }

  /** The name about to be tried is none of those tried before. */
  lemma NotTriedYet(name: string, i: nat, tried: set<string>, chosen: string)
    requires i >= 2 && chosen == if i == 2 then name else name + NatToString(i - 1)
    requires forall t :: t in tried ==> t == name || exists j: nat :: 2 <= j < i - 1 && t == name + NatToString(j)
    requires i == 2 ==> tried == {}
    ensures chosen !in tried
  {
    if chosen in tried && i > 2 {
      NumberedNamesDistinct(name, 0, i - 1);
      var j: nat :| 2 <= j < i - 1 && chosen == name + NatToString(j);
      NumberedNamesDistinct(name, j, i - 1);
    }
  }

  /** `apply_excel_styling` with its defaults as parameters: the freeze cell is always set;
      a sheet with no row at `headerRow` or no column is otherwise left alone; else the header
      and body are styled, the columns fitted, and a table under a free name added over the used
      range, which also becomes the auto-filter. */
  method ApplyExcelStyling(ws: Worksheet, headerRow: int, freezePanesCell: string, tableName: string,
                           tableStyle: string, minRowHeight: real, headerRowHeight: real, wrapText: bool)
    requires ws.Valid() && headerRow >= 1
    modifies ws, ws.rowHeight, ws.colWidth, ws.styles
    ensures ws.freezePanes == Some(freezePanesCell)
    ensures ws.cells.Length0 < headerRow || ws.cells.Length1 < 1 ==>
      && ws.rowHeight[..] == old(ws.rowHeight[..]) && ws.colWidth[..] == old(ws.colWidth[..])
      && ws.tables == old(ws.tables) && ws.autoFilter == old(ws.autoFilter)
      && forall i, j :: 0 <= i < ws.styles.Length0 && 0 <= j < ws.styles.Length1 ==> ws.styles[i, j] == old(ws.styles[i, j])
    ensures headerRow <= ws.cells.Length0 && ws.cells.Length1 >= 1 ==>
      && (forall i :: 0 <= i < ws.rowHeight.Length ==>
            ws.rowHeight[i] == if i == headerRow - 1 then Some(headerRowHeight)
                               else if i >= headerRow then Some(RaisedHeight(old(ws.rowHeight[i]), minRowHeight))
                               else old(ws.rowHeight[i]))
      && (forall i, j :: 0 <= i < ws.styles.Length0 && 0 <= j < ws.styles.Length1 ==>
            ws.styles[i, j] == if i == headerRow - 1 then HeaderStyle
                               else if i >= headerRow then BodyStyle(wrapText)
                               else old(ws.styles[i, j]))
      && (forall c :: 0 <= c < ws.colWidth.Length ==> ws.colWidth[c] == ColumnWidth(MaxLength(ws.Column(c))))
      && |ws.tables| == |old(ws.tables)| + 1 && ws.tables[..|old(ws.tables)|] == old(ws.tables)
      && var added := ws.tables[|old(ws.tables)|];
         && IsFreeName(TableNames(old(ws.tables)), tableName, added.name)
         && added.range == TableRange(headerRow, ws.cells.Length1, ws.cells.Length0)
         && added.style == tableStyle
         && ws.autoFilter == Some(added.range)
  {
    ws.freezePanes := Some(freezePanesCell);
    var maxRow := ws.cells.Length0;
    var maxCol := ws.cells.Length1;
    if maxRow < headerRow || maxCol < 1 {
      return;
    }
    StyleHeader(ws, headerRow, headerRowHeight);
    StyleBody(ws, headerRow, minRowHeight, wrapText);
    FitColumns(ws);
    var chosen := ChooseTableName(TableNames(ws.tables), tableName);
    var range := TableRange(headerRow, maxCol, maxRow);
    ws.tables := ws.tables + [Table(chosen, range, tableStyle)];
    ws.autoFilter := Some(range);
  }
}
