/** How a free-text model reply is cleaned into CSV text (app/services/translator.py,
    `_extract_csv`): markdown fences are removed, lines naming the sheet are dropped, so is a
    blank first line, and the rest is joined back and stripped. */
module CsvCleanup {
  import opened Text

  /** The two sheet-name annotations the cleaner looks for. The second is meant to be the Korean
      "(시트 이름:", but app/services/translator.py:335 holds that text's UTF-8 bytes read as
      Windows-1252 (with the undefined byte 0x9D lost), so this constant is that literal code
      point by code point, and a line starting with the proper Korean is kept. */
  const SheetNameTag: string := "(Sheet name:"
  const KoreanSheetNameTag: string := "(\U{EC}\U{2039}\U{153}\U{ED}\U{160}\U{B8} \U{EC}\U{B4}\U{EB}\U{A6}\U{201E}:"

  /** A line that, once stripped, starts with one of the annotations. */
  predicate IsAnnotation(line: string) {
    StartsWith(Strip(line), SheetNameTag) || StartsWith(Strip(line), KoreanSheetNameTag)
  }

  /** A line that is empty once stripped. */
  predicate IsBlank(line: string) {
    Strip(line) == ""
  }

  /** A line that starts, after stripping, with the proper Korean "(시트 이름:" is not an
      annotation: the corrupted literal differs from it in its second character. */
  lemma ProperKoreanKept(line: string)
    requires |Strip(line)| >= 2 && Strip(line)[..2] == "(시"
    ensures !IsAnnotation(line)
  {
    assert SheetNameTag[1] != Strip(line)[1];
    assert KoreanSheetNameTag[1] != Strip(line)[1];
  }

  /** Which lines are skipped: an annotation anywhere, or a blank line at the very start. */
  function DropFlags(lines: seq<string>): (drop: seq<bool>)
    ensures |drop| == |lines|
    ensures forall i :: 0 <= i < |lines| ==> (drop[i] <==> IsAnnotation(lines[i]) || (i == 0 && IsBlank(lines[i])))
  {
    seq(|lines|, i requires 0 <= i < |lines| => IsAnnotation(lines[i]) || (i == 0 && IsBlank(lines[i])))
  }

  /** The items among the first `n` whose flag is not set, in their order. */
  function Filter<T>(xs: seq<T>, drop: seq<bool>, n: nat): (kept: seq<T>)
    requires n <= |xs| && |drop| == |xs|
    ensures |kept| <= n
    ensures forall k :: 0 <= k < |kept| ==> kept[k] in xs
  {
    if n == 0 then []
    else Filter(xs, drop, n - 1) + (if drop[n - 1] then [] else [xs[n - 1]])
  }

  /** Filtering a longer prefix only appends: what the first `m` items keep stays in front. */
  lemma {:induction false} FilterPrefix<T>(xs: seq<T>, drop: seq<bool>, m: nat, n: nat)
    requires m <= n <= |xs| && |drop| == |xs|
    ensures |Filter(xs, drop, m)| <= |Filter(xs, drop, n)|
    ensures Filter(xs, drop, n)[..|Filter(xs, drop, m)|] == Filter(xs, drop, m)
    decreases n - m
  {
    if m < n {
      FilterPrefix(xs, drop, m, n - 1);
      var a, b := Filter(xs, drop, m), Filter(xs, drop, n - 1);
      assert Filter(xs, drop, n)[..|b|] == b;
      assert b[..|a|] == a;
    }
  }

  /** An unflagged item survives: it sits in the result right after what the items before it
      keep, and an unflagged item further on sits further on. */
  lemma FilterKeeps<T>(xs: seq<T>, drop: seq<bool>, n: nat, i: nat)
    requires i < n <= |xs| && |drop| == |xs| && !drop[i]
    ensures |Filter(xs, drop, i)| < |Filter(xs, drop, n)|
    ensures Filter(xs, drop, n)[|Filter(xs, drop, i)|] == xs[i]
    ensures forall j :: i < j <= n ==> |Filter(xs, drop, i)| < |Filter(xs, drop, j)|
  {
    var before := Filter(xs, drop, i);
    assert Filter(xs, drop, i + 1) == before + [xs[i]];
    FilterPrefix(xs, drop, i + 1, n);
    assert Filter(xs, drop, n)[..|before| + 1][|before|] == xs[i];
    forall j | i < j <= n ensures |before| < |Filter(xs, drop, j)| {
      FilterPrefix(xs, drop, i + 1, j);
    }
  }

  /** With no flag set every item is kept. */
  lemma {:induction false} FilterNone<T>(xs: seq<T>, drop: seq<bool>, n: nat)
    requires n <= |xs| && |drop| == |xs|
    requires forall i :: 0 <= i < n ==> !drop[i]
    ensures Filter(xs, drop, n) == xs[..n]
  {
    if n > 0 {
      FilterNone(xs, drop, n - 1);
      assert xs[..n] == xs[..n - 1] + [xs[n - 1]];
    }
  }

  /** With only the first flag set every other item is kept. */
  lemma {:induction false} FilterFirst<T>(xs: seq<T>, drop: seq<bool>, n: nat)
    requires 0 < n <= |xs| && |drop| == |xs| && drop[0]
    requires forall i :: 1 <= i < n ==> !drop[i]
    ensures Filter(xs, drop, n) == xs[1..n]
  {
    if n > 1 {
      FilterFirst(xs, drop, n - 1);
      assert xs[1..n] == xs[1..n - 1] + [xs[n - 1]];
    }
  }

  /** The lines that are kept. */
  function Kept(lines: seq<string>): (kept: seq<string>)
    ensures forall k :: 0 <= k < |kept| ==> kept[k] in lines && !IsAnnotation(kept[k])
  {
    var kept := Filter(lines, DropFlags(lines), |lines|);
    forall k | 0 <= k < |kept| ensures !IsAnnotation(kept[k]) {
      KeptNotAnnotation(lines, |lines|, k);
    }
    kept
  }

  /** Every line that is neither an annotation nor a blank first line survives, in its
      order: line `i` sits right after the lines kept before it, ahead of every later line. */
  lemma KeptKeeps(lines: seq<string>, i: nat)
    requires i < |lines| && !IsAnnotation(lines[i]) && !(i == 0 && IsBlank(lines[i]))
    ensures var pos := |Filter(lines, DropFlags(lines), i)|;
      && pos < |Kept(lines)| && Kept(lines)[pos] == lines[i]
      && forall j :: i < j <= |lines| ==> pos < |Filter(lines, DropFlags(lines), j)|
  {
    FilterKeeps(lines, DropFlags(lines), |lines|, i);
  }

  lemma {:induction false} KeptNotAnnotation(lines: seq<string>, n: nat, k: nat)
    requires n <= |lines| && k < |Filter(lines, DropFlags(lines), n)|
    ensures !IsAnnotation(Filter(lines, DropFlags(lines), n)[k])
  {
    var drop := DropFlags(lines);
    var init := Filter(lines, drop, n - 1);
    if k >= |init| {
      assert !drop[n - 1];
    } else {
      KeptNotAnnotation(lines, n - 1, k);
    }
  }

  /** The three `re.sub` calls: "```csv\n" first, then "```\n", then any "```" left. */
  function Unfence(s: string): (r: string)
    ensures NoFence(r)
  {
    var r := RemoveAll(RemoveAll(RemoveAll(s, "```csv\n"), "```\n"), "```");
    RemoveFencesLeavesNone(RemoveAll(RemoveAll(s, "```csv\n"), "```\n"));
    r
  }

  /** What `_extract_csv` returns. */
  function CleanedCsv(content: string): string
  {
    Strip(Join(Kept(Split(Unfence(content), '\n')), '\n'))
  }

  /** `_extract_csv`: remove the fences, clean the lines, join them back and strip. */
  method ExtractCsv(content: string) returns (r: string)
    ensures r == CleanedCsv(content)
  {
    var text := RemoveAll(content, "```csv\n");
    text := RemoveAll(text, "```\n");
    text := RemoveAll(text, "```");
    assert text == Unfence(content);
    var cleaned := CleanLines(Split(text, '\n'));
    r := Strip(Join(cleaned, '\n'));
  }

  /** The line loop of `_extract_csv`: annotation lines are skipped wherever they are, a blank
      line only at index 0. */
  method CleanLines(lines: seq<string>) returns (cleaned: seq<string>)
    ensures cleaned == Kept(lines)
  {
    ghost var drop := DropFlags(lines);
    cleaned := [];
    var i := 0;
    while i < |lines|
      invariant 0 <= i <= |lines|
      invariant cleaned == Filter(lines, drop, i)
    {
      var line := lines[i];
      if IsAnnotation(line) {
        i := i + 1;
        continue;
      }
      if i == 0 && IsBlank(line) {
        i := i + 1;
        continue;
      }
      cleaned := cleaned + [line];
      i := i + 1;
    }
  }

  /** The cleaned text contains no markdown fence at all. */
  lemma CleanedHasNoFence(content: string)
    ensures NoFence(CleanedCsv(content))
  {
    var lines := Split(Unfence(content), '\n');
    var kept := Kept(lines);
    NoFenceSplit(Unfence(content), '\n');
    forall k | 0 <= k < |kept| ensures NoFence(kept[k]) {
      assert kept[k] in lines;
    }
    NoFenceJoin(kept, '\n');
    var joined := Join(kept, '\n');
    var a, b := StripIsSlice(joined);
    NoFenceSlice(joined, a, b);
  }

  /** Leading whitespace does not survive `lstrip`. */
  lemma {:induction false} TrimStartSpaces(w: string, s: string)
    requires forall k :: 0 <= k < |w| ==> IsSpace(w[k])
    ensures TrimStart(w + s) == TrimStart(s)
    decreases |w|
  {
    if |w| > 0 {
      var ws := w + s;
      assert ws[0] == w[0];
      assert TrimStart(ws) == TrimStart(ws[1..]);
      assert ws[1..] == w[1..] + s;
      TrimStartSpaces(w[1..], s);
    } else {
      assert w + s == s;
    }
  }

  /** A blank line consists of whitespace only. */
  lemma BlankIsSpaces(w: string)
    requires IsBlank(w)
    ensures forall k :: 0 <= k < |w| ==> IsSpace(w[k])
  {
    var i, j := StripIsSlice(w);
  }

  /** Text that has no fence and no annotation line is only stripped: in particular a blank
      first line is dropped without changing the result. */
  lemma CleanInputOnlyStripped(content: string)
    requires NoFence(content)
    requires forall k :: 0 <= k < |Split(content, '\n')| ==> !IsAnnotation(Split(content, '\n')[k])
    ensures CleanedCsv(content) == Strip(content)
  {
    RemoveAllFenceFree(content, "```csv\n");
    RemoveAllFenceFree(content, "```\n");
    RemoveAllFenceFree(content, "```");
    assert Unfence(content) == content;
    var lines := Split(content, '\n');
    JoinSplit(content, '\n');
    if IsBlank(lines[0]) {
      BlankOnlyDropped(lines);
      BlankFirstLine(lines);
    } else {
      var drop := DropFlags(lines);
      FilterNone(lines, drop, |lines|);
      assert lines[..|lines|] == lines;
    }
  }

  /** A blank first line is the only line dropped from annotation-free lines. */
  lemma BlankOnlyDropped(lines: seq<string>)
    requires |lines| > 0 && IsBlank(lines[0])
    requires forall k :: 0 <= k < |lines| ==> !IsAnnotation(lines[k])
    ensures Kept(lines) == lines[1..]
  {
    FilterFirst(lines, DropFlags(lines), |lines|);
  }

  /** Stripping after dropping a blank first line is stripping the whole text. */
  lemma BlankFirstLine(lines: seq<string>)
    requires |lines| > 0 && IsBlank(lines[0])
    ensures Strip(Join(lines[1..], '\n')) == Strip(Join(lines, '\n'))
  {
    BlankIsSpaces(lines[0]);
    var rest := Join(lines[1..], '\n');
    if |lines| == 1 {
      TrimStartSpaces(lines[0], "");
      assert lines[0] + "" == lines[0];
    } else {
      assert Join(lines, '\n') == (lines[0] + "\n") + rest;
      TrimStartSpaces(lines[0] + "\n", rest);
    }
  }
}
