/** The parts of `pathlib.PurePosixPath` the file-name rules use: the final component `name`,
    its `suffix` (from the last dot, unless that dot starts or ends the name) and its `stem`. */
module PathNames {
  import opened Text

  /** The components of a path: `/`-separated, with empty and `.` pieces dropped, as pathlib
      parses them. */
  function Components(path: string): (parts: seq<string>)
    ensures forall k :: 0 <= k < |parts| ==> parts[k] != "" && parts[k] != "." && '/' !in parts[k]
  {
    Proper(Split(path, '/'))
  }

  /** The pieces that are neither empty nor `.`. */
  function Proper(pieces: seq<string>): (parts: seq<string>)
    requires forall k :: 0 <= k < |pieces| ==> '/' !in pieces[k]
    ensures forall k :: 0 <= k < |parts| ==> parts[k] != "" && parts[k] != "." && '/' !in parts[k]
  {
    if |pieces| == 0 then []
    else
      var rest := Proper(pieces[1..]);
      if pieces[0] == "" || pieces[0] == "." then rest else [pieces[0]] + rest
  }

  /** `Path(path).name`: the last component, or the empty string when there is none. */
  function Name(path: string): (name: string)
    ensures '/' !in name && name != "."
  {
    var parts := Components(path);
    if |parts| == 0 then "" else parts[|parts| - 1]
  }

  /** Splitting text without the separator gives the text itself. */
  lemma {:induction false} SplitWithoutSeparator(s: string, sep: char)
    requires sep !in s
    ensures Split(s, sep) == [s]
    decreases |s|
  {
    if |s| > 0 {
      SplitWithoutSeparator(s[1..], sep);
      assert [s[0]] + s[1..] == s;
    }
  }

  /** A plain file name is its own final component. */
  lemma NameOfPlainName(s: string)
    requires s != "" && s != "." && '/' !in s
    ensures Name(s) == s
  {
    SplitWithoutSeparator(s, '/');
    var pieces := Split(s, '/');
    assert pieces[1..] == [];
    assert Proper(pieces) == [s];
  }

  /** `name.rfind('.')`: the index of the last dot, or -1. */
  function LastDot(name: string): (i: int)
    ensures -1 <= i < |name|
    ensures i >= 0 ==> name[i] == '.'
    ensures forall k :: i < k < |name| ==> name[k] != '.'
  {
    if |name| == 0 then -1
    else if name[|name| - 1] == '.' then |name| - 1
    else LastDot(name[..|name| - 1])
  }

  /** The last dot counts as the start of a suffix only when it is neither the first nor the
      last character of the name. */
  predicate HasSuffix(name: string) {
    0 < LastDot(name) < |name| - 1
  }

  /** `PurePath.suffix` of a final component. */
  function NameSuffix(name: string): (suffix: string)
    ensures suffix == "" || (|suffix| >= 2 && suffix[0] == '.' && |suffix| < |name|)
    ensures suffix == name[|name| - |suffix|..]
    ensures forall k :: 1 <= k < |suffix| ==> suffix[k] != '.'
  {
    if HasSuffix(name) then name[LastDot(name)..] else ""
  }

  /** `PurePath.stem` of a final component. */
  function NameStem(name: string): (stem: string)
    ensures |stem| <= |name|
  {
    if HasSuffix(name) then name[..LastDot(name)] else name
  }

  /** The stem and the suffix make up the name again. */
  lemma StemSuffix(name: string)
    ensures NameStem(name) + NameSuffix(name) == name
  {
    if HasSuffix(name) {
      var i := LastDot(name);
      assert name[..i] + name[i..] == name;
    }
  }

  /** `Path(path).suffix`. */
  function Suffix(path: string): (suffix: string)
    ensures '/' !in suffix
  {
    NameSuffix(Name(path))
  }

  /** `Path(path).stem`. */
  function Stem(path: string): (stem: string)
    ensures '/' !in stem
  {
    NameStem(Name(path))
  }

  /** A name that ends in a dot and then dot-free text after a non-empty start has exactly that
      ending as its suffix. */
  lemma SuffixOfEnding(name: string, ending: string)
    requires |ending| >= 2 && ending[0] == '.' && forall k :: 1 <= k < |ending| ==> ending[k] != '.'
    requires |name| > |ending| && name[|name| - |ending|..] == ending
    ensures NameSuffix(name) == ending
  {
    var i := |name| - |ending|;
    assert name[i] == ending[0];
    forall k | i < k < |name| ensures name[k] != '.' {
      assert name[k] == ending[k - i];
    }
    LastDotIs(name, i);
  }

  /** The last dot is the one after which no dot follows. */
  lemma {:induction false} LastDotIs(name: string, i: nat)
    requires i < |name| && name[i] == '.' && forall k :: i < k < |name| ==> name[k] != '.'
    ensures LastDot(name) == i
    decreases |name|
  {
    if i < |name| - 1 {
      var init := name[..|name| - 1];
      LastDotIs(init, i);
    }
  }

  /** A name without a dot has no suffix. */
  lemma NoDotNoSuffix(name: string)
    requires '.' !in name
    ensures NameSuffix(name) == ""
  {
  }

  /** A plain name made of a non-empty stem and one dot-led, dot-free extension is its own final
      component, with that extension as suffix and that stem as stem. */
  lemma PlainNameParts(stem: string, ext: string)
    requires stem != "" && '/' !in stem
    requires |ext| >= 2 && ext[0] == '.' && forall k :: 1 <= k < |ext| ==> ext[k] != '.' && ext[k] != '/'
    ensures Name(stem + ext) == stem + ext
    ensures Suffix(stem + ext) == ext && Stem(stem + ext) == stem
  {
    var u := stem + ext;
    assert '/' !in u by {
      forall k | 0 <= k < |u| ensures u[k] != '/' {
        if k >= |stem| {
          assert u[k] == ext[k - |stem|];
        }
      }
    }
    NameOfPlainName(u);
    assert u[|u| - |ext|..] == ext;
    SuffixOfEnding(u, ext);
    StemSuffix(u);
    assert NameStem(u) == u[..|stem|] == stem;
  }
}
