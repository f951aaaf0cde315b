/** The parts of Python's `str` that the modelled code relies on: whitespace stripping,
    splitting on one separator character, joining, prefix tests, literal replacement and
    ASCII lower-casing. */
module Text {

  /** Characters for which Python's `str.isspace()` holds; `str.strip()` removes them. */
  predicate IsSpace(c: char) {
    || c == ' ' || c == '\t' || c == '\n' || c == '\r'
    || c == '\U{000B}' || c == '\U{000C}'
    || ('\U{001C}' <= c <= '\U{001F}')
    || c == '\U{0085}' || c == '\U{00A0}' || c == '\U{1680}'
    || ('\U{2000}' <= c <= '\U{200A}')
    || c == '\U{2028}' || c == '\U{2029}' || c == '\U{202F}' || c == '\U{205F}' || c == '\U{3000}'
  }

  /** Python's `s.lstrip()`. */
  function TrimStart(s: string): (r: string)
    ensures |r| <= |s|
  {
    if |s| > 0 && IsSpace(s[0]) then TrimStart(s[1..]) else s
  }

  /** `lstrip` gives the longest suffix that does not start with whitespace: everything it
      removes is whitespace, and what it keeps does not begin with whitespace. */
  lemma {:induction false} TrimStartSuffix(s: string)
    ensures var r := TrimStart(s);
      && r == s[|s| - |r|..]
      && (forall k :: 0 <= k < |s| - |r| ==> IsSpace(s[k]))
      && (|r| > 0 ==> !IsSpace(r[0]))
  {
    if |s| > 0 && IsSpace(s[0]) {
      TrimStartSuffix(s[1..]);
    }
  }

  /** Python's `s.rstrip()`. */
  function TrimEnd(s: string): (r: string)
    ensures |r| <= |s|
  {
    if |s| > 0 && IsSpace(s[|s| - 1]) then TrimEnd(s[..|s| - 1]) else s
  }

  /** `rstrip` gives the longest prefix that does not end with whitespace. */
  lemma {:induction false} TrimEndPrefix(s: string)
    ensures var r := TrimEnd(s);
      && r == s[..|r|]
      && (forall k :: |r| <= k < |s| ==> IsSpace(s[k]))
      && (|r| > 0 ==> !IsSpace(r[|r| - 1]))
  {
    if |s| > 0 && IsSpace(s[|s| - 1]) {
      TrimEndPrefix(s[..|s| - 1]);
    }
  }

  /** Python's `s.strip()`. */
  function Strip(s: string): (r: string)
    ensures |r| <= |s|
  {
    TrimEnd(TrimStart(s))
  }

  /** The result of `Strip` is a contiguous piece of its argument, with whitespace only on either
      side of it and neither beginning nor ending with whitespace. */
  lemma StripIsSlice(s: string) returns (i: nat, j: nat)
    ensures i <= j <= |s| && Strip(s) == s[i..j]
    ensures forall k :: 0 <= k < i ==> IsSpace(s[k])
    ensures forall k :: j <= k < |s| ==> IsSpace(s[k])
    ensures j > i ==> !IsSpace(s[i]) && !IsSpace(s[j - 1])
  {
    var t := TrimStart(s);
    TrimStartSuffix(s);
    TrimEndPrefix(t);
    i := |s| - |t|;
    j := i + |TrimEnd(t)|;
    assert t == s[i..];
    assert TrimEnd(t) == t[..|TrimEnd(t)|];
  }

  /** Python's `s.startswith(p)`. */
  predicate StartsWith(s: string, p: string) {
    |p| <= |s| && s[..|p|] == p
  }

  /** Python's `s.endswith(p)`. */
  predicate EndsWith(s: string, p: string) {
    |p| <= |s| && s[|s| - |p|..] == p
  }

  /** Python's `s.split(sep)` for a one-character separator: one more piece than there are
      separators, none of them containing the separator. */
  function Split(s: string, sep: char): (parts: seq<string>)
    ensures |parts| >= 1
    ensures forall k :: 0 <= k < |parts| ==> sep !in parts[k]
    decreases |s|
  {
    if |s| == 0 then [""]
    else if s[0] == sep then [""] + Split(s[1..], sep)
    else
      var rest := Split(s[1..], sep);
      [[s[0]] + rest[0]] + rest[1..]
  }

  /** Python's `sep.join(parts)`. */
  function Join(parts: seq<string>, sep: char): (r: string)
    ensures |parts| == 1 ==> r == parts[0]
  {
    if |parts| == 0 then ""
    else if |parts| == 1 then parts[0]
    else parts[0] + [sep] + Join(parts[1..], sep)
  }

  /** Joining the pieces of a split with the same separator gives back the original string. */
  lemma {:induction false} JoinSplit(s: string, sep: char)
    ensures Join(Split(s, sep), sep) == s
    decreases |s|
  {
    if |s| == 0 {
    } else if s[0] == sep {
      JoinSplit(s[1..], sep);
      assert s == [sep] + s[1..];
    } else {
      JoinSplit(s[1..], sep);
      var rest := Split(s[1..], sep);
      if |rest| == 1 {
        assert s == [s[0]] + s[1..];
      } else {
        assert Join(rest, sep) == rest[0] + [sep] + Join(rest[1..], sep);
        assert Split(s, sep)[1..] == rest[1..];
        assert s == [s[0]] + s[1..];
      }
    }
  }

  /** Python's `s.replace(pat, "")`, which is also what `re.sub(pat, '', s)` does for a pattern
      without special characters: occurrences are removed left to right, without overlap. */
  function RemoveAll(s: string, pat: string): (r: string)
    requires |pat| > 0
    ensures |r| <= |s|
    decreases |s|
  {
    if |s| < |pat| then s
    else if s[..|pat|] == pat then RemoveAll(s[|pat|..], pat)
    else [s[0]] + RemoveAll(s[1..], pat)
  }

  /** Three backticks in a row at position `i`, the markdown fence. */
  predicate FenceAt(s: string, i: int) {
    0 <= i && i + 3 <= |s| && s[i] == '`' && s[i + 1] == '`' && s[i + 2] == '`'
  }

  /** `s` contains no markdown fence. */
  predicate NoFence(s: string) {
    forall i :: 0 <= i < |s| ==> !FenceAt(s, i)
  }

  /** Removing every fence leaves none behind: a removed fence never lets backticks on its two
      sides join into a new one, because the scan is leftmost-first. */
  lemma {:induction false} RemoveFencesLeavesNone(s: string)
    ensures NoFence(RemoveAll(s, "```"))
    decreases |s|
  {
    var r := RemoveAll(s, "```");
    if |s| < 3 {
      assert r == s;
    } else if s[..3] == "```" {
      RemoveFencesLeavesNone(s[3..]);
    } else {
      RemoveFencesLeavesNone(s[1..]);
      var rest := RemoveAll(s[1..], "```");
      assert r == [s[0]] + rest;
      if s[0] == '`' {
        // The first three characters are not a fence, so the rest cannot begin with two backticks.
        NoDoubleBacktickStart(s[1..]);
      }
      forall i | 0 <= i < |r| ensures !FenceAt(r, i) {
        if i > 0 {
          assert FenceAt(r, i) ==> FenceAt(rest, i - 1);
        }
      }
    }
  }

  /** If `s` does not begin with two backticks, neither does `RemoveAll(s, "```")`. */
  lemma NoDoubleBacktickStart(s: string)
    requires !(|s| >= 2 && s[0] == '`' && s[1] == '`')
    ensures var r := RemoveAll(s, "```"); !(|r| >= 2 && r[0] == '`' && r[1] == '`')
  {
    if |s| >= 3 && s[0] != '`' {
      assert s[..3] != "```";
    } else if |s| >= 3 {
      assert s[..3] != "```";
      var t := s[1..];
      assert t[0] != '`';
      if |t| >= 3 {
        assert t[..3] != "```";
      }
    }
  }

  /** A fence-free string is left unchanged by removing any pattern that begins with a fence. */
  lemma {:induction false} RemoveAllFenceFree(s: string, pat: string)
    requires |pat| >= 3 && pat[..3] == "```"
    requires NoFence(s)
    ensures RemoveAll(s, pat) == s
    decreases |s|
  {
    if |s| >= |pat| {
      if s[..|pat|] == pat {
        assert s[..3] == pat[..3];
        assert FenceAt(s, 0);
      }
      NoFenceSlice(s, 1, |s|);
      assert s[1..|s|] == s[1..];
      RemoveAllFenceFree(s[1..], pat);
      assert s == [s[0]] + s[1..];
    }
  }

  /** A piece of a fence-free string is fence-free. */
  lemma NoFenceSlice(s: string, i: nat, j: nat)
    requires i <= j <= |s| && NoFence(s)
    ensures NoFence(s[i..j])
  {
    forall k | 0 <= k < j - i ensures !FenceAt(s[i..j], k) {
      assert FenceAt(s[i..j], k) ==> FenceAt(s, i + k);
    }
  }

  /** Splitting a fence-free string gives fence-free pieces. */
  lemma {:induction false} NoFenceSplit(s: string, sep: char)
    requires NoFence(s)
    ensures forall k :: 0 <= k < |Split(s, sep)| ==> NoFence(Split(s, sep)[k])
    decreases |s|
  {
    if |s| > 0 {
      NoFenceSlice(s, 1, |s|);
      assert s[1..|s|] == s[1..];
      NoFenceSplit(s[1..], sep);
      if s[0] != sep {
        var rest := Split(s[1..], sep);
        var first := [s[0]] + rest[0];
        forall i | 0 <= i < |first| ensures !FenceAt(first, i) {
          if i == 0 && FenceAt(first, 0) {
            PrefixOfSplit(s[1..], sep);
            assert s[1..][..|rest[0]|] == rest[0];
            assert FenceAt(s, 0);
          }
          if i > 0 {
            assert FenceAt(first, i) ==> FenceAt(rest[0], i - 1);
          }
        }
      }
    }
  }

  /** The first piece of a split is a prefix of the string. */
  lemma {:induction false} PrefixOfSplit(s: string, sep: char)
    ensures |Split(s, sep)[0]| <= |s| && s[..|Split(s, sep)[0]|] == Split(s, sep)[0]
    decreases |s|
  {
    if |s| > 0 && s[0] != sep {
      PrefixOfSplit(s[1..], sep);
    }
  }

  /** Joining fence-free pieces with a separator other than a backtick gives a fence-free string. */
  lemma {:induction false} NoFenceJoin(parts: seq<string>, sep: char)
    requires sep != '`'
    requires forall k :: 0 <= k < |parts| ==> NoFence(parts[k])
    ensures NoFence(Join(parts, sep))
  {
    if |parts| > 1 {
      NoFenceJoin(parts[1..], sep);
      var a, b := parts[0], Join(parts[1..], sep);
      var r := a + [sep] + b;
      forall i | 0 <= i < |r| ensures !FenceAt(r, i) {
        if i + 3 <= |a| {
          assert FenceAt(r, i) ==> FenceAt(a, i);
        } else if i > |a| {
          assert FenceAt(r, i) ==> FenceAt(b, i - |a| - 1);
        } else {
          assert r[|a|] == sep;
        }
      }
    }
  }

  /** ASCII lower-casing, the part of Python's `str.lower()` that matters for file suffixes. */
  function LowerChar(c: char): (r: char)
    ensures 'A' <= c <= 'Z' ==> r as int == c as int + 32
    ensures !('A' <= c <= 'Z') ==> r == c
  {
    if 'A' <= c <= 'Z' then (c as int + 32) as char else c
  }

  /** Python's `s.lower()` on ASCII letters; every other character is kept. */
  function Lower(s: string): (r: string)
    ensures |r| == |s|
    ensures forall k :: 0 <= k < |s| ==> r[k] == LowerChar(s[k])
  {
    if |s| == 0 then "" else [LowerChar(s[0])] + Lower(s[1..])
  }

  /** Lower-casing commutes with taking a slice. */
  lemma LowerSlice(s: string, i: nat, j: nat)
    requires i <= j <= |s|
    ensures Lower(s[i..j]) == Lower(s)[i..j]
  {
  }

  /** Lower-cased text has no ASCII capitals left, so lower-casing it again changes nothing. */
  lemma LowerIdempotent(s: string)
    ensures forall k :: 0 <= k < |s| ==> !('A' <= Lower(s)[k] <= 'Z')
    ensures Lower(Lower(s)) == Lower(s)
  {
  }
}
