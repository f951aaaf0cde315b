/** Python's ordering of strings (code point by code point, a proper prefix first) and
    `sorted()` on a set of strings. */
module StringOrder {

  /** `a < b` in Python. */
  predicate Less(a: string, b: string)
    decreases |a|
  {
    if |a| == 0 then |b| > 0
    else if |b| == 0 then false
    else a[0] < b[0] || (a[0] == b[0] && Less(a[1..], b[1..]))
  }

  lemma {:induction false} LessIrreflexive(a: string)
    ensures !Less(a, a)
    decreases |a|
  {
    if |a| > 0 {
      LessIrreflexive(a[1..]);
    }
  }

  lemma {:induction false} LessTransitive(a: string, b: string, c: string)
    requires Less(a, b) && Less(b, c)
    ensures Less(a, c)
    decreases |a|
  {
    if |a| > 0 && a[0] == b[0] && b[0] == c[0] {
      LessTransitive(a[1..], b[1..], c[1..]);
    }
  }

  lemma {:induction false} LessTotal(a: string, b: string)
    requires a != b
    ensures Less(a, b) || Less(b, a)
    decreases |a|
  {
    if |a| > 0 && |b| > 0 && a[0] == b[0] {
      assert a == [a[0]] + a[1..] && b == [b[0]] + b[1..];
      LessTotal(a[1..], b[1..]);
    }
  }

  lemma LessAsymmetric(a: string, b: string)
    requires Less(a, b)
    ensures !Less(b, a)
  {
    if Less(b, a) {
      LessTransitive(a, b, a);
      LessIrreflexive(a);
    }
  }

  /** Strictly ascending, hence also free of duplicates. */
  predicate Sorted(s: seq<string>) {
    forall i, j :: 0 <= i < j < |s| ==> Less(s[i], s[j])
  }

  /** `m` is the least element of `s`. */
  predicate IsLeast(m: string, s: set<string>) {
    m in s && forall y :: y in s && y != m ==> Less(m, y)
  }

  /** Every non-empty finite set of strings has a least element. */
  lemma LeastExists(s: set<string>) returns (m: string)
    requires s != {}
    ensures IsLeast(m, s)
    decreases |s|
  {
    var x :| x in s;
    if s == {x} {
      m := x;
    } else {
      var m' := LeastExists(s - {x});
      if Less(x, m') {
        m := x;
        forall y | y in s && y != x ensures Less(x, y) {
          if y != m' {
            LessTransitive(x, m', y);
          }
        }
      } else {
        LessTotal(x, m');
        m := m';
      }
    }
  }

  /** `a` and `b` hold the same elements. */
  ghost predicate SameElements(a: seq<string>, b: seq<string>) {
    forall x :: x in a <==> x in b
  }

  /** Two sorted sequences with the same elements are equal: a sorted order is unique. */
  lemma {:induction false} SortedUnique(a: seq<string>, b: seq<string>)
    requires Sorted(a) && Sorted(b) && SameElements(a, b)
    ensures a == b
    decreases |a|
  {
    if |a| == 0 {
      HeadIsElement(b);
    } else {
      assert a[0] in a;
      assert b != [];
      assert b[0] in b;
      if a[0] != b[0] {
        var i :| 0 <= i < |a| && a[i] == b[0];
        var j :| 0 <= j < |b| && b[j] == a[0];
        assert Less(a[0], b[0]);
        assert Less(b[0], a[0]);
        LessAsymmetric(a[0], b[0]);
      }
      TailElements(a);
      TailElements(b);
      SortedUnique(a[1..], b[1..]);
      assert a == [a[0]] + a[1..] && b == [b[0]] + b[1..];
    }
  }

  lemma HeadIsElement(b: seq<string>)
    ensures |b| > 0 ==> b[0] in b
  {
  }

  /** The tail of a sorted sequence holds every element but the head. */
  lemma TailElements(a: seq<string>)
    requires Sorted(a) && |a| > 0
    ensures forall x :: x in a[1..] <==> x in a && x != a[0]
  {
    forall x | x in a[1..] ensures x != a[0] {
      var k :| 0 <= k < |a[1..]| && a[1..][k] == x;
      assert Less(a[0], a[k + 1]);
      LessIrreflexive(a[0]);
    }
    assert a == [a[0]] + a[1..];
  }

  /** A set has at most one least element. */
  lemma LeastUnique(s: set<string>)
    ensures forall a, b :: IsLeast(a, s) && IsLeast(b, s) ==> a == b
  {
    forall a, b | IsLeast(a, s) && IsLeast(b, s) ensures a == b {
      if a != b {
        LessAsymmetric(a, b);
      }
    }
  }

  /** Python's `sorted(s)` for a set of strings: the sorted sequence of its elements, which by
      `SortedUnique` is the only one. */
  function SortedStrings(s: set<string>): (r: seq<string>)
    ensures Sorted(r)
    ensures forall x :: x in r <==> x in s
    decreases |s|
  {
    if s == {} then []
    else
      assert exists m :: IsLeast(m, s) by {
        var w := LeastExists(s);
      }
      LeastUnique(s);
      var m :| IsLeast(m, s);
      var rest := SortedStrings(s - {m});
      var r := [m] + rest;
      assert forall j :: 1 <= j < |r| ==> r[j] in rest && Less(m, r[j]);
      r
  }
}
