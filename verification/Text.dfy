/**
 * Strings as JavaScript sees them: sequences of UTF-16 code units, compared code unit by code unit.
 */
module Text {
  type CodeUnit = n: int | 0 <= n < 0x10000 witness 0
  type Text = seq<CodeUnit>

  /** The order Array.prototype.sort uses on strings. */
  predicate Less(a: Text, b: Text) {
    if b == [] then false
    else if a == [] then true
    else a[0] < b[0] || (a[0] == b[0] && Less(a[1..], b[1..]))
  }

  /** At the first difference the smaller code unit, or the end of the shorter string, comes first. */
  predicate ComesFirst(a: Text, b: Text) {
    exists n: nat :: n <= |a| && n < |b| && FirstDifference(a, b, n)
  }

  predicate FirstDifference(a: Text, b: Text, n: nat)
    requires n <= |a| && n < |b|
  {
    a[..n] == b[..n] && (n == |a| || a[n] < b[n])
  }

  lemma {:induction false} LessIsByIndex(a: Text, b: Text)
    ensures Less(a, b) <==> ComesFirst(a, b)
  {
    if b == [] {
    } else if a == [] {
      assert FirstDifference(a, b, 0);
    } else if a[0] != b[0] {
      assert a[0] < b[0] ==> FirstDifference(a, b, 0);
      assert forall n: nat :: 0 < n <= |a| && n < |b| ==> a[..n][0] == a[0] && b[..n][0] == b[0];
    } else {
      LessIsByIndex(a[1..], b[1..]);
      if n: nat :| n <= |a| && n < |b| && FirstDifference(a, b, n) {
        DifferenceInTail(a, b, n);
      }
      if n: nat :| n <= |a[1..]| && n < |b[1..]| && FirstDifference(a[1..], b[1..], n) {
        DifferenceWithHead(a, b, n);
      }
    }
  }

  lemma DifferenceInTail(a: Text, b: Text, n: nat)
    requires a != [] && b != [] && a[0] == b[0] && n <= |a| && n < |b| && FirstDifference(a, b, n)
    ensures n > 0 && FirstDifference(a[1..], b[1..], n - 1)
  {
    assert a[1..][..n - 1] == a[..n][1..] && b[1..][..n - 1] == b[..n][1..];
  }

  lemma DifferenceWithHead(a: Text, b: Text, n: nat)
    requires a != [] && b != [] && a[0] == b[0] && n <= |a| - 1 && n < |b| - 1 && FirstDifference(a[1..], b[1..], n)
    ensures FirstDifference(a, b, n + 1)
  {
    assert a[..n + 1] == [a[0]] + a[1..][..n] && b[..n + 1] == [b[0]] + b[1..][..n];
  }

  lemma {:induction false} LessIsIrreflexive(a: Text)
    ensures !Less(a, a)
  {
    if a != [] {
      LessIsIrreflexive(a[1..]);
    }
  }

  lemma {:induction false} LessIsTransitive(a: Text, b: Text, c: Text)
    requires Less(a, b) && Less(b, c)
    ensures Less(a, c)
  {
    if a != [] && a[0] == b[0] == c[0] {
      LessIsTransitive(a[1..], b[1..], c[1..]);
    }
  }

  lemma {:induction false} LessIsTotal(a: Text, b: Text)
    ensures Less(a, b) || a == b || Less(b, a)
  {
    if a != [] && b != [] && a[0] == b[0] {
      LessIsTotal(a[1..], b[1..]);
      if a[1..] == b[1..] {
        assert a == [a[0]] + a[1..] && b == [b[0]] + b[1..];
      }
    }
  }

  /** A literal of the program text. */
  function Ascii(s: string): (t: Text)
    ensures |t| == |s|
    ensures forall i :: 0 <= i < |s| && s[i] as int < 128 ==> t[i] == s[i] as int
  {
    seq(|s|, i requires 0 <= i < |s| => if s[i] as int < 128 then s[i] as int else 0)
  }

  predicate IsAscii(s: string) { forall i :: 0 <= i < |s| ==> s[i] as int < 128 }

  lemma AsciiIsInjective(a: string, b: string)
    requires IsAscii(a) && IsAscii(b)
    ensures Ascii(a) == Ascii(b) <==> a == b
  {
    if Ascii(a) == Ascii(b) {
      assert |a| == |b|;
      forall i | 0 <= i < |a|
        ensures a[i] == b[i]
      {
        assert Ascii(a)[i] == Ascii(b)[i];
      }
    }
  }

  // ------------------------------------------------------------------
  // Sorting
  // ------------------------------------------------------------------

  function InsertText(x: Text, s: seq<Text>): seq<Text> {
    if s == [] || !Less(s[0], x) then [x] + s else [s[0]] + InsertText(x, s[1..])
  }

  /** Array.prototype.sort on strings. */
  function SortTexts(s: seq<Text>): seq<Text> {
    if s == [] then [] else InsertText(s[0], SortTexts(s[1..]))
  }

  predicate Ascending(s: seq<Text>) {
    forall i, j :: 0 <= i < j < |s| ==> !Less(s[j], s[i])
  }

  lemma {:induction false} InsertKeepsElements(x: Text, s: seq<Text>)
    ensures multiset(InsertText(x, s)) == multiset{x} + multiset(s)
  {
    if s == [] || !Less(s[0], x) {
    } else {
      InsertKeepsElements(x, s[1..]);
      assert s == [s[0]] + s[1..];
    }
  }

  lemma {:induction false} SortKeepsElements(s: seq<Text>)
    ensures multiset(SortTexts(s)) == multiset(s) && |SortTexts(s)| == |s|
  {
    if s != [] {
      SortKeepsElements(s[1..]);
      InsertKeepsElements(s[0], SortTexts(s[1..]));
      assert s == [s[0]] + s[1..];
      assert |multiset(SortTexts(s))| == |SortTexts(s)| && |multiset(s)| == |s|;
    }
  }

  lemma LessIsAsymmetric(a: Text, b: Text)
    requires Less(a, b)
    ensures !Less(b, a)
  {
    if Less(b, a) {
      LessIsTransitive(a, b, a);
      LessIsIrreflexive(a);
    }
  }

  lemma ConsAscending(x: Text, s: seq<Text>)
    requires Ascending(s) && forall y :: y in s ==> !Less(y, x)
    ensures Ascending([x] + s)
  {
    var r := [x] + s;
    assert forall i :: 0 < i < |r| ==> r[i] == s[i - 1] && r[i] in s;
  }

  lemma {:induction false} InsertAscending(x: Text, s: seq<Text>)
    requires Ascending(s)
    ensures Ascending(InsertText(x, s))
  {
    if s == [] {
      ConsAscending(x, s);
    } else if !Less(s[0], x) {
      forall j | 0 <= j < |s|
        ensures !Less(s[j], x)
      {
        SmallerThanAll(x, s, j);
      }
      ConsAscending(x, s);
    } else {
      var others := InsertText(x, s[1..]);
      InsertAscending(x, s[1..]);
      InsertKeepsElements(x, s[1..]);
      LessIsAsymmetric(s[0], x);
      forall y | y in others
        ensures !Less(y, s[0])
      {
        assert y in multiset(others);
        assert y == x || y in s[1..];
      }
      ConsAscending(s[0], others);
    }
  }

  lemma SmallerThanAll(x: Text, s: seq<Text>, j: nat)
    requires Ascending(s) && s != [] && !Less(s[0], x) && j < |s|
    ensures !Less(s[j], x)
  {
    if Less(s[j], x) {
      LessIsTotal(s[0], s[j]);
      if Less(s[0], s[j]) {
        LessIsTransitive(s[0], s[j], x);
      }
    }
  }

  lemma {:induction false} SortAscends(s: seq<Text>)
    ensures Ascending(SortTexts(s))
  {
    if s != [] {
      SortAscends(s[1..]);
      InsertAscending(s[0], SortTexts(s[1..]));
    }
  }

  lemma {:induction false} SortOfSorted(s: seq<Text>)
    requires Ascending(s)
    ensures SortTexts(s) == s
  {
    if s != [] {
      assert forall i, j :: 0 <= i < j < |s[1..]| ==> s[1..][i] == s[i + 1] && s[1..][j] == s[j + 1];
      SortOfSorted(s[1..]);
      assert |s| > 1 ==> s[1..][0] == s[1];
      assert [s[0]] + s[1..] == s;
    }
  }

  function InsertDistinct(x: Text, s: seq<Text>): seq<Text> { if x in s then s else InsertText(x, s) }

  /** The distinct elements, sorted: [...new Set(s)].sort(). */
  function SortDistinct(s: seq<Text>): seq<Text> {
    if s == [] then [] else InsertDistinct(s[0], SortDistinct(s[1..]))
  }

  lemma SameLeast(a: seq<Text>, b: seq<Text>)
    requires Ascending(a) && Ascending(b) && a != [] && b != [] && a[0] in b && b[0] in a
    ensures a[0] == b[0]
  {
    LessIsTotal(a[0], b[0]);
    var i :| 0 <= i < |b| && b[i] == a[0];
    var j :| 0 <= j < |a| && a[j] == b[0];
    LessIsIrreflexive(a[0]);
    assert !Less(a[0], b[0]) && !Less(b[0], a[0]);
  }

  lemma SameTail(a: seq<Text>, b: seq<Text>)
    requires a != [] && b != [] && a[0] == b[0] && multiset(a) == multiset(b)
    ensures multiset(a[1..]) == multiset(b[1..])
  {
    assert a == [a[0]] + a[1..] && b == [b[0]] + b[1..];
    assert multiset(a[1..]) == multiset(a) - multiset{a[0]};
    assert multiset(b[1..]) == multiset(b) - multiset{b[0]};
  }

  lemma {:induction false} AscendingIsUnique(a: seq<Text>, b: seq<Text>)
    requires Ascending(a) && Ascending(b) && multiset(a) == multiset(b)
    ensures a == b
  {
    assert |multiset(a)| == |a| && |multiset(b)| == |b|;
    if a != [] {
      assert a[0] in multiset(b) && b[0] in multiset(a);
      SameLeast(a, b);
      SameTail(a, b);
      TailAscends(a);
      TailAscends(b);
      AscendingIsUnique(a[1..], b[1..]);
      assert a == [a[0]] + a[1..] && b == [b[0]] + b[1..];
    }
  }

  lemma TailAscends(s: seq<Text>)
    requires Ascending(s) && s != []
    ensures Ascending(s[1..])
  {
    assert forall i :: 0 <= i < |s[1..]| ==> s[1..][i] == s[i + 1];
  }

  /** Sorting forgets the order of its input. */
  lemma SortForgetsOrder(a: seq<Text>, b: seq<Text>)
    requires multiset(a) == multiset(b)
    ensures SortTexts(a) == SortTexts(b)
  {
    SortAscends(a);
    SortAscends(b);
    SortKeepsElements(a);
    SortKeepsElements(b);
    AscendingIsUnique(SortTexts(a), SortTexts(b));
  }

  lemma {:induction false} SortDistinctElements(s: seq<Text>)
    ensures Ascending(SortDistinct(s))
    ensures forall x :: x in SortDistinct(s) <==> x in s
    ensures forall x :: multiset(SortDistinct(s))[x] <= 1
  {
    if s != [] {
      var others := SortDistinct(s[1..]);
      SortDistinctElements(s[1..]);
      InsertAscending(s[0], others);
      InsertKeepsElements(s[0], others);
      assert forall x :: x in SortDistinct(s) <==> x in multiset(SortDistinct(s));
      assert forall x :: x in others <==> x in multiset(others);
    }
  }

  /** Distinct sorted elements depend on the set of elements only. */
  lemma SortDistinctForgetsOrder(a: seq<Text>, b: seq<Text>)
    requires forall x :: x in a <==> x in b
    ensures SortDistinct(a) == SortDistinct(b)
  {
    SortDistinctElements(a);
    SortDistinctElements(b);
    var s, t := SortDistinct(a), SortDistinct(b);
    forall x
      ensures multiset(s)[x] == multiset(t)[x]
    {
      assert x in s <==> x in multiset(s);
      assert x in t <==> x in multiset(t);
    }
    AscendingIsUnique(s, t);
  }

  function Join(s: seq<Text>, separator: Text): Text {
    if s == [] then [] else if |s| == 1 then s[0] else s[0] + separator + Join(s[1..], separator)
  }
}
