/**
 * Choosing the screenshots: the names of the folder listing that end in
 * `.png` (in any letter case), in ascending string order, at least two of them.
 */
module Selection {
  import opened Outcomes

  // ---------------------------------------------------------------------
  // The `.png` filter
  // ---------------------------------------------------------------------

  /** Lower-casing of one character (ASCII letters only). */
  function LowerChar(c: char): char {
    if 'A' <= c <= 'Z' then (c as int + 32) as char else c
  }

  /** `s.lower()`, character by character. */
  function Lower(s: string): string {
    seq(|s|, i requires 0 <= i < |s| => LowerChar(s[i]))
  }

  predicate EndsWith(s: string, suffix: string) {
    |suffix| <= |s| && s[|s| - |suffix|..] == suffix
  }

  /** `name.lower().endswith('.png')` */
  predicate IsPngName(name: string) {
    EndsWith(Lower(name), ".png")
  }

  /** The filter accepts exactly the names whose last four characters spell `.png` in any case. */
  lemma IsPngNameByLastFour(name: string)
    ensures IsPngName(name) <==>
      && |name| >= 4
      && name[|name| - 4] == '.'
      && (name[|name| - 3] == 'p' || name[|name| - 3] == 'P')
      && (name[|name| - 2] == 'n' || name[|name| - 2] == 'N')
      && (name[|name| - 1] == 'g' || name[|name| - 1] == 'G')
  {
    var n := |name|;
    if n >= 4 {
      var tail := Lower(name)[n - 4..];
      assert tail == [LowerChar(name[n - 4]), LowerChar(name[n - 3]), LowerChar(name[n - 2]), LowerChar(name[n - 1])];
    }
  }

  /** The list comprehension over the folder listing: the `.png` names, in listing order. */
  function PngNames(listing: seq<string>): (names: seq<string>)
    ensures forall n :: multiset(names)[n] == if IsPngName(n) then multiset(listing)[n] else 0
    ensures forall n :: n in names <==> n in listing && IsPngName(n)
  {
    if listing == [] then []
    else
      assert listing == [listing[0]] + listing[1..];
      if IsPngName(listing[0]) then [listing[0]] + PngNames(listing[1..])
      else PngNames(listing[1..])
  }

  // ---------------------------------------------------------------------
  // Python's string order (code point by code point)
  // ---------------------------------------------------------------------

  /** `not (b < a)` for Python strings: lexicographic order on code points. */
  predicate LessEq(a: string, b: string) {
    |a| == 0 || (|b| > 0 && (a[0] < b[0] || (a[0] == b[0] && LessEq(a[1..], b[1..]))))
  }

  lemma {:induction false} LessEqReflexive(a: string)
    ensures LessEq(a, a)
  {
    if |a| > 0 { LessEqReflexive(a[1..]); }
  }

  lemma {:induction false} LessEqTotal(a: string, b: string)
    ensures LessEq(a, b) || LessEq(b, a)
  {
    if |a| > 0 && |b| > 0 && a[0] == b[0] { LessEqTotal(a[1..], b[1..]); }
  }

  lemma {:induction false} LessEqAntisymmetric(a: string, b: string)
    requires LessEq(a, b) && LessEq(b, a)
    ensures a == b
  {
    if |a| > 0 && |b| > 0 {
      LessEqAntisymmetric(a[1..], b[1..]);
      assert a == [a[0]] + a[1..] && b == [b[0]] + b[1..];
    }
  }

  lemma {:induction false} LessEqTransitive(a: string, b: string, c: string)
    requires LessEq(a, b) && LessEq(b, c)
    ensures LessEq(a, c)
  {
    if |a| > 0 && |b| > 0 && |c| > 0 && a[0] == b[0] && b[0] == c[0] {
      LessEqTransitive(a[1..], b[1..], c[1..]);
    }
  }

  ghost predicate Sorted(s: seq<string>) {
    forall i, j :: 0 <= i < j < |s| ==> LessEq(s[i], s[j])
  }

  /** Neighbours in order is enough for the whole sequence to be in order. */
  lemma {:induction false} ChainedIsSorted(s: seq<string>)
    requires forall k :: 0 < k < |s| ==> LessEq(s[k - 1], s[k])
    ensures Sorted(s)
  {
    forall i, j | 0 <= i < j < |s| ensures LessEq(s[i], s[j]) {
      ChainedPair(s, i, j);
    }
  }

  lemma {:induction false} ChainedPair(s: seq<string>, i: nat, j: nat)
    requires forall k :: 0 < k < |s| ==> LessEq(s[k - 1], s[k])
    requires i < j < |s|
    ensures LessEq(s[i], s[j])
  {
    if i + 1 < j {
      ChainedPair(s, i, j - 1);
      LessEqTransitive(s[i], s[j - 1], s[j]);
    }
  }

  /** Two sorted arrangements of the same names are the same sequence. */
  lemma {:induction false} SortedUnique(a: seq<string>, b: seq<string>)
    requires Sorted(a) && Sorted(b) && multiset(a) == multiset(b)
    ensures a == b
  {
    if |a| == 0 {
      assert |multiset(b)| == 0;
    } else {
      assert |b| == |multiset(b)| == |multiset(a)| == |a|;
      SortedSameHead(a, b);
      SameTail(a, b);
      SortedUnique(a[1..], b[1..]);
      assert a == [a[0]] + a[1..] && b == [b[0]] + b[1..];
    }
  }

  lemma SortedSameHead(a: seq<string>, b: seq<string>)
    requires Sorted(a) && Sorted(b) && multiset(a) == multiset(b) && |a| > 0 && |b| > 0
    ensures a[0] == b[0]
  {
    assert a[0] in multiset(b) && b[0] in multiset(a);
    var k :| 0 <= k < |b| && b[k] == a[0];
    var m :| 0 <= m < |a| && a[m] == b[0];
    if m > 0 { assert LessEq(a[0], b[0]); } else { LessEqReflexive(a[0]); }
    if k > 0 { assert LessEq(b[0], a[0]); } else { LessEqReflexive(b[0]); }
    LessEqAntisymmetric(a[0], b[0]);
  }

  lemma SameTail(a: seq<string>, b: seq<string>)
    requires multiset(a) == multiset(b) && |a| > 0 && |b| > 0 && a[0] == b[0]
    ensures multiset(a[1..]) == multiset(b[1..])
  {
    assert a == [a[0]] + a[1..] && b == [b[0]] + b[1..];
    assert multiset(a[1..]) == multiset(a) - multiset{a[0]};
    assert multiset(b[1..]) == multiset(b) - multiset{b[0]};
  }

  // ---------------------------------------------------------------------
  // `image_files.sort()`
  // ---------------------------------------------------------------------

  /** Sorts the names in place (insertion sort by adjacent swaps). */
  method SortNames(a: array<string>)
    modifies a
    ensures Sorted(a[..])
    ensures multiset(a[..]) == multiset(old(a[..]))
  {
    for i := 0 to a.Length
      invariant forall k :: 0 < k < i ==> LessEq(a[k - 1], a[k])
      invariant multiset(a[..]) == multiset(old(a[..]))
    {
      InsertIntoPrefix(a, i);
    }
    ChainedIsSorted(a[..]);
  }

  /** Moves `a[i]` down into the ordered prefix `a[..i]`, leaving `a[..i + 1]` ordered. */
  method InsertIntoPrefix(a: array<string>, i: nat)
    requires i < a.Length
    requires forall k :: 0 < k < i ==> LessEq(a[k - 1], a[k])
    modifies a
    ensures forall k :: 0 < k <= i ==> LessEq(a[k - 1], a[k])
    ensures a[i + 1..] == old(a[i + 1..])
    ensures multiset(a[..]) == multiset(old(a[..]))
  {
    var j := i;
    while j > 0 && !LessEq(a[j - 1], a[j])
      invariant 0 <= j <= i
      invariant forall k :: 0 < k < j ==> LessEq(a[k - 1], a[k])
      invariant forall k :: j < k <= i ==> LessEq(a[k - 1], a[k])
      invariant 0 < j < i ==> LessEq(a[j - 1], a[j + 1])
      invariant a[i + 1..] == old(a[i + 1..])
      invariant multiset(a[..]) == multiset(old(a[..]))
    {
      LessEqTotal(a[j - 1], a[j]);
      SwapAdjacent(a, j);
      j := j - 1;
    }
  }

  /** Exchanges `a[j - 1]` and `a[j]`. */
  method SwapAdjacent(a: array<string>, j: nat)
    requires 0 < j < a.Length
    modifies a
    ensures a[j - 1] == old(a[j]) && a[j] == old(a[j - 1])
    ensures forall k :: 0 <= k < a.Length && k != j - 1 && k != j ==> a[k] == old(a[k])
    ensures multiset(a[..]) == multiset(old(a[..]))
  {
    a[j - 1], a[j] := a[j], a[j - 1];
  }

  // ---------------------------------------------------------------------
  // Selection and its validation
  // ---------------------------------------------------------------------

  /** `files` is the listing's `.png` names, each as often as listed, in ascending order. */
  ghost predicate IsSelection(listing: seq<string>, files: seq<string>) {
    Sorted(files) && multiset(files) == multiset(PngNames(listing))
  }

  /** Filters, sorts and validates the listing; fewer than two names is an error. */
  method SelectImages(listing: seq<string>) returns (r: Result<seq<string>, MergeError>)
    ensures r.Failure? <==> |PngNames(listing)| < 2
    ensures r.Failure? ==> r.error == TooFewImages
    ensures r.Success? ==> IsSelection(listing, r.value)
  {
    var names := PngNames(listing);
    var files := new string[|names|](i requires 0 <= i < |names| => names[i]);
    assert files[..] == names;
    SortNames(files);
    if files.Length < 2 {
      return Failure(TooFewImages);
    }
    return Success(files[..]);
  }

  /** A selection holds the `.png` names of the listing and nothing else. */
  lemma SelectionExact(listing: seq<string>, files: seq<string>)
    requires IsSelection(listing, files)
    ensures forall n :: n in files <==> n in listing && IsPngName(n)
    ensures |files| == |PngNames(listing)|
  {
  }

  /** A listing has exactly one selection: `sort()` leaves no freedom in the stacking order. */
  lemma SelectionUnique(listing: seq<string>, files: seq<string>)
    requires IsSelection(listing, files)
    ensures forall other :: IsSelection(listing, other) ==> other == files
  {
    forall other | IsSelection(listing, other)
      ensures other == files
    {
      SortedUnique(other, files);
    }
  }

  /** The stacking order depends only on which names are listed, never on listing order. */
  lemma SelectionDeterministic(listing1: seq<string>, listing2: seq<string>, files1: seq<string>, files2: seq<string>)
    requires multiset(listing1) == multiset(listing2)
    requires IsSelection(listing1, files1) && IsSelection(listing2, files2)
    ensures files1 == files2
  {
    assert multiset(PngNames(listing1)) == multiset(PngNames(listing2)) by {
      forall n ensures multiset(PngNames(listing1))[n] == multiset(PngNames(listing2))[n] {
      }
    }
    SortedUnique(files1, files2);
  }
}
