/** `FindFit(w, h)` of demo/PageFormat.py: the paper format closest to a page
    of width `w` and height `h`, by the sum of the differences of the sides.
    The computation is split into `Classify`, which yields the structured
    outcome, and `Render`, which turns it into the text the source returns.
    Page sides are real numbers: the exact value of the float or integer
    passed in. */
module PageFormat {
  import opened Rounding
  import opened Decimal
  import opened PaperSizes

  datatype Orientation = Portrait | Landscape

  /** The structured outcome of a search: the rounded page sides with the
      shorter first, the position of the chosen format in the table, whether
      the input was upright, and how far the chosen format is from the page. */
  datatype Fit = Fit(w1: int, h1: int, index: nat, orientation: Orientation, deviation: nat)

  /** Both sides rounded, then put in ascending order: the rounded pair is
      swapped when the width exceeds the height. */
  function Normalise(w: real, h: real): (d: (int, int))
    ensures d.0 <= d.1
    ensures multiset{d.0, d.1} == multiset{RoundHalfEven(w), RoundHalfEven(h)}
  {
    var wi, hi := RoundHalfEven(w), RoundHalfEven(h);
    if w <= h then
      RoundMonotone(w, h);
      (wi, hi)
    else
      RoundMonotone(h, w);
      (hi, wi)
  }

  /** How far a format is from a page whose sides are `w1` and `h1`. */
  function Deviation(w1: int, h1: int, f: Format): (d: nat)
    ensures d == 0 <==> w1 == f.width && h1 == f.height
  {
    (if w1 >= f.width then w1 - f.width else f.width - w1)
      + (if h1 >= f.height then h1 - f.height else f.height - h1)
  }

  /** The least element of a non-empty sequence, as Python's `min`. */
  function MinOf(s: seq<int>): (m: int)
    requires |s| > 0
    ensures exists i :: 0 <= i < |s| && s[i] == m
    ensures forall i :: 0 <= i < |s| ==> m <= s[i]
  {
    if |s| == 1 then s[0]
    else
      var rest := MinOf(s[1..]);
      assert forall i :: 1 <= i < |s| ==> s[i] == s[1..][i - 1];
      if s[0] <= rest then s[0] else rest
  }

  /** The position of the first occurrence of `x`, as Python's `list.index`;
      a value that does not occur is an error, which the requires clause
      rules out. */
  function FirstIndex(s: seq<int>, x: int): (i: nat)
    requires exists k :: 0 <= k < |s| && s[k] == x
    ensures i < |s| && s[i] == x
    ensures forall j :: 0 <= j < i ==> s[j] != x
  {
    if s[0] == x then 0
    else
      assert exists k :: 0 <= k < |s[1..]| && s[1..][k] == x by {
        var k :| 0 <= k < |s| && s[k] == x;
        assert k > 0 && s[1..][k - 1] == x;
      }
      1 + FirstIndex(s[1..], x)
  }

  /** Lines 71-74: score every format against the ordered sides and take
      the first of the closest; yields its position and its deviation. */
  function Closest(w1: int, h1: int): (r: (nat, nat))
    ensures r.0 < |Size|
    ensures r.1 == Deviation(w1, h1, Size[r.0])
    ensures forall j :: 0 <= j < |Size| ==> r.1 <= Deviation(w1, h1, Size[j])
    ensures forall j :: 0 <= j < r.0 ==> r.1 < Deviation(w1, h1, Size[j])
  {
    // the list of deviations, in table order (line 71)
    var stab: seq<nat> := seq(|Size|, i requires 0 <= i < |Size| => Deviation(w1, h1, Size[i]));
    assert forall i :: 0 <= i < |Size| ==> stab[i] == Deviation(w1, h1, Size[i]);
    TablePortrait();
    var small := MinOf(stab);
    var idx := FirstIndex(stab, small);
    (idx, small)
  }

  /** The search itself: round and order the sides, find the closest format,
      and note the orientation of the input. */
  function Classify(w: real, h: real): (fit: Fit)
    ensures fit.index < |Size|
    ensures fit.w1 <= fit.h1
    ensures multiset{fit.w1, fit.h1} == multiset{RoundHalfEven(w), RoundHalfEven(h)}
    ensures fit.deviation == Deviation(fit.w1, fit.h1, Size[fit.index])
    ensures forall j :: 0 <= j < |Size| ==> fit.deviation <= Deviation(fit.w1, fit.h1, Size[j])
    ensures forall j :: 0 <= j < fit.index ==> fit.deviation < Deviation(fit.w1, fit.h1, Size[j])
    ensures fit.orientation == Portrait <==> w <= h
  {
    var (w1, h1) := Normalise(w, h);
    var (idx, small) := Closest(w1, h1);
    Fit(w1, h1, idx, if w <= h then Portrait else Landscape, small)
  }

  function Suffix(o: Orientation): string
  {
    match o
    case Portrait => "-P"
    case Landscape => "-L"
  }

  /** The name of the chosen format with its orientation suffix. */
  function Label(fit: Fit): string
    requires fit.index < |Size|
  {
    Size[fit.index].name + Suffix(fit.orientation)
  }

  /** The sides of a format in the order of an orientation. */
  function OrientedDims(o: Orientation, f: Format): string
  {
    if o == Portrait then IntToString(f.width) + " x " + IntToString(f.height)
    else IntToString(f.height) + " x " + IntToString(f.width)
  }

  /** The sides of the chosen format, looked up by its name, in the order of
      the input's orientation. */
  function DimsText(fit: Fit): string
    requires fit.index < |Size|
  {
    var f := Size[fit.index].name;
    OrientedDims(fit.orientation, Size[IndexNamed(Size, f)])
  }

  /** The text returned: the label alone for a near-exact fit, otherwise a
      description of the page and of its closest format. */
  function Render(fit: Fit): string
    requires fit.index < |Size|
  {
    if fit.deviation < 2 then Label(fit)
    else
      IntToString(fit.w1) + " x " + IntToString(fit.h1) + " (other), closest: "
        + Label(fit) + " = " + DimsText(fit)
  }

  function FindFit(w: real, h: real): string
  {
    Render(Classify(w, h))
  }

  /** The chosen position is the only one that is both a minimum and ahead
      of every other minimum: whatever position has these two properties is
      the one the search returns. */
  lemma FirstMinimumUnique(w: real, h: real, k: int)
    requires 0 <= k < |Size|
    requires var (w1, h1) := Normalise(w, h);
      (forall j :: 0 <= j < |Size| ==> Deviation(w1, h1, Size[k]) <= Deviation(w1, h1, Size[j]))
      && (forall j :: 0 <= j < k ==> Deviation(w1, h1, Size[k]) < Deviation(w1, h1, Size[j]))
    ensures Classify(w, h).index == k
  {
    var fit := Classify(w, h);
    assert (fit.w1, fit.h1) == Normalise(w, h);
  }

  /** Swapping the sides of the page changes only the orientation: the page
      is measured and matched the same way, and the orientation flips unless
      the sides are equal. */
  lemma SwapSymmetry(w: real, h: real)
    ensures var a, b := Classify(w, h), Classify(h, w);
      a.w1 == b.w1 && a.h1 == b.h1 && a.index == b.index && a.deviation == b.deviation
      && (w == h <==> a.orientation == b.orientation)
  {
    var n := Normalise(w, h);
    assert n == Normalise(h, w) by {
      if w == h {
      } else if w < h {
        assert n == (RoundHalfEven(w), RoundHalfEven(h));
      } else {
        assert n == (RoundHalfEven(h), RoundHalfEven(w));
      }
    }
    var c := Closest(n.0, n.1);
    assert Classify(w, h) == Fit(n.0, n.1, c.0, if w <= h then Portrait else Landscape, c.1);
    assert Classify(h, w) == Fit(n.0, n.1, c.0, if h <= w then Portrait else Landscape, c.1);
  }

  /** The bare label is returned exactly when the chosen format lies within a
      deviation of 2 of the page. */
  lemma ExactIffClose(w: real, h: real)
    ensures var fit := Classify(w, h);
      FindFit(w, h) == Label(fit) <==> fit.deviation < 2
  {
    var fit := Classify(w, h);
    if fit.deviation >= 2 {
      assert |FindFit(w, h)| > |Label(fit)|;
    }
  }

  /** Within the allowance, the text is the chosen format's name followed by
      `-P` for an upright input and `-L` otherwise. */
  lemma ExactText(w: real, h: real)
    ensures Classify(w, h).deviation < 2 ==>
      FindFit(w, h) == Size[Classify(w, h).index].name + (if w <= h then "-P" else "-L")
  {
  }

  /** A page with exactly the sides of a table entry, in either order, is
      recognised as that format, with the suffix giving its orientation. */
  lemma TableEntryFits(k: int)
    requires 0 <= k < |Size|
    ensures FindFit(Size[k].width as real, Size[k].height as real) == Size[k].name + "-P"
    ensures FindFit(Size[k].height as real, Size[k].width as real) == Size[k].name + "-L"
  {
    var W, H := Size[k].width, Size[k].height;
    TablePortrait();
    HeightsDistinct();
    RoundWhole(W);
    RoundWhole(H);
    var p := Classify(W as real, H as real);
    assert Deviation(W, H, Size[k]) == 0;
    assert p.index == k;
    var l := Classify(H as real, W as real);
    assert l.index == k;
  }

  /** The long form of the text, with the looked-up entry replaced by the
      entry at the chosen position. */
  lemma RenderClosest(fit: Fit)
    requires fit.index < |Size| && fit.deviation >= 2
    ensures Render(fit) ==
      IntToString(fit.w1) + " x " + IntToString(fit.h1) + " (other), closest: "
      + Size[fit.index].name + Suffix(fit.orientation) + " = "
      + OrientedDims(fit.orientation, Size[fit.index])
  {
    LookupByName(fit.index);
  }

  /** Away from every format, the text names the sorted, rounded page sides,
      then the chosen format with its suffix and its own sides in the order
      of the input's orientation. */
  lemma ClosestText(w: real, h: real)
    ensures var fit := Classify(w, h);
      var f := Size[fit.index];
      fit.deviation >= 2 ==>
      FindFit(w, h) ==
        IntToString(fit.w1) + " x " + IntToString(fit.h1) + " (other), closest: "
        + f.name + (if w <= h then "-P" else "-L") + " = "
        + (if w <= h then IntToString(f.width) + " x " + IntToString(f.height)
           else IntToString(f.height) + " x " + IntToString(f.width))
  {
    var fit := Classify(w, h);
    if fit.deviation >= 2 {
      RenderClosest(fit);
    }
  }
}
