/** Worked cases of `FindFit`, one per behaviour of the search. For each, a
    lemma bounds the deviation of every format from the page, group by
    group, which pins down the position the search chooses. */
module PageFormatCases {
  import opened Rounding
  import opened Decimal
  import opened PaperSizes
  import opened PageFormat

  /** The decimal text of the numbers that appear in the cases below; a
      helper that spares the solver this work inside the larger proofs. */
  lemma Numerals()
    ensures IntToString(112) == "112" && IntToString(175) == "175"
    ensures IntToString(125) == "125" && IntToString(176) == "176"
  {
  }

  // The three lemmas below are string-literal identities only: they assemble
  // the texts of the cases from their parts in small steps, which the solver
  // finds costly to do inside the larger proofs.

  /** The texts of the cases below, assembled from their parts. */
  lemma SpelledPortrait()
    ensures "112" + " x " + "175" + " (other), closest: " + "B9" + "-P" + " = " + ("125" + " x " + "176")
      == "112 x 175 (other), closest: B9-P = 125 x 176"
  {
    Spelled("-P", "125", "176");
    assert "112 x 175 (other), closest: B9" + "-P" + " = " + "125 x 176"
      == "112 x 175 (other), closest: B9-P = 125 x 176";
  }

  lemma SpelledLandscape()
    ensures "112" + " x " + "175" + " (other), closest: " + "B9" + "-L" + " = " + ("176" + " x " + "125")
      == "112 x 175 (other), closest: B9-L = 176 x 125"
  {
    Spelled("-L", "176", "125");
    assert "112 x 175 (other), closest: B9" + "-L" + " = " + "176 x 125"
      == "112 x 175 (other), closest: B9-L = 176 x 125";
  }

  lemma Spelled(suffix: string, a: string, b: string)
    ensures "112" + " x " + "175" + " (other), closest: " + "B9" + suffix + " = " + (a + " x " + b)
      == "112 x 175 (other), closest: B9" + suffix + " = " + (a + " x " + b)
  {
    assert "112" + " x " + "175" == "112 x 175";
    assert "112 x 175" + " (other), closest: " + "B9" == "112 x 175 (other), closest: B9";
  }

  lemma NearA4Portrait()
    ensures forall j :: 0 <= j < |Size| && j != 4 ==> Deviation(596, 842, Size[j]) >= 2
  {
    assert forall i :: 0 <= i < 11 && i != 4 ==> Deviation(596, 842, IsoA[i]) >= 2;
    assert forall i :: 0 <= i < 11 ==> Deviation(596, 842, IsoB[i]) >= 2;
    assert forall i :: 0 <= i < 11 ==> Deviation(596, 842, IsoC[i]) >= 2;
    assert forall i :: 0 <= i < 11 ==> Deviation(596, 842, Other[i]) >= 2;
    forall j | 0 <= j < |Size| && j != 4 ensures Deviation(596, 842, Size[j]) >= 2 {
      SizeAt(j);
    }
  }

  /** Sides of .5 round to the even neighbour (596 and 842), which is within
      the allowance of A4. */
  lemma HalfwayRoundsToA4()
    ensures FindFit(595.5, 841.5) == "A4-P"
  {
    assert RoundHalfEven(595.5) == 596 && RoundHalfEven(841.5) == 842;
    SizeAt(4);
    NearA4Portrait();
    FirstMinimumUnique(595.5, 841.5, 4);
  }

  /** The same page turned sideways keeps its format and changes its suffix. */
  lemma LandscapeA4()
    ensures FindFit(842.4, 595.2) == "A4-L"
  {
    assert RoundHalfEven(842.4) == 842 && RoundHalfEven(595.2) == 595;
    SizeAt(4);
    HeightsDistinct();
    FirstMinimumUnique(842.4, 595.2, 4);
  }

  lemma NearB9AndC9()
    ensures forall j :: 0 <= j < |Size| ==> Deviation(112, 175, Size[j]) >= 14
    ensures forall j :: 0 <= j < 20 ==> Deviation(112, 175, Size[j]) > 14
  {
    assert forall i :: 0 <= i < 11 ==> Deviation(112, 175, IsoA[i]) > 14;
    assert forall i :: 0 <= i < 9 ==> Deviation(112, 175, IsoB[i]) > 14;
    assert forall i :: 0 <= i < 11 ==> Deviation(112, 175, IsoB[i]) >= 14;
    assert forall i :: 0 <= i < 11 ==> Deviation(112, 175, IsoC[i]) >= 14;
    assert forall i :: 0 <= i < 11 ==> Deviation(112, 175, Other[i]) >= 14;
    forall j | 0 <= j < |Size|
      ensures Deviation(112, 175, Size[j]) >= 14
      ensures j < 20 ==> Deviation(112, 175, Size[j]) > 14
    {
      SizeAt(j);
    }
  }

  /** B9 and C9 are both 14 away from a 112 x 175 page; B9 comes first in
      the table and is chosen. */
  lemma TieChoosesB9()
    ensures var fit := Classify(112.0, 175.0);
      fit.index == 20 && fit.w1 == 112 && fit.h1 == 175 && fit.deviation == 14
  {
    assert RoundHalfEven(112.0) == 112 && RoundHalfEven(175.0) == 175;
    SizeAt(20);
    SizeAt(31);
    assert Deviation(112, 175, Size[20]) == 14 && Deviation(112, 175, Size[31]) == 14;
    NearB9AndC9();
    FirstMinimumUnique(112.0, 175.0, 20);
  }

  lemma TieGoesToEarlierFormat()
    ensures FindFit(112.0, 175.0) == "112 x 175 (other), closest: B9-P = 125 x 176"
  {
    TieChoosesB9();
    SizeAt(20);
    ClosestText(112.0, 175.0);
    Numerals();
    calc {
      FindFit(112.0, 175.0);
      IntToString(112) + " x " + IntToString(175) + " (other), closest: "
        + "B9" + "-P" + " = " + (IntToString(125) + " x " + IntToString(176));
      "112" + " x " + "175" + " (other), closest: " + "B9" + "-P" + " = " + ("125" + " x " + "176");
      { SpelledPortrait(); }
      "112 x 175 (other), closest: B9-P = 125 x 176";
    }
  }

  /** The same page turned sideways: the same format is chosen, and its
      sides are listed in landscape order. */
  lemma TieLandscape()
    ensures FindFit(175.0, 112.0) == "112 x 175 (other), closest: B9-L = 176 x 125"
  {
    TieChoosesB9();
    SwapSymmetry(112.0, 175.0);
    SizeAt(20);
    ClosestText(175.0, 112.0);
    Numerals();
    calc {
      FindFit(175.0, 112.0);
      IntToString(112) + " x " + IntToString(175) + " (other), closest: "
        + "B9" + "-L" + " = " + (IntToString(176) + " x " + IntToString(125));
      "112" + " x " + "175" + " (other), closest: " + "B9" + "-L" + " = " + ("176" + " x " + "125");
      { SpelledLandscape(); }
      "112 x 175 (other), closest: B9-L = 176 x 125";
    }
  }
}
