/** The table of known paper formats, in points at 72 dpi, in the order in
    which the source's dictionary lists them (demo/PageFormat.py, lines 8-53).
    It is split into its four groups only so that facts about it can be
    proved group by group; `Size` is their concatenation. */
module PaperSizes {

  /** One entry of the table: a format's name with its width and height. */
  datatype Format = Format(name: string, width: int, height: int)

  /** ISO 216 A series. */
  const IsoA: seq<Format> := [
    Format("A0", 2384, 3370), Format("A1", 1684, 2384), Format("A2", 1191, 1684),
    Format("A3", 842, 1191), Format("A4", 595, 842), Format("A5", 420, 595),
    Format("A6", 298, 420), Format("A7", 210, 298), Format("A8", 147, 210),
    Format("A9", 105, 147), Format("A10", 74, 105)
  ]

  /** ISO 216 B series. */
  const IsoB: seq<Format> := [
    Format("B0", 2835, 4008), Format("B1", 2004, 2835), Format("B2", 1417, 2004),
    Format("B3", 1001, 1417), Format("B4", 709, 1001), Format("B5", 499, 709),
    Format("B6", 354, 499), Format("B7", 249, 354), Format("B8", 176, 249),
    Format("B9", 125, 176), Format("B10", 88, 125)
  ]

  /** ISO 269 C series (envelopes). */
  const IsoC: seq<Format> := [
    Format("C0", 2599, 3677), Format("C1", 1837, 2599), Format("C2", 1298, 1837),
    Format("C3", 918, 1298), Format("C4", 649, 918), Format("C5", 459, 649),
    Format("C6", 323, 459), Format("C7", 230, 323), Format("C8", 162, 230),
    Format("C9", 113, 162), Format("C10", 79, 113)
  ]

  /** North American and other formats. */
  const Other: seq<Format> := [
    Format("Tabloid Extra", 864, 1296), Format("Legal-13", 612, 936),
    Format("Commercial", 297, 684), Format("Monarch", 279, 540),
    Format("Card-5x7", 360, 504), Format("Card-4x6", 288, 432),
    Format("Invoice", 396, 612), Format("Executive", 522, 756),
    Format("Letter", 612, 792), Format("Legal", 612, 1008),
    Format("Ledger", 792, 1224)
  ]

  const Size: seq<Format> := IsoA + IsoB + IsoC + Other

  /** A format given in portrait form: positive sides, the width the shorter. */
  predicate PortraitForm(f: Format) { 0 < f.width < f.height }

  /** An entry of the table, found by position in one of the four groups. */
  lemma SizeAt(i: int)
    requires 0 <= i < |Size|
    ensures |Size| == 44
    ensures i < 11 ==> Size[i] == IsoA[i]
    ensures 11 <= i < 22 ==> Size[i] == IsoB[i - 11]
    ensures 22 <= i < 33 ==> Size[i] == IsoC[i - 22]
    ensures 33 <= i ==> Size[i] == Other[i - 33]
  {
  }

  // The lemmas below state facts about one or two groups at a time, which
  // the verifier checks entry by entry; the facts about `Size` combine them.

  lemma GroupsPortrait()
    ensures forall i :: 0 <= i < 11 ==> PortraitForm(IsoA[i]) && PortraitForm(IsoB[i])
    ensures forall i :: 0 <= i < 11 ==> PortraitForm(IsoC[i]) && PortraitForm(Other[i])
  {
  }

  /** The table has 44 entries, each in portrait form with positive sides
      (no format is square). */
  lemma TablePortrait()
    ensures |Size| == 44
    ensures forall i :: 0 <= i < |Size| ==> PortraitForm(Size[i])
  {
    GroupsPortrait();
    forall i | 0 <= i < |Size| ensures PortraitForm(Size[i]) {
      SizeAt(i);
    }
  }

  /** A short name of one of the ISO series, and its series letter. */
  predicate SeriesName(name: string, letter: char) {
    2 <= |name| <= 3 && name[0] == letter
  }

  lemma GroupNameShapes()
    ensures forall i :: 0 <= i < 11 ==> SeriesName(IsoA[i].name, 'A')
    ensures forall i :: 0 <= i < 11 ==> SeriesName(IsoB[i].name, 'B')
    ensures forall i :: 0 <= i < 11 ==> SeriesName(IsoC[i].name, 'C')
    ensures forall i :: 0 <= i < 11 ==> |Other[i].name| >= 5
  {
  }

  lemma NamesOfA()
    ensures forall i, j :: 0 <= i < j < 11 ==> IsoA[i].name != IsoA[j].name
  {
  }

  lemma NamesOfB()
    ensures forall i, j :: 0 <= i < j < 11 ==> IsoB[i].name != IsoB[j].name
  {
  }

  lemma NamesOfC()
    ensures forall i, j :: 0 <= i < j < 11 ==> IsoC[i].name != IsoC[j].name
  {
  }

  lemma NamesOfOther()
    ensures forall i, j :: 0 <= i < j < 11 ==> Other[i].name != Other[j].name
  {
  }

  /** No name occurs twice, as befits the keys of a dictionary. */
  lemma NamesDistinct()
    ensures forall i, j :: 0 <= i < |Size| && 0 <= j < |Size| && i != j ==> Size[i].name != Size[j].name
  {
    GroupNameShapes();
    NamesOfA();
    NamesOfB();
    NamesOfC();
    NamesOfOther();
    forall i, j | 0 <= i < |Size| && 0 <= j < |Size| && i != j
      ensures Size[i].name != Size[j].name
    {
      SizeAt(i);
      SizeAt(j);
    }
  }

  lemma GroupHeights()
    ensures forall i, j :: 0 <= i < j < 11 ==> IsoA[i].height != IsoA[j].height
    ensures forall i, j :: 0 <= i < j < 11 ==> IsoB[i].height != IsoB[j].height
    ensures forall i, j :: 0 <= i < j < 11 ==> IsoC[i].height != IsoC[j].height
    ensures forall i, j :: 0 <= i < j < 11 ==> Other[i].height != Other[j].height
  {
  }

  lemma CrossHeightsOfA()
    ensures forall i, j :: 0 <= i < 11 && 0 <= j < 11 ==> IsoA[i].height != IsoB[j].height
    ensures forall i, j :: 0 <= i < 11 && 0 <= j < 11 ==> IsoA[i].height != IsoC[j].height
    ensures forall i, j :: 0 <= i < 11 && 0 <= j < 11 ==> IsoA[i].height != Other[j].height
  {
  }

  lemma CrossHeightsOfBC()
    ensures forall i, j :: 0 <= i < 11 && 0 <= j < 11 ==> IsoB[i].height != IsoC[j].height
    ensures forall i, j :: 0 <= i < 11 && 0 <= j < 11 ==> IsoB[i].height != Other[j].height
    ensures forall i, j :: 0 <= i < 11 && 0 <= j < 11 ==> IsoC[i].height != Other[j].height
  {
  }

  /** No two formats have the same height, hence none the same dimensions. */
  lemma HeightsDistinct()
    ensures forall i, j :: 0 <= i < |Size| && 0 <= j < |Size| && i != j ==> Size[i].height != Size[j].height
  {
    GroupHeights();
    CrossHeightsOfA();
    CrossHeightsOfBC();
    forall i, j | 0 <= i < |Size| && 0 <= j < |Size| && i != j
      ensures Size[i].height != Size[j].height
    {
      SizeAt(i);
      SizeAt(j);
    }
  }

  /** Looking a format up by name, as the dictionary subscript `Size[f]` does
      (line 78 and line 81): the position of the first entry with that name.
      A name that is not in the table is a key error, which the requires
      clause rules out. */
  function IndexNamed(t: seq<Format>, name: string): (i: nat)
    requires exists k :: 0 <= k < |t| && t[k].name == name
    ensures i < |t| && t[i].name == name
    ensures forall j :: 0 <= j < i ==> t[j].name != name
  {
    if t[0].name == name then 0
    else
      assert exists k :: 0 <= k < |t[1..]| && t[1..][k].name == name by {
        var k :| 0 <= k < |t| && t[k].name == name;
        assert k > 0 && t[1..][k - 1].name == name;
      }
      1 + IndexNamed(t[1..], name)
  }

  /** Since names are unique, looking up the name of the entry at position
      `k` gives back position `k`. */
  lemma LookupByName(k: int)
    requires 0 <= k < |Size|
    ensures IndexNamed(Size, Size[k].name) == k
  {
    NamesDistinct();
  }
}
