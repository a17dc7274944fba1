# Paper-format matcher

A Dafny model of `demo/PageFormat.py`: the table `Size` of 44 known paper
formats (ISO 216 A and B series, ISO 269 C series, and North American and
other formats, in points at 72 dpi) and `FindFit(w, h)`, which names the
format closest to a page of width `w` and height `h`.

`FindFit` rounds both sides to integers, orders them so the first is the
shorter, scores every format by the sum of the differences of the sides,
takes the first format with the least score, and adds `-P` for an input
whose width does not exceed its height and `-L` otherwise. When the least
score is below 2 the result is that label alone; otherwise it is
`"<w1> x <h1> (other), closest: <label> = <W> x <H>"`, where the format's
sides are listed in the order of the input's orientation.

The model follows Python 3.7 or later, where `round` sends ties to the even
neighbour and a dictionary keeps the order in which its entries were
written, so `Size.keys()` and `Size.values()` list the table in source
order and ties go to the earlier entry.

The orientation is decided on the sides as given, while the swap is applied
to the rounded sides; since rounding preserves order, the ordered pair still
has its shorter side first (a 595.4 x 595.2 page has equal rounded sides and
is reported in landscape).

Modules:

- `Rounding` (rounding.dfy): `int(round(x, 0))` on the exact value of the
  argument, ties to even, with its characterisation, uniqueness and
  monotonicity.
- `Decimal` (decimal.dfy): `str(n)` for integers, with a parser and the
  round trip between them.
- `PaperSizes` (paper_sizes.dfy): the table, in source order, kept as its
  four groups concatenated; the facts that every entry is in portrait form
  and that names and heights are unique; the look-up by name (`Size[f]`).
- `PageFormat` (page_format.dfy): the search (`Classify`), the text it
  yields (`Render`, `FindFit`) and the lemmas about them.
- `PageFormatCases` (examples_fit.dfy): worked cases.

## Model

| member | source | states |
|---|---|---|
| `PaperSizes.TablePortrait` | demo/PageFormat.py:8-53 | the table has 44 entries and each has positive sides with width strictly below height |
| `PaperSizes.NamesDistinct` | demo/PageFormat.py:8-53 | no two entries share a name, as the keys of a dictionary |
| `PaperSizes.HeightsDistinct` | demo/PageFormat.py:8-53 | no two entries share a height, so no two share their dimensions |
| `PaperSizes.IndexNamed` | demo/PageFormat.py:78-81 | looking up a name that is in the table yields a position holding that name, with no earlier position holding it |
| `PaperSizes.LookupByName` | demo/PageFormat.py:74-81 | looking up the name found at position `k` gives back position `k`, so `Size[f]` is the entry the search chose |
| `Rounding.RoundHalfEven` | demo/PageFormat.py:58-59 | the result is within one half of the argument, and even when the argument is exactly half-way |
| `Rounding.RoundUnique` | demo/PageFormat.py:58-59 | any integer that is nearest to the argument and even on a tie is the rounded value |
| `Rounding.RoundMonotone` | demo/PageFormat.py:58-65 | `x <= y` implies the rounded `x` does not exceed the rounded `y` |
| `Rounding.RoundWhole` | demo/PageFormat.py:58-59 | a whole number is left unchanged |
| `Decimal.NatToString` | demo/PageFormat.py:67-68 | the text of a natural number is non-empty, all digits, and starts with `0` exactly for zero |
| `Decimal.IntToString` | demo/PageFormat.py:67-68 | the text of an integer is non-empty and starts with `-` exactly for negative numbers |
| `Decimal.NatRoundTrip` | demo/PageFormat.py:67-68 | reading back the digits of a natural number gives the number |
| `Decimal.IntRoundTrip` | demo/PageFormat.py:67-68 | reading back the text of an integer gives the integer |
| `Decimal.IntToStringInjective` | demo/PageFormat.py:67-68 | different integers have different texts |
| `PageFormat.Normalise` | demo/PageFormat.py:58-65 | the normalised sides are the two rounded sides in ascending order |
| `PageFormat.Deviation` | demo/PageFormat.py:71 | the deviation of a format from the page is the sum of the absolute differences of the sides, and it is zero exactly when both sides match |
| `PageFormat.MinOf` | demo/PageFormat.py:72 | the result occurs in the sequence and no element is smaller |
| `PageFormat.FirstIndex` | demo/PageFormat.py:73 | the result is a position holding the value, and no earlier position holds it |
| `PageFormat.Closest` | demo/PageFormat.py:71-74 | builds the list of deviations in table order inline; the chosen position has the least deviation from the ordered sides, and every earlier position has a strictly larger one |
| `PageFormat.Classify` | demo/PageFormat.py:58-81 | the chosen format has the least deviation from the sorted rounded sides, every earlier format has a strictly larger one, and the orientation is portrait exactly when `w <= h` |
| `PageFormat.Suffix` | demo/PageFormat.py:76-81 | no contract of its own: `-P` for portrait and `-L` for landscape; ExactText and ClosestText state the suffix in terms of `w <= h` |
| `PageFormat.Label` | demo/PageFormat.py:74-80 | no contract of its own: the chosen name followed by the suffix (`ff`); its meaning is stated by ExactText and ClosestText |
| `PageFormat.OrientedDims` | demo/PageFormat.py:76-81 | no contract of its own: a format's sides, width first for portrait and height first for landscape (`ss`); its meaning is stated by RenderClosest and ClosestText |
| `PageFormat.DimsText` | demo/PageFormat.py:78-81 | no contract of its own: the sides of the entry found by name with `Size[f]`; RenderClosest states that this is the entry at the chosen position |
| `PageFormat.Render` | demo/PageFormat.py:76-87 | no contract of its own: the bare label below a deviation of 2, else the long text; its contract is ExactIffClose, ExactText and ClosestText together |
| `PageFormat.FindFit` | demo/PageFormat.py:56-87 | no contract of its own: `Render` applied to `Classify`; its contract is Classify's ensures together with ExactIffClose, ExactText, ClosestText, SwapSymmetry and TableEntryFits |
| `PageFormat.FirstMinimumUnique` | demo/PageFormat.py:71-74 | a position that reaches the least deviation ahead of every other such position is the one chosen |
| `PageFormat.SwapSymmetry` | demo/PageFormat.py:60-74 | swapping width and height leaves the sorted sides, the chosen format and its deviation unchanged, and flips the orientation unless the sides are equal |
| `PageFormat.ExactIffClose` | demo/PageFormat.py:83-87 | the bare label is returned exactly when the least deviation is below 2 |
| `PageFormat.ExactText` | demo/PageFormat.py:76-84 | below the allowance the text is the chosen name followed by `-P` when `w <= h` and `-L` otherwise |
| `PageFormat.TableEntryFits` | demo/PageFormat.py:8-84 | a page with the exact sides of an entry yields that entry's name with `-P`, and with the sides swapped yields it with `-L` |
| `PageFormat.RenderClosest` | demo/PageFormat.py:78-87 | the long text lists the entry at the chosen position, the same entry the look-up by its name finds |
| `PageFormat.ClosestText` | demo/PageFormat.py:67-87 | otherwise the text gives the sorted rounded sides, the label, and the chosen entry's sides in the input's orientation |
| `PageFormatCases.HalfwayRoundsToA4` | demo/PageFormat.py:58-84 | 595.5 x 841.5 rounds to 596 x 842 and is reported as `A4-P` |
| `PageFormatCases.LandscapeA4` | demo/PageFormat.py:58-84 | 842.4 x 595.2 is reported as `A4-L` |
| `PageFormatCases.TieChoosesB9` | demo/PageFormat.py:71-74 | for 112 x 175, B9 and C9 are both 14 away and the earlier B9 is chosen |
| `PageFormatCases.TieGoesToEarlierFormat` | demo/PageFormat.py:71-87 | 112 x 175 is reported as `112 x 175 (other), closest: B9-P = 125 x 176` |
| `PageFormatCases.TieLandscape` | demo/PageFormat.py:60-87 | 175 x 112 is reported as `112 x 175 (other), closest: B9-L = 176 x 125` |

## Left out

- Floating point: page sides are real numbers, the exact value of the float
  or integer passed in. NaN and infinities, for which `int(round(...))`
  raises an error in the source, are not modelled.
- `%`-formatting is modelled as concatenation of the pieces it inserts.
- Python's `abs`, `min`, `list.index` and the subscript `Size[f]` are
  modelled by `Deviation`, `MinOf`, `FirstIndex` and `IndexNamed`; `min`
  and `index` raise errors on an empty list or a missing value, and
  `Size[f]` raises `KeyError` for a name not in the table. Their requires
  clauses exclude these errors, which cannot happen here: the table is not
  empty, the minimum is taken from the list it is searched in, and `f` is
  a name taken from the table.
- The rest of the repository (notebooks on annotations, OCR, journalling,
  text extraction and the geometry of points, rectangles, quads and
  matrices) calls into an external PDF library whose code is not part of
  this model.
