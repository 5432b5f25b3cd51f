# Hex map plugin core, modelled in Dafny

A model of the data side of an Obsidian plugin that draws a hex map from a code block. The
block holds `name=value` directives and `river:` lines. The notes of the vault carry cell
coordinates in their frontmatter. The model covers:

- **Integer hex coordinates** (`HexCoords`, hex/Hex.ts): cube cells `(q, r, s)`, conversion
  to and from q-offset `(col, row)` coordinates of either parity, `add`, `subtract`, `length`,
  `distance`, the six directions and neighbours, `round`, `equals` and the `q,r,s` string key.
- **Pixel layout** (`Points`, `Orientations`, `Layouts`): points over exact reals, the pointy
  and flat matrices, `toPixel`, `toHex`, `toHexRounded` and the six polygon corners. `sqrt`,
  `PI`, `cos` and `sin` are a parameter record (`Maths.Maths`); `ExactSqrt3` says when its
  `sqrt(3)` squares to 3.
- **Directive parsing** (`Parsing`, parsing.ts):
  - its `getOptions`, `getRivers`, `getOverlays` and `getBorders`, whose patterns are
    `^...$` with the `m` flag, modelled as tests on whole lines;
  - its `getCoords`, identical to the one in rendering.ts (`Coords`).
- **The older option parser** (`LegacyOptions`, options.ts), with the unanchored
  `(\w+)=(\w+)` pattern. This is the one rendering.ts imports.
- **Rendering** (`Extents`, `Coords`, `Rendering`, rendering.ts):
  - `toInt` and `getCoords` over a frontmatter value type;
  - the `CoordManager` extent tracker, as a class whose `HexConverter` method updates its
    bounds in place;
  - the rendering.ts `getRivers`, whose pattern is not anchored;
  - what `renderHexMap` computes: the options, the missing-key error, orientation and offset
    selection, the cells of each note, the fill colours, the view box read after every corner
    is tracked, and the river polylines.

Shared pieces:
- `Text`: character classes, runs and lines.
- `Numbers`: JavaScript `Number()` on the strings the patterns capture, and the decimal
  spelling of integers.
- `Patterns`: the `(\d+)<sep>(\d+)` scanners.
- `OptionValues`: option records as string-keyed maps and the directive loop.
- `PluginSettings`: the settings record.

## Behaviour of the code worth knowing

- **Number overrides.** A number directive stores `Number(value)`. A value that does not
  parse sets the field to NaN; nothing falls back to the configured default.
- **rendering.ts reads options through options.ts.** That parser starts with neither
  `riverWidth` nor `riverColour`, so both are `undefined` unless the block names them. A
  `riverWidth=` directive then stores text, not a number, since options.ts does not list it
  among its number keys, and that text becomes the width of every river without one of its own.
- **The `toInt` of parsing.ts.** parsing.ts imports `toInt` from tools.ts, which does not
  define it. The model uses the definition in rendering.ts:14-19.
- **The rendering.ts river pattern.** It has the flags `gi`, not `m`, and it is not anchored,
  so a `river:` in the middle of a line matches. Its `.` never crosses a line terminator, so
  a match ends at the end of its line and cannot span lines. Its defect is a different one:
  see Findings.

## Model

| member | source | states |
|---|---|---|
| HexCoords.MakeHex | hex/Hex.ts:16 | the cell has the given `q` and `r`; it is valid (zero-sum) exactly when `s` is omitted or equals `-q - r` |
| HexCoords.LowBit | hex/Hex.ts:20 | `x & 1` is 0 or 1 and has the parity of `x` |
| HexCoords.FromQOffsetCoordinates | hex/Hex.ts:18-22 | always a valid cell, with `q` equal to the column |
| HexCoords.ShiftedColumnIsEven | hex/Hex.ts:18-22 | `col + offset * (col & 1)` is even for either parity, so its half is exact |
| HexCoords.HalfOfEven | hex/Hex.ts:18-22 | on an even number both `round(n / 2)` and `floor(n / 2)` are the exact half |
| HexCoords.ToOffsetCoordinates | hex/Hex.ts:90-94 | the column is `q`; the offset defaults to 1 |
| HexCoords.OffsetRoundTrip | hex/Hex.ts:90-94 | for every column, row and parity, offset coordinates survive the trip through cube coordinates |
| HexCoords.CubeRoundTrip | hex/Hex.ts:18-22 | every valid cell survives the trip through offset coordinates |
| HexCoords.SameColumnNextRow | hex/Hex.ts:18-22 | consecutive rows of one column are neighbouring cells |
| HexCoords.ToString | hex/Hex.ts:24-26 | the `q,r,s` key of a cell; `HexCoords.KeyReadsBack` and `HexCoords.ToStringInjective` say it reads back and tells cells apart |
| HexCoords.KeyReadsBack | hex/Hex.ts:24-26 | the `q,r,s` key of a cell reads back as that cell |
| HexCoords.ToStringInjective | hex/Hex.ts:24-26 | two cells have the same key exactly when they are equal |
| HexCoords.Equals | hex/Hex.ts:28-30 | true exactly when the two cells are equal |
| HexCoords.Add | hex/Hex.ts:32-34 | the sum of two valid cells is valid |
| HexCoords.Subtract | hex/Hex.ts:35-37 | the difference of two valid cells is valid |
| HexCoords.SubtractUndoesAdd | hex/Hex.ts:32-37 | subtracting undoes adding and adding undoes subtracting |
| HexCoords.SubtractZeroIffEqual | hex/Hex.ts:35-37 | the difference is the origin exactly when the cells are equal |
| HexCoords.FloorOfHalf | hex/Hex.ts:39-41 | `Math.floor(n / 2)` over reals is integer halving |
| HexCoords.Length | hex/Hex.ts:39-41 | on a valid cell, twice the length is the sum of the magnitudes (no flooring happens), and the length is the largest magnitude |
| HexCoords.MagnitudesOfValidCell | hex/Hex.ts:39-41 | on a valid cell the magnitudes add up to twice the largest one |
| HexCoords.LengthZeroIffOrigin | hex/Hex.ts:39-41 | only the origin has length zero |
| HexCoords.Distance | hex/Hex.ts:42-44 | the length of the difference of two cells; `DistanceToSelf`, `DistanceSymmetric`, `DistanceZeroIffEqual` and `TriangleInequality` make it a metric on valid cells |
| HexCoords.DistanceToSelf | hex/Hex.ts:42-44 | a cell is at distance 0 from itself |
| HexCoords.DistanceSymmetric | hex/Hex.ts:42-44 | distance is symmetric |
| HexCoords.DistanceZeroIffEqual | hex/Hex.ts:42-44 | on valid cells the distance is 0 exactly for equal cells |
| HexCoords.TriangleInequality | hex/Hex.ts:42-44 | the distance satisfies the triangle inequality on valid cells |
| HexCoords.Direction | hex/Hex.ts:46-48 | each direction is a valid cell of length 1 |
| HexCoords.Neighbour | hex/Hex.ts:49-51 | a neighbour of a valid cell is valid and at distance 1 |
| HexCoords.OppositeDirectionsCancel | hex/Hex.ts:97-104 | `directions[d] + directions[(d + 3) % 6]` is the origin |
| HexCoords.NeighboursAreCellsAtDistanceOne | hex/Hex.ts:49-51 | the valid cells at distance 1 are exactly the six neighbours |
| HexCoords.NeighboursDistinct | hex/Hex.ts:97-104 | different directions give different neighbours |
| HexCoords.Round | hex/Hex.ts:53-67 | the result is a valid cell, and two of its axes are the rounded inputs |
| HexCoords.RoundDiscardsLargestError | hex/Hex.ts:58-64 | the axis recomputed is q when its error is strictly largest, else r when its error beats s's, else s |
| HexCoords.JsRoundIsNear | hex/Hex.ts:54-56 | `Math.round` lands within one half of its argument |
| HexCoords.RoundIsNear | hex/Hex.ts:53-67 | from a zero-sum fractional point, every axis moves by at most 1 |
| HexCoords.RoundOfCell | hex/Hex.ts:53-67 | a valid integer cell rounds to itself |
| HexCoords.RoundExample | hex/Hex.ts:53-67 | (0.5, 0.5, -1), which independent rounding makes (1, 1, -1), rounds to the valid cell (1, 0, -1) |
| Points.Add | hex/Point.ts:16-18 | the component-wise sum; `Points.SubtractUndoesAdd` and `Points.AddCommutesAndAssociates` characterize it |
| Points.Subtract | hex/Point.ts:20-22 | the component-wise difference, which `Points.SubtractUndoesAdd` proves is the inverse of `Add` |
| Points.Div | hex/Point.ts:24-26 | the quotient times the divisor gives back each coordinate |
| Points.SubtractUndoesAdd | hex/Point.ts:16-22 | `p.add(o).subtract(o) == p` and `p.subtract(o).add(o) == p` |
| Points.AddCommutesAndAssociates | hex/Point.ts:16-18 | adding points commutes and associates |
| Orientations.Pointy | hex/Orientation.ts:19-29 | the start angle is 0.5 and `f2` is 0 |
| Orientations.Flat | hex/Orientation.ts:31-41 | the start angle is 0 and `f1` is 0 |
| Orientations.PointyMatricesInvert | hex/Orientation.ts:19-29 | with `r3 * r3 == 3`, the pointy backward matrix inverts the forward one on both sides |
| Orientations.FlatMatricesInvert | hex/Orientation.ts:31-41 | with `r3 * r3 == 3`, the flat backward matrix inverts the forward one on both sides |
| Layouts.ToPixel | hex/Layout.ts:13-19 | the forward matrix times `(q, r)`, scaled by the size and moved to the origin; `ToPixelOfCentre`, `ToPixelIsLinear`, `ToHexOfToPixel` and the tiling rows characterize it |
| Layouts.ToPixelOfCentre | hex/Layout.ts:7-19 | cell (0,0,0) is centred on the origin, which is (0, 0) unless given |
| Layouts.ToPixelIsLinear | hex/Layout.ts:13-19 | relative to the origin, the pixel of a sum is the sum of the pixels |
| Layouts.ToHex | hex/Layout.ts:21-28 | the fractional cell is zero-sum |
| Layouts.UnscaleOfToPixel | hex/Layout.ts:21-23 | unscaling a cell's centre gives the forward matrix applied to `(q, r)` |
| Layouts.BackwardOfForward | hex/Layout.ts:24-25 | the backward matrix recovers `(q, r)` from its forward image |
| Layouts.ToHexOfToPixel | hex/Layout.ts:13-28 | for a non-zero size, `toHex(toPixel(h))` is `h` as a fractional cell |
| Layouts.ToHexRounded | hex/Layout.ts:30-32 | the result is a valid cell |
| Layouts.ToHexRoundedOfToPixel | hex/Layout.ts:30-32 | a valid cell's centre rounds back to that cell |
| Layouts.GetCornerOffsets | hex/Layout.ts:40-49 | six offsets, corner `c` at index `c`, none depending on a cell |
| Layouts.GetPolygonCorners | hex/Layout.ts:51-54 | six corners, corner `c` being the centre plus the offset of corner `c` |
| Layouts.PolygonsAreTranslates | hex/Layout.ts:51-54 | the corners of one cell are those of another moved by the distance between their centres |
| Layouts.PointyRowsAreLevel | hex/Orientation.ts:19-29 | in the pointy tiling, cells with the same `r` share a pixel `y` |
| Layouts.FlatColumnsAreUpright | hex/Orientation.ts:31-41 | in the flat tiling, cells of one offset column share a pixel `x` |
| Numbers.NatToDecimal | hex/Hex.ts:25 | the spelling of `n` is digits without a leading zero, denoting `n` |
| Numbers.IntToString | hex/Hex.ts:25 | the spelling of an integer reads back as that integer |
| Numbers.NumberOfDigits | tools.ts:9-12 | `Number()` of a digit string is its value |
| Numbers.NumberOfDecimal | tools.ts:9-12 | `Number(String(n))` is `n` |
| Numbers.NumberOfPointed | tools.ts:9-12 | `Number("w.f")` is `w + f / 10^len(f)` |
| Numbers.NumberOfTwoPoints | parsing.ts:89-98 | a numeral with two points, such as `1.2.3`, is NaN |
| Text.LinesOfJoin | parsing.ts:33 | splitting a text at line terminators gives back the lines it was made of |
| OptionValues.StoredKinds | parsing.ts:66-70 | a number key receives a number; any other name receives the text it was given |
| OptionValues.UnnamedKeysKept | parsing.ts:66-70 | a name no directive mentions keeps its starting value |
| OptionValues.LastDirectiveWins | parsing.ts:66-70 | the last directive naming a field decides it |
| OptionValues.KeysOfApplyAll | parsing.ts:66-70 | the fields afterwards are the starting ones plus every name a directive mentions |
| OptionValues.KindsKept | parsing.ts:66-70 | a number field stays a number and a text field outside the number keys stays text |
| OptionValues.AsNumberCases | tools.ts:9-12 | `asNumber` gives a numeral's value, and the default for a missing capture |
| Parsing.MatchLines | parsing.ts:33 | no more matches than lines |
| Parsing.MatchAllOfJoin | parsing.ts:33 | under `^...$` with the `m` flag, `matchAll` over a text matches it line by line |
| Parsing.MatchLinesMember | parsing.ts:33 | every match comes from one line, and a line matches exactly when the pattern accepts it |
| Parsing.KeyValueLineIff | parsing.ts:33 | a line is a directive exactly when it is a word, `=` and a word and nothing else |
| Parsing.TrailingTextIsIgnored | parsing.ts:33 | text after the value on the same line makes the line no directive |
| Parsing.LeadingTextIsIgnored | parsing.ts:33 | text before the name on the same line that holds a non-word character and no `=`, such as `a b`, makes the line no directive |
| Parsing.DirectivesOfLines | parsing.ts:33 | the directives of a text are its whole-line `word=word` lines, in order |
| Parsing.OptionsOf | parsing.ts:35-73 | the settings-derived record with the whole-line directives applied in text order; `Parsing.GetOptions` computes it, and `UnnamedFieldsKeepSettings`, `LastDirectiveDecides` and `OptionFields` characterize it |
| Parsing.GetOptions | parsing.ts:35-73 | the loop applies the directives to the settings-derived record in text order |
| Parsing.InitialFields | parsing.ts:23-64 | the record starts with the seven number fields and six text fields, the number fields holding numbers |
| Parsing.UnnamedFieldsKeepSettings | parsing.ts:50-64 | a field no directive names keeps its settings value; `key` stays `""` |
| Parsing.LastDirectiveDecides | parsing.ts:66-70 | the last directive naming a field decides it, through `Number()` for the number keys |
| Parsing.OptionFields | parsing.ts:66-70 | the fields are the declared ones plus every directive name |
| Parsing.GetRivers | parsing.ts:75-87 | one river per whole `river:` line, in text order; `Parsing.MatchAllOfJoin`, `RiverLineWithWidth` and `RiverLineWithoutWidth` give its contents |
| Parsing.PathCoords | parsing.ts:81-84 | one non-negative cell for each `d.d` token of the path |
| Parsing.RiverLineWithWidth | parsing.ts:75-87 | a `river:W:path` line, in any letter case, gives width `W` and the path's cells in order |
| Parsing.RiverLineWithoutWidth | parsing.ts:75-87 | a `river:path` line gives `riverWidth` and the path's cells in order |
| Parsing.WidthPrefix | parsing.ts:75 | digits and a colon in front of the path are the width group |
| Parsing.GetOverlays | parsing.ts:89-98 | one overlay per whole `overlay:#tag:fill[:opacity]` line, in text order; `TagStyleRoundTrip` and `OverlayOpacityDefault` give its contents |
| Parsing.GetBorders | parsing.ts:100-109 | one border per whole `border:#tag:colour[:thickness]` line, in text order; `TagStyleRoundTrip` and `BorderThickness` give its contents |
| Parsing.TagStyleRoundTrip | parsing.ts:89-109 | a written `overlay:` or `border:` line reads back whole, with the `#` kept on the tag |
| Parsing.OverlayOpacityDefault | parsing.ts:89-98 | without an opacity, or with `1.2.3`, the opacity is 0.4 |
| Parsing.BorderThickness | parsing.ts:100-109 | a digit thickness is that number; without one it is 1 |
| Patterns.PairAt | rendering.ts:21-22 | a match at the start ends inside the text |
| Patterns.FirstPair | rendering.ts:21-22 | the leftmost match ends inside the text |
| Patterns.AllPairsOfFormat | parsing.ts:76-84 | scanning written `d.d` tokens gives back exactly those pairs, in order |
| Patterns.AllPairsOfFormatted | parsing.ts:81 | a written pair, a space, then more text: that pair, then the matches of the rest |
| Patterns.AllPairsAfterSpace | parsing.ts:81 | a leading space is skipped |
| Patterns.PairAtFormat | rendering.ts:39-49 | a written pair followed by a non-digit is the first match |
| Coords.ToInt | rendering.ts:14-19 | `Number(v)` when it has no fractional part, NaN otherwise; `Coords.ToIntIff` gives both directions |
| Coords.ToIntIff | rendering.ts:14-19 | `toInt` gives an integer exactly when `Number(v)` is that integer |
| Coords.ToIntRejectsFractions | rendering.ts:14-19 | a value with a fractional part gives NaN |
| Coords.ToIntOfDigits | rendering.ts:14-19 | a digit string converts to its value |
| Coords.CoordsOf | rendering.ts:23-51 | what `getCoords` returns, undefined included; `Coords.GetCoords`, `DefinedExactlyForArraysAndMatchingStrings` and the round-trip rows characterize it |
| Coords.GetCoords | rendering.ts:23-51 | the push loop returns what `CoordsOf` defines: a pair of integers as one cell, else the items' cells concatenated in order |
| Coords.DefinedExactlyForArraysAndMatchingStrings | parsing.ts:113-141 | an array always gives a list; a string gives one exactly when it has a `d.d` or `d,d` match; anything else gives `undefined` |
| Coords.StringCellsAreNatural | rendering.ts:38-50 | a string gives one cell with non-negative coordinates |
| Coords.PairOfIntegers | rendering.ts:24-28 | two integer numbers are one cell, negative ones included |
| Coords.TwoWholeCellStringsAreOnePair | rendering.ts:24-28 | two strings `a.0` and `b.0` convert to integers, so they are the one pair `(a, b)` and not two cells |
| Coords.WholeDecimalIsInteger | rendering.ts:14-19 | `toInt("n.0")` is `n` |
| Coords.DotCellRoundTrip | rendering.ts:39-43 | a written `col.row` reads back, whatever non-digit follows |
| Coords.CommaCellRoundTrip | rendering.ts:45-49 | a written `col,row` without a `.` reads back |
| Coords.NoSeparatorNoPair | rendering.ts:39-49 | no pair matches in a string without the separator |
| Coords.CellListRoundTrip | rendering.ts:30-35 | a list of written cells, other than a list of two, reads back as those cells in order |
| Extents.Extent | rendering.ts:82-88 | the bounds after the points are submitted in order; `ExtentContains`, `ExtentAttained` and `ExtentIgnoresOrder` characterize it |
| Extents.ExtentContains | rendering.ts:82-88 | before any point the bounds are the infinities; after some, each is finite and every point lies inside |
| Extents.ExtentAttained | rendering.ts:82-88 | each bound is a coordinate of some submitted point |
| Extents.ExtentIgnoresOrder | rendering.ts:82-88 | the bounds depend only on which points were submitted, not on order or repetition |
| Extents.ExtentIsTracked | rendering.ts:82-88 | every state reached is unbounded or wholly finite |
| Extents.ViewBoxOf | rendering.ts:66-77 | the view box the four getters give for a bounds state; `ViewBoxHoldsPoints` and `EmptyViewBox` characterize it |
| Extents.ViewBoxHoldsPoints | rendering.ts:66-77 | once a point is seen, the view box is finite, at least twice the margin each way, and holds every point at least the margin inside |
| Extents.EmptyViewBox | rendering.ts:66-77 | with no point seen, the view box starts at +Infinity with width and height -Infinity |
| Extents.CoordManager.constructor | rendering.ts:59-64 | left and top start at +Infinity, right and bottom at -Infinity; the margin is as given |
| Extents.CoordManager.HexConverter | rendering.ts:82-88 | each bound is widened by the point, the tracked state stays the extent of the points so far, and the point comes back |
| Extents.CoordManager.CurrentViewBox | rendering.ts:66-77 | the getters give the view box of the extent of the submitted points |
| LegacyOptions.KeyValueAt | options.ts:27 | a match at the start ends inside the text |
| LegacyOptions.FirstKeyValue | options.ts:27 | the leftmost match ends inside the text |
| LegacyOptions.OptionsOf | options.ts:29-63 | the settings-derived record with every `word=word` match applied in text order; `LegacyOptions.GetOptions` computes it, and `FieldKinds`, `LastDirectiveDecides` and `UnnamedFieldsKeepSettings` characterize it |
| LegacyOptions.GetOptions | options.ts:29-63 | the loop applies the matches to the settings-derived record in text order |
| LegacyOptions.DirectivesAreWords | options.ts:27 | every match is a word, `=` and a word |
| LegacyOptions.MidLineDirectiveFound | options.ts:27 | a `word=word` in the middle of a line is a directive |
| LegacyOptions.AppendingTextWithoutDirectives | options.ts:56 | appending text without `=` that starts with a non-word character adds no directive |
| LegacyOptions.FieldKinds | options.ts:42-60 | whatever the text, the text fields hold text and the number fields numbers |
| LegacyOptions.TextFieldsStayText | options.ts:42-60 | `key`, `orientation`, `offset`, `terrainKey` and `iconKey` remain text |
| LegacyOptions.NumberFieldsStayNumbers | options.ts:42-60 | the five number fields remain numbers |
| LegacyOptions.TerrainIconSizeIsText | options.ts:19-25 | a `terrainIconSize` directive stores text, not a number |
| LegacyOptions.LastDirectiveDecides | options.ts:56-60 | the last match naming a field decides it, through `Number()` for the number keys |
| LegacyOptions.UnnamedFieldsKeepSettings | options.ts:42-54 | unnamed fields keep their settings values; `key` stays `""`; `riverWidth` and `riverColour` stay `undefined` |
| Rendering.OrientationOf | rendering.ts:119-122 | the flat orientation exactly when the option is `"flat"`, the pointy one for anything else |
| Rendering.OffsetOf | rendering.ts:123 | the offset is 1 exactly when the option is `"even"` |
| Rendering.Cells | rendering.ts:126-158 | the `flatMap` of the notes into cells, note by note in order; `FileCellsFollowCoords` and `SilentNotesAddNothing` say what each note contributes |
| Rendering.FileCellsFollowCoords | rendering.ts:126-158 | each pair read from a note becomes one cell, centred on its hex, with that hex's polygon, column, row, name and path |
| Rendering.SilentNotesAddNothing | rendering.ts:128-134 | a note without frontmatter, or whose coordinates are `undefined`, adds no cell |
| Rendering.SixCornersPerCell | rendering.ts:140-143 | six corners per cell go through `hexConverter` |
| Rendering.Fill | rendering.ts:175-179 | the fill of a cell from its terrain value; `Rendering.FillRules` gives its cases |
| Rendering.FillRules | rendering.ts:175-179 | a known terrain gives its background; an unknown one gives `#222222`; a missing or null one is looked up as `Unknown` |
| Rendering.RiverAt | rendering.ts:91 | a match at a position ends after it, inside the text |
| Rendering.FirstRiver | rendering.ts:91 | the leftmost match from a position ends after it |
| Rendering.RiverAtWithWidth | rendering.ts:91 | `river:W:P` in any letter case, with `W` digits and `P` running to the line end, captures width `W` and path `P` (undefined when empty) and ends at the line end |
| Rendering.RiverAtWithoutWidth | rendering.ts:91 | `river:P`, where `P` runs to the line end and does not open with digits and a colon, captures no width and path `P` (undefined when empty) and ends at the line end |
| Rendering.RiverThreeIsAPath | rendering.ts:91 | `river:3` has no width and the path `3`: the width group needs its colon |
| Rendering.RiverWithWidthExample | rendering.ts:91 | `River:12:a b` has width `12` and path `a b`: the `i` flag ignores letter case |
| Rendering.FirstRiverSkips | rendering.ts:91 | the pattern is unanchored: the leftmost match is the first position where `river:` begins, however far into the text |
| Rendering.MidLineRiverFound | rendering.ts:91 | a `river:` behind text with no `r` in it is the first match |
| Rendering.RiverMatchesOfLines | rendering.ts:91-93 | in a text made of lines separated by any line breaks (`\n`, `\r\n`, U+2028, U+2029, or runs of them), the matches are one per line that holds a `river:`, in line order, each with the captures of its line's first `river:` |
| Rendering.MatchesOverBreak | rendering.ts:91-93 | no match starts inside a line break, so the matches from its start are those from its end |
| Rendering.NoRiverAtTerminator | rendering.ts:91-93 | no match starts at a line terminator |
| Rendering.FirstRiverInLine | rendering.ts:91 | the search within a line gives the same match in the text, moved by the line's offset, or passes the whole line |
| Rendering.LineRiverEndsAtLineEnd | rendering.ts:91 | a match found in a line ends at the end of the line: `(.*)*` takes the rest of the line |
| Rendering.RiverAtInLine | rendering.ts:91 | a match at a position of a line reads only that line |
| Rendering.GetRivers | rendering.ts:93-103 | `getRivers` as intended, one river per match in order; `AsWrittenAgreesWhenPathsPresent` and `AsWrittenIsPrefix` relate it to the code as written |
| Rendering.BareRiverThrows | rendering.ts:91-97 | a `river:` at the end of the text throws in the code as written; as intended it is a river with no cells |
| Rendering.AsWrittenAgreesWhenPathsPresent | rendering.ts:93-103 | when every match has a path, the code as written draws exactly the intended rivers |
| Rendering.AsWrittenIsPrefix | rendering.ts:93-103 | the code as written draws the intended rivers up to the first match without a path, and throws exactly when there is one |
| Rendering.PolygonsOf | rendering.ts:174-180 | one polygon per cell: its corners, its fill, its note's name and path |
| Rendering.PolylinesOf | rendering.ts:211-221 | one polyline per river |
| Rendering.Draw | rendering.ts:111-124 | the error outcome exactly when `key` is empty, the NaN outcome exactly when `key` is set and size or margin is NaN |
| Rendering.TrackCorners | rendering.ts:140-165 | feeding the corners through one `CoordManager`, in order, gives the view box of their extent |
| Rendering.Render | rendering.ts:105-221 | what is drawn for a block: the options of options.ts, the river matches of the text and the cells of the notes; `Rendering.RenderHexMap` computes it, and `NoKeyIffKeyEmpty`, `CornersInsideViewBox` and `RiversDoNotWidenViewBox` characterize it |
| Rendering.RenderHexMap | rendering.ts:105-221 | the imperative render computes what `Render` defines |
| Rendering.NoKeyIffKeyEmpty | rendering.ts:111-115 | rendering stops with `ERROR: no key=xxx given` exactly when no directive names a key |
| Rendering.CornersInsideViewBox | rendering.ts:140-165 | every drawn corner lies inside the view box, at least the margin inside its edges |
| Rendering.BoxIgnoresRivers | rendering.ts:163-221 | the view box, the polygons and the river colour do not depend on the rivers |
| Rendering.RiversDoNotWidenViewBox | rendering.ts:163-221 | adding a river line to the source leaves the view box and the polygons as they were |
| Rendering.RiverLineAddsNoDirective | options.ts:27 | a river line on its own line holds no `name=value` match |

## Left out

- SVG and DOM construction, click handlers, pan and zoom, `Soon` and `this.app`: user
  interface, with no data the map depends on.
- The terrain and item icons (`addTerrainIcon`), the coordinate labels and the icon text:
  drawing only. The fill colour is modelled; the `console.warn` for a missing terrain is not.
- The settings tab, the text modal and the plugin lifecycle: no map logic.
- `Hex.lerp`, `Hex.line`, `lerp` and `randomPick` in hex/maths.ts: floating-point
  interpolation and randomness. `line` maps over `new Array(n)`, so it never calls its
  callback and yields only holes.
- Floating point: points, matrices and rounding are exact reals. `sqrt`, `PI`, `cos` and
  `sin` are parameters, so the corner angles are not evaluated.
- Number formatting: `Point.toString`, the view box string and the point lists joined by
  spaces. `HexConverter` returns the point itself rather than its text.
- `Number()` beyond an optional sign and decimal digits with at most one point: exponents,
  hexadecimal, binary (`0b11`), octal (`0o17`), whitespace and infinities are read as NaN,
  where JavaScript reads `0x1f`, `0b11` and `0o17` as 31, 3 and 15.
- OptionValues.Apply / OptionValues.KeysOfApplyAll: a directive named `__proto__` becomes a
  field. In JavaScript, assigning a string to `options.__proto__` is ignored, so the options
  record gains no such key; `LegacyOptions.GetOptions` inherits the same gap.
- Points.Div / Layouts.ToHex / Layouts.ToHexRounded: they require a non-zero divisor or cell
  size. JavaScript divides by zero to Infinity or NaN; the model leaves that case out.
- Rendering.Draw / Rendering.RenderHexMap: the rivers drawn are those of the intended scan
  `Rendering.GetRivers`. The code as written is `Rendering.GetRiversAsWritten`: it throws a
  TypeError at the first `river:` with nothing after it on its line, so the source draws the
  rivers before that match, none from it on, and the render then fails (see Findings).
- Rendering.Draw: NaN arithmetic is not followed. When size or margin is NaN, rendering
  gives a separate outcome instead of a drawing full of NaN coordinates.
- The vault and the metadata cache are a parameter: the list of notes, each with its
  frontmatter, name and path.
- Frontmatter values are arrays, strings, numbers, booleans, null and opaque objects.
- Rendering.Fill: a terrain value that is neither a string nor null gets the fallback fill.
  JavaScript would look it up under its text, for instance `5` under `"5"`.
- Safe-integer limits: coordinates are unbounded integers. `col & 1` is modelled by its
  parity, which agrees with JavaScript inside the 32-bit range.
- The case folding of the `i` flag is restricted to ASCII letters.
- `DEFAULT_SETTINGS` is not transcribed: every operation takes the settings as a parameter.

## Findings

| source | as written | input that shows it | evidently intended | confidence | as-written member | corrected member |
|---|---|---|---|---|---|---|
| rendering.ts:91-97 | the river pattern ends in `(.*)*`; when nothing follows `river:` on its line, the group takes no iteration, the `path` capture is `undefined`, and `path.matchAll` throws a TypeError that ends the render | a block whose text ends with `river:` (or a line that is just `river:`) | a river with no points, as parsing.ts's `(.*)` gives | high, not executed | Rendering.GetRiversAsWritten (shown by Rendering.BareRiverThrows) | Rendering.GetRivers |
