# Housing units map — a Dafny model

The program draws a map of the United States on a canvas. A pointer
hovering over a state selects it by the colour of the pixel under it in a
hidden hit-test picture, and a press adds it to a panel of four boxes on
the right of the screen. From that panel a "Compare" button opens a bar
graph of population and housing units, one pair of bars per chosen state,
and "Clear All" empties the boxes. Pointers pan the map with one finger
and zoom and turn it with several, through a 3x3 affine transform kept by
a pointer manager. The figures come from two CSV tables and a list of
state names, read as text.

The model follows the program's own form:

- `matrix.dfy` (`Affine`): matrices as values. `multiply` is a method
  with the source's nested loops. The transforms are built and inverted,
  and their algebra is proved: the products, inverses and fixed centres.
- `pointer.dfy` (`Pointers`) and `pointer_manager.dfy` (`Gestures`): the
  `Pointer` and `PointerManager` classes. Their fields are updated in
  place. The two averaging loops of `updatePivot` are methods with
  invariants, and the manipulation step is proved to make the map follow
  the fingers.
- `strings.dfy` (`Strings`), `formatting.dfy` (`Formatting`) and
  `colors.dfy` (`Colors`): the text the program relies on, stated
  exactly. This covers `split`, the line-break regular expression,
  `parseInt`, `toString(10)` and `toString(16)`, the thousands separators
  of `addCommas`, and the colour keys of `RGBToHex`.
- `tables.dfy` (`Tables`): `TwoDimensionalArray`, a column-major table
  class. `getColumns` sorts its index array in place.
- `data.dfy` (`Data`) and `palette.dfy` (`Palette`): the `StateData`
  registry, which generates states from the tables. Also the two parsers
  and the colour-to-state `MAPPING`.
- `image.dfy` (`Images`): `RGBImageData`, which splits the canvas's byte
  array into three channel tables.
- `boxes.dfy` (`Boxes`), `graph.dfy` (`Graphs`), `panel.dfy` (`Panels`)
  and `visual_map.dfy` (`Maps`): the hit-testable boxes, the bar graph,
  the state panel and the visual map, as classes.
- `controller.dfy` (`Controller`): `CustomGameLoop`, which routes pointer
  events to the pointer manager, the panel and the map.

The model's conventions for JavaScript values:

- A JavaScript number is a `real`. `parseInt` applied to a number reads
  the text `String` writes for it (`Strings.ParseIntOfNumber`). Written
  in full, the fraction is dropped toward zero. In exponent form, for a
  nonzero magnitude below 10^-6 or from 10^21 up, only the signed leading
  digit is read, so 5e-7 reads as 5 and 1e21 as 1.
- `undefined` and `null` are both `None`, except where the difference
  decides a branch.
- NaN figures are `None`.
- A `TypeError` the program would raise is the `Fault` value
  `TypeError`, carried in a `Result`.
- The screen size and pixel ratio (`Scaler`) are a `Screen` parameter.
- The pointer manager's `getLength` norm is a parameter.
- The rotation angle of a manipulation step arrives as its cosine and
  sine, a `Turn`.

## Model

| member | source | states |
|---|---|---|
| Affine.Zero | scripts/matrix.js:6-17 | `new Matrix(m, n)` is an m-by-n matrix whose every entry is 0 |
| Affine.Matrix.Set | scripts/matrix.js:67-69 | after `set(c, r, v)`, (c, r) reads v, every other entry is unchanged and the shape is kept |
| Affine.Product | scripts/matrix.js:83-108 | the product of an m-column matrix and an m-row matrix has b's columns and a's rows |
| Affine.Multiply | scripts/matrix.js:83-108 | `multiply` throws exactly when the column count of `this` differs from the row count of the argument; otherwise entry (c, r) is the sum over i of this(i, r) * arg(c, i) |
| Affine.Product3x3 | scripts/matrix.js:83-108 | the product of two 3x3 matrices is the 3x3 matrix whose entry in row r, column c is row r of the left factor times column c of the right |
| Affine.FromPoint | scripts/matrix.js:59-65 | `fromPoint` gives a one-column, three-row matrix |
| Affine.Apply | scripts/matrix.js:83-108 | `multiply(point)` succeeds exactly for a three-column matrix with at least two rows; any other shape is the source's error |
| Affine.ApplyEntries | scripts/matrix.js:83-108 | multiplying a 3x3 matrix by a point succeeds and gives (a00 x + a10 y + a20, a01 x + a11 y + a21) |
| Affine.ProductEntries | scripts/matrix.js:83-108 | each entry of a product with three inner terms is the three-term sum |
| Affine.IdentityNeutral | scripts/matrix.js:83-108 | the identity is neutral on both sides of `multiply` |
| Affine.ApplyProduct | scripts/matrix.js:83-108 | a product of affine matrices is affine, and applying it to a point applies the right factor first, then the left |
| Affine.ProductAffine | scripts/matrix.js:83-108 | a product of affine matrices keeps the last row (0, 0, 1) |
| Affine.ProductAffineWhen | scripts/matrix.js:83-108 | for any two 3x3 matrices, the product is affine whenever both factors are |
| Affine.Rotation | scripts/matrix.js:19-27 | `getRotation(a)` builds an affine matrix |
| Affine.RotationAt | scripts/matrix.js:29-33 | `getRotationAt(a, x, y)`, the product of two translations and a rotation, is affine |
| Affine.Scale | scripts/matrix.js:35-41 | `getScale(sx, sy)` builds an affine matrix whose `getScale()` reads back sx |
| Affine.ScaleAt | scripts/matrix.js:43-47 | `getScaleAt(sx, sy, x, y)`, the product of two translations and a scale, is affine |
| Affine.Translate | scripts/matrix.js:49-57 | `getTranslate(x, y)` builds an affine matrix whose `getTranslation()` reads back (x, y) |
| Affine.TranslateZeroIsIdentity | scripts/matrix.js:49-57 | `getTranslate(0, 0)`, the pointer manager's starting transform, is the identity |
| Affine.TranslateCompose | scripts/matrix.js:49-57 | two translations compose to the translation by the summed offsets |
| Affine.TranslateMovesPoints | scripts/matrix.js:49-57 | `getTranslate(x, y)` moves every point by (x, y) |
| Affine.ScaleAtEntries | scripts/matrix.js:43-47 | `getScaleAt(sx, sy, cx, cy)` is the scale with translation column (cx - sx cx, cy - sy cy) |
| Affine.ScaleAtAboutCentre | scripts/matrix.js:43-47 | `getScaleAt` scales every point's offset from the centre, so the centre stays fixed |
| Affine.RotationAtEntries | scripts/matrix.js:29-33 | `getRotationAt(a, cx, cy)` written out entry by entry |
| Affine.RotationAtAboutCentre | scripts/matrix.js:29-33 | `getRotationAt` turns every point about the centre by the angle, so the centre stays fixed |
| Affine.TranslateShiftsTranslation | scripts/matrix.js:161-163 | pre-multiplying by `getTranslate(x, y)` shifts `getTranslation()` by (x, y) |
| Affine.DeterminantEntries | scripts/matrix.js:245-265 | for three columns, `getDeterminant` is the six-term rule of Sarrus |
| Affine.Determinant | scripts/matrix.js:245-265 | the determinant is defined for exactly two and three columns, and `undefined` otherwise |
| Affine.BuilderDeterminants | scripts/matrix.js:245-265 | a translation has determinant 1, and `getScale(sx, sy)` has determinant sx * sy |
| Affine.AdjugateEntries | scripts/matrix.js:165-243 | the nine minors `getInverse` builds are the cofactors, laid out transposed |
| Affine.AffineAdjugateRow | scripts/matrix.js:165-243 | for an affine matrix, the last row `getInverse` divides out is (0, 0, 1) |
| Affine.Inverse | scripts/matrix.js:165-243 | `getInverse()` of a 3x3 matrix with a nonzero determinant is 3x3, and affine when the matrix is |
| Affine.AdjugateProducts | scripts/matrix.js:165-243 | the matrix times its adjugate, on either side, is the determinant times the identity |
| Affine.InverseOfEntries | scripts/matrix.js:165-243 | the adjugate of a matrix given entry by entry, over its nonzero determinant, is a two-sided inverse |
| Affine.InverseIsInverse | scripts/matrix.js:165-243 | for a nonzero determinant, M * getInverse(M) and getInverse(M) * M are both the identity |
| Affine.TranslateInverse | scripts/matrix.js:165-243 | the inverse of `getTranslate(x, y)` is `getTranslate(-x, -y)` |
| Affine.InverseUndoesApply | scripts/matrix.js:165-243 | the inverse of an affine matrix is affine, and applying it after the matrix gives back every point |
| Pointers.Pointer.constructor | scripts/pointer.js:7-11 | a new pointer keeps its id and position and is not pressed |
| Pointers.Pointer.Move | scripts/pointer.js:13-16 | `move` sets the position and nothing else |
| Pointers.Pointer.GetPosition | scripts/pointer.js:18-20 | returns the stored position |
| Pointers.Pointer.GetIsActive | scripts/pointer.js:22-24 | returns whether the pointer is pressed |
| Pointers.Pointer.Activate | scripts/pointer.js:26-28 | the pointer is pressed afterwards |
| Pointers.Pointer.Deactivate | scripts/pointer.js:30-32 | the pointer is released afterwards |
| Gestures.PointerManager.constructor | scripts/pointer_manager.js:6-16 | no pointers, both counts 0, both pivots at the origin, both radii 0, transform `getTranslate(0, 0)` |
| Gestures.PointerManager.GetTransformationMatrix | scripts/pointer_manager.js:18-20 | returns the current transform |
| Gestures.PointerManager.HasPointer | scripts/pointer_manager.js:49-51 | true exactly when a pointer is filed under the id |
| Gestures.PointerManager.MeanPosition | scripts/pointer_manager.js:78-86 | the first loop of `updatePivot` computes the mean position of the pointers |
| Gestures.PointerManager.MeanDistanceTo | scripts/pointer_manager.js:87-93 | the second loop computes the mean `getLength` of each pointer's offset from the pivot |
| Gestures.PointerManager.UpdatePivot | scripts/pointer_manager.js:74-97 | the old pivot and radius become the previous ones; with pointers, the pivot is their mean and the radius their mean distance; without, the pivot is the origin and the radius is kept |
| Gestures.PointerManager.AddPointer | scripts/pointer_manager.js:53-57 | a fresh released pointer is filed under the id, replacing any old one; the count rises by one; the pivot is updated; the transform is kept |
| Gestures.PointerManager.RemovePointer | scripts/pointer_manager.js:68-72 | the id's entry is deleted (a missing id changes nothing), the count drops by one, and the pivot is updated |
| Gestures.PointerManager.MovePointer | scripts/pointer_manager.js:59-66 | the pointer moves and the pivot is updated; only while some pointer is pressed does the transform take the intended manipulation step, which never raises |
| Gestures.PointerManager.MovePointerAsWritten | scripts/pointer_manager.js:59-66 | the same move with the step as the source writes it: while a pointer is pressed, the transform takes the pan and the zoom and the call raises exactly when the previous radius is positive |
| Gestures.PointerManager.OnManipulation | scripts/pointer_manager.js:99-130 | the transform becomes `Manipulated`: a pan by the pivot's move, then, when the previous radius is positive, a zoom by the ratio of the radii and a turn, both about the pivot |
| Gestures.PointerManager.OnManipulationAsWritten | scripts/pointer_manager.js:99-130 | the step as the source writes it: the pan and the zoom are applied, and the call raises at `getPreviousPosition` whenever the previous radius is positive |
| Gestures.PointerManager.OnPointerEnter | scripts/pointer_manager.js:22-24 | `addPointer`: the id is tracked at the position, the count rises, and the transform is kept |
| Gestures.PointerManager.OnPointerMove | scripts/pointer_manager.js:26-28 | `movePointer` with the intended step: its effect on the positions, the pivot and the transform |
| Gestures.PointerManager.OnPointerMoveAsWritten | scripts/pointer_manager.js:26-28 | `movePointer` as written: the positions and the pivot as above, the transform and the raise of the as-written step |
| Gestures.PointerManager.OnPointerActivate | scripts/pointer_manager.js:30-33 | the pointer is pressed and the pressed count rises by one |
| Gestures.PointerManager.OnPointerDeactivate | scripts/pointer_manager.js:35-43 | the pointer is released, and the pressed count drops unless `ignoreUpdateCount` is set |
| Gestures.PointerManager.OnPointerLeave | scripts/pointer_manager.js:45-47 | `removePointer`: the id is no longer tracked, the count drops, and the transform is kept |
| Gestures.ManipulationFollowsPivot | scripts/pointer_manager.js:99-130 | a manipulation step keeps the transform affine, and the map point that was under the previous pivot ends up under the new pivot |
| Gestures.Manipulated | scripts/pointer_manager.js:99-130 | the intended step keeps the transform 3x3, and affine when it was affine |
| Gestures.ManipulatedAsWritten | scripts/pointer_manager.js:99-130 | the as-written step always leaves a 3x3 transform behind |
| Gestures.AsWrittenRaisesWhenZooming | scripts/pointer_manager.js:99-130 | the as-written step raises exactly when the previous radius is positive, and then lacks exactly the turn; otherwise it equals the intended step |
| Gestures.PivotIsBalancePoint | scripts/pointer_manager.js:78-86 | the pointers' offsets from the mean position add up to zero in both coordinates |
| Gestures.RadiusNonNegative | scripts/pointer_manager.js:87-93 | with a non-negative length, the radius is never negative |
| Gestures.SinglePointerHasNoRadius | scripts/pointer_manager.js:74-97 | with one pointer, the pivot is that pointer and the radius is zero, so a zoom or a turn needs two pointers |
| Strings.Split | scripts/data.js:233 | `split(',')` gives at least one piece, and no piece holds the separator |
| Strings.JoinSplit | scripts/data.js:233 | joining the pieces of a split with the separator gives the text back |
| Strings.SplitAtSeparator | scripts/data.js:233 | the first piece is the text before the first separator; the rest splits on its own |
| Strings.Lines | scripts/data.js:228 | splitting at the line-break regular expression gives at least one line, and no line holds a line break |
| Strings.LinesSplitNormalized | scripts/data.js:228 | splitting into lines is splitting on "\n" after "\r\n" and a lone "\r" are rewritten as "\n", so "\r\n" is a single break |
| Strings.DigitsShape | scripts/util.js:174-177 | `toString(base)` of a count gives at least one lower-case digit of the base, with no leading zero |
| Strings.Digits | scripts/util.js:174-177 | `toString(base)` has at least one digit, and exactly one when the number is below the base |
| Strings.DigitsValue | scripts/util.js:174-177 | the digits of `toString(base)` read back as the number |
| Strings.HexDigitsLength | scripts/util.js:174-177 | `toString(16)` of a byte has one digit below 16 and two otherwise |
| Strings.DigitPrefix | scripts/data.js:17-18 | the digits `parseInt` reads are the longest prefix of digits of the base |
| Strings.TrimStart | scripts/data.js:17-18 | the blanks `parseInt` skips are a prefix, and what is left starts with no blank |
| Strings.ParseInt | scripts/data.js:17-18 | `parseInt` gives a number only for text that holds a digit; otherwise NaN |
| Strings.ParseUnsigned | scripts/data.js:17-18 | the digits after the sign are read only when a digit comes first |
| Strings.ParseIntDigits | scripts/data.js:17-18 | `parseInt` reads an unsigned decimal with no superfluous leading zero, and its negation, whatever non-digit follows |
| Strings.ParseIntDecimal | scripts/data.js:17-18 | `parseInt` reads back the decimal text of every integer |
| Strings.ParseIntNoDigits | scripts/data.js:17-18 | text with no digit after the blanks and the sign is NaN to `parseInt` |
| Strings.Truncate | scripts/visuals.js:166-167 | a number `String` writes in full drops its fraction toward zero under `parseInt` |
| Strings.ParseIntOfNumber | scripts/visuals.js:158-167 | `parseInt` of a number: written in full, the fraction is dropped toward zero; in exponent form, the result is a digit from 1 to 9 with the number's sign |
| Strings.LeadingDigitScale | scripts/visuals.js:158-167 | a positive number lies between its leading digit and that digit plus one, times its power of ten |
| Strings.ParseIntOfExponentForm | scripts/visuals.js:158-167 | in exponent form, the digit read is the number's leading digit: the magnitude lies in [d * 10^e, (d + 1) * 10^e) |
| Strings.ParseIntOfWhole | scripts/visuals.js:158-167 | `parseInt` gives a whole number back exactly when its magnitude is below 10^21 |
| Strings.ParseIntOfNumberTwice | scripts/visuals.js:158-167 | reading a number's result again changes nothing, in full and in exponent form |
| Colors.ComponentToHex | scripts/util.js:174-177 | `componentToHex` has at least two characters, and is `toString(16)` from 16 up |
| Colors.ComponentToHexByte | scripts/util.js:174-177 | a byte becomes exactly two lower-case hex digits that read back as it, with a leading "0" exactly below 16 |
| Colors.ComponentToHexOfPair | scripts/util.js:174-177 | two lower-case hex digits are `componentToHex` of the byte they stand for |
| Colors.HexRoundTrip | scripts/util.js:183-191 | the key of a byte colour is six hex digits whose pairs read back as red, green and blue |
| Colors.Hex | scripts/util.js:183-191 | the key has at least six characters, and for a byte colour it is six lower-case hex digits |
| Colors.KeyOfPairs | scripts/util.js:183-191 | every six-digit key is the key of the byte colour its pairs stand for, so keys and byte colours correspond one to one |
| Colors.HexInjective | scripts/util.js:183-191 | two byte colours with the same key are the same colour |
| Colors.RGBToHex.constructor | scripts/util.js:162-167 | keeps the channels, with no key worked out yet |
| Colors.RGBToHex.GetHexValue | scripts/util.js:183-191 | returns the colour's key, caches it, and returns the cached key unchanged on every later call |
| Tables.Put | scripts/util.js:47-49 | writing cell y makes it read back, leaves every other cell alone, and lengthens a short column |
| Tables.At | scripts/util.js:57-59 | the cell read behind `get`: a defined cell is a value stored in the column, and a row past the column's end reads as `undefined` |
| Tables.Table.constructor | scripts/util.js:9-26 | without data: `width` columns of `height` unset cells |
| Tables.Table.FromColumns | scripts/util.js:9-26 | with data: the given columns, kept as they are |
| Tables.Table.Get | scripts/util.js:57-59 | `get(x, y)` is the cell, `undefined` past the column's end, and a fault for a missing column |
| Tables.Table.Set | scripts/util.js:47-49 | `set(x, y, v)`: the cell reads v and every other cell is unchanged |
| Tables.Table.GetColumns | scripts/util.js:74-94 | an index array is sorted ascending in place (same numbers) and gives a new table of the indexed columns; one integer gives that column or `undefined`; anything else gives `null` |
| Tables.SortAscending | scripts/util.js:149-151 | `sort(compareNumbers)` leaves the array ascending and a permutation of what it held |
| Formatting.Reverse | scripts/util.js:250-256 | the loop builds the text reversed |
| Formatting.ReversedAt | scripts/util.js:250-256 | character i of the reversal is character i counted from the end |
| Formatting.ReversedTwice | scripts/util.js:250-256 | reversing keeps the length and, done twice, gives the text back |
| Formatting.ReversedAppend | scripts/util.js:250-256 | the reversal of a + b is the reversal of b followed by that of a |
| Formatting.AddCommas | scripts/util.js:219-237 | `addCommas` returns `Commas` of the number's text: the whole part grouped, then the fraction |
| Formatting.Commas | scripts/util.js:219-237 | for text with at most one decimal point, `addCommas` only adds commas: without them the text is unchanged |
| Formatting.WholeCommas | scripts/util.js:228-234 | the whole part gains commas and nothing else |
| Formatting.InsertCommas | scripts/util.js:230 | the replacement adds at most one comma per three characters and nothing but commas |
| Formatting.WithoutCommasReversed | scripts/util.js:229-231 | removing the commas commutes with reversing |
| Formatting.InsertCommasStep | scripts/util.js:230 | `replace(/(\S{3})/g, "$1,")` puts a comma after each run of three digits |
| Formatting.ReversedInsertCommas | scripts/util.js:229-231 | reversing, inserting the commas and reversing back groups the digits from the right, with one leading comma exactly when the digit count is a multiple of three |
| Formatting.GroupedShape | scripts/util.js:219-237 | the grouped digits lose the commas back to the digits, start with the first digit, and fall into a group of one to three then groups of three |
| Formatting.AddCommasGroups | scripts/util.js:219-237 | on digits, with or without a fraction, `addCommas` groups the whole part and keeps the fraction |
| Formatting.FractionKept | scripts/util.js:221-227 | the text after the one decimal point comes back after a point |
| Formatting.AddCommasOfCount | scripts/util.js:219-237 | for every count, `addCommas` gives its digits grouped from the right, never starting with a comma |
| Formatting.AddCommasSplitsMinusSign | scripts/util.js:219-237 | as written, -123 comes out as "-,123" |
| Formatting.MinusAfterThreeDigits | scripts/util.js:230 | reversed, the sign follows three digits, and that run gets its comma |
| Formatting.SignedCommasOfInteger | scripts/util.js:219-237 | the corrected grouping gives every integer's sign, then its digits grouped from the right |
| Data.NewState | scripts/data.js:15-19 | a state keeps its name, and a missing figure is NaN |
| Data.NewStateReadsFigures | scripts/data.js:15-19 | figures written in decimal read back as themselves |
| Data.FirstIndex | scripts/data.js:156-165 | the first index of x, or -1 exactly when x is absent |
| Data.LocateStateDataIndex | scripts/data.js:156-165 | the loop finds the first row whose first cell is the name, or -1 |
| Data.FirstIndexOfFirst | scripts/data.js:156-165 | an index where x sits, with no x before it, is the one found |
| Data.Generated | scripts/data.js:136-148 | one state per listed name, in the list's order, named after it |
| Data.PopulationFromFirstRow | scripts/data.js:136-148 | a state's population is the figure beside the first row carrying its name |
| Data.PopulationOfUnknownName | scripts/data.js:136-148 | a name on no row gets a NaN population |
| Data.StateData.constructor | scripts/data.js:50-56 | no data sets and no states |
| Data.StateData.SetDataSet | scripts/data.js:72-80 | registers under the one named key; an unknown key changes nothing |
| Data.StateData.GetDataSet | scripts/data.js:87-95 | the data set under the key, or nothing for an unknown key |
| Data.StateData.ValidData | scripts/data.js:125-130 | true exactly when all three data sets are registered |
| Data.StateData.DataLoaded | scripts/data.js:101-103 | true exactly when the states have been generated |
| Data.StateData.GenerateStates | scripts/data.js:136-148 | the states become `Generated` of the list and the two tables |
| Data.StateData.TryGenerateStates | scripts/data.js:109-119 | answers whether all three sets were registered; if so the states are generated, and otherwise nothing changes |
| Data.MaxFields | scripts/data.js:232-236 | the width is the field count of the longest line, 0 for none |
| Data.Fields | scripts/data.js:232-234 | the fields of each line are its `split(',')` |
| Data.FillTable | scripts/data.js:239-245 | cell (x, y) of the table is field x of line y, `undefined` when line y is shorter |
| Data.SplitFields | scripts/data.js:232-236 | the loop gives the fields of each line and the widest line's width |
| Data.CSVParser.constructor | scripts/data.js:191-206 | no table yet |
| Data.CSVParser.ParseCSVAsString | scripts/data.js:222-251 | the first call builds a table as wide as the longest line and as high as the line count, cell (x, y) being field x of line y; every later call returns that table |
| Data.ListParser.constructor | scripts/data.js:259-274 | no list yet |
| Data.ListParser.ParseListAsString | scripts/data.js:290-297 | the first call keeps the lines of the text; every later call returns them |
| Palette.KeysAreHexDigits | scripts/data.js:303-354 | every key of `MAPPING` is six lower-case hex digits |
| Palette.KeysAreColours | scripts/data.js:303-354 | every key of `MAPPING` is the key of some byte colour |
| Palette.StateOfColour | scripts/data.js:303-354 | `MAPPING[key]`: a listed key has six characters and names a state by a non-empty name; any other key is `undefined` |
| Images.PositionFromPixelIndex | scripts/util.js:341-344 | pixel i lies in a column below the width, at row * width + column == i (the row is the integer quotient; see the Left out line) |
| Images.RowReadsQuotient | scripts/util.js:341-344 | the row `i / width` equals `parseInt(i / width)` exactly when i is 0, or the width is at most 10^6 times i and i is below 10^21 times the width |
| Images.PixelIndexRoundTrip | scripts/util.js:341-344 | pixel y * width + x lies at (x, y) |
| Images.PositionsDistinct | scripts/util.js:341-344 | two pixels never share a position |
| Images.RowInsideImage | scripts/util.js:341-344 | every pixel of the image lies in one of its rows |
| Images.ChannelOffset | scripts/util.js:289-305 | red 0, green 1, blue 2, alpha 3, and anything else falls back to 0 |
| Images.ParseChannelData | scripts/util.js:282-320 | a fresh width-by-height table, whose cell at pixel p's position is byte 4p + offset |
| Images.RGBImageData.constructor | scripts/util.js:265-274 | the three channel tables are sampled from the bytes |
| Images.RGBImageData.GetPixelData | scripts/util.js:328-333 | inside the image, the bytes of pixel y * width + x; past the bottom, three `undefined` channels; past the right edge, a fault |
| Boxes.HitTestShifted | scripts/visuals.js:374-379 | moving a box and a point by the same offset keeps the hit test's answer |
| Boxes.HitTestCorners | scripts/visuals.js:374-379 | edges count as inside, and a point past any edge is outside |
| Boxes.NewButton | scripts/visuals.js:1136-1153 | a button sits at its position, with its click action |
| Boxes.StateBox.constructor | scripts/visuals.js:388-404 | an empty box one eighth of the screen wide and high |
| Boxes.StateBox.SetPosition | scripts/visuals.js:471-474 | moves the box and keeps its state |
| Boxes.StateBox.SetState | scripts/visuals.js:440-442 | the box holds the given state |
| Boxes.StateBox.ClearState | scripts/visuals.js:448-450 | the box is empty |
| Boxes.StateBox.HasState | scripts/visuals.js:488-490 | true exactly when the box is not empty |
| Boxes.StateBox.ToggleState | scripts/visuals.js:457-463 | an empty box takes the state, and a full one is emptied |
| Graphs.Larger | scripts/visuals.js:911-924 | one comparison of the running maximum: at least both, equal to one of them, and a NaN figure never wins |
| Graphs.MaxFigureIsMaximum | scripts/visuals.js:911-924 | the maximum is at least every figure, and it is 0 or one of the figures |
| Graphs.CalculateScale | scripts/visuals.js:911-924 | `calculateScale` is the room, five sixths of the screen, divided by the largest figure |
| Graphs.ScaleFitsFigures | scripts/visuals.js:911-924 | at a finite scale no bar is taller than the room, and the largest fills it |
| Graphs.NoScaleWithoutPositiveFigure | scripts/visuals.js:911-924 | a non-finite scale arises only when no figure is positive |
| Graphs.Bar.constructor | scripts/visuals.js:1010-1018 | keeps the figure, scale and foot; one sixteenth of the screen wide; value hidden |
| Graphs.Bar.GetHeight | scripts/visuals.js:1055-1057 | the height is the figure times the scale, and there is none for a NaN figure or scale |
| Graphs.Bar.CheckForHover | scripts/visuals.js:1065-1067 | the value is shown exactly while the point is over the bar |
| Graphs.BarHitInsideBox | scripts/visuals.js:1075-1080 | a point that hits a bar lies in its box, and never on its left edge or at its foot |
| Graphs.GenerateBarGraphStates | scripts/visuals.js:859-876 | one drawing per state, in order, laid out along the axis, each with two fresh distinct hidden bars |
| Graphs.StateGraph.constructor | scripts/visuals.js:818-841 | the graph of the states, laid out at the scale for the screen, with fresh hidden bars and a "Back" button |
| Graphs.StateGraph.HitTest | scripts/visuals.js:884-893 | every bar shows its value exactly when the point is over it, and the answer is whether the point is on "Back" |
| Graphs.StateGraph.ProcessClick | scripts/visuals.js:901-905 | the answer is whether "Back" was clicked |
| Panels.Filled | scripts/visuals.js:729-739 | the held states, at most one per slot |
| Panels.FilledHoldsTheFullSlots | scripts/visuals.js:729-739 | a state is listed exactly when some box holds it |
| Panels.FilledEmptyExactly | scripts/visuals.js:745-753 | nothing is listed exactly when every box is empty |
| Panels.Added | scripts/visuals.js:615-626 | adding keeps the number of slots |
| Panels.AddedPlacesState | scripts/visuals.js:615-626 | a state not yet held goes into the lowest empty box and nothing else changes; a held state or a full panel changes nothing; afterwards the state is held unless the panel was full; no state is ever held twice |
| Panels.FillingKeepsNoRepeats | scripts/visuals.js:615-626 | placing a state nobody holds keeps every state held at most once |
| Panels.EmptyingKeepsNoRepeats | scripts/visuals.js:707-723 | emptying boxes keeps every state held at most once |
| Panels.GenerateStateBoxes | scripts/visuals.js:550-577 | `stateCount` fresh distinct empty boxes, one below the other, their right edges on the anchor, with the size and padding of the first |
| Panels.BoxYPosition | scripts/visuals.js:601-608 | anchored at the top, box i starts i box-and-padding steps down; otherwise the column of `stateCount` boxes is centred on the anchor, one pixel up |
| Panels.BoxesStacked | scripts/visuals.js:601-608 | box j lies (j - i) height-and-padding steps below box i, so boxes with a non-negative height and padding never overlap |
| Panels.StatePanel.constructor | scripts/visuals.js:507-544 | empty boxes laid out from the anchor, the two buttons above them, and no graph |
| Panels.StatePanel.ContainsState | scripts/visuals.js:633-641 | true exactly when some box holds the state |
| Panels.StatePanel.AddStateToPanel | scripts/visuals.js:615-626 | the slots become `Added` of the old slots, and the panel stays well formed |
| Panels.StatePanel.GetCurrentStates | scripts/visuals.js:729-739 | the held states, in box order |
| Panels.StatePanel.CurrentStateCount | scripts/visuals.js:745-753 | the number of full boxes, never more than `stateCount` |
| Panels.StatePanel.ClearAllStateBoxes | scripts/visuals.js:802-806 | every box is emptied |
| Panels.StatePanel.LoadGraph | scripts/visuals.js:760-770 | a new graph of the given states is open |
| Panels.StatePanel.StateGraphActive | scripts/visuals.js:776-778 | true exactly when a graph is open |
| Panels.StatePanel.CloseStateGraph | scripts/visuals.js:793-795 | the graph is closed |
| Panels.StatePanel.Click | scripts/visuals.js:517-535 | "Compare" opens a graph of the held states when there is one; "Clear All" empties every box; "Back" closes the graph |
| Panels.StatePanel.ProcessClickButtons | scripts/visuals.js:694-700 | each button under the point is clicked, "Compare" before "Clear All" |
| Panels.StatePanel.HitTestButtons | scripts/visuals.js:678-686 | true exactly when the point is on one of the two buttons |
| Panels.StatePanel.HitTest | scripts/visuals.js:649-670 | with no graph: the point is on a button or on a full box; with a graph: its bars are hovered and the answer is whether the point is on "Back" |
| Panels.StatePanel.EmptyClickedBoxes | scripts/visuals.js:707-723 | every full box under the point is emptied |
| Panels.StatePanel.ProcessClick | scripts/visuals.js:707-723 | with no graph: the buttons act, then the full boxes under the point are emptied; with a graph: its bars are hovered, "Back" closes it, and the boxes stay |
| Maps.MapPixel | scripts/visuals.js:157-167 | the coordinates go through `parseInt` (exponent form included), the inverse, and `parseInt` again; a map pixel exists exactly when the transform has an inverse |
| Maps.InBounds | scripts/visuals.js:205-209 | a point in bounds is a pixel of the canvas, the top row and the left column are out of bounds, and only a canvas at least two pixels each way has a point in bounds |
| Maps.MapPixelFindsDrawnPixel | scripts/visuals.js:157-167 | when the transform takes pixel (a, b) of the map to whole screen coordinates, all below 10^21 in magnitude, the hit test there reads pixel (a, b) |
| Maps.MapPixelUntransformed | scripts/visuals.js:157-167 | under the starting transform, a point reads the pixel `parseInt` makes of its coordinates |
| Maps.FirstNamed | scripts/visuals.js:272-284 | the state found has the name and is in the list; none is found exactly when no state has it |
| Maps.FirstNamedIsFirst | scripts/visuals.js:272-284 | the first state with the name is the one found |
| Maps.StateFromColour | scripts/visuals.js:261-265 | fails exactly when a channel is `undefined`, and a state found is in the list |
| Maps.PaintedPixelPicksState | scripts/visuals.js:261-265 | a pixel in a state's palette colour picks a state of that name |
| Maps.PaletteColoursArePickable | scripts/visuals.js:261-265 | every colour of `MAPPING` is some byte colour, and a pixel painted in it picks the first listed state of the name `MAPPING` gives |
| Maps.VisualMap.constructor | scripts/visuals.js:14-73 | nothing active, the picture not loaded, and an empty panel of four boxes on the right |
| Maps.VisualMap.OnImageLoaded | scripts/visuals.js:55-62 | the picture's bytes are sampled into channel tables |
| Maps.VisualMap.PickAt | scripts/visuals.js:183-190 | a successful pick read a loaded picture inside its width, and picks a state of the list |
| Maps.VisualMap.Pick | scripts/visuals.js:183-190 | the pixel read and the colour's state are `PickAt` |
| Maps.VisualMap.GetStateByName | scripts/visuals.js:272-284 | the loop finds `FirstNamed` |
| Maps.VisualMap.GetStateFromColor | scripts/visuals.js:261-265 | the state is `StateFromColour` of the colour |
| Maps.VisualMap.HitOutcome | scripts/visuals.js:157-197 | a state is made active only with the picture loaded, and only a state of the list |
| Maps.VisualMap.HitTest | scripts/visuals.js:157-197 | off the canvas, `undefined` and the active state stays; otherwise the state the pixel's colour picks becomes active, and the answer is whether there is one; a fault when the picture is missing or too small |
| Maps.VisualMap.AddActiveStateToPanel | scripts/visuals.js:290-294 | the active state, if any, is added to the panel |
| Maps.ClickOnPaintedPixel | scripts/visuals.js:157-197 | clicking where a pixel of the loaded picture is drawn selects the first state named by that pixel's colour |
| Controller.Hover | scripts/custom_game_loop.js:114-120 | the panel's hit test hovers the graph's bars, and the map's hit test sets the selection |
| Controller.PressPanel | scripts/custom_game_loop.js:134-139 | a press the panel answers to is the panel's click: with no graph open, "Clear All" empties the boxes, the full boxes under the point are emptied, and "Compare" opens a graph of exactly the held states when there are any (otherwise no graph); with a graph open, "Back" closes it and the slots stay |
| Controller.PressMap | scripts/custom_game_loop.js:141-148 | any other press is the map's hit test, and a state it picks is added to the panel |
| Controller.Press | scripts/custom_game_loop.js:134-148 | a press is the panel's click when the panel answers (including the "Compare" graph of the held states); otherwise the map's hit test and add, with an open graph's bars hovered by the point |
| Controller.CustomGameLoop.constructor | scripts/custom_game_loop.js:23-40 | a fresh pointer manager and state data, with no map and no panel |
| Controller.CustomGameLoop.TryToLoadStates | scripts/custom_game_loop.js:75-80 | with all data registered, the states are generated and a new map of them is built whose panel is the loop's; otherwise nothing changes |
| Controller.CustomGameLoop.OnPointerEnter | scripts/custom_game_loop.js:99-101 | the pointer is tracked at the position, and the transform is kept |
| Controller.CustomGameLoop.OnPointerMove | scripts/custom_game_loop.js:109-121 | with the intended step: the pointer moves and the map is manipulated while a pointer is pressed; then, once loaded, the bars are hovered and the map's selection follows its hit test under the new transform |
| Controller.CustomGameLoop.MovePointer | scripts/custom_game_loop.js:113 | the pointer manager's part with the intended step: the position and the transform as `movePointer` leaves them |
| Controller.CustomGameLoop.HoverLoaded | scripts/custom_game_loop.js:114-120 | once loaded: the bars are hovered and the selection follows the map's hit test under the current transform |
| Controller.CustomGameLoop.MovePointerAsWritten | scripts/custom_game_loop.js:113 | the pointer manager's part as written: the transform and the raise of the as-written step |
| Controller.CustomGameLoop.OnPointerMoveAsWritten | scripts/custom_game_loop.js:109-121 | as the source runs it: when the step raises, the TypeError leaves the handler and the selection and every bar stay as they were; otherwise, once loaded, the bars are hovered and the selection follows the hit test |
| Controller.CustomGameLoop.OnPointerActivate | scripts/custom_game_loop.js:129-151 | the pointer is pressed and counted; before loading the handler raises; afterwards a press is the panel's click (including the "Compare" graph of the held states), or the map's selection and add with an open graph's bars hovered |
| Controller.CustomGameLoop.ActivatePointer | scripts/custom_game_loop.js:132 | the pointer is pressed and the pressed count rises by one |
| Controller.CustomGameLoop.PressLoaded | scripts/custom_game_loop.js:134-148 | once loaded, the press under the current transform, as `Controller.Press` states it (the panel's click with its "Compare" graph, or the map's hit test), leaving the pointer manager and its pointers alone |
| Controller.CustomGameLoop.ActivateLoaded | scripts/custom_game_loop.js:129-151 | once loaded: the pointer is pressed and counted, then the press acts as `Controller.Press` states it, including the graph "Compare" opens |
| Controller.CustomGameLoop.OnPointerDeactivate | scripts/custom_game_loop.js:159-161 | the pointer is released and the pressed count drops |
| Controller.CustomGameLoop.OnPointerLeave | scripts/custom_game_loop.js:169-171 | the pointer is no longer tracked, and the transform is kept |

## Left out

- Drawing is not modelled: the `draw` functions, `displayActiveState`, `Key`, `generateKey`, `Debugger`, canvas creation and `setCanvasSize`.
- Loading is not modelled: the image's `onload` is the method `OnImageLoaded`, which receives the bytes the canvas would return. The image's `calculateScale` and `initializeBuffer`, `onLoadError`, the parsers' `onLoad`, and file fetching are I/O.
- `Math.cos`, `Math.sin` and `Math.atan2`: floating point is not modelled, so a rotation is given by its cosine and sine, and a manipulation step's turn is a parameter.
- The `getLength` of a point is a parameter of the pointer manager. Only its non-negativity is assumed where a lemma says so.
- Scaler and ORIENTATION: the screen size and pixel ratio are a `Screen` value with a positive pixel ratio. Orientation changes are not modelled.
- `Matrix.toString`, `setGraphicsTransformation`, `getM` and `getN` are display helpers and field reads.
- Affine.Inverse: requires a nonzero determinant. The source divides by zero there, and the map's hit test turns that case into no pixel (`Maps.MapPixel` is None).
- Strings.ParseInt: covers decimal and "0x" hexadecimal text after blanks and a sign. Exponents, "Infinity", and numbers beyond 2^53 are not modelled.
- Images.PositionFromPixelIndex: the row is the integer quotient `i / width`, which is what `parseInt(i / width)` reads only for images at most 10^6 pixels wide (precisely, under the condition `Images.RowReadsQuotient` states). For a wider image, `parseInt` reads the leading digit of the quotient's exponent form, so the source's pixel 1 of a 2,000,000-pixel-wide image lands in row 5, and the model does not follow it there.
- Strings.Digits: `toString` is modelled for integers only. The fraction and exponent forms of JavaScript numbers are not modelled.
- Data.StateData.SetDataSet: requires the data set to fit its key, meaning two-column tables for the figures and a list for the names. The source takes anything and would fail later.
- Tables.Table.GetColumns: requires every index in an array to name an existing column. The source would store `undefined` columns.
- Pointers and boxes are objects. Identity-sensitive code (the panel's `===` on states) compares states by value, which agrees with the source as long as each name appears once in the list.
- Gestures.PointerManager.MovePointer: requires the id to be tracked, as do OnPointerActivate and OnPointerDeactivate. The source would dereference `undefined` otherwise.
- Gestures.PointerManager.MovePointerAsWritten: requires the id to be tracked; for an untracked id the source raises a TypeError at `this.pointers[id]` (scripts/pointer_manager.js:60), and that error is not modelled.
- Gestures.PointerManager.OnPointerMoveAsWritten: requires the id to be tracked; for an untracked id the source raises a TypeError at `this.pointers[id]` (through `movePointer`, scripts/pointer_manager.js:60), and that error is not modelled.
- Controller.CustomGameLoop.MovePointerAsWritten: requires the id to be tracked; for an untracked id the source raises a TypeError at `this.pointers[id]` (through the pointer manager's `movePointer`, scripts/pointer_manager.js:60), and that error is not modelled.
- Controller.CustomGameLoop.OnPointerMoveAsWritten: requires the id to be tracked; for an untracked id the source raises a TypeError at `this.pointers[id]` (through the pointer manager's `movePointer`, scripts/pointer_manager.js:60), and that error is not modelled.
- Controller.CustomGameLoop.OnPointerMove: requires the id to be tracked; for an untracked id the source raises a TypeError at `this.pointers[id]` (through the pointer manager's `movePointer`, scripts/pointer_manager.js:60), and that error is not modelled.
- Controller.CustomGameLoop.MovePointer: requires the id to be tracked; for an untracked id the source raises a TypeError at `this.pointers[id]` (through the pointer manager's `movePointer`, scripts/pointer_manager.js:60), and that error is not modelled.
- Controller.CustomGameLoop.OnPointerActivate: requires the id to be tracked; for an untracked id the source raises a TypeError at `this.pointers[id]` (through the pointer manager's `onPointerActivate`, scripts/pointer_manager.js:31), and that error is not modelled.
- Controller.CustomGameLoop.ActivatePointer: requires the id to be tracked; for an untracked id the source raises a TypeError at `this.pointers[id]` (through the pointer manager's `onPointerActivate`, scripts/pointer_manager.js:31), and that error is not modelled.
- Controller.CustomGameLoop.ActivateLoaded: requires the id to be tracked; for an untracked id the source raises a TypeError at `this.pointers[id]` (through the pointer manager's `onPointerActivate`, scripts/pointer_manager.js:31), and that error is not modelled.
- Controller.CustomGameLoop.OnPointerDeactivate: requires the id to be tracked; for an untracked id the source raises a TypeError at `this.pointers[id]` (through the pointer manager's `onPointerDeactivate`, scripts/pointer_manager.js:38), and that error is not modelled.
- Gestures.PointerManager.MovePointer: takes the intended manipulation step, which never raises. The source's step raises a TypeError after the zoom whenever a pointer is pressed and the previous radius is positive. That behaviour is `Gestures.PointerManager.MovePointerAsWritten`.
- Gestures.PointerManager.OnPointerMove: follows MovePointer's intended step and never raises. The source's behaviour is `Gestures.PointerManager.OnPointerMoveAsWritten`.
- Controller.CustomGameLoop.OnPointerMove: follows the intended step, so it always reaches the hit tests once loaded. In the source, a raising step leaves the handler before them. That behaviour is `Controller.CustomGameLoop.OnPointerMoveAsWritten`.
- Controller.CustomGameLoop.MovePointer: the intended step. The source's is `Controller.CustomGameLoop.MovePointerAsWritten`.
- Panels.StatePanel.constructor: requires a positive `stateCount`. The source only ever builds a panel of four.
- Maps.VisualMap.HitTest: the source's guard `imageData === null` never fires for the `undefined` of a picture that has not loaded. The model follows the behaviour instead: reading that `undefined` is the fault in `HitOutcome`.
- `undefined` and `null` are both `None`. Where the source tests one of them with `===`, the model follows the branch the source takes on the value it actually has.

## Findings

| source | as written | input that shows it | evidently intended | confidence | as-written member | corrected member |
|---|---|---|---|---|---|---|
| scripts/util.js:219-237 | `addCommas` reverses the text, puts a comma after every three non-blank characters, reverses back and drops a leading comma; a minus sign counts as one of the characters | `addCommas(-123)` gives "-,123" | the sign, then the digits grouped from the right: "-123" | high (not executed) | Formatting.AddCommasSplitsMinusSign | Formatting.SignedCommasOfInteger |
| scripts/pointer_manager.js:114-115 | the turn step calls `movedPointer.getPreviousPosition()`, which `Pointer` does not define | any move while a pointer is pressed and the previous radius is positive (two pointers apart) raises a TypeError after the zoom and before the turn | pan, zoom and turn about the pivot, so the map follows the fingers | high (not executed) | Gestures.PointerManager.OnManipulationAsWritten | Gestures.PointerManager.OnManipulation |
