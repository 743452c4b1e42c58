# Sequential geometry of a concurrent Rubik's cube

This project is a Dafny model of the sequential core of a Java Rubik's cube that many threads may turn at once. It covers the cube's squares and the geometry of a rotation, but not the concurrency protocol around them:

- the enums `Side`, `Color`, `AxisGroup` and `WorkingGroup`;
- the `Cube` grid, with its accessors, `solve`, `isSolved`, `isLegal`, `toString`, `getCopyOfSquares`, `equals` and `applySequenceOfRotations`;
- the `Rotation` base class, with its square swaps, line swaps, reversals, reflections and face turns;
- the six rotation subclasses, each with its axis group, its plane and the cycle of four lines it performs;
- the tests' permutation generator, `addPermutations` and `generatePermutations`.

The Java cube stores each face as a flat row-major array `squares[side][row * size + col]`. That index, like every Java `int`, wraps around at 32 bits, and the model computes it that way. The model keeps each face as a grid of rows. The flat layout is recovered through two views: `Squares` gives each face as a row-major sequence, and `Flatten` gives every square in `toString` order. Lemmas relate the indices of the two layouts.

Every Java loop that swaps squares is modelled as the list of swaps it performs. An `Exchange` is one `swapSquareColors` call. `Exchanges.Source` gives, for each square, the square whose colour it holds afterwards. Each loop has a proved closed form for this map; for example, `reverseRow` reads the row backwards. The closed forms compose into one map per rotation, `RotationSource`, which is the end-face quarter-turn followed by the ring of four lines. The rotation laws are proved on that map and lifted to cubes by `ApplyAt` and `CubeExt`:

- order four;
- antagonists undo each other;
- rotations about the same axis commute;
- squares outside the slice stay put;
- colour counts are kept.

## Model

| member | source | states |
|---|---|---|
| CubeSides.Side.Opposite | src/concurrentcube/Side.java:36-46 | the six faces have an opposite face different from themselves; the sentinels NoSide and SIDES fail with InvalidSide |
| CubeSides.FromInt | src/concurrentcube/Side.java:28-30 | fromInt indexes values(): it succeeds exactly for ordinals 0..7, and ordinals 0..5 give the face with that code |
| CubeSides.OppositeInvolution | src/concurrentcube/Side.java:36-46 | opposite is an involution with no fixed point; it pairs Top/Bottom, Left/Right and Front/Back |
| CubeSides.FromIntIntValue | src/concurrentcube/Side.java:6-30 | the faces carry codes 0..5, and fromInt(intValue()) gives the face back |
| CubeSides.FromIntSentinels | src/concurrentcube/Side.java:13-30 | the sentinels do not round-trip: NoSide's code -1 is out of the array, and SIDES' code 6 is NoSide's ordinal |
| CubeColors.Color.CharValue | src/concurrentcube/Color.java:41-43 | the character is the ASCII digit of the colour's code, so '0'..'5' for the real colours |
| CubeColors.FromInt | src/concurrentcube/Color.java:33-35 | fromInt succeeds exactly for ordinals 0..6 and returns the colour with that code |
| CubeColors.PaintOf | src/concurrentcube/Color.java:8-35 | the real colour returned for a code 0..5 carries that code |
| CubeColors.CodesRoundTrip | src/concurrentcube/Color.java:8-35 | the real colours carry distinct codes 0..5, and fromInt(intValue()) gives the colour back |
| AxisGroups.FromInt | src/concurrentcube/AxisGroup.java:24-26 | fromInt succeeds exactly for ordinals in the values array; codes 0..3 give the group with that code |
| AxisGroups.FromSide | src/concurrentcube/AxisGroup.java:28-35 | fromSide succeeds exactly for the six faces and yields an axis code 0..2; the sentinels fail in opposite() |
| AxisGroups.AxisOf | src/concurrentcube/AxisGroup.java:28-35 | fromSide succeeds on every face, with TopBottom for Top and Bottom, LeftRight for Left and Right, and FrontBack for Front and Back |
| AxisGroups.FromSideOpposite | src/concurrentcube/AxisGroup.java:28-35 | a face and its opposite have the same axis; Top, Left and Front name TopBottom, LeftRight and FrontBack |
| AxisGroups.SameAxisIff | src/concurrentcube/AxisGroup.java:28-35 | two faces have the same axis if and only if they are equal or opposite |
| AxisGroups.OtherAxes | src/concurrentcube/AxisGroup.java:4-35 | (a+1)%3 and (a+2)%3 are the axis codes of exactly the faces that are neither equal nor opposite to a face on axis a |
| WorkingGroups.FromSide | src/concurrentcube/WorkingGroup.java:26-33 | fromSide succeeds exactly for the six faces, with a group code 0..2 |
| WorkingGroups.FromSideOpposite | src/concurrentcube/WorkingGroup.java:26-33 | a face and its opposite share a working group; the primary faces name theirs |
| WorkingGroups.AgreesWithAxisGroup | src/concurrentcube/WorkingGroup.java:6-33 | for every side, the working group and the axis group have the same code or both fail; both count three axes |
| JavaInts.Wrap32 | src/concurrentcube/Cube.java:28 | Java's int result of an exact value v lies in [-2^31, 2^31), differs from v by a multiple of 2^32, and equals v when v is already an int |
| JavaInts.WrapPeriodic | src/concurrentcube/Cube.java:28 | exact values 2^32 apart wrap to the same int |
| JavaInts.WrapAdd | src/concurrentcube/Cube.java:28 | wrapping the product before adding gives the same int as wrapping the exact sum once |
| Cubes.Put | src/concurrentcube/Cube.java:43-45 | painting a square keeps the cube well formed and the same size |
| Cubes.PutAt | src/concurrentcube/Cube.java:43-45 | after painting x with v, x holds v and every other square keeps its colour |
| Cubes.CubeExt | src/concurrentcube/Cube.java:13-14 | two cubes of one size with the same colour on every square are equal |
| Cubes.SolvedColor | src/concurrentcube/Cube.java:128-137 | the colour of face f on a solved cube has f's code, as Color.fromInt(side) |
| Cubes.Solve | src/concurrentcube/Cube.java:128-137 | solve keeps the size, and every square then holds the colour whose code is its face's code |
| Cubes.MaxSizeBound | src/concurrentcube/Cube.java:75 | 46340 is the largest size whose size * size fits in a Java int, the length of each face array |
| Cubes.NewCube | src/concurrentcube/Cube.java:62-79 | the constructor requires size > 0 and yields a solved cube of that size |
| Cubes.SolvedIffSolve | src/concurrentcube/Cube.java:128-137 | a cube is solved if and only if it equals the result of solving it |
| Cubes.SquaresSolvedIff | src/concurrentcube/Cube.java:179-191 | isSolved's scan (every cell squares[side][k] equals Color.fromInt(side)) holds if and only if every square shows its face's colour |
| Cubes.RowMajor | src/concurrentcube/Cube.java:27-29 | the flat index of square x in its face array is row * size + col, and it is below size * size |
| Cubes.Offset | src/concurrentcube/Cube.java:238-239 | toString's index col + size * (row + size * side) equals size*size*side + row*size + col and is below 6*size*size |
| Cubes.FaceCells | src/concurrentcube/Cube.java:75 | one face laid out row-major has size * size cells |
| Cubes.Flatten | src/concurrentcube/Cube.java:233-243 | every square listed face by face, then row by row: 6 * size * size entries |
| Cubes.FlattenIndex | src/concurrentcube/Cube.java:235-241 | the flat listing holds square x at toString's offset of x |
| Cubes.FlattenPut | src/concurrentcube/Cube.java:43-45 | painting one square changes the flat listing at exactly that square's offset |
| Cubes.Squares | src/concurrentcube/Cube.java:197-203 | getCopyOfSquares gives six arrays of size*size cells, and cell [side][row*size+col] holds that square's colour |
| Cubes.Unflatten | src/concurrentcube/Cube.java:27-29 | a flat face index k stands for the in-range square with row * size + col == k |
| Cubes.CellIndex | src/concurrentcube/Cube.java:28 | Java's index row * size + col, wrapped after the product and again after the sum, equals the exact value wrapped once to a 32-bit int |
| Cubes.ReadCell | src/concurrentcube/Cube.java:28 | reading squares[side][k] succeeds exactly for a real face and 0 <= k < size*size, and returns the colour of the square k stands for |
| Cubes.GetSquareColor | src/concurrentcube/Cube.java:27-29 | getSquareColor succeeds exactly for a real face and a 32-bit wrapped index row*size+col inside the face, and returns the colour of the square at that index |
| Cubes.RowMajorInjective | src/concurrentcube/Cube.java:27-29 | distinct in-range squares of one face have distinct flat indices |
| Cubes.RowMajorFits | src/concurrentcube/Cube.java:28 | on a cube of size at most 46340, an in-range square's index row*size+col is an int, so it does not wrap |
| Cubes.GetInRange | src/concurrentcube/Cube.java:27-29 | on a cube of size at most 46340, getSquareColor of an in-range square returns that square's colour |
| Cubes.GetRowWraps | src/concurrentcube/Cube.java:27-29 | rows k apart read the same cell whenever k * size is a multiple of 2^32, because the index wraps |
| Cubes.GetAliasSizeFour | src/concurrentcube/Cube.java:27-29 | on a size-4 cube, the int rows 2^30 and 0 read the same cells |
| Cubes.GetAliasSizeThree | src/concurrentcube/Cube.java:27-29 | on a size-3 cube, getSquareColor(side, 1431655766, 0) returns the colour of square (side, 0, 2), since 1431655766*3 wraps to 2 |
| Cubes.WriteCell | src/concurrentcube/Cube.java:44 | writing squares[side][k] succeeds exactly for a real face and 0 <= k < size*size, and keeps the cube well formed and the same size |
| Cubes.WriteThenRead | src/concurrentcube/Cube.java:28-44 | after writing cell k of a face, reading that cell gives the new colour and reading any other cell gives what it gave before |
| Cubes.SetSquareColor | src/concurrentcube/Cube.java:43-45 | setSquareColor fails under exactly the conditions getSquareColor fails under, at the same wrapped index; when it succeeds it keeps the size |
| Cubes.SetThenGet | src/concurrentcube/Cube.java:27-45 | after a set, a get with the same arguments returns the new colour |
| Cubes.SetThenGetOther | src/concurrentcube/Cube.java:27-45 | after a set, a get of another side or of another wrapped index (or an invalid get) returns what it did before |
| Cubes.EqualsIff | src/concurrentcube/Cube.java:216-229 | equals (same size and deep-equal arrays) holds if and only if the cubes are the same |
| Cubes.ToString | src/concurrentcube/Cube.java:231-244 | toString succeeds exactly when 6*size*size fits in an int. Otherwise it throws: NegativeArraySizeException if the length wraps below zero, an index exception if it wraps to a shorter array. On success the string has 6*size*size digits, and the digit at square x's offset is the charValue of x's colour |
| Cubes.OffsetFormula | src/concurrentcube/Cube.java:238-239 | toString's index expression regroups to face block plus row-major index |
| Cubes.CountRow | src/concurrentcube/Cube.java:159-163 | the inner loop of isLegal adds each square of a row to its colour's count |
| Cubes.CountFace | src/concurrentcube/Cube.java:158-164 | the middle loop adds every square of a face to the counts |
| Cubes.CountColors | src/concurrentcube/Cube.java:157-164 | after the counting loops, colorOccurrences[k] is the number of squares of colour k |
| Cubes.IsLegal | src/concurrentcube/Cube.java:156-172 | isLegal returns true if and only if each of the six colours occurs exactly size*size times |
| Cubes.LegalUnderWrap | src/concurrentcube/Cube.java:156-172 | on a cube of size at most 46340, the int-wrapped colour counts all equal size*size if and only if the exact counts do, so isLegal's overflowing counters return the same answer |
| Cubes.CountsAtLeast | src/concurrentcube/Cube.java:166-171 | six counts, each at least w and summing to 6w, are all w |
| Cubes.SquareFits | src/concurrentcube/Cube.java:75 | size*size is an int for every size up to 46340 |
| Cubes.WrapLower | src/concurrentcube/Cube.java:161 | a non-negative count that wraps to an int w in [0, 2^31) is at least w |
| Cubes.CountSumAdd | src/concurrentcube/Cube.java:161 | one more square of colour p adds one to the summed counts of the codes below k that include p's code |
| Cubes.CountSumAll | src/concurrentcube/Cube.java:157-164 | the six colour counts of a list of squares add up to its length |
| Cubes.SolveFlatten | src/concurrentcube/Cube.java:128-137 | a solved cube lists size*size copies of each face's colour, face after face |
| Cubes.RepeatCount | src/concurrentcube/Cube.java:128-137 | a face painted in one colour holds m squares of that colour and none of any other |
| Cubes.SolvedBlockCount | src/concurrentcube/Cube.java:128-137 | solved face i holds m squares of colour i and none of any other colour |
| Cubes.SolvedPrefixCount | src/concurrentcube/Cube.java:128-137 | the first k faces of a solved cube hold m squares of each colour below k and none of the others |
| Cubes.SolveLegal | src/concurrentcube/Cube.java:128-172 | a solved cube is legal |
| Cubes.ToStringSolved | src/concurrentcube/Cube.java:231-244 | on a solved cube whose 6*size*size fits in an int, toString succeeds and character i is the digit i / (size*size), the index of its face |
| RotationSteps.SwapSquareColors | src/concurrentcube/Rotations/Rotation.java:102-106 | swapSquareColors keeps the cube well formed and the same size |
| RotationSteps.SwapSquareColorsAt | src/concurrentcube/Rotations/Rotation.java:102-106 | the two named squares trade colours, and every other square keeps its colour |
| RotationSteps.SwapKeepsBag | src/concurrentcube/Rotations/Rotation.java:102-106 | a swap keeps the number of squares of every colour |
| RotationSteps.SwapTwice | src/concurrentcube/Rotations/Rotation.java:102-106 | swapping the same two squares twice restores the cube |
| RotationSteps.SwapAllAt | src/concurrentcube/Rotations/Rotation.java:102-106 | after a list of swaps, square x holds the colour that square Source(es, x) held before |
| RotationSteps.SwapAllBag | src/concurrentcube/Rotations/Rotation.java:102-106 | any list of swaps keeps the number of squares of every colour |
| RotationSteps.SwapAllAppend | src/concurrentcube/Rotations/Rotation.java:102-106 | performing es1 + es2 is performing es1, then es2 |
| Exchanges.SwapInvolution | src/concurrentcube/Rotations/Rotation.java:102-106 | applying the same swap twice returns every square to where it was |
| Exchanges.SourceWithin | src/concurrentcube/Rotations/Rotation.java:102-106 | swaps between in-range squares keep every in-range square in range |
| Exchanges.SourceAppend | src/concurrentcube/Rotations/Rotation.java:102-106 | the source map of es1 + es2 looks up es2 first, then es1 |
| SwapLoops.RowAndRowSwapsSource | src/concurrentcube/Rotations/Rotation.java:141-145 | the swapRowAndRow loop, run from column col on, makes the two rows trade places from that column |
| SwapLoops.ColumnAndColumnSwapsSource | src/concurrentcube/Rotations/Rotation.java:128-132 | the swapColumnAndColumn loop makes the two columns trade places from its starting row |
| SwapLoops.ColumnAndRowSwapsSource | src/concurrentcube/Rotations/Rotation.java:115-119 | for distinct sides, the swapColumnAndRow loop makes column col (top-down) and row `row` (left to right) trade places |
| SwapLoops.ReverseRowSwapsSource | src/concurrentcube/Rotations/Rotation.java:152-156 | the reverseRow loop with i and j meeting in the middle reverses the row between them |
| SwapLoops.ReverseColumnSwapsSource | src/concurrentcube/Rotations/Rotation.java:163-167 | the reverseColumn loop reverses the column between i and j |
| SwapLoops.DiagonalRowSwapsSource | src/concurrentcube/Rotations/Rotation.java:175-177 | the inner loop of reflectDiagonally swaps row i with column i beyond the diagonal |
| SwapLoops.DiagonalSwapsSource | src/concurrentcube/Rotations/Rotation.java:173-179 | the nested loops of reflectDiagonally transpose the face from row i on |
| SwapLoops.HorizontalRowSwapsSource | src/concurrentcube/Rotations/Rotation.java:187-189 | the inner loop of reflectHorizontally mirrors one row left to right |
| SwapLoops.HorizontalSwapsSource | src/concurrentcube/Rotations/Rotation.java:185-191 | the nested loops of reflectHorizontally mirror every row from i on |
| SwapLoops.VerticalRowSwapsSource | src/concurrentcube/Rotations/Rotation.java:199-201 | the inner loop of reflectVertically swaps rows i and size-1-i |
| SwapLoops.VerticalSwapsSource | src/concurrentcube/Rotations/Rotation.java:197-203 | the nested loops of reflectVertically mirror the face top to bottom |
| RotationBlocks.SwapRowAndRowAt | src/concurrentcube/Rotations/Rotation.java:141-145 | after swapRowAndRow, every square holds the colour from the row-trading map |
| RotationBlocks.SwapColumnAndColumnAt | src/concurrentcube/Rotations/Rotation.java:128-132 | after swapColumnAndColumn, every square holds the colour from the column-trading map |
| RotationBlocks.SwapColumnAndRowAt | src/concurrentcube/Rotations/Rotation.java:115-119 | after swapColumnAndRow on distinct sides, every square holds the colour from the column/row-trading map |
| RotationBlocks.ReverseRowAt | src/concurrentcube/Rotations/Rotation.java:152-156 | after reverseRow the row reads backwards, and every other square keeps its colour |
| RotationBlocks.ReverseRowTwice | src/concurrentcube/Rotations/Rotation.java:152-156 | reversing the same row twice restores the cube |
| RotationBlocks.ReverseColumnAt | src/concurrentcube/Rotations/Rotation.java:163-167 | after reverseColumn the column reads backwards, and every other square keeps its colour |
| RotationBlocks.ReverseColumnTwice | src/concurrentcube/Rotations/Rotation.java:163-167 | reversing the same column twice restores the cube |
| RotationBlocks.ReflectDiagonallyAt | src/concurrentcube/Rotations/Rotation.java:173-179 | reflectDiagonally transposes the face: new[i][j] = old[j][i] |
| RotationBlocks.ReflectDiagonallyTwice | src/concurrentcube/Rotations/Rotation.java:173-179 | transposing twice restores the cube |
| RotationBlocks.ReflectHorizontallyAt | src/concurrentcube/Rotations/Rotation.java:185-191 | reflectHorizontally gives new[i][j] = old[i][size-1-j] on the face |
| RotationBlocks.ReflectHorizontallyTwice | src/concurrentcube/Rotations/Rotation.java:185-191 | mirroring left to right twice restores the cube |
| RotationBlocks.ReflectVerticallyAt | src/concurrentcube/Rotations/Rotation.java:197-203 | reflectVertically gives new[i][j] = old[size-1-i][j] on the face |
| RotationBlocks.ReflectVerticallyTwice | src/concurrentcube/Rotations/Rotation.java:197-203 | mirroring top to bottom twice restores the cube |
| RotationBlocks.TurnSideClockwiseAt | src/concurrentcube/Rotations/Rotation.java:220-223 | turnSideClockwise gives new[i][j] = old[size-1-j][i] on the face, and every other face is unchanged |
| RotationBlocks.TurnSideCounterClockwiseAt | src/concurrentcube/Rotations/Rotation.java:210-213 | turnSideCounterClockwise gives new[i][j] = old[j][size-1-i] on the face |
| RotationBlocks.ClockwiseUndoesCounterClockwise | src/concurrentcube/Rotations/Rotation.java:205-223 | a clockwise turn after a counter-clockwise turn of the same face restores the cube |
| RotationBlocks.CounterClockwiseUndoesClockwise | src/concurrentcube/Rotations/Rotation.java:205-223 | a counter-clockwise turn after a clockwise turn of the same face restores the cube |
| RotationBlocks.TurnSideClockwiseFour | src/concurrentcube/Rotations/Rotation.java:215-223 | four clockwise quarter-turns of a face restore the cube |
| Rotations.WrappedLayer | src/concurrentcube/Rotations/TopRotation.java:25-27 | on a size-4 cube, the Top rotation of layer 2^30 is outside Fits, yet every cell index (2^30, i) it computes wraps to (0, i) |
| Rotations.NewRotation | src/concurrentcube/Rotations/Rotation.java:30-40 | newRotation succeeds exactly for the six faces, keeping the side and layer; any other side fails with InvalidSide |
| Rotations.AssignGroup | src/concurrentcube/Rotations/TopRotation.java:13-16 | each subclass's assignGroup is AxisGroup.fromSide of its side (Top/Bottom: TopBottom, Left/Right: LeftRight, Front/Back: FrontBack) |
| Rotations.Plane | src/concurrentcube/Rotations/RightRotation.java:18-21 | the plane index is the layer for Top, Left and Front, and size-1-layer for their opposites; it is in range whenever the layer is |
| Rotations.PlaneAntagonist | src/concurrentcube/Rotations/Rotation.java:65-71 | two rotations about one axis report the same plane if and only if they are the same rotation or antagonists (opposite side, mirrored layer) |
| Rotations.ApplyBaseAt | src/concurrentcube/Rotations/Rotation.java:84-91 | the base applyRotation turns the rotation's own face clockwise for layer 0, turns the opposite face counter-clockwise for layer size-1, and changes nothing otherwise |
| Rotations.TopSwapsSource | src/concurrentcube/Rotations/TopRotation.java:25-27 | the three row swaps cycle row `layer`: Left takes Front's row, Front takes Right's, Right takes Back's, Back takes Left's |
| Rotations.LeftSwapsSource | src/concurrentcube/Rotations/LeftRotation.java:25-30 | the swaps and reversals cycle column `layer`: Bottom takes Front's, Front takes Top's, Top takes Back's column size-1-layer upside down, Back's takes Bottom's upside down |
| Rotations.FrontSwapsSource | src/concurrentcube/Rotations/FrontRotation.java:25-30 | the swaps and reversals cycle the plane: Left's column size-1-layer takes Bottom's row `layer`, Right's column `layer` takes Top's row size-1-layer, and those rows take the columns reversed |
| Rotations.RightSwapsSource | src/concurrentcube/Rotations/RightRotation.java:25-30 | the swaps and reversals cycle column size-1-layer: Top takes Front's, Front takes Bottom's, Bottom takes Back's column `layer` upside down, Back's takes Top's upside down |
| Rotations.BackSwapsSource | src/concurrentcube/Rotations/BackRotation.java:25-30 | the swaps and reversals cycle the plane: Left's column `layer` takes Top's row `layer` reversed, Right's column size-1-layer takes Bottom's row reversed, Top's row takes Right's column and Bottom's row takes Left's column |
| Rotations.BottomSwapsSource | src/concurrentcube/Rotations/BottomRotation.java:25-27 | the three row swaps cycle row size-1-layer: Left takes Back's row, Back takes Right's, Right takes Front's, Front takes Left's |
| Rotations.CycleSwapsSource | src/concurrentcube/Rotations/Rotation.java:30-40 | dispatching on the side, the subclass's swaps move every square as that side's ring map says |
| Rotations.CycleAt | src/concurrentcube/Rotations/TopRotation.java:24-28 | after the subclass's part of applyRotation, every square holds the colour its ring map names |
| Rotations.ApplyAt | src/concurrentcube/Rotations/Rotation.java:73-91 | after applyRotation (the subclass's cycle, then the base end-face turn), square x holds the colour RotationSource names |
| RotationLaws.PlanesDisjoint | src/concurrentcube/Rotations/Rotation.java:65-71 | two different planes of one axis share no square |
| RotationLaws.EndSourceStays | src/concurrentcube/Rotations/Rotation.java:84-91 | the end-face turn moves only squares of the end face, and keeps them on it |
| RotationLaws.RingSourceAvoidsEndFace | src/concurrentcube/Rotations/TopRotation.java:24-28 | the ring neither moves a square of the end face nor moves any square onto it |
| RotationLaws.RotationSourceSplit | src/concurrentcube/Rotations/Rotation.java:73-91 | every square is moved by the end-face turn or by the ring, never by both |
| RotationLaws.RingSourceInSlice | src/concurrentcube/Rotations/Rotation.java:65-71 | the ring moves only squares of the rotation's slice, within the slice |
| RotationLaws.EndFaceInSlice | src/concurrentcube/Rotations/Rotation.java:65-91 | the end face turned by an outer layer belongs to that layer's slice |
| RotationLaws.RotationSourceInSlice | src/concurrentcube/Rotations/Rotation.java:65-91 | a rotation fixes every square outside its slice and keeps slice squares inside it |
| RotationLaws.EndSourceFour | src/concurrentcube/Rotations/Rotation.java:84-91 | four end-face quarter-turns bring every square back |
| RotationLaws.RingSourceFour | src/concurrentcube/Rotations/Rotation.java:73-83 | four ring quarter-turns bring every square back |
| RotationLaws.RotationSourceFour | src/concurrentcube/Rotations/Rotation.java:73-91 | a rotation's map composed four times with itself is the identity |
| RotationLaws.ApplyFour | src/tests/CubeTest.java:489-524 | four applications of the same rotation restore any cube |
| RotationLaws.Antagonist | src/tests/CubeTest.java:627-652 | the antagonist (opposite side, layer size-1-layer) fits, and has the same axis group and plane as the rotation but is a different rotation |
| RotationLaws.EndSourceAntagonist | src/concurrentcube/Rotations/Rotation.java:84-91 | on a cube larger than one, the end-face turns of antagonists undo each other |
| RotationLaws.RingSourceAntagonist | src/concurrentcube/Rotations/TopRotation.java:24-28 | the ring maps of antagonists undo each other |
| RotationLaws.AntagonistEndFace | src/concurrentcube/Rotations/Rotation.java:84-91 | when the size is larger than one, antagonists turn the same end face |
| RotationLaws.EndSourceSizeOne | src/concurrentcube/Rotations/Rotation.java:84-91 | on a cube of size one, composing the end-face turns of a rotation and its antagonist moves nothing |
| RotationLaws.RotationSourceAntagonist | src/tests/CubeTest.java:627-652 | the rotation's map undoes its antagonist's map on every square |
| RotationLaws.RotationSourceAntagonistBack | src/tests/CubeTest.java:627-652 | the antagonist's map undoes the rotation's map on every square |
| RotationLaws.RotationSourceCommute | src/concurrentcube/Rotations/Rotation.java:59-71 | the maps of two rotations with the same axis group commute |
| RotationLaws.ApplyOutsideSlice | src/concurrentcube/Rotations/Rotation.java:65-91 | applyRotation leaves every square outside the rotation's slice unchanged |
| RotationLaws.ApplyAntagonist | src/tests/CubeTest.java:627-652 | applying the antagonist and then the rotation restores any cube |
| RotationLaws.ApplyCommute | src/concurrentcube/Rotations/Rotation.java:59-71 | two rotations with the same axis group give the same cube in either order |
| RotationLaws.TurnSideClockwiseBag | src/concurrentcube/Rotations/Rotation.java:220-223 | a clockwise face turn keeps the number of squares of every colour |
| RotationLaws.TurnSideCounterClockwiseBag | src/concurrentcube/Rotations/Rotation.java:210-213 | a counter-clockwise face turn keeps the number of squares of every colour |
| RotationLaws.ApplyBag | src/concurrentcube/Rotations/Rotation.java:73-91 | applyRotation keeps the number of squares of every colour |
| RotationLaws.ApplyLegal | src/concurrentcube/Cube.java:152-172 | a cube is legal after applyRotation if and only if it was legal before |
| RotationLaws.ApplySolvedAt | src/concurrentcube/Cube.java:128-137 | after one rotation of a solved cube, square x shows the colour of the face its source square lies on |
| SolvedArrangements.FaceListAfter | src/concurrentcube/Rotations/Rotation.java:73-91 | on a solved 3x3x3 cube after any rotation, each face reads, row-major, as the FaceAfter listing of source-face colours |
| SolvedArrangements.TopTurnArrangement | src/tests/CubeTest.java:734-789 | turning layer 0 of Top on a solved 3x3x3 cube gives the six faces the test expects |
| SolvedArrangements.LeftTurnArrangement | src/tests/CubeTest.java:791-847 | turning layer 0 of Left on a solved 3x3x3 cube gives the six faces the test expects |
| SolvedArrangements.FrontTurnArrangement | src/tests/CubeTest.java:849-905 | turning layer 0 of Front on a solved 3x3x3 cube gives the six faces the test expects |
| SolvedArrangements.RightTurnArrangement | src/tests/CubeTest.java:907-963 | turning layer 0 of Right on a solved 3x3x3 cube gives the six faces the test expects |
| SolvedArrangements.BackTurnArrangement | src/tests/CubeTest.java:965-1021 | turning layer 0 of Back on a solved 3x3x3 cube gives the six faces the test expects |
| SolvedArrangements.BottomTurnArrangement | src/tests/CubeTest.java:1023-1079 | turning layer 0 of Bottom on a solved 3x3x3 cube gives the six faces the test expects |
| RotationSequences.ApplyAll | src/concurrentcube/Cube.java:209-214 | applying a list of rotations in order keeps the size, the multiset of colours and legality |
| RotationSequences.ApplyAllAppend | src/concurrentcube/Cube.java:209-214 | applying a + b is applying a, then b |
| RotationSequences.ApplySequence | src/concurrentcube/Cube.java:209-214 | whatever the cube held before, applySequenceOfRotations leaves it legal; with no rotations, it is solved |
| RotationSequences.ApplySequenceSnoc | src/concurrentcube/Cube.java:209-214 | one more rotation at the end of the list is applied to the previous result |
| RotationSequences.ApplyAllCons | src/concurrentcube/Cube.java:211-213 | a list starting with rot applies rot first, then the rest |
| RotationSequences.ApplyTurnsFour | src/tests/CubeTest.java:489-524 | any multiple of four copies of one rotation restores any cube |
| RotationSequences.ApplyThenAntagonist | src/tests/CubeTest.java:627-652 | a rotation followed by its antagonist restores any cube |
| RotationSequences.ApplyPair | src/tests/CubeTest.java:643-646 | a (rotation, antagonist) pair at the head of a list leaves the cube as the rest of the list alone would |
| RotationSequences.ApplyPairsStep | src/tests/CubeTest.java:643-646 | adding one more pair to the list of pairs does not change the resulting cube |
| RotationSequences.ApplyAntagonistPairs | src/tests/CubeTest.java:654-679 | any number of (rotation, antagonist) pairs applied in turn restores any cube |
| Permutations.Swap | src/test/Utils.java:75-77 | Collections.swap exchanges the two entries and keeps the others |
| Permutations.AddPermutations | src/test/Utils.java:73-82 | addPermutations returns the list in the order it was given and appends exactly Leaves(perm, k) to acc |
| Permutations.GeneratePermutations | src/test/Utils.java:84-93 | every list produced is a permutation of the input; there are n! of them for n > 0 and none for the empty list; every ordering of a non-empty input is among them |
| Permutations.LeavesArePermutations | src/test/Utils.java:73-82 | every list appended at depth k is a permutation of the list given |
| Permutations.LeavesCount | src/test/Utils.java:73-82 | the call at depth k < n appends (n-k)! lists, and the call at depth n appends none |
| Permutations.LoopLeavesCount | src/test/Utils.java:74-78 | the loop from iteration i appends (n-i) * (n-k-1)! lists |
| Permutations.LeavesComplete | src/test/Utils.java:73-82 | every list agreeing with perm before k, with the same elements from k on, is appended by the call at depth k |
| Permutations.LoopLeavesComplete | src/test/Utils.java:74-78 | a list whose k-th element sits at position i' >= i of perm is appended by the loop from iteration i |
| Permutations.SwapIntoPlace | src/test/Utils.java:75 | swapping q[k], found at position i, into position k makes perm agree with q up to k+1, with the same elements after it |
| Permutations.SwapMultiset | src/test/Utils.java:75-77 | a swap keeps the list's multiset |

## Left out

- The concurrency layer is not modelled:
  - ProcessManager;
  - `rotate` and `show` with their entry and exit protocols;
  - the before/after hooks;
  - the reader ID counter;
  - the rotation ID counter.

  The model covers only what one rotation or one read does to the squares.
- `shuffle`, `randomSide`, `randomColor` and `randomRotation` draw random values, so they are left out.
- `toStringDebug` is a logging aid and is left out.
- Logging and timing are left out: `Stopwatch`, `WriterTask`, `ReaderTask`, `interruptWithProbability` and the logging helpers in src/test/Utils.java.
- Cubes.NewCube: for every size above 46340 the Java constructor throws, and the model builds a solved cube there instead. `size * size` overflows an int, and there are two cases:
  - the wrapped length is negative, and the allocation throws NegativeArraySizeException;
  - the wrapped length L is non-negative and smaller than size * size. Then `solve()` writes the indices row * size + col in increasing order, none of which wraps before L, so its write at index L throws ArrayIndexOutOfBoundsException.
- On a cube Java can build, three int computations can overflow:
  - the index row * size + col of getSquareColor and setSquareColor, modelled with Java's 32-bit wrap-around (`JavaInts.Wrap32`);
  - toString's length 6 * size * size, modelled the same way;
  - isLegal's colour counters, which wrap once one colour covers more than 2^31 - 1 squares (sizes 18919 to 46340). `Cubes.IsLegal` counts exactly, and `Cubes.LegalUnderWrap` proves that the wrapped counters give the same answer.
- Rotations.Apply requires 0 <= layer < size, and layers outside that range are not modelled. In Java, such a layer does one of two things:
  - It can throw ArrayIndexOutOfBoundsException, possibly after some swaps were already done; that partial mutation is not modelled.
  - It can run without error, when every index row * size + col it computes wraps back into the face. For example, with Top, size 4 and layer 2^30, the row index 2^30 * 4 wraps to 0. TopRotation then cycles row 0 of the side faces, and the base applyRotation skips the end-face turn because the layer is neither 0 nor size - 1. `Rotations.WrappedLayer` records this case.
- In Java, a `Rotation` holds a reference to the cube it was created for. In the model, a rotation is just a side and a layer, and it is applied to whatever cube is given.
- RotationBlocks.SwapColumnAndRowAt: its closed form requires the two sides to differ. Every call in the rotation subclasses passes distinct sides.
- Colours are the subset type `Paint`, which excludes the sentinel `COLORS`. The Java arrays could hold it, but nothing in the core stores it.
- In the source, TopRotation and LeftRotation define `getPlane()`, while the base class declares `getLayerDisregardingOrientation()` and the other four subclasses implement that method. The model has one `Rotations.Plane` for all six subclasses: the layer for Top, Left and Front, and size-1-layer for Right, Back and Bottom.
- A subclass's sequence of `swap…`/`reverse…` calls is modelled as one list of square swaps. The cube-level laws are stated on the composed map rather than on every intermediate cube.
- SolvedArrangements.TopTurnArrangement (and the five others) state the test's expected faces through FaceAfter, the listing of source-face colours. The link to an actual cube is FaceListAfter, one face at a time. No single lemma states the whole cube equality, because that statement is too costly for the solver.
- The concurrent tests (parallel rotations of one axis; concurrent antagonists) are covered only through their sequential content: same-axis commutation, antagonist cancellation and order four.
