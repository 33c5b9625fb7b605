# UI gradient and flippable mesh effects

This project models two mesh effects for a retained-mode UI toolkit. Each one
rewrites the engine's vertex buffer (a `VertexHelper`: a vertex list and a
flat list of triangle indices) just before a UI element is drawn.

- **GradientMeshEffect** paints a colour ramp over the element. There are four
  shapes:
  - *Horizontal* and *Vertical*: a linear ramp along one axis. With
    `modifyVertices` set, every triangle is first cut along the lines where
    the ramp has a key, so the colour is exact at those lines.
  - *Diamond*: the stream of triangle vertices is kept and a central vertex is
    fanned to it. The centre sits at (centre.y / 2, centre.y / 2), exactly as
    written.
  - *Radial*: the buffer is replaced by a 64-step ellipse fan around the
    bounds' half extents. The rim is not offset by the bounds centre.

  The recolouring pass blends `BlendColor(mode, vertexColour, ramp(t))` into
  each vertex, with t the vertex's ramp coordinate. The linear shapes write
  the tangent instead of the colour when `modifyTangents` is set. Diamond and
  Radial always write the colour. The setters clamp the offset to [-1, 1] and
  the zoom to [0.1, 10], and mark the vertices dirty.
- **UIFlippable** mirrors each vertex's x and/or y about the centre of the
  element's rectangle, in place.

Floating-point values are modelled as exact reals. Services the effects call
into are parameters, bundled in the `Engine` datatype:

- evaluating a gradient,
- square root,
- cosine and sine of an angle in degrees.

The same goes for the component's active flag and the rectangle centre the
flippable reads from its transform.

Module layout:

- `mesh.dfy`, module `UIMesh`: vertices, the mesh snapshot and the `VertexHelper` buffer class.
- `gradient_math.dfy`, module `GradientMath`: clamping, blending, bounds, the linear ramp coordinate and the split vertex.
- `gradient_stops.dfy`, module `GradientStops`: the specification of FindStops, which covers the key window, sorting, mapping into mesh space and merging.
- `gradient_split.dfy`, module `GradientSplit`: the triangle splitter as a function of the stream, and its lemmas.
- `gradient_spec.dfy`, module `GradientSpec`: the whole ModifyMesh pass as a function (`EffectSpec`), and its lemmas.
- `gradient_effect.dfy`, module `GradientEffect`: the class `GradientMeshEffect`, whose methods follow the source loops and are proved equal to the specification functions.
- `flippable.dfy`, module `Flippable`: the class `UIFlippable` and the mirror lemmas.

## Model

| member | source | states |
|---|---|---|
| GradientEffect.GradientMeshEffect.constructor | Runtime/GradientMeshEffect.cs:185-210 | The serialized defaults: Horizontal, Multiply, modifyVertices on, modifyTangents off, offset 0, zoom 1, a black-to-white ramp; offset and zoom in range |
| GradientEffect.GradientMeshEffect.SetBlendMode | Runtime/GradientMeshEffect.cs:216-222 | Only the blend mode changes, and the vertices are marked dirty |
| GradientEffect.GradientMeshEffect.SetGradientColor | Runtime/GradientMeshEffect.cs:224-230 | Only the gradient changes, and the vertices are marked dirty |
| GradientEffect.GradientMeshEffect.SetGradientType | Runtime/GradientMeshEffect.cs:232-238 | Only the shape changes, and the vertices are marked dirty |
| GradientEffect.GradientMeshEffect.SetModifyVertices | Runtime/GradientMeshEffect.cs:240-246 | Only modifyVertices changes, and the vertices are marked dirty |
| GradientEffect.GradientMeshEffect.SetGradientOffset | Runtime/GradientMeshEffect.cs:248-254 | The offset becomes the value clamped to [-1, 1]; nothing else changes; the range invariant is kept |
| GradientEffect.GradientMeshEffect.SetGradientZoom | Runtime/GradientMeshEffect.cs:256-262 | The zoom becomes the value clamped to [0.1, 10]; nothing else changes; the range invariant is kept |
| GradientMath.Clamp | Runtime/GradientMeshEffect.cs:251 | The result lies in [lo, hi], and equals the input exactly when the input already lies there |
| GradientMath.ClampIsNearest | Runtime/GradientMeshEffect.cs:248-262 | The clamped value is the point of [lo, hi] nearest to the input |
| GradientMath.ClampIdempotent | Runtime/GradientMeshEffect.cs:248-262 | Clamping twice is clamping once |
| GradientMath.BlendColor | Runtime/GradientMeshEffect.cs:590-599 | Add is the channel-wise sum, Multiply the channel-wise product, Override (the default branch) the ramp colour |
| GradientMath.BlendNeutralElements | Runtime/GradientMeshEffect.cs:590-599 | Override ignores the vertex colour; white is neutral for Multiply, transparent black for Add |
| GradientMath.SeqMinIsLeast | Runtime/GradientMeshEffect.cs:268-299 | The running minimum is below every value and is one of them |
| GradientMath.SeqMaxIsGreatest | Runtime/GradientMeshEffect.cs:268-299 | The running maximum is above every value and is one of them |
| GradientMath.BoundsOfIsTight | Runtime/GradientMeshEffect.cs:268-299 | The box has non-negative size, encloses every vertex, and each of its four sides is touched by some vertex |
| GradientEffect.GradientMeshEffect.GetBounds | Runtime/GradientMeshEffect.cs:268-299 | The if / else-if scan over the vertices returns that tight box |
| GradientMath.LinearSampleUnitWindow | Runtime/GradientMeshEffect.cs:43-64 | With zoom 1 and offset 0 the ramp coordinate is 0 at the axis minimum, 1 at the maximum and 0.5 in the middle |
| GradientMath.LinearSampleAtCentre | Runtime/GradientMeshEffect.cs:43-64 | The middle of the bounds samples the ramp at 0.5 - offset * (1 - zoomOffset) for any zoom |
| GradientMath.DegenerateExtentIsConstant | Runtime/GradientMeshEffect.cs:43 | With zero extent the scale is 0 and every vertex samples the same ramp point |
| GradientMath.LinearSample | Runtime/GradientMeshEffect.cs:43-64 | The ramp coordinate of an axis position: with a zero extent (the `w == 0` branch) or at the axis minimum it is minus the shift `offset * (1 - zoomOffset) - zoomOffset` |
| GradientMath.LinearSampleMonotone | Runtime/GradientMeshEffect.cs:43-64 | For a positive extent and zoom, a position further along the axis never samples an earlier ramp point |
| GradientMath.GetPositions | Runtime/GradientMeshEffect.cs:477-494 | The three corners' x coordinates for Horizontal, y coordinates otherwise |
| GradientMath.CreateSplitVertex | Runtime/GradientMeshEffect.cs:552-588 | The split vertex lies on the stop line, takes z and normal from the first end, is white, and has a zero tangent (its in-plane position and uv interpolation are the lemmas below) |
| GradientMath.SplitRatioInUnitInterval | Runtime/GradientMeshEffect.cs:552-588 | When the stop lies between the two ends the interpolation ratio is in [0, 1] |
| GradientMath.SplitVertexOnEdge | Runtime/GradientMeshEffect.cs:552-588 | The split point is collinear with the edge's two ends |
| GradientMath.SplitUvOnEdge | Runtime/GradientMeshEffect.cs:552-588 | Both uv0 channels of the split vertex are interpolated with the position's ratio: they lie on the line through the ends' uv values at the fraction where the stop cuts the edge |
| GradientMath.SplitVertexAtEndPoints | Runtime/GradientMeshEffect.cs:552-588 | Splitting exactly at either end reproduces that end's in-plane position and uv |
| GradientStops.WindowLength | Runtime/GradientMeshEffect.cs:503-527 | The scan over key times yields no more stops than keys |
| GradientStops.WindowSound | Runtime/GradientMeshEffect.cs:503-527 | Every stop found comes from a key time strictly inside the window, as (time - start) * zoom |
| GradientStops.WindowComplete | Runtime/GradientMeshEffect.cs:503-527 | For sorted key times, every time strictly inside the window yields a stop, despite the early break |
| GradientStops.SortAscending | Runtime/GradientMeshEffect.cs:537 | The sorted list is ascending and a permutation of the input |
| GradientStops.MapStopsAscends | Runtime/GradientMeshEffect.cs:529-540 | Mapping into mesh space with a non-negative extent keeps the order |
| GradientStops.MergeSubsequence | Runtime/GradientMeshEffect.cs:538-547 | The merge keeps a subsequence of its input, never longer, with the first value always kept |
| GradientStops.MergeGaps | Runtime/GradientMeshEffect.cs:538-547 | Consecutive kept stops are at least 2 units apart |
| GradientStops.MergeAscends | Runtime/GradientMeshEffect.cs:538-547 | On an ascending input every kept stop is at least 2 above the one before |
| GradientStops.MergeKeptStep | Runtime/GradientMeshEffect.cs:542-546 | One step of the merge loop: a value within 2 of the last kept is dropped, any other joins the kept prefix |
| GradientStops.StopsLength | Runtime/GradientMeshEffect.cs:496-550 | FindStops returns at most one stop per colour key and alpha key |
| GradientStops.StopsSpacing | Runtime/GradientMeshEffect.cs:496-550 | Returned stops are at least 2 apart, and ascending by at least 2 when the extent is non-negative |
| GradientStops.StopsSubsequence | Runtime/GradientMeshEffect.cs:537-547 | The returned stops are a subsequence of the sorted, mapped window positions |
| GradientStops.StopsSound | Runtime/GradientMeshEffect.cs:496-550 | Each returned stop is the mesh-space image of a colour or alpha key time strictly inside the visible window |
| GradientEffect.GradientMeshEffect.AppendKeyStops | Runtime/GradientMeshEffect.cs:503-527 | One foreach with its break appends exactly the window of that key list |
| GradientEffect.GradientMeshEffect.MapAndMerge | Runtime/GradientMeshEffect.cs:537-547 | The in-place map-and-remove loop, with its rewinding index, computes the merge of the mapped stops |
| GradientEffect.GradientMeshEffect.FindStops | Runtime/GradientMeshEffect.cs:496-550 | The result equals the stop specification, so every GradientStops lemma applies to it |
| GradientSpec.StopSamplesKeyTime | Runtime/GradientMeshEffect.cs:496-550 | With a positive extent, the ramp coordinate of each stop returned for the linear shapes is exactly a key time inside the window |
| GradientSplit.RunStopsExtends | Runtime/GradientMeshEffect.cs:321-421 | The loop over stops only appends vertices and indices to the buffer |
| GradientSplit.SplitThroughExtends | Runtime/GradientMeshEffect.cs:312-474 | Processing one more source triangle only appends to the buffer |
| GradientSplit.SplitInStreamOrder | Runtime/GradientMeshEffect.cs:312-474 | The output for the first k triangles is a prefix of the output for the first n, for k <= n: triangles are emitted in stream order |
| GradientSplit.RunStopsUnsplit | Runtime/GradientMeshEffect.cs:321-421 | A triangle that no stop cuts (for each stop, all three corners below it, or none below it: a corner lying exactly on the stop counts as not below) emits nothing in the loop over stops and leaves no ends |
| GradientSplit.UnsplitTriangle | Runtime/GradientMeshEffect.cs:465-473 | Such a triangle, including one that only touches a stop from above, is re-emitted as it was, with three consecutive new indices |
| GradientSplit.UnsplitStream | Runtime/GradientMeshEffect.cs:312-474 | If no stop cuts any triangle (each triangle has all corners below a stop or none below it), the buffer is the stream itself with indices 0, 1, 2, ... |
| GradientSplit.UnsplitSpec | Runtime/GradientMeshEffect.cs:302-475 | The same for the whole split pass: its vertex list is the stream and its index list is the identity |
| GradientSplit.CollectFromEmpty | Runtime/GradientMeshEffect.cs:326-346 | From an empty state, the corners below the stop become exactly the origins, one start vertex each |
| GradientSplit.RunStopsSkipBelow | Runtime/GradientMeshEffect.cs:349-353 | Stops below every corner are skipped without effect |
| GradientSplit.StraddleStep | Runtime/GradientMeshEffect.cs:323-420 | At the stop a triangle crosses: one or two origins, two split ends, and one or two triangles appended over the new vertices |
| GradientSplit.StraddleFinish | Runtime/GradientMeshEffect.cs:423-466 | The clean-up then adds the corners above the stop and closes the region, totalling 5 vertices and 3 triangles |
| GradientSplit.SingleStraddle | Runtime/GradientMeshEffect.cs:312-474 | A triangle that crosses exactly one stop (no corner on a stop) appends 5 vertices and 9 indices, every index naming a new vertex |
| GradientSplit.CollectOneBelow | Runtime/GradientMeshEffect.cs:326-346 | When exactly one corner is below the stop, the scan makes it the only origin and only start vertex |
| GradientSplit.CollectOneAbove | Runtime/GradientMeshEffect.cs:326-346 | When exactly one corner is above the stop, the scan puts the corner before it first and the corner after it second, as origins and as start vertices |
| GradientSplit.StartsOneBelow | Runtime/GradientMeshEffect.cs:326-346 | With one corner below the stop, the start vertices are exactly that corner |
| GradientSplit.StartsTwoBelow | Runtime/GradientMeshEffect.cs:326-346 | With two corners below the stop, the start vertices are those two corners, in corner order or swapped by the insert-at-front rule |
| GradientSplit.StartsBelow | Runtime/GradientMeshEffect.cs:326-346 | At a crossed stop, the start vertices are the corners below the stop, each once |
| GradientSplit.StraddleEnds | Runtime/GradientMeshEffect.cs:366-384 | At a crossed stop, the two end vertices are cut on two different edges, each from a corner below the stop to a corner above it |
| GradientSplit.EndsOneBelow | Runtime/GradientMeshEffect.cs:366-384 | A lone origin is cut towards the next corner, then (the second split) towards the corner before it |
| GradientSplit.EndsOneAbove | Runtime/GradientMeshEffect.cs:366-384 | Two origins are each cut towards the one corner above the stop |
| GradientSplit.CollectRestAbove | Runtime/GradientMeshEffect.cs:326-346 | At a later stop above every corner, the new start vertices are exactly the corners above the crossed stop, in corner order |
| GradientSplit.FinalFromAbove | Runtime/GradientMeshEffect.cs:423-450 | When the crossed stop is the last one, the clean-up scan finds the corners above it, each once |
| GradientSplit.StraddleStepVerts | Runtime/GradientMeshEffect.cs:323-420 | The crossed stop's step appends the corners below it and then the two crossing-edge cuts, and keeps the cuts as ends |
| GradientSplit.StraddleTail | Runtime/GradientMeshEffect.cs:321-466 | The stops after the crossed one and the clean-up append the corners above the crossed stop and nothing else |
| GradientSplit.StraddleRun | Runtime/GradientMeshEffect.cs:321-421 | Up to and including the crossed stop, the buffer gains the corners below it and the two cuts; later stops lie above every corner |
| GradientSplit.SingleStraddlePieces | Runtime/GradientMeshEffect.cs:312-474 | For a triangle that crosses exactly one stop, the five new vertices are, in this order, the corners below the stop (each once, in some order), the cuts on two different edges that cross the stop, and the corners above the stop (each once) |
| GradientSplit.HadEndsIndexPastEnd | Runtime/GradientMeshEffect.cs:392-405 | After a split at an earlier stop, when this stop finds one new start vertex and the next corner lies above the stop, the step adds 3 vertices, yet its third triangle names index `initialCount + 3`, one past the end of the buffer |
| GradientEffect.GradientMeshEffect.AddAll | Runtime/GradientMeshEffect.cs:360-364 | The vertices are appended in order and the triangle list is kept |
| GradientEffect.GradientMeshEffect.CollectStarts | Runtime/GradientMeshEffect.cs:326-346 | The corner scan with its insert-at-front rule computes the specified origins, starts and earlyStart flag |
| GradientEffect.GradientMeshEffect.SplitEnds | Runtime/GradientMeshEffect.cs:366-384 | One split vertex per origin along the edge to its opposite corner, plus the second split for a single origin |
| GradientEffect.GradientMeshEffect.AddStopTriangles | Runtime/GradientMeshEffect.cs:392-418 | Appends the triangles specified for the hadEnds and first-stop cases; vertices unchanged |
| GradientEffect.GradientMeshEffect.SplitAtStop | Runtime/GradientMeshEffect.cs:323-420 | One iteration of the loop over stops equals the specified step, including the continue and break exits |
| GradientEffect.GradientMeshEffect.FinalStarts | Runtime/GradientMeshEffect.cs:426-445 | The corners above the last stop, not yet origins, in the specified order |
| GradientEffect.GradientMeshEffect.AddFinalTriangles | Runtime/GradientMeshEffect.cs:453-463 | Appends the one or two closing triangles for the number of final vertices |
| GradientEffect.GradientMeshEffect.FinishTriangle | Runtime/GradientMeshEffect.cs:423-473 | The clean-up after the stops closes a split triangle, or re-emits an unsplit one as it was |
| GradientEffect.GradientMeshEffect.SplitTriangle | Runtime/GradientMeshEffect.cs:314-474 | The body of the loop over source triangles takes the buffer from the output for t triangles to the output for t + 1 |
| GradientEffect.GradientMeshEffect.SplitAll | Runtime/GradientMeshEffect.cs:311-474 | After clearing, the loop over source triangles produces the specified split of the whole stream |
| GradientEffect.GradientMeshEffect.SplitTrianglesAtGradientStops | Runtime/GradientMeshEffect.cs:302-475 | No stops leaves the buffer untouched; otherwise it becomes the split of the stream at the stops FindStops returns |
| GradientSpec.DiamondCenter | Runtime/GradientMeshEffect.cs:77-78 | The Diamond centre is (centre.y / 2, centre.y / 2, z): the bounds' x centre is not used |
| GradientSpec.DiamondSample | Runtime/GradientMeshEffect.cs:103-113 | The Diamond ramp coordinate (distance to the centre times the inverse height and zoom of line 76, minus the offset) is minus the offset when the bounds have zero height, and at the centre itself when the square root of 0 is 0 |
| GradientSpec.RadialSample | Runtime/GradientMeshEffect.cs:163-175 | The Radial ramp coordinate (twice the elliptical distance to the bounds centre, axes scaled as at lines 121-122, minus the offset) is minus the offset at the bounds centre, or when the bounds are a single point, provided the square root of 0 is 0 |
| GradientSpec.RadialSampleSymmetric | Runtime/GradientMeshEffect.cs:163-175 | Mirroring a position through the bounds centre's x or y leaves its Radial ramp coordinate unchanged |
| GradientSpec.FanStripTriangles | Runtime/GradientMeshEffect.cs:95-98 | Fan triangle t is (t, t + 1, hub) |
| GradientSpec.FanIndicesInRange | Runtime/GradientMeshEffect.cs:95-100 | A closed fan over n rim vertices has 3n indices, all in 0..n |
| GradientSpec.EffectGuards | Runtime/GradientMeshEffect.cs:14-31 | An inactive component or an empty buffer is left as it is; vertices without triangles raise; any triangle list returns |
| GradientSpec.RecolorWrites | Runtime/GradientMeshEffect.cs:52-175 | Recolouring keeps position, normal and uv. Diamond and Radial write the colour whatever modifyTangents says. The linear shapes write the tangent exactly when modifyTangents is set |
| GradientSpec.RecolorAllKeepsGeometry | Runtime/GradientMeshEffect.cs:52-175 | The recolouring loops keep every vertex's geometry |
| GradientSpec.EffectWithoutModifyVertices | Runtime/GradientMeshEffect.cs:47-175 | Without modifyVertices no shape changes the triangle list, the vertex count or any vertex's geometry |
| GradientSpec.DiamondFanShape | Runtime/GradientMeshEffect.cs:80-113 | Diamond keeps the stream's vertices, adds the centre as vertex n and fans it with n triangles, all indices in range |
| GradientSpec.RadialFanLayout | Runtime/GradientMeshEffect.cs:124-161 | The radial fan has 64 rim vertices on the half-extent ellipse around the origin, the centre at index 64 on the bounds centre, and 192 indices, all in range |
| GradientSpec.RadialEffect | Runtime/GradientMeshEffect.cs:117-176 | With modifyVertices, Radial's result is the recoloured fan whatever the input's geometry |
| GradientSpec.RadialFanShape | Runtime/GradientMeshEffect.cs:124-175 | The same layout holds for the buffer after recolouring |
| GradientSpec.LinearGeometry | Runtime/GradientMeshEffect.cs:47-68 | The linear shapes' result has the split's triangles and geometry; with no stops in view the split is the identity |
| GradientEffect.GradientMeshEffect.ModifyMesh | Runtime/GradientMeshEffect.cs:14-179 | The buffer ends as EffectSpec says. It raises exactly when the stream is empty while vertices exist, and then leaves the buffer unchanged |
| GradientEffect.GradientMeshEffect.ModifyLinear | Runtime/GradientMeshEffect.cs:28-70 | The linear case: the stream is split when modifyVertices is set, then recoloured |
| GradientEffect.GradientMeshEffect.RecolorLinear | Runtime/GradientMeshEffect.cs:52-68 | Each vertex gets the linear recolouring; the triangle list is kept |
| GradientEffect.GradientMeshEffect.AddFan | Runtime/GradientMeshEffect.cs:95-100 | The fan index loop appends exactly the closed fan |
| GradientEffect.GradientMeshEffect.DiamondGeometry | Runtime/GradientMeshEffect.cs:80-101 | The buffer becomes the stream plus the central vertex, fanned |
| GradientEffect.GradientMeshEffect.ModifyDiamond | Runtime/GradientMeshEffect.cs:72-115 | The Diamond case: the fan when modifyVertices is set, then recoloured by distance to the skewed centre |
| GradientEffect.GradientMeshEffect.RecolorDiamond | Runtime/GradientMeshEffect.cs:103-113 | Each vertex gets the Diamond recolouring; the triangle list is kept |
| GradientEffect.GradientMeshEffect.RadialGeometry | Runtime/GradientMeshEffect.cs:124-161 | The buffer becomes the 64-step rim plus the centre, fanned |
| GradientEffect.GradientMeshEffect.ModifyRadial | Runtime/GradientMeshEffect.cs:117-177 | The Radial case: the ellipse fan when modifyVertices is set, then recoloured |
| GradientEffect.GradientMeshEffect.RecolorRadial | Runtime/GradientMeshEffect.cs:163-175 | Each vertex gets the Radial recolouring; the triangle list is kept |
| Flippable.Mirror | Runtime/UIFlippable.cs:66-72 | With the flag set the coordinate is reflected about the centre (r - c == c - x); otherwise it is kept |
| Flippable.MirrorTwice | Runtime/UIFlippable.cs:66-72 | Mirroring twice about the same centre restores the coordinate |
| Flippable.FlipVertexGeometry | Runtime/UIFlippable.cs:62-77 | Only x and y change. z, normal, tangent, colour and uv are kept. Each coordinate keeps its distance to the centre, and a vertex on the centre is fixed |
| Flippable.FlipAllTwice | Runtime/UIFlippable.cs:56-79 | Flipping the whole buffer twice with the same flags and centre restores it |
| Flippable.FlipAllIdentity | Runtime/UIFlippable.cs:56-79 | With both flags off the buffer is unchanged |
| Flippable.UIFlippable.constructor | Runtime/UIFlippable.cs:8-9 | Both backing fields take the given values |
| Flippable.UIFlippable.SetHorizontal | Runtime/UIFlippable.cs:16-19 | Assigns the horizontal flag only; nothing is marked dirty |
| Flippable.UIFlippable.SetVertical | Runtime/UIFlippable.cs:26-29 | Assigns the `_veritical` field only; nothing is marked dirty |
| Flippable.UIFlippable.ModifyMesh | Runtime/UIFlippable.cs:56-79 | The loop rewrites every vertex to its flipped self; the vertex count and the triangle list are kept |
| Flippable.FlipTwice | Runtime/UIFlippable.cs:56-79 | Running the effect twice with the same flags and centre leaves the buffer as it was |

## Left out

- Multi-stop splitting: SplitAtStop and AddStopTriangles model the `hadEnds` branch as written (Runtime/GradientMeshEffect.cs:392-405), and no property is proved for a triangle that crosses two or more stops. When that branch has a start vertex, it is the only one this stop added. The index `initialCount + 3` at lines 401 and 405 then names a vertex past the ones this stop added. The triangle at line 395 also treats the start vertex as an end. HadEndsIndexPastEnd exhibits such a case. Index validity is proved only for no stop, for triangles that cross no stop, and for triangles that cross exactly one; for the last, SingleStraddlePieces also says which vertices are appended.
- GradientSplit.SingleStraddle, GradientSplit.SingleStraddlePieces: for a triangle that crosses one stop, the model proves which five vertices are appended and that every index names one of them. It does not prove that the three emitted triangles tile the source triangle (which index goes with which piece), because that needs the corner order and the earlyStart case split carried through every triangle.
- GradientMath.CreateSplitVertex: when both ends share the axis coordinate, the source divides by zero and gets an IEEE infinity or NaN. The model takes the ratio as 0 instead.
- GradientMath.BlendColor, GradientSpec.RecolorWrites: the engine stores a vertex colour as `Color32`, so each colour write (Runtime/GradientMeshEffect.cs:63, 109 and 169) clamps every channel to [0, 1] and rounds it to a multiple of 1/255. The model keeps real channels. An Add blend that goes above 1, or a colour that is read back and blended again, is therefore stored differently in the source. The tangent slot is a float vector and is not clamped.
- Floating point: every float is an exact real. There is no rounding and no single-precision range, so a property such as SampleInvertsStop holds exactly here but only approximately in the source.
- `Gradient.Evaluate`, `Mathf.Sqrt`, `Mathf.Cos` and `Mathf.Sin` (in degrees) are engine code. They are uninterpreted function fields of `Engine`. `Mathf.Pow(x, 2)` is written as `x * x`.
- `IsActive()` is a parameter of ModifyMesh, and so is the rect-transform centre read by UIFlippable.ModifyMesh.
- `graphic.SetVerticesDirty()` is a ghost flag (`verticesDirty`); the graphic's rebuild is not modelled.
- VertexHelper is engine code. It is modelled by its observable behaviour: a vertex list, a triangle-index list and a vertex stream expanded through the indices. The uv1 to uv3 channels are left out. The vertices the gradient effect creates (`new UIVertex()` at Runtime/GradientMeshEffect.cs:88, 130, 140, 564 and 581) get zero uv1 to uv3; copied and recoloured vertices keep theirs.
- Gradient keys carry colour and alpha values, but only their times matter to the geometry. The engine's limit on the number of keys is not modelled.
- The property getters are plain field reads and have no members of their own.
- The editor-only `Awake` and `OnValidate` of UIFlippable reorder components through editor APIs and are left out. So are the component attributes and the serialization attributes.
