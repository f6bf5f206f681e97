# Heart demo core: mesh generators, shape oscillator, outline thinning

This project models in Dafny the parts of `camera_class.cpp`, an OpenGL demo, that do not depend on OpenGL.
The demo draws a 3D heart ringed by small superellipsoids, and their exponent oscillates over time.
Three parts are modelled, and properties of each are proved.

- **Grid mesh generators** (`generateSuperellipsoid`, `generate3DHeart`).
  - Each clears a vertex buffer and an index buffer.
  - It then fills them over a `(stacks+1) x (slices+1)` parameter grid, row by row.
  - Each vertex is five floats: x, y, z, u, v.
  - Each of the `stacks x slices` grid cells becomes two triangles, `(first, second, first+1)` and `(second, second+1, first+1)`.
  - Modules: `GridIndices` (the index loop, identical in both generators) and `Meshes` (the vertex loops and the two generators).
  - `Vectors.Vector` stands for `std::vector`, which the generators clear and append to.
- **Shape-parameter oscillator** (module `ShapeAnimation`).
  - Each frame adds the frame time to `shapeTimer`.
  - When the timer reaches 0.1 s, it is reset to 0 and `shapeParam` moves 0.1 towards its bound. At 2.5 or 0.1 the parameter is clamped and turns.
  - The parameter is kept in integer tenths, so the bounds and turns are exact.
  - `ShapeAnimator` is a class holding the three variables of `main`.
  - Its contracts tie the state after n ticks to a closed-form triangle wave.
- **Outline thinning** (module `Outline`).
  - The heart curve is sampled at t = 0, 0.01, … while t < 2π.
  - Every sample within 0.08 of t = π is skipped.
  - The first remaining point is kept. After that, a point is kept only when it is at distance ≥ 0.4 from the point kept last.

Floats are read as reals.
`cos`, `sin`, `pow`, `sqrt` and glm's π are uninterpreted fields of `Numerics.Transcendental`.
So vertex formulas are written exactly as in the source, and a lemma that needs a fact about them, such as sin² + cos² = 1, takes that fact as a precondition.

Where the source's comments and its code differ, the model follows the code:
- The exponent starts at 0.0 (line 380), not at its lower bound 0.1. It reaches 0.1 on the first tick.
- The tick period is 0.1 s, although the comment at line 418 says one second.
- A tick resets the timer to 0 rather than subtracting the period, so any overshoot is discarded.
- The comment at line 272 speaks of removing one superellipsoid at the dip. The code skips every sample with |t − π| < 0.08.
- The same comment calls that place the top centre dip. On this curve t = π is the bottom tip, (0, −17) before scaling; the top centre dip is at t = 0, (0, 5). The outline's model matrix only translates to these points (line 463), so the gap is at the bottom of the outline. `Outline.SkippedTip` states this.
- The spacing test is `>=`, so a point at exactly `minDistance` is kept.

## Model

| member | source | states |
|---|---|---|
| GridIndices.AppendGridIndices | camera_class.cpp:86-101 | the index loop appends exactly `IndexBuffer(stacks, slices)`: row by row, the six entries of every cell |
| GridIndices.AppendRowIndices | camera_class.cpp:88-100 | the inner index loop appends the cells of row i, left to right, each as `first, second, first+1, second, second+1, first+1` |
| GridIndices.IndexBufferLength | camera_class.cpp:86-101 | the index buffer has `6 * stacks * slices` entries, so it is whole triangles |
| GridIndices.IndexBufferCell | camera_class.cpp:90-99 | cell (i, j) occupies entries `6*(i*slices+j)` to `+5` and holds its two triangles, with `first = i*(slices+1)+j` and `second = first+slices+1` |
| GridIndices.IndexBufferBound | camera_class.cpp:86-99 | every index is below `(stacks+1)*(slices+1)`, so it names an existing vertex |
| Meshes.GenerateSuperellipsoid | camera_class.cpp:56-102 | whatever the buffers held, afterwards they hold exactly the superellipsoid grid's vertices (`5*(stacks+1)*(slices+1)` floats) and the grid's triangles (`6*stacks*slices` indices, all in range) |
| Meshes.Generate3DHeart | camera_class.cpp:108-162 | the same for the heart: the same index buffer as the superellipsoid, and the tapered heart-curve vertices |
| Meshes.AppendGridVertices | camera_class.cpp:65-84 | the vertex loops append the grid's vertices row by row, five floats each |
| Meshes.AppendVertexRow | camera_class.cpp:70-83 | the inner vertex loop appends row i's vertices, left to right |
| Meshes.VertexBufferLength | camera_class.cpp:62-84 | the vertex buffer has exactly `5*(stacks+1)*(slices+1)` floats |
| Meshes.GridLayout | camera_class.cpp:65-84 | in the row-major buffer, grid point (i, j) sits at float offset `5*(i*columns+j)` |
| Meshes.VertexBufferLayout | camera_class.cpp:79-82 | vertex (i, j) is at float offset `5*(i*(slices+1)+j)`, the flat index the triangles use, and holds that grid point's x, y, z, u, v |
| Meshes.SurfaceUV | camera_class.cpp:79-80 | u = j/slices and v = i/stacks, both in [0, 1], 0 exactly on the first column or row and 1 exactly on the last |
| Meshes.FractionRange | camera_class.cpp:117 | `i/stacks` is never negative, is at most 1 for rows up to stacks, and hits 0 and 1 exactly at 0 and stacks |
| Meshes.Latitude | camera_class.cpp:67-68 | row i's angle phi is −π/2 plus the fraction i/stacks of π: exactly −π/2 on row 0 and π/2 on row stacks |
| Meshes.Longitude | camera_class.cpp:72-73 | column j's angle theta is −π plus the fraction j/slices of 2π: exactly −π on column 0 and π on column slices |
| Meshes.SuperellipsoidPoint | camera_class.cpp:75-77 | for r ≥ 0 the point is on or above the equatorial plane when sin φ ≥ 0, and on or below it when sin φ < 0 |
| Meshes.SuperellipsoidMeridian | camera_class.cpp:75-77 | the point lies in the vertical plane through the z-axis along (spow(cos θ), spow(sin θ)), x·spow(sin θ) = y·spow(cos θ), for every exponent; when r ≥ 0 and cos φ ≥ 0 its horizontal part points the same way as that direction (non-negative dot product), so it is on that half of the plane |
| Meshes.SuperellipsoidVertex | camera_class.cpp:67-82 | for rows and columns within the grid, u and v lie in [0, 1]; the vertex lies in the vertical plane through the z-axis along column j's direction (spow(cos θ_j), spow(sin θ_j)) |
| Meshes.HeartDepth | camera_class.cpp:117-118 | row i's depth equals 2i/stacks − 1 and lies in [−1, 1] for rows up to stacks |
| Meshes.HeartVertex | camera_class.cpp:115-142 | heart vertex (i, j) is at height 0.8 times its row's depth, so within [−0.8, 0.8], with u = j/slices and v = i/stacks |
| Meshes.BufferSizes | camera_class.cpp:62-101 | after generation, the vertex buffer holds `5*(stacks+1)*(slices+1)` floats and the index buffer `6*stacks*slices` indices, each below the vertex count |
| Meshes.PointOnSphere | camera_class.cpp:75-77 | with exponent 1, and given sin² + cos² = 1, the superellipsoid point at any latitude and longitude lies on the sphere of radius r |
| Meshes.SuperellipsoidAngles | camera_class.cpp:67-73 | the latitude runs from −π/2 (first row only) to π/2 (last row only), the longitude from −π to π |
| Meshes.SuperellipsoidSphere | camera_class.cpp:75-77 | with exponent 1, every superellipsoid vertex's position lies on the sphere of radius r |
| Meshes.HeartDepthRange | camera_class.cpp:117-121 | row depth z = 2i/stacks − 1 lies in [−1, 1]; the radicand 1 − z² is never negative and is 0 exactly at rows 0 and stacks |
| Meshes.HeartTaperCollapses | camera_class.cpp:121-135 | on the first and last rows the taper collapses x and y to 0, with z = ∓0.8 |
| Numerics.Abs | camera_class.cpp:53 | `fabs` is non-negative and equals x or −x |
| Numerics.Spow | camera_class.cpp:51-54 | `spow`'s result has the magnitude of `pow(fabs(base), exp)` and the sign of the base: non-positive for a negative base, non-negative otherwise |
| Numerics.HeartCurveBounds | camera_class.cpp:127-131 | the heart curve `HeartCurve` stays in the box [−16, 16] × [−21, 21], given that sin³ t and the four cosines lie in [−1, 1] |
| Numerics.HeartCurveMirror | camera_class.cpp:127-131 | the heart curve is mirror-symmetric about the vertical axis: t and −t give points (x, y) and (−x, y), given that sin and pow(_, 3) are odd and cos is even |
| Numerics.SpowOdd | camera_class.cpp:51-54 | `spow` is odd in its base away from 0, and its result carries the base's sign |
| Numerics.SpowIdentity | camera_class.cpp:51-54 | with exponent 1, `spow` is the identity |
| ShapeAnimation.Tick | camera_class.cpp:423-439 | the direction turns exactly when the parameter lands on the bound it was heading for (25 rising, 1 falling). From [0, 25] the result is in [1, 25] and at most one tenth away, and within [1, 25] it never moves against the direction |
| ShapeAnimation.Rise | camera_class.cpp:423-430 | below the top bound, n rising ticks add exactly n tenths |
| ShapeAnimation.Fall | camera_class.cpp:432-439 | above the bottom bound, n falling ticks subtract exactly n tenths |
| ShapeAnimation.ReachTop | camera_class.cpp:425-430 | rising from k reaches 2.5 after 25 − k ticks and turns downwards |
| ShapeAnimation.ReachBottom | camera_class.cpp:434-439 | falling from k reaches 0.1 after k − 1 ticks and turns upwards |
| ShapeAnimation.WaveStep | camera_class.cpp:423-439 | one tick moves the closed-form triangle wave one step on |
| ShapeAnimation.TicksWave | camera_class.cpp:380-439 | from the start state (0, rising) and under the tick rule, the state after n ticks is the triangle wave: up from 0 to 25, then between 25 and 1 with period 48 |
| ShapeAnimation.WavePeriodic | camera_class.cpp:423-439 | after the first rise, the triangle wave repeats every 48 ticks |
| ShapeAnimation.Periodic | camera_class.cpp:416-441 | after the first rise, the oscillation repeats every 48 ticks |
| ShapeAnimation.TicksRange | camera_class.cpp:416-441 | the parameter never leaves [0, 25] and is ≥ 1 from the first tick on. At 25 it is falling, and it only falls while above 1 |
| ShapeAnimation.ExponentRange | camera_class.cpp:444-449 | the exponent passed to the generator is always in [0, 2.5], and ≥ 0.1 after the first tick |
| ShapeAnimation.ShapeAnimator.constructor | camera_class.cpp:380-382 | the start state is parameter 0, rising, timer 0 |
| ShapeAnimation.ShapeAnimator.Step | camera_class.cpp:416-441 | when the timer plus the frame time reaches 0.1, the timer becomes 0 and the state takes exactly one tick. Otherwise the timer accumulates and nothing else changes. The state stays the triangle wave of the ticks taken |
| ShapeAnimation.ShapeAnimator.Frame | camera_class.cpp:416-449 | one frame steps the oscillator as `Step` does (one tick and a timer reset when the timer reaches 0.1, otherwise accumulation only), then rebuilds the 15 x 30 superellipsoid of radius 0.08 with the current exponent, which stays in [0, 2.5] |
| Outline.OutlinePoint | camera_class.cpp:277-285 | the outline point is the heart curve at t scaled by 0.05 · 4 = 0.2, so it lies on the same ray from the origin |
| Outline.Classify | camera_class.cpp:273-287 | a sample is skipped exactly when π − 0.08 < t < π + 0.08; otherwise it offers the outline point at t |
| Outline.SampleCount | camera_class.cpp:270 | the number of samples is the least n with n · 0.01 ≥ 2π |
| Outline.SampleTimes | camera_class.cpp:270 | there are `SampleCount` sampled parameters; they start at 0 and all lie in [0, 2π) |
| Outline.SampleTimesStep | camera_class.cpp:270 | consecutive sampled parameters are 0.01 apart, the loop's `t += 0.01f` |
| Outline.CandidateAt | camera_class.cpp:270-274 | sample k of the outline loop is the classification of t = k · 0.01 |
| Outline.Keep | camera_class.cpp:290-303 | one greedy step either leaves the outline unchanged or appends the current point. A skipped sample is never appended; the first non-skipped point always is; after that a point is appended exactly when its distance to the point kept last is ≥ 0.4 |
| Outline.Thin | camera_class.cpp:270-304 | the outline has at most one point per sample |
| Outline.ThinElements | camera_class.cpp:290-303 | every outline point is one of the non-skipped sample points, and there are no more of them than non-skipped samples |
| Outline.SampleCountBound | camera_class.cpp:270 | sample k is visited exactly when k * 0.01 < 2π |
| Outline.BuildOutline | camera_class.cpp:262-304 | the loop's outline equals the greedy thinning of the classified samples. It is a subsequence of the non-skipped points, and neighbouring points are ≥ 0.4 apart |
| Outline.ConsiderSample | camera_class.cpp:272-303 | one loop iteration turns the thinning of the first k samples into the thinning of the first k + 1, and keeps `first` and `lastPoint` in step with the outline |
| Outline.ThinSubsequence | camera_class.cpp:270-304 | the outline is the non-skipped candidates with some deleted, in order |
| Outline.SubsequenceElements | camera_class.cpp:292-300 | a subsequence is no longer than the original and holds only its elements |
| Outline.ThinFirst | camera_class.cpp:290-295 | the first non-skipped candidate is always kept; the outline is empty only if every sample was skipped |
| Outline.ThinSpaced | camera_class.cpp:296-302 | each kept point after the first is at distance ≥ 0.4 from the previously kept point |
| Outline.ThinPrefix | camera_class.cpp:290-302 | what is kept after the first n samples stays at the front of the final outline |
| Vectors.Vector.Clear | camera_class.cpp:62-63 | `clear` empties the buffer |
| Vectors.Vector.PushBack | camera_class.cpp:93-99 | `push_back` appends exactly one element at the end |
| Vectors.Vector.Append | camera_class.cpp:82 | `insert` at the end appends the given elements in order |
| Outline.ThinDrops | camera_class.cpp:290-302 | a non-skipped sample is dropped exactly when some point was kept before it and it lies within 0.4 of the point kept last |
| Outline.ThinStep | camera_class.cpp:270-304 | thinning one more sample is one greedy step on what was kept so far |
| Outline.SkippedTip | camera_class.cpp:272-285 | the window skipped around t = π holds the curve's bottom tip (0, −17); the top centre dip, scaled to (0, 1), is at t = 0 and is kept as a sample |
| Outline.CandidateCovered | camera_class.cpp:286-303 | a dropped non-skipped sample is within 0.4 of the point kept last before it, and so every non-skipped sample lies within 0.4 of some outline point |

## Left out

- OpenGL, GLFW and GLAD are not modelled. This covers window and context creation, the VAO/VBO/EBO uploads, draw calls and buffer swaps, including the draw loop over the outline at line 462. They are foreign I/O.
- The index buffer (EBO) is uploaded once from the 10 x 10 start-up mesh, but each frame draws the 15 x 30 mesh's index count. That defect sits entirely in the GL calls, so it is outside the model.
- Texture loading through `stb_image`, the `Camera` class, `processInput` and the mouse and scroll callbacks are not modelled. They are a foreign library, file I/O and input plumbing.
- Frame timing from `glfwGetTime` is not modelled: `ShapeAnimator.Step` and `Frame` take `deltaTime` as a parameter. The heart's rotation matrix is also left out.
- The values of `cos`, `sin`, `pow`, `sqrt` and π are uninterpreted. Lemmas that need a fact about them take it as a precondition.
- Floating-point rounding and drift are not modelled. This includes repeatedly adding 0.1f to `shapeParam` and 0.01f to `t`. The clamps at lines 428 and 437 make the oscillator's bounds 2.5 and 0.1 exact in the program too. What rounding changes is when the turns happen, and the exact sample count.
- ShapeAnimation.TicksWave: the closed form is that of the tenths model. In float32, 25 additions of 0.1f give 2.4999998, below 2.5f, so the program first turns at tick 26, not 25. Falling from 2.5, 24 subtractions leave 0.10000014, above 0.1f, so the turn at 0.1 comes one tick later too. Each half of the program's bounce takes 25 ticks, not 24.
- ShapeAnimation.Periodic, ShapeAnimation.ReachTop, ShapeAnimation.ReachBottom, ShapeAnimation.WavePeriodic: the 48-tick period and the turn after 25 − k or k − 1 ticks hold for the tenths model. Under float32 rounding the program's period is 50 ticks, since each half takes 25.
- `spow`'s `copysign` on −0.0 and NaN is not modelled. Reals have neither.
- Meshes.GenerateSuperellipsoid: stacks and slices must be at least 1 (`Meshes.Positive`). With 0, the source divides by zero in float arithmetic. Its 32-bit `int` index arithmetic and the conversion to `unsigned int` are read as unbounded naturals.
- Meshes.Generate3DHeart: the same restrictions. The five `push_back`s per vertex are modelled as one append of the same five floats in the same order.
- Meshes.AppendGridVertices: the vertex loops compute each vertex through `SurfaceVertex`. The source computes phi, z and the taper once per row, which gives the same values over the reals.
- The start-up calls at lines 192 and 234 (10 x 10 superellipsoid, 30 x 30 heart) are instances of the generator contracts and are not restated separately.
- Outline.BuildOutline: the points are 2D. The source's `vec3` has z = 0 throughout. The distance test compares squared distance with 0.16, which over the reals is equivalent to `distance >= 0.4`.
