# huginn math types in Dafny

This project models the exact, branchy and algebraic core of huginn, a Rust library of 2D and 3D math value types, and proves properties of the model. It covers:

- **Integer geometry.** `Rect2i` and the integer vectors `Vector2i`, `Vector3i` and `Vector4i`, including the `AXIS` and `Side` enums, axis selection with its tie-breaks, lexicographic ordering, clamp, snap, and Rust's truncating `/` and `%`. These are written out as `Utils.TruncDiv` and `Utils.TruncRem`, because Dafny's own operators are Euclidean.
- **The `Color` text and bit codec.** HTML hex validation and decoding, 32-bit and 64-bit packing in the RGBA, ARGB and ABGR orders, `hex`/`hex64` unpacking, named-colour lookup with name normalisation, `from_string`, inversion and negation.
- **Exact value algebra over `real`.** `float!()` is modelled as Dafny's `real`. This part covers:
  - `Rect2` and the float vectors `Vector2`, `Vector3` and `Vector4`;
  - the scalar helpers of `utils.rs`;
  - `Quaternion` Hamilton algebra and the branch decisions of `slerp`, `slerp_ni` and `spherical_cubic_interpolate`;
  - `Basis` matrix algebra, the pivot of `get_quaternion` and the branches of `get_axis_angle`;
  - `Transform2D` and `Transform3D` composition, inverses, translation and scaling.

There is one Dafny module per source file, named after the type.

Where a branch needs `sqrt`, `acos`, `sin` or `cos`, the function is a parameter of the modelled operation. `Utils.SqrtLike` is the only thing assumed about `sqrt`: it is non-negative, and zero exactly at zero. So only the branch structure and the algebra around these calls are stated. Panics in the source become preconditions: an index out of range, integer division by zero, and `clamp` with min above max. A real division by zero, which yields NaN or infinity in the source, also becomes a precondition.

In the non-singular branch of `get_axis_angle`, the code replaces a normalising length below `CMP_EPSILON` by 1 (src/types/basis.rs:141-144). `Basis.SkewAxis` does the same.

## Model

| member | source | states |
|---|---|---|
| Utils.Tolerance | src/utils.rs:125-136 | the tolerance of `is_equal_approx` is the larger of `CMP_EPSILON` and `CMP_EPSILON·|a|`: it is one of the two and at least both |
| Utils.ApproxFacts | src/utils.rs:125-149 | `is_equal_approx` is reflexive; `is_equal_approx(0, s)` holds iff `is_zero_approx(s)`; `is_zero_approx(s)` holds iff `-CMP_EPSILON < s < CMP_EPSILON` |
| Utils.IsEqualApproxNotSymmetric | src/utils.rs:125-136 | the tolerance scales with the first argument only, so 100000 ≈ 100001.000005 fails while the swapped comparison holds |
| Utils.Lerp | src/utils.rs:195-197 | weight 0 gives `from` and weight 1 gives `to` |
| Utils.LerpWithin | src/utils.rs:195-197 | a weight in [0, 1] keeps the result between `from` and `to` |
| Utils.LerpIsWeightedAverage | src/utils.rs:195-197 | `from + (to - from)·t` is the weighted average `(1 - t)·from + t·to` |
| Utils.Sign | src/utils.rs:208-216 | 0 exactly for 0, 1 exactly for positives, -1 exactly for negatives, and `sign(x)·x = |x|` |
| Utils.SafeAcos | src/utils.rs:218-225 | below -1 gives π, above 1 gives 0, otherwise the arc cosine |
| Utils.FMod | src/utils.rs:151-152 | Rust's float `%`: the remainder is smaller than the divisor in magnitude, has the sign of the dividend (or is 0), and differs from the dividend by an integral multiple of the divisor |
| Utils.PosmodF | src/utils.rs:151-158 | the result lies in [0, y) for y > 0 and in (y, 0] for y < 0, and differs from x by an integral multiple of y |
| Utils.PosmodFExamples | src/utils.rs:151-158 | posmod(-1.2, 2) = 0.8, posmod(-3.4, 2) = 0.6, posmod(-5.6, 2) = 0.4 |
| Utils.Snapped | src/utils.rs:160-166 | step 0 leaves the value; otherwise the result is a multiple of the step within half a step of the value, ties going up |
| Utils.SnappedI | src/utils.rs:168-174 | the integer version: step 0 leaves the value, otherwise the nearest multiple of the step, ties going up |
| Utils.SnappedIExamples | src/utils.rs:168-174 | snapped_i(1, 4) = 0, snapped_i(3, 2) = 4, snapped_i(-7, 5) = -5 |
| Utils.CubicInterpolate | src/utils.rs:71-83 | weight 0 gives `from` and weight 1 gives `to` |
| Utils.CubicInterpolateExample | src/utils.rs:71-83 | from 1, to 4, pre 0, post 7 at weight 0.5 gives 2.375 |
| Utils.BezierInterpolate | src/utils.rs:55-69 | t = 0 gives `start` and t = 1 gives `end` |
| Utils.CubicInterpolateInTimeStart | src/utils.rs:84-123 | the Barry-Goldman interpolation is total (every division is guarded) and gives `from` at weight 0 whenever `pre_t` and `to_t` are non-zero, whatever `post_t` is |
| Utils.CubicInterpolateInTimeEnd | src/utils.rs:84-123 | it gives `to` at weight 1 when `to_t` is non-zero and differs from `pre_t` and `post_t` |
| Utils.TruncDiv | src/types/vectors/vector2i.rs:220-224 | Rust's integer `/`: the remainder it leaves is smaller than the divisor in magnitude and has the sign of the dividend |
| Utils.TruncRem | src/types/vectors/vector2i.rs:202-204 | Rust's integer `%`: `a = (a / b)·b + a % b`, with the remainder bounded by the divisor and signed like the dividend |
| Utils.TruncDivUnique | src/types/vectors/vector2i.rs:220-224 | any quotient leaving such a remainder is the truncated quotient |
| Utils.TruncDivRemExamples | src/types/vectors/vector2i.rs:202-224 | 5 / 2 = 2, -5 / 2 = -2, 5 / -2 = -2; 5 % 2 = 1, -5 % 2 = -1, 5 % -2 = 1 |
| Utils.Trunc | src/types/vectors/vector2i.rs:186-191 | the float-to-integer `as` cast truncates toward zero: `|n| ≤ |r| < |n| + 1` with the sign of `r` |
| Utils.Round | src/types/color.rs:862-868 | `round` goes to the nearest integer with halves away from zero |
| Vector2i.Set | src/types/vectors/vector2i.rs:159-165 | `set(i, v)` then `get(i)` returns `v` and the other component is unchanged; an index above 1 panics (a precondition) |
| Vector2i.SetOfGet | src/types/vectors/vector2i.rs:54-60 | writing back the value just read changes nothing |
| Vector2i.GetAxis | src/types/vectors/vector2i.rs:167-173 | `get_axis(X)` and `get_axis(Y)` read components 0 and 1; any other axis panics (a precondition) |
| Vector2i.SetAxis | src/types/vectors/vector2i.rs:175-181 | `set_axis` writes the component `set` writes at the axis' index |
| Vector2i.SetAxisGetAxis | src/types/vectors/vector2i.rs:167-181 | set-then-get by axis returns the value on the same axis and the old value on the other; writing back what was read is the identity |
| Vector2i.Abs | src/types/vectors/vector2i.rs:63-65 | each component is non-negative with the original magnitude |
| Vector2i.Aspect | src/types/vectors/vector2i.rs:68-70 | the ratio x / y: multiplied by y it gives x back |
| Vector2i.Clamp | src/types/vectors/vector2i.rs:73-75 | with `min ≤ max` (Rust's `clamp` panics otherwise) every component lands in its range, and a vector already inside is unchanged |
| Vector2i.ClampI | src/types/vectors/vector2i.rs:78-80 | the scalar bounds give the same result as the vector bounds (min, min) and (max, max) |
| Vector2i.ClampIdempotent | src/types/vectors/vector2i.rs:73-75 | clamping twice is clamping once; components below or above the range go to the violated bound |
| Vector2i.LengthSquared | src/types/vectors/vector2i.rs:102-104 | x² + y² is non-negative and zero only for the zero vector |
| Vector2i.DistanceSquaredTo | src/types/vectors/vector2i.rs:85-87 | non-negative and zero exactly when the two vectors are equal |
| Vector2i.DistanceSquaredSymmetric | src/types/vectors/vector2i.rs:85-87 | the squared distance is symmetric |
| Vector2i.Max | src/types/vectors/vector2i.rs:107-109 | each component is the larger of the two |
| Vector2i.MaxI | src/types/vectors/vector2i.rs:121-123 | `maxi(w)` is `max` with (w, w) |
| Vector2i.Min | src/types/vectors/vector2i.rs:126-128 | each component is the smaller of the two |
| Vector2i.MinI | src/types/vectors/vector2i.rs:140-142 | `min_i(w)` is `min` with (w, w) |
| Vector2i.MaxAxisIndex | src/types/vectors/vector2i.rs:112-118 | the returned axis holds a maximal component, and a tie gives `X` |
| Vector2i.MinAxisIndex | src/types/vectors/vector2i.rs:131-137 | the returned axis holds a minimal component, and a tie gives `Y` |
| Vector2i.Sign | src/types/vectors/vector2i.rs:145-147 | each component is -1, 0 or 1: 0 exactly for a zero component, otherwise the sign of the component, so sign times abs gives the vector back |
| Vector2i.Snapped | src/types/vectors/vector2i.rs:150-152 | each component becomes a multiple of its step within half a step of the input, for a positive and for a negative step (a tie goes to the larger quotient); a zero step leaves the component |
| Vector2i.SnappedScalar | src/types/vectors/vector2i.rs:155-157 | `snapped_i(s)` is `snapped` with (s, s) |
| Vector2i.SnappedExample | src/types/vectors/vector2i.rs:150-152 | (1, 3) snapped to (4, 2) is (0, 4) |
| Vector2i.DivI | src/types/vectors/vector2i.rs:224 | division by a scalar is division by (b, b) |
| Vector2i.RemI | src/types/vectors/vector2i.rs:204 | remainder by a scalar is remainder by (b, b) |
| Vector2i.DivRemRecompose | src/types/vectors/vector2i.rs:202-224 | `(a / b)·b + a % b = a` component-wise, with each remainder smaller than its divisor |
| Vector2i.DivExamples | src/types/vectors/vector2i.rs:202-224 | (5, 9) / (2, 3) = (2, 3), (5, 9) / 2 = (2, 4), (-5, 9) % 2 = (-1, 1) |
| Vector2i.AddSubInverse | src/types/vectors/vector2i.rs:214-218 | subtraction undoes addition, `a + (-a) = 0`, negation is an involution, addition commutes |
| Vector2i.Not | src/types/vectors/vector2i.rs:245-250 | `!v` holds exactly for the zero vector |
| Vector2i.PartialCmp | src/types/vectors/vector2i.rs:252-261 | `partial_cmp` answers Equal, Less or Greater exactly when the vectors are equal, `a < b` or `b < a` |
| Vector2i.OrderIsTotal | src/types/vectors/vector2i.rs:252-284 | the lexicographic `<` is a strict total order; `>` is the converse, `<=` is `<` or equal, `>=` is the converse of `<=` |
| Vector2i.MetricExamples | src/types/vectors/vector2i.rs:85-137 | distance² from (10, 10) to (20, 30) is 500; axis indices of (1, 2) and the tie (3, 3) |
| Vector3i.Set | src/types/vectors/vector3i.rs:190-197 | `set(i, v)` then `get(i)` returns `v` and the other components are unchanged; an index above 2 panics (a precondition) |
| Vector3i.SetOfGet | src/types/vectors/vector3i.rs:182-197 | writing back the value just read changes nothing |
| Vector3i.AxisIndex | src/types/vectors/vector3i.rs:199-206 | `X`, `Y`, `Z` name components 0, 1, 2; `W` panics (a precondition) |
| Vector3i.GetAxis | src/types/vectors/vector3i.rs:199-206 | `get_axis` reads the component `get` reads at the axis' index |
| Vector3i.SetAxis | src/types/vectors/vector3i.rs:208-215 | `set_axis` writes the component `set` writes at the axis' index |
| Vector3i.SetAxisGetAxis | src/types/vectors/vector3i.rs:199-215 | set-then-get by axis returns the value on the same axis and the old value elsewhere; writing back what was read is the identity |
| Vector3i.Abs | src/types/vectors/vector3i.rs:63-65 | each component is non-negative with the original magnitude |
| Vector3i.Clamp | src/types/vectors/vector3i.rs:68-74 | with `min ≤ max` every component lands in its range, and a vector already inside is unchanged |
| Vector3i.ClampI | src/types/vectors/vector3i.rs:77-83 | the scalar bounds give the same result as the vector bounds |
| Vector3i.LengthSquared | src/types/vectors/vector3i.rs:105-107 | non-negative and zero only for the zero vector |
| Vector3i.DistanceSquaredTo | src/types/vectors/vector3i.rs:88-90 | non-negative and zero exactly when the vectors are equal |
| Vector3i.DistanceSquaredSymmetric | src/types/vectors/vector3i.rs:88-90 | the squared distance is symmetric |
| Vector3i.Max | src/types/vectors/vector3i.rs:110-112 | each component is the larger of the two |
| Vector3i.MaxI | src/types/vectors/vector3i.rs:130-132 | `max_i(w)` is `max` with (w, w, w) |
| Vector3i.Min | src/types/vectors/vector3i.rs:135-137 | each component is the smaller of the two |
| Vector3i.MinI | src/types/vectors/vector3i.rs:155-157 | `min_i(w)` is `min` with (w, w, w) |
| Vector3i.MaxAxisIndex | src/types/vectors/vector3i.rs:115-127 | the returned axis holds a maximal component and every earlier component is strictly smaller, so ties go to the first axis (`X`) |
| Vector3i.MinAxisIndex | src/types/vectors/vector3i.rs:140-152 | the returned axis holds a minimal component and every later component is strictly larger, so ties go to the last axis (`Z`) |
| Vector3i.Sign | src/types/vectors/vector3i.rs:160-162 | each component is -1, 0 or 1: 0 exactly for a zero component, otherwise the sign of the component, so sign times abs gives the vector back |
| Vector3i.Snapped | src/types/vectors/vector3i.rs:165-171 | each component becomes a multiple of its step within half a step of the input, for a positive and for a negative step (a tie goes to the larger quotient); a zero step leaves the component |
| Vector3i.SnappedScalar | src/types/vectors/vector3i.rs:174-180 | `snapped_i(s)` is `snapped` with (s, s, s) |
| Vector3i.DivI | src/types/vectors/vector3i.rs:302-308 | division by a scalar is division by (b, b, b) |
| Vector3i.RemI | src/types/vectors/vector3i.rs:250-256 | remainder by a scalar is remainder by (b, b, b) |
| Vector3i.DivRemRecompose | src/types/vectors/vector3i.rs:242-292 | `(a / b)·b + a % b = a` component-wise, each remainder smaller than its divisor |
| Vector3i.DivExamples | src/types/vectors/vector3i.rs:286-308 | (4, 5, 9) / (1, 2, 3) = (4, 2, 3) and (4, 5, 9) / 2 = (2, 2, 4) |
| Vector3i.AddSubInverse | src/types/vectors/vector3i.rs:274-284 | subtraction undoes addition, `a + (-a) = 0`, negation is an involution, addition commutes |
| Vector3i.NegFacts | src/types/vectors/vector3i.rs:352-358 | negation negates every component, equals subtraction from zero, and is an involution |
| Vector3i.Not | src/types/vectors/vector3i.rs:371-377 | `!v` holds exactly for the zero vector |
| Vector3i.PartialCmp | src/types/vectors/vector3i.rs:311-319 | `partial_cmp` answers Equal, Less or Greater exactly when the vectors are equal, `a < b` or `b < a` |
| Vector3i.OrderIsTotal | src/types/vectors/vector3i.rs:310-350 | the lexicographic `<` on (x, y, z) is a strict total order; `>`, `<=`, `>=` derive from it |
| Vector3i.Examples | src/types/vectors/vector3i.rs:68-180 | (-5, 5, 15) clamped to [0, 10] is (0, 5, 10); length² of (10, 10, 10) is 300; distance² to (20, 30, 40) is 1400; (1, 3, -7) snapped to (4, 2, 5) is (0, 4, -5) |
| Vector4i.Set | src/types/vectors/vector4i.rs:228-236 | `set(i, v)` then `get(i)` returns `v` and the other components are unchanged; an index above 3 panics (a precondition) |
| Vector4i.SetOfGet | src/types/vectors/vector4i.rs:218-236 | writing back the value just read changes nothing |
| Vector4i.AxisIndex | src/types/vectors/vector4i.rs:238-245 | `X`, `Y`, `Z`, `W` name components 0 to 3 |
| Vector4i.GetAxis | src/types/vectors/vector4i.rs:238-245 | `get_axis` reads the component `get` reads at the axis' index |
| Vector4i.SetAxis | src/types/vectors/vector4i.rs:247-254 | `set_axis` writes the component `set` writes at the axis' index |
| Vector4i.SetAxisGetAxis | src/types/vectors/vector4i.rs:238-254 | set-then-get by axis returns the value on the same axis and the old value elsewhere; writing back what was read is the identity |
| Vector4i.Abs | src/types/vectors/vector4i.rs:46-48 | each component is non-negative with the original magnitude |
| Vector4i.Clamp | src/types/vectors/vector4i.rs:51-58 | with `min ≤ max` every component lands in its range, and a vector already inside is unchanged |
| Vector4i.ClampI | src/types/vectors/vector4i.rs:61-68 | the scalar bounds give the same result as the vector bounds |
| Vector4i.LengthSquared | src/types/vectors/vector4i.rs:90-92 | non-negative and zero only for the zero vector |
| Vector4i.DistanceSquaredTo | src/types/vectors/vector4i.rs:73-75 | non-negative and zero exactly when the vectors are equal |
| Vector4i.DistanceSquaredSymmetric | src/types/vectors/vector4i.rs:73-75 | the squared distance is symmetric |
| Vector4i.Max | src/types/vectors/vector4i.rs:95-102 | each component is the larger of the two |
| Vector4i.MaxI | src/types/vectors/vector4i.rs:132-139 | `max_i(w)` is `max` with (w, w, w, w) |
| Vector4i.Min | src/types/vectors/vector4i.rs:142-149 | each component is the smaller of the two |
| Vector4i.MinI | src/types/vectors/vector4i.rs:179-186 | `min_i(w)` is `min` with (w, w, w, w) |
| Vector4i.MaxAxisIndex | src/types/vectors/vector4i.rs:105-129 | the returned axis holds a maximal component and every earlier component is strictly smaller, so ties go to the first axis |
| Vector4i.MinAxisIndex | src/types/vectors/vector4i.rs:152-176 | the returned axis holds a minimal component and every later component is strictly larger, so ties go to the last axis |
| Vector4i.Sign | src/types/vectors/vector4i.rs:189-196 | each component is -1, 0 or 1: 0 exactly for a zero component, otherwise the sign of the component, so sign times abs gives the vector back |
| Vector4i.Snapped | src/types/vectors/vector4i.rs:199-206 | each component becomes a multiple of its step within half a step of the input, for a positive and for a negative step (a tie goes to the larger quotient); a zero step leaves the component |
| Vector4i.SnappedScalar | src/types/vectors/vector4i.rs:209-216 | `snapped_i(s)` is `snapped` with (s, s, s, s) |
| Vector4i.DivI | src/types/vectors/vector4i.rs:392-399 | division by a scalar is division by (b, b, b, b) |
| Vector4i.RemI | src/types/vectors/vector4i.rs:293-300 | remainder by a scalar is remainder by (b, b, b, b) |
| Vector4i.DivRemRecompose | src/types/vectors/vector4i.rs:277-374 | `(a / b)·b + a % b = a` component-wise, each remainder smaller than its divisor |
| Vector4i.DivExamples | src/types/vectors/vector4i.rs:367-399 | (4, 5, 9, 2) / (1, 2, 3, 4) = (4, 2, 3, 0) and (4, 5, 9, 2) / 2 = (2, 2, 4, 1) |
| Vector4i.AddSubInverse | src/types/vectors/vector4i.rs:340-358 | subtraction undoes addition, `a + (-a) = 0`, negation is an involution, addition commutes |
| Vector4i.NegFacts | src/types/vectors/vector4i.rs:466-476 | negation negates every component, equals subtraction from zero, and is an involution |
| Vector4i.Not | src/types/vectors/vector4i.rs:408-414 | `!v` holds exactly for the zero vector |
| Vector4i.PartialCmp | src/types/vectors/vector4i.rs:417-425 | `partial_cmp` answers Equal, Less or Greater exactly when the vectors are equal, `a < b` or `b < a` |
| Vector4i.OrderIsTotal | src/types/vectors/vector4i.rs:416-464 | the lexicographic `<` on (x, y, z, w) is a strict total order; `>`, `<=`, `>=` derive from it |
| Vector4i.Examples | src/types/vectors/vector4i.rs:51-196 | the largest axis of (1, 2, 3, 4) is `W` and the smallest `X`; length² of (10, 10, 10, 10) is 400; distance² to (20, 30, 40, 50) is 3000; (MAX, 5, -3, 0) clamped to [0, 10] is (10, 5, 0, 0); the sign of (7, -3, 0, 1) is (1, -1, 0, 1) |
| Rect2i.NewFromDimension | src/types/rect2i.rs:28-30 | the rectangle has position (x, y) and size (width, height) |
| Rect2i.SetEnd | src/types/rect2i.rs:200-202 | after `set_end` the end is the given point and the position is unchanged |
| Rect2i.SetPosition | src/types/rect2i.rs:207-209 | `set_position` changes only the position |
| Rect2i.SetSize | src/types/rect2i.rs:214-216 | `set_size` changes only the size |
| Rect2i.SetEndOfEnd | src/types/rect2i.rs:197-202 | setting the end to the current end changes nothing |
| Rect2i.HasPointIsEnclosingUnit | src/types/rect2i.rs:128-144 | the rectangle has point `p` exactly when it encloses the unit cell at `p`; a rectangle with a point has area |
| Rect2i.Abs | src/types/rect2i.rs:35-37 | the result has non-negative size and spans from the smaller to the larger corner of the input; a non-negative rectangle is returned unchanged |
| Rect2i.AbsIdempotent | src/types/rect2i.rs:35-37 | `abs` is idempotent |
| Rect2i.AbsExamples | src/types/rect2i.rs:35-37 | (0, -100, -1280, -720) becomes (-1280, -820, 1280, 720) and (0, 100, -1280, 720) becomes (-1280, 100, 1280, 720) |
| Rect2i.EnclosesIffPoints | src/types/rect2i.rs:40-44 | for a rectangle `b` with area, `encloses(b)` holds exactly when every point of `b` is a point of the receiver |
| Rect2i.Expand | src/types/rect2i.rs:46-73 | the expanded rectangle contains `to` on or inside its edges, encloses a non-negative original, and equals the merge with the empty rectangle at `to` |
| Rect2i.ExpandExamples | src/types/rect2i.rs:46-73 | expanding (0, 100, 1280, 720) to (500, 600) changes nothing; expanding to (0, 0) gives (0, 0, 1280, 820) |
| Rect2i.GetArea | src/types/rect2i.rs:76-78 | the area is positive for a rectangle with area, zero for a degenerate one, and its magnitude is the area of `abs` |
| Rect2i.GetCenter | src/types/rect2i.rs:83-85 | the centre lies inside a non-negative rectangle and is at half the size from the position, rounded toward the position |
| Rect2i.GrowIndividual | src/types/rect2i.rs:99-106 | the position moves out by `left` and `top` and the end by `right` and `bottom` |
| Rect2i.Grow | src/types/rect2i.rs:88-96 | `grow(a)` is `grow_individual(a, a, a, a)` |
| Rect2i.GrowShrink | src/types/rect2i.rs:88-96 | growing by `a` and then by `-a` gives the rectangle back, and growing by a non-negative amount keeps every point |
| Rect2i.GrowSide | src/types/rect2i.rs:109-118 | each side moves only its own edge; `Front` and `Back` leave the rectangle unchanged |
| Rect2i.CommonPointIntersects | src/types/rect2i.rs:167-182 | two rectangles that share a point intersect, in both argument orders |
| Rect2i.IntersectsIffCommonPoint | src/types/rect2i.rs:167-182 | for rectangles with area, `intersects` holds exactly when they share a point |
| Rect2i.Intersection | src/types/rect2i.rs:149-164 | disjoint rectangles give the default rectangle; otherwise the result is enclosed by both, and its points are exactly the common points |
| Rect2i.IntersectionInsideExample | src/types/rect2i.rs:149-164 | (0, 100, 1280, 720) ∩ (0, 300, 100, 100) is the smaller rectangle itself |
| Rect2i.IntersectionOverhangExample | src/types/rect2i.rs:149-164 | (0, 100, 1280, 720) ∩ (1200, 700, 100, 100) is (1200, 700, 80, 100) |
| Rect2i.IntersectionDisjointExample | src/types/rect2i.rs:149-164 | a far-away rectangle (-4000, -4000, 100, 100) gives the default |
| Rect2i.Merge | src/types/rect2i.rs:185-195 | the merge encloses both inputs |
| Rect2i.MergeIsLeast | src/types/rect2i.rs:185-195 | any rectangle enclosing both inputs encloses their merge |
| Rect2i.Not | src/types/rect2i.rs:241-246 | `!r` holds exactly for the default rectangle |
| Rect2i.EdgeExamples | src/types/rect2i.rs:83-182 | rectangles that only touch at a corner do not intersect; the centre of (0, 100, 1281, 721) is (640, 460) |
| Rect2.NewFromDimension | src/types/rect2.rs:42-49 | the rectangle has position (x, y) and size (width, height) |
| Rect2.SetEnd | src/types/rect2.rs:259-261 | after `set_end` the end is the given point and the position is unchanged |
| Rect2.SetPosition | src/types/rect2.rs:267-269 | `set_position` changes only the position |
| Rect2.SetSize | src/types/rect2.rs:277-279 | `set_size` changes only the size |
| Rect2.SetEndOfEnd | src/types/rect2.rs:255-261 | setting the end to the current end changes nothing |
| Rect2.SetterExamples | src/types/rect2.rs:255-261 | the end of (0, 100, 1280, 720) is (1280, 820); setting it to (4000, 4000) gives size (4000, 3900) |
| Rect2.HasPointCorners | src/types/rect2.rs:164-169 | containment is half-open: the position is inside exactly when the rectangle has area, the end is never inside |
| Rect2.HasPointExamples | src/types/rect2.rs:164-169 | for (0, 100, 1280, 720): (500, 600), (1279, 819) and (10, 100) are inside; (0, 0), (1280, 110) and (10, 820) are not |
| Rect2.Abs | src/types/rect2.rs:60-62 | the result has non-negative size and spans from the smaller to the larger corner of the input; a non-negative rectangle is returned unchanged |
| Rect2.AbsIdempotent | src/types/rect2.rs:60-62 | `abs` is idempotent |
| Rect2.AbsExamples | src/types/rect2.rs:60-62 | (0, -100, -1280, -720) becomes (-1280, -820, 1280, 720) and (0, 100, -1280, 720) becomes (-1280, 100, 1280, 720) |
| Rect2.EnclosesPreorder | src/types/rect2.rs:65-70 | `encloses` is reflexive and transitive |
| Rect2.EnclosesIffPoints | src/types/rect2.rs:65-70 | for a rectangle `b` with area, `encloses(b)` holds exactly when every point of `b` is a point of the receiver |
| Rect2.EnclosesExamples | src/types/rect2.rs:65-70 | (0, 100, 1280, 720) encloses (0, 300, 100, 100) but not (1200, 700, 100, 100) nor (-4000, -4000, 100, 100) |
| Rect2.Expand | src/types/rect2.rs:72-95 | the expanded rectangle contains `to` on or inside its edges, encloses a non-negative original, equals the merge with the empty rectangle at `to`, and is the original when `to` already lies between position and end |
| Rect2.ExpandExamples | src/types/rect2.rs:72-95 | expanding (0, 100, 1280, 720) to (500, 600) changes nothing; expanding to (0, 0) gives (0, 0, 1280, 820) |
| Rect2.GetArea | src/types/rect2.rs:98-100 | the area is positive for a rectangle with area, zero for a degenerate one, and its magnitude is the area of `abs` |
| Rect2.GetCenter | src/types/rect2.rs:103-105 | the centre is equally far from the position and the end, and lies inside a non-negative rectangle |
| Rect2.CenterComponents | src/types/rect2.rs:103-105 | the centre is the position plus half the size |
| Rect2.CenterExamples | src/types/rect2.rs:103-105 | the centre of (0, 100, 1280, 720) is (640, 460) and of (0, 100, 1281, 721) is (640.5, 460.5) |
| Rect2.GrowIndividual | src/types/rect2.rs:128-142 | the position moves out by `left` and `top` and the end by `right` and `bottom` |
| Rect2.Grow | src/types/rect2.rs:107-125 | `grow(a)` is `grow_individual(a, a, a, a)` |
| Rect2.GrowShrink | src/types/rect2.rs:107-125 | growing by `a` and then by `-a` gives the rectangle back; growing by a non-negative amount keeps every point and encloses the original |
| Rect2.GrowSide | src/types/rect2.rs:145-154 | each side moves only its own edge; `Front` and `Back` leave the rectangle unchanged |
| Rect2.GrowExamples | src/types/rect2.rs:107-154 | growing (0, 100, 1280, 720) by 100 gives (-100, 0, 1480, 920), by -4000 gives (4000, 4100, -6720, -7280); growing its top by 500 gives (0, -400, 1280, 1220) |
| Rect2.GetSupport | src/types/rect2.rs:23-32 | on each axis the support is the end where the direction is positive and the position otherwise |
| Rect2.SupportIsExtreme | src/types/rect2.rs:23-32 | for a non-negative rectangle no point of the closed rectangle lies further along the direction than the support |
| Rect2.SupportExamples | src/types/rect2.rs:23-32 | for (-1.5, 2, 4, 5): direction (1, 0) gives (2.5, 2), (0.5, 1) gives (2.5, 7), (0, -1) and the zero direction give (-1.5, 2) |
| Rect2.IntersectsFacts | src/types/rect2.rs:199-229 | `intersects` is symmetric, and the open test implies the test with borders |
| Rect2.IntersectsIffCommonPoint | src/types/rect2.rs:199-229 | for rectangles with area, `intersects(b, false)` holds exactly when they share a half-open point |
| Rect2.IntersectsBordersIffCommonPoint | src/types/rect2.rs:199-229 | for non-negative rectangles, `intersects(b, true)` holds exactly when their closed rectangles share a point |
| Rect2.Intersection | src/types/rect2.rs:182-196 | disjoint rectangles give the default rectangle; otherwise the result is enclosed by both, and its points are exactly the common points |
| Rect2.IntersectionExamples | src/types/rect2.rs:182-196 | (0, 100, 1280, 720) ∩ (1200, 700, 100, 100) is (1200, 700, 80, 100), and a far-away rectangle gives the default |
| Rect2.TouchingExamples | src/types/rect2.rs:199-229 | (0, 0, 2, 2) and (2, 2, 2, 2) intersect only when borders are included |
| Rect2.Merge | src/types/rect2.rs:242-252 | the merge encloses both inputs |
| Rect2.MergeIsLeast | src/types/rect2.rs:242-252 | any rectangle enclosing both inputs encloses their merge |
| Rect2.MergeExamples | src/types/rect2.rs:242-252 | merging (0, 100, 1280, 720) with (1200, 700, 100, 100) gives (0, 100, 1300, 720) and with (-4000, -4000, 100, 100) gives (-4000, -4000, 5280, 4820) |
| Vector2.Set | src/types/vectors/vector2.rs:269-275 | `set(i, v)` then `get(i)` returns `v` and the other component is unchanged; an index above 1 panics (a precondition) |
| Vector2.GetAxis | src/types/vectors/vector2.rs:277-283 | `get_axis(X)` and `get_axis(Y)` read components 0 and 1; other axes panic (a precondition) |
| Vector2.SetAxis | src/types/vectors/vector2.rs:285-291 | `set_axis` writes the component `set` writes at the axis' index |
| Vector2.SetAxisGetAxis | src/types/vectors/vector2.rs:277-291 | set-then-get by axis returns the value on the same axis and the old value on the other; writing back what was read is the identity |
| Vector2.AxisExamples | src/types/vectors/vector2.rs:277-377 | for (1.2, 3.4) the largest axis is `Y`, the smallest `X`, and setting `Y` to 3.7 reads back 3.7 |
| Vector2.DivScalar | src/types/vectors/vector2.rs:527-527 | dividing by a non-zero scalar is undone by multiplying by it |
| Vector2.Div | src/types/vectors/vector2.rs:525-525 | component-wise division by a vector without zero components is undone by component-wise multiplication |
| Vector2.AddSubInverse | src/types/vectors/vector2.rs:521-523 | subtraction undoes addition, `a + (-a) = 0`, negation is an involution, addition commutes |
| Vector2.Not | src/types/vectors/vector2.rs:557-563 | `!v` holds exactly for the zero vector |
| Vector2.LengthSquared | src/types/vectors/vector2.rs:323-325 | non-negative and zero only for the zero vector |
| Vector2.DistanceSquaredTo | src/types/vectors/vector2.rs:220-222 | the squared length of the difference in either order, zero exactly when the points coincide |
| Vector2.DotFacts | src/types/vectors/vector2.rs:236-238 | the dot product is symmetric and a vector's dot with itself is its squared length |
| Vector2.CrossFacts | src/types/vectors/vector2.rs:171-173 | the cross product is antisymmetric, zero on a vector with itself, and equals the dot with the orthogonal vector |
| Vector2.CrossExamples | src/types/vectors/vector2.rs:171-173 | cross((1, 0), (0, 1)) = 1 and cross((0, 1), (1, 0)) = -1 |
| Vector2.Orthogonal | src/types/vectors/vector2.rs:418-420 | the orthogonal vector is perpendicular to the input and has the same length |
| Vector2.OrthogonalTwice | src/types/vectors/vector2.rs:418-420 | taking the orthogonal twice negates the vector |
| Vector2.Bounce | src/types/vectors/vector2.rs:138-140 | `bounce` is the opposite of `reflect` |
| Vector2.Project | src/types/vectors/vector2.rs:435-437 | the projection onto a non-zero `b` is parallel to `b` and the remainder is perpendicular to `b` |
| Vector2.SlideProject | src/types/vectors/vector2.rs:485-487 | for a unit normal, `slide` is perpendicular to it and `slide + project` gives the vector back |
| Vector2.ReflectBounce | src/types/vectors/vector2.rs:442-444 | for a unit normal, `reflect` keeps the normal part and negates the tangential part, `bounce` does the opposite, and reflecting twice is the identity |
| Vector2.ReflectExamples | src/types/vectors/vector2.rs:435-487 | with normal (0, 1), (1.2, 3.4) reflects to (-1.2, 3.4), bounces to (1.2, -3.4), projects to (0, 3.4) and slides to (1.2, 0) |
| Vector2.Abs | src/types/vectors/vector2.rs:68-73 | each component is non-negative with the original magnitude |
| Vector2.Aspect | src/types/vectors/vector2.rs:103-105 | the aspect times `y` is `x` |
| Vector2.Clamp | src/types/vectors/vector2.rs:151-156 | with `min ≤ max` both components land in range, and a vector already inside is unchanged |
| Vector2.ClampF | src/types/vectors/vector2.rs:159-164 | the scalar bounds give the same result as the vector bounds |
| Vector2.Max | src/types/vectors/vector2.rs:347-349 | each component is the larger of the two |
| Vector2.Min | src/types/vectors/vector2.rs:366-368 | each component is the smaller of the two |
| Vector2.MaxF | src/types/vectors/vector2.rs:361-363 | `max_f(w)` is `max` with (w, w) |
| Vector2.MinF | src/types/vectors/vector2.rs:380-382 | `min_f(w)` is `min` with (w, w) |
| Vector2.MaxAxisIndex | src/types/vectors/vector2.rs:352-358 | the returned axis holds the larger component; a tie gives `X` |
| Vector2.MinAxisIndex | src/types/vectors/vector2.rs:371-377 | the returned axis holds the smaller component; a tie gives `Y` |
| Vector2.Sign | src/types/vectors/vector2.rs:462-464 | each component is -1, 0 or 1: 0 exactly for a zero component, otherwise the sign of the component, so sign times abs gives the vector back |
| Vector2.Floor | src/types/vectors/vector2.rs:241-246 | each component is the greatest integer not above the input |
| Vector2.Ceil | src/types/vectors/vector2.rs:143-148 | each component is the least integer not below the input |
| Vector2.Round | src/types/vectors/vector2.rs:457-459 | each component is an integer within one half of the input, and a tie at one half goes away from zero |
| Vector2.Lerp | src/types/vectors/vector2.rs:328-333 | weight 0 gives `from` and weight 1 gives `to` |
| Vector2.CubicInterpolate | src/types/vectors/vector2.rs:176-187 | the curve starts at `from` at weight 0 and ends at `to` at weight 1 |
| Vector2.BezierInterpolate | src/types/vectors/vector2.rs:122-133 | the curve starts at `start` at t = 0 and ends at `end` at t = 1 |
| Vector2.Snapped | src/types/vectors/vector2.rs:490-492 | each component becomes a multiple of its step within half a step of the input, for a positive and for a negative step (a tie goes to the larger quotient); a zero step leaves the component |
| Vector2.SnappedF | src/types/vectors/vector2.rs:495-497 | `snapped_f(s)` is `snapped` with (s, s) |
| Vector2.PlaneProject | src/types/vectors/vector2.rs:499-501 | for any normal the result differs from `vec` by a multiple of the normal and its dot with the normal is `n · vec` less `(n · vec - d)·|n|²`; for a unit normal it lies on the line `n · p = d` |
| Vector2.Posmod | src/types/vectors/vector2.rs:423-425 | each component differs from the input by a whole multiple of the modulus and lies in [0, m) for a positive modulus |
| Vector2.Posmodv | src/types/vectors/vector2.rs:428-430 | the same per component with a vector of moduli |
| Vector2.LerpSnapExamples | src/types/vectors/vector2.rs:328-497 | lerp((1, 2), (4, 5), 0.5) = (2.5, 3.5) and (1.2, 3.4) snapped to 0.25 is (1.25, 3.5) |
| Vector2.PartialCmp | src/types/vectors/vector2.rs:566-574 | `partial_cmp` answers Equal, Less or Greater exactly when the vectors are equal, `a < b` or `b < a` |
| Vector2.OrderIsTotal | src/types/vectors/vector2.rs:565-597 | the lexicographic `<` on (x, y) is a strict total order; `>`, `<=`, `>=` derive from it |
| Vector2.FromVector2i | src/types/vectors/vector2.rs:30-38 | converting an integer vector to floats and back gives it unchanged |
| Vector2.ToVector2i | src/types/vectors/vector2i.rs:184-192 | each component is truncated toward zero: within 1 of the input and no larger in magnitude |
| Vector2.ScaleVector2i | src/types/vectors/vector2i.rs:206-208 | an integer vector times a float is the converted vector scaled |
| Vector2.DivVector2i | src/types/vectors/vector2i.rs:222-222 | an integer vector divided by a non-zero float is undone by scaling back |
| Vector2.ToVector2iExamples | src/types/vectors/vector2i.rs:184-192 | (1.1, 2.9) becomes (1, 2) and (-1.9, 0.5) becomes (-1, 0) |
| Vector3.Set | src/types/vectors/vector3.rs:97-104 | `set(i, v)` then `get(i)` returns `v` and the other components are unchanged; an index above 2 panics (a precondition) |
| Vector3.AxisIndex | src/types/vectors/vector3.rs:106-113 | `X`, `Y`, `Z` name components 0, 1, 2; `W` panics (a precondition) |
| Vector3.GetAxis | src/types/vectors/vector3.rs:106-113 | `get_axis` reads the component `get` reads at the axis' index |
| Vector3.SetAxis | src/types/vectors/vector3.rs:115-122 | `set_axis` writes the component `set` writes at the axis' index |
| Vector3.SetAxisGetAxis | src/types/vectors/vector3.rs:106-122 | set-then-get by axis returns the value on the same axis and the old value elsewhere; writing back what was read is the identity |
| Vector3.MaxAxisIndex | src/types/vectors/vector3.rs:349-361 | the returned axis holds a maximal component and every earlier component is strictly smaller, so ties go to `X` |
| Vector3.MinAxisIndex | src/types/vectors/vector3.rs:374-386 | the returned axis holds a minimal component and every later component is strictly larger, so ties go to `Z` |
| Vector3.AxisExamples | src/types/vectors/vector3.rs:349-386 | for (1.2, 3.4, 5.6) the largest axis is `Z` and the smallest `X`; for (1, 1, 1) they are `X` and `Z` |
| Vector3.DivScalar | src/types/vectors/vector3.rs:637-637 | dividing by a non-zero scalar is undone by multiplying by it |
| Vector3.Div | src/types/vectors/vector3.rs:635-635 | component-wise division by a vector without zero components is undone by component-wise multiplication |
| Vector3.AddSubInverse | src/types/vectors/vector3.rs:629-633 | subtraction undoes addition, `a + (-a) = 0`, negation is an involution, addition commutes, and adding then subtracting one is the identity |
| Vector3.Inverse | src/types/vectors/vector3.rs:280-282 | the component-wise inverse times the vector is (1, 1, 1) |
| Vector3.Not | src/types/vectors/vector3.rs:669-675 | `!v` holds exactly for the zero vector |
| Vector3.OperatorExamples | src/types/vectors/vector3.rs:613-637 | fixture sums, differences, products and quotients, e.g. (4, 5, 9) / (1, 2, 3) = (4, 2.5, 3) and (4, 5, 9) / 2 = (2, 2.5, 4.5) |
| Vector3.LengthSquared | src/types/vectors/vector3.rs:316-321 | non-negative and zero only for the zero vector |
| Vector3.DistanceSquaredTo | src/types/vectors/vector3.rs:254-256 | the squared length of the difference, non-negative and zero exactly when the points coincide |
| Vector3.LengthSquaredNeg | src/types/vectors/vector3.rs:316-321 | negation keeps the squared length |
| Vector3.DotFacts | src/types/vectors/vector3.rs:270-272 | the dot product is symmetric and a vector's dot with itself is its squared length |
| Vector3.CrossFacts | src/types/vectors/vector3.rs:197-203 | the cross product is perpendicular to both inputs, antisymmetric, and zero for parallel inputs |
| Vector3.TripleProductCyclic | src/types/vectors/vector3.rs:197-203 | the scalar triple product `a · (b × c)` is invariant under cyclic rotation |
| Vector3.CrossLagrange | src/types/vectors/vector3.rs:197-203 | `|a × b|² = |a|²|b|² - (a · b)²` |
| Vector3.CrossExamples | src/types/vectors/vector3.rs:197-203 | RIGHT × UP = BACK, UP × RIGHT = -BACK, UP × BACK = RIGHT, BACK × RIGHT = UP |
| Vector3.Bounce | src/types/vectors/vector3.rs:167-169 | `bounce` is the opposite of `reflect` |
| Vector3.Project | src/types/vectors/vector3.rs:488-490 | the projection onto a non-zero `b` is parallel to `b` and the remainder is perpendicular to `b` |
| Vector3.SlideProject | src/types/vectors/vector3.rs:560-562 | for a unit normal, `slide` is perpendicular to it and `slide + project` gives the vector back |
| Vector3.ReflectNormalPart | src/types/vectors/vector3.rs:495-497 | for a unit normal, `reflect` keeps the component along the normal |
| Vector3.ReflectBounce | src/types/vectors/vector3.rs:495-497 | for a unit normal, `reflect` negates the tangential part, `bounce` negates the normal part and keeps the tangential one, and reflecting twice is the identity |
| Vector3.OnUpNormal | src/types/vectors/vector3.rs:488-562 | with normal UP, `reflect`, `bounce`, `project` and `slide` act on components as mirror, flip, keep-y and drop-y |
| Vector3.ReflectExamples | src/types/vectors/vector3.rs:488-562 | (1.2, 3.4, 5.6) reflects to (-1.2, 3.4, -5.6), bounces to (1.2, -3.4, 5.6), projects to (0, 3.4, 0), slides to (1.2, 0, 5.6) |
| Vector3.Abs | src/types/vectors/vector3.rs:125-127 | each component is non-negative with the original magnitude |
| Vector3.Clamp | src/types/vectors/vector3.rs:177-183 | with `min ≤ max` every component lands in range, and a vector already inside is unchanged |
| Vector3.ClampF | src/types/vectors/vector3.rs:186-192 | the scalar bounds give the same result as the vector bounds |
| Vector3.Max | src/types/vectors/vector3.rs:344-346 | each component is the larger of the two |
| Vector3.Min | src/types/vectors/vector3.rs:369-371 | each component is the smaller of the two |
| Vector3.MaxF | src/types/vectors/vector3.rs:364-366 | `max_f(w)` is `max` with (w, w, w) |
| Vector3.MinF | src/types/vectors/vector3.rs:389-391 | `min_f(w)` is `min` with (w, w, w) |
| Vector3.Sign | src/types/vectors/vector3.rs:516-518 | each component is -1, 0 or 1: 0 exactly for a zero component, otherwise the sign of the component, so sign times abs gives the vector back |
| Vector3.Floor | src/types/vectors/vector3.rs:275-277 | each component is the greatest integer not above the input |
| Vector3.Ceil | src/types/vectors/vector3.rs:172-174 | each component is the least integer not below the input |
| Vector3.Round | src/types/vectors/vector3.rs:511-513 | each component is an integer within one half of the input, and a tie at one half goes away from zero |
| Vector3.Lerp | src/types/vectors/vector3.rs:324-330 | weight 0 gives `from` and weight 1 gives `to` |
| Vector3.CubicInterpolate | src/types/vectors/vector3.rs:206-218 | the curve starts at `from` at weight 0 and ends at `to` at weight 1 |
| Vector3.CubicInterpolateInTime | src/types/vectors/vector3.rs:223-244 | with non-zero `pre_t` and `to_t` the curve starts at `from`; with a non-zero `to_t` distinct from `pre_t` and `post_t` it ends at `to` |
| Vector3.CubicInterpolateInTimeEnds | src/utils.rs:84-123 | the scalar time-parameterised cubic hits its end points under the same conditions |
| Vector3.BezierInterpolate | src/types/vectors/vector3.rs:150-162 | the curve starts at `start` at t = 0 and ends at `end` at t = 1 |
| Vector3.Snapped | src/types/vectors/vector3.rs:571-575 | each component becomes a multiple of its step within half a step of the input, for a positive and for a negative step (a tie goes to the larger quotient); a zero step leaves the component |
| Vector3.SnappedF | src/types/vectors/vector3.rs:584-588 | `snapped_f(s)` is `snapped` with (s, s, s) |
| Vector3.Posmod | src/types/vectors/vector3.rs:468-474 | each component differs from the input by a whole multiple of the modulus and lies in [0, m) for a positive modulus |
| Vector3.Posmodv | src/types/vectors/vector3.rs:477-483 | the same per component with a vector of moduli |
| Vector3.ComponentExamples | src/types/vectors/vector3.rs:177-588 | fixtures: lerp at 0.5, clamp of (-5, 5, 15) to [0, 10], the cubic at 0.5 is (2.375, 3.5, 4.625), posmod(-(1.2, 3.4, 5.6), 2) = (0.8, 0.6, 0.4), snapping to 1 and to 0.25 |
| Vector3.PartialCmp | src/types/vectors/vector3.rs:678-686 | `partial_cmp` answers Equal, Less or Greater exactly when the vectors are equal, `a < b` or `b < a` |
| Vector3.OrderIsTotal | src/types/vectors/vector3.rs:677-717 | the lexicographic `<` on (x, y, z) is a strict total order; `>`, `<=`, `>=` derive from it |
| Vector3.FromVector3i | src/types/vectors/vector3.rs:591-600 | converting an integer vector to floats and back gives it unchanged |
| Vector3.ToVector3i | src/types/vectors/vector3i.rs:218-226 | each component is truncated toward zero: within 1 of the input and no larger in magnitude |
| Vector3.ToVector3iExamples | src/types/vectors/vector3i.rs:218-226 | (1.1, 2.9, 3.9) becomes (1, 2, 3) and (2.3, 4.9, 7.8) becomes (2, 4, 7) |
| Vector4.Set | src/types/vectors/vector4.rs:398-406 | `set(i, v)` then `get(i)` returns `v` and the other components are unchanged; an index above 3 panics (a precondition) |
| Vector4.AxisIndex | src/types/vectors/vector4.rs:408-415 | `X`, `Y`, `Z`, `W` name components 0 to 3 |
| Vector4.GetAxis | src/types/vectors/vector4.rs:408-415 | `get_axis` reads the component `get` reads at the axis' index |
| Vector4.SetAxis | src/types/vectors/vector4.rs:417-424 | `set_axis` writes the component `set` writes at the axis' index |
| Vector4.SetAxisGetAxis | src/types/vectors/vector4.rs:408-424 | set-then-get by axis returns the value on the same axis and the old value elsewhere; writing back what was read is the identity |
| Vector4.MaxAxisIndex | src/types/vectors/vector4.rs:225-249 | the returned axis holds a maximal component and every earlier component is strictly smaller, so ties go to `X` |
| Vector4.MinAxisIndex | src/types/vectors/vector4.rs:272-296 | the returned axis holds a minimal component and every later component is strictly larger, so ties go to `W` |
| Vector4.AxisExamples | src/types/vectors/vector4.rs:225-296 | for (1.2, 3.4, 5.6, -0.9) the largest axis is `Z` and the smallest `W`; for (1, 1, 1, 1) they are `X` and `W` |
| Vector4.Neg | src/types/vectors/vector4.rs:608-618 | the negation added to the vector gives zero |
| Vector4.DivScalar | src/types/vectors/vector4.rs:518-525 | dividing by a non-zero scalar is undone by multiplying by it |
| Vector4.Div | src/types/vectors/vector4.rs:502-509 | component-wise division by a vector without zero components is undone by component-wise multiplication |
| Vector4.Inverse | src/types/vectors/vector4.rs:160-162 | the component-wise inverse times the vector is (1, 1, 1, 1) |
| Vector4.ScalarDivAsWritten | src/types/vectors/vector4.rs:518-525 | `k / v` as the commutative macro generates it: the result times `k` is `v`, i.e. it is `v / k` |
| Vector4.ScalarDiv | src/types/vectors/vector4.rs:518-525 | `k / v` as intended: the result times `v` is (k, k, k, k) |
| Vector4.ScalarDivIsScaledInverse | src/types/vectors/vector4.rs:518-525 | the corrected `k / v` is `k` times the component-wise inverse of `v` |
| Vector4.ScalarDivAsWrittenCounterexample | src/types/vectors/vector4.rs:518-525 | `2 / (1, 1, 1, 1)` as written differs from the intended (2, 2, 2, 2) |
| Vector4.AddSubInverse | src/types/vectors/vector4.rs:475-493 | subtraction undoes addition, negation is an involution, addition commutes, and `a - b = a + (-b)` |
| Vector4.Not | src/types/vectors/vector4.rs:550-556 | `!v` holds exactly for the zero vector |
| Vector4.OperatorExamples | src/types/vectors/vector4.rs:475-618 | fixture negation, sum and quotient, e.g. (4, 5, 9, 2) / (1, 2, 3, 1) = (4, 2.5, 3, 2) |
| Vector4.LengthSquared | src/types/vectors/vector4.rs:200-202 | non-negative and zero only for the zero vector |
| Vector4.DistanceSquaredTo | src/types/vectors/vector4.rs:135-137 | the squared length of the difference in either order, non-negative and zero exactly when the points coincide |
| Vector4.DotFacts | src/types/vectors/vector4.rs:145-147 | the dot product is symmetric and linear in its first argument |
| Vector4.DotExamples | src/types/vectors/vector4.rs:145-147 | orthogonal axes have dot 0, an axis with itself 1, and ten times an axis with itself 100 |
| Vector4.Abs | src/types/vectors/vector4.rs:53-55 | each component is non-negative with the original magnitude |
| Vector4.Clamp | src/types/vectors/vector4.rs:63-70 | with `min ≤ max` every component lands in range, and a vector already inside is unchanged |
| Vector4.ClampF | src/types/vectors/vector4.rs:73-80 | the scalar bounds give the same result as the vector bounds |
| Vector4.Max | src/types/vectors/vector4.rs:215-222 | each component is the larger of the two |
| Vector4.Min | src/types/vectors/vector4.rs:262-269 | each component is the smaller of the two |
| Vector4.MaxF | src/types/vectors/vector4.rs:252-259 | `max_f(w)` is `max` with (w, w, w, w) |
| Vector4.MinF | src/types/vectors/vector4.rs:299-306 | `min_f(w)` is `min` with (w, w, w, w) |
| Vector4.Sign | src/types/vectors/vector4.rs:364-366 | each component is -1, 0 or 1: 0 exactly for a zero component, otherwise the sign of the component, so sign times abs gives the vector back |
| Vector4.Floor | src/types/vectors/vector4.rs:150-157 | each component is the greatest integer not above the input |
| Vector4.Ceil | src/types/vectors/vector4.rs:58-60 | each component is the least integer not below the input |
| Vector4.Round | src/types/vectors/vector4.rs:354-361 | each component is an integer within one half of the input, and a tie at one half goes away from zero |
| Vector4.Lerp | src/types/vectors/vector4.rs:205-212 | weight 0 gives `from` and weight 1 gives `to` |
| Vector4.CubicInterpolate | src/types/vectors/vector4.rs:83-96 | the curve starts at `from` at weight 0 and ends at `to` at weight 1 |
| Vector4.Snapped | src/types/vectors/vector4.rs:369-376 | each component becomes a multiple of its step within half a step of the input, for a positive and for a negative step (a tie goes to the larger quotient); a zero step leaves the component |
| Vector4.SnappedF | src/types/vectors/vector4.rs:379-386 | `snapped_f(s)` is `snapped` with (s, s, s, s) |
| Vector4.Posmod | src/types/vectors/vector4.rs:334-341 | each component differs from the input by a whole multiple of the modulus and lies in [0, m) for a positive modulus |
| Vector4.PosmodV | src/types/vectors/vector4.rs:344-351 | the same per component with a vector of moduli |
| Vector4.ComponentExamples | src/types/vectors/vector4.rs:63-386 | fixtures: lerp at 0.5, two clamps including (10, 10, 10, 10) into [(0, 10, 15, 18), (5, 10, 20, 25)], the cubic at 0.5 is (2.375, 3.5, 4.625, 5.75), snapping to 1 |
| Vector4.PartialCmp | src/types/vectors/vector4.rs:559-567 | `partial_cmp` answers Equal, Less or Greater exactly when the vectors are equal, `a < b` or `b < a` |
| Vector4.OrderIsTotal | src/types/vectors/vector4.rs:558-606 | the lexicographic `<` on (x, y, z, w) is a strict total order; `>`, `<=`, `>=` derive from it |
| Vector4.ToVector4i | src/types/vectors/vector4i.rs:257-267 | each component is truncated toward zero: within 1 of the input and no larger in magnitude |
| Vector4.ToVector4iExact | src/types/vectors/vector4i.rs:257-267 | a vector of whole numbers converts to exactly those integers |
| Vector4.ToVector4iExamples | src/types/vectors/vector4i.rs:257-267 | (1.1, 2.9, 3.9, 100.5) becomes (1, 2, 3, 100) |
| Color.Lookup | src/types/color.rs:1273-1423 | an unknown name yields the default and a known name yields its table entry |
| Color.ColorName | src/types/color.rs:1273-1423 | `color_name` looks the (already normalised) name up in the table of named colours, falling back to the default |
| Color.ToLower | src/types/color.rs:616-623 | lower-casing keeps the length and lowers each character |
| Color.Normalize | src/types/color.rs:616-623 | `named` replaces each space by `_` and upper-cases ASCII letters, character by character, keeping the length |
| Color.NormalizeIdempotent | src/types/color.rs:616-623 | a normalised name has no spaces and no lower-case letters, and normalising again changes nothing |
| Color.NormalizeIgnoresCase | src/types/color.rs:616-623 | normalising a lower-cased name gives the same key as normalising the original |
| Color.Named | src/types/color.rs:616-623 | when the normalised name is in the table the result is that entry's colour; otherwise the given default, or opaque black when none is given |
| Color.NamedIgnoresCase | src/types/color.rs:616-623 | the lookup is case-insensitive |
| Color.NamedFirstExample | src/types/color.rs:616-623 | "alice blue" without a default is `ALICE_BLUE` |
| Color.NamedThirdExample | src/types/color.rs:616-623 | "Aqua" with default red is `AQUA` |
| Color.AquaEntry | src/types/color.rs:1273-1423 | the table maps "AQUA" to (0, 1, 1, 1) |
| Color.Inverted | src/types/color.rs:785-787 | `inverted` keeps alpha and each colour channel plus its inverse is 1 |
| Color.Neg | src/types/color.rs:1266-1271 | `-c` is `inverted` with alpha inverted too |
| Color.InversionFacts | src/types/color.rs:1216-1271 | inverting twice and negating twice are the identity; `!c` holds exactly for the default, which is opaque black |
| Color.InversionExamples | src/types/color.rs:785-787 | (0, 0, 1, 0.4) inverts to (1, 1, 0, 0.4); -(0.2, 0.2, 1, 1) is (0.8, 0.8, 0, 0); `!WHITE` is false and `!BLACK` true |
| Color.BitOrDisjoint | src/types/color.rs:933-943 | OR-ing a value shifted past the bits of a smaller one is addition |
| Color.BitOrBound | src/types/color.rs:933-943 | OR of two k-bit values is a k-bit value |
| Color.Pack32OfBytes | src/types/color.rs:933-943 | the shift-and-or packing of four bytes is their base-256 number |
| Color.Pack64OfFields | src/types/color.rs:946-956 | the shift-and-or packing of four 16-bit fields is their base-65536 number |
| Color.SatU32 | src/types/color.rs:933-943 | the saturating cast to `u32` keeps in-range values |
| Color.SatU64 | src/types/color.rs:946-956 | the saturating cast to `u64` keeps in-range values |
| Color.Bytes | src/types/color.rs:646-657 | the four bytes of `h`, least significant first, recombine to `h` |
| Color.Fields | src/types/color.rs:662-673 | the four 16-bit fields of `h`, least significant first, recombine to `h` |
| Color.Hex | src/types/color.rs:646-657 | every channel of `hex(h)` lies in [0, 1] |
| Color.Hex64 | src/types/color.rs:662-673 | every channel of `hex64(h)` lies in [0, 1] |
| Color.Channel32OfByte | src/types/color.rs:933-943 | a byte divided by 255 converts back to the same byte |
| Color.Channel64OfField | src/types/color.rs:946-956 | a 16-bit field divided by 65535 converts back to the same field |
| Color.Rgba32OfHex | src/types/color.rs:933-943 | `to_rgba32(hex(h)) == h` for every 32-bit `h` |
| Color.Rgba64OfHex64 | src/types/color.rs:946-956 | `to_rgba64(hex64(h)) == h` for every 64-bit `h` |
| Color.OtherOrders32OfHex | src/types/color.rs:861-896 | `to_argb32(hex(h))` rotates the alpha byte to the top, `to_abgr32(hex(h))` reverses the byte order |
| Color.Argb32OfHex | src/types/color.rs:886-896 | `to_argb32(hex(h))` is `h` rotated right by one byte |
| Color.Abgr32OfHex | src/types/color.rs:861-871 | `to_abgr32(hex(h))` is `h` with its four bytes reversed |
| Color.OtherOrders64OfHex64 | src/types/color.rs:873-909 | the same for the 64-bit packings and 16-bit fields |
| Color.Argb64OfHex64 | src/types/color.rs:899-909 | `to_argb64(hex64(h))` is `h` rotated right by one 16-bit field |
| Color.Abgr64OfHex64 | src/types/color.rs:873-883 | `to_abgr64(hex64(h))` is `h` with its four 16-bit fields reversed |
| Color.Channel32Byte | src/types/color.rs:933-943 | a channel in [0, 1] packs to its rounded value times 255, which fits in a byte |
| Color.ChannelNear | src/types/color.rs:933-943 | a channel in [0, 1] is within half a step of its packed byte divided by 255 |
| Color.HexOfRgba32 | src/types/color.rs:933-943 | decoding `to_rgba32(c)` with `hex` gives each channel back within half a step of 1/255 |
| Color.BytesUnique | src/types/color.rs:646-657 | the byte decomposition of a number is unique |
| Color.PackingExamples | src/types/color.rs:861-956 | cyan packs to 0xff00ffff (argb32) and 0xffffff00 (abgr32); (0, 1, 1, 1) to 0x00ffffff (rgba32), and the 64-bit analogues |
| Color.Packing32Examples | src/types/color.rs:861-956 | cyan (0, 1, 1, 1) packs to 0xff00ffff as ARGB, 0xffffff00 as ABGR and 0x00ffffff as RGBA |
| Color.Packing64Examples | src/types/color.rs:861-956 | cyan packs to 0xffff0000ffffffff as ARGB64, 0xffffffffffff0000 as ABGR64 and 0x0000ffffffffffff as RGBA64 |
| Color.HexExamples | src/types/color.rs:646-673 | `hex(0x4060ff80)` is (64/255, 96/255, 1, 128/255) and `hex64(0x40406060ffff8080)` is the same colour |
| Color.HexExample | src/types/color.rs:646-673 | `hex(0x4060ff80)` is (64/255, 96/255, 1, 128/255) |
| Color.Hex64Example | src/types/color.rs:646-673 | `hex64(0x40406060ffff8080)` is (64/255, 96/255, 1, 128/255), each 16-bit field being its byte times 257 |
| Color.DigitValue | src/types/color.rs:678-750 | a hex digit has a value below 16 |
| Color.FromStrRadix16 | src/types/color.rs:705-726 | a non-empty all-hex string parses to its value; an empty string or a leading non-digit other than a sign fails |
| Color.StripHash | src/types/color.rs:683-685 | a leading `#` is removed once; otherwise the string is unchanged |
| Color.HtmlIsValid | src/types/color.rs:753-782 | `html_is_valid(s)` holds exactly when `s` is non-empty and, without a leading `#`, has 3, 4, 6 or 8 characters, all hex digits |
| Color.Html | src/types/color.rs:678-702 | a string whose length without `#` is not 3, 4, 6 or 8 decodes to the default colour |
| Color.Byte | src/types/color.rs:715-726 | two hex digits make a value below 256 |
| Color.HtmlDecodes | src/types/color.rs:703-742 | a valid 3- or 4-digit string decodes each digit divided by 15 (alpha 1 when absent); a 6- or 8-digit string each byte divided by 255 (alpha 1 when absent) |
| Color.HtmlExamples | src/types/color.rs:678-750 | "#4060ff80" decodes to `hex(0x4060ff80)`; "invalid" and "" to the default; "#f80" to (1, 8/15, 0, 1) |
| Color.HtmlLongExample | src/types/color.rs:678-750 | "#4060ff80" decodes to the same colour as `hex(0x4060ff80)` |
| Color.HtmlInvalidExample | src/types/color.rs:678-750 | "invalid" and the empty string decode to the default colour |
| Color.HtmlShortExample | src/types/color.rs:678-750 | "#f80" decodes to (1, 8/15, 0, 1), each digit scaled by 1/15 |
| Color.SatU8 | src/types/color.rs:912-920 | the saturating cast to `u8` lies in [0, 255] and keeps in-range values |
| Color.HexChar | src/types/color.rs:912-920 | a value below 16 prints as a lower-case hex digit with that value |
| Color.ByteToHex | src/types/color.rs:912-920 | a byte prints as two hex digits that parse back to it |
| Color.Channel8 | src/types/color.rs:912-920 | a channel becomes a byte |
| Color.ToHtml | src/types/color.rs:912-920 | `to_html` gives eight hex digits, a valid html string |
| Color.HtmlOfToHtml | src/types/color.rs:912-920 | decoding `to_html(c)` gives each channel rounded to a byte and divided by 255 |
| Color.HtmlOfToHtmlOfHex | src/types/color.rs:912-920 | for colours made by `hex`, `html(to_html(c)) == c` |
| Color.Channel8OfByte | src/types/color.rs:912-920 | a byte divided by 255 prints as the same byte |
| Color.ToHtmlExamples | src/types/color.rs:912-920 | (0, 1, 1, 1) prints as "00ffffff" and (0, 1, 1, 0) as "00ffff00" |
| Color.FromString | src/types/color.rs:628-634 | a string that passes `html_is_valid` decodes digit by digit (3 or 4 digits over 15, 6 or 8 digits in pairs over 255, alpha 1 when absent); any other string gives the table entry of its normalised name, or the default |
| Color.FromStringExamples | src/types/color.rs:628-634 | "#f80" gives (1, 8/15, 0, 1) and "Aqua" gives `AQUA` |
| Quaternion.Neg | src/types/quaternion.rs:495-506 | `-q` added to `q` gives zero, i.e. it is `q` scaled by -1, and its dot product with `q` is minus the squared length of `q` |
| Quaternion.LengthSquared | src/types/quaternion.rs:173-175 | non-negative and zero only for the zero quaternion |
| Quaternion.Inverse | src/types/quaternion.rs:142-144 | `q + inverse(q)` keeps only twice `w`, and the inverse has the same squared length |
| Quaternion.DotFacts | src/types/quaternion.rs:69-71 | `dot` is symmetric and negating either argument negates it |
| Quaternion.InvolutionFacts | src/types/quaternion.rs:142-144 | `inverse` and `-` are involutions and commute with each other |
| Quaternion.MulIdentity | src/types/quaternion.rs:41-45 | `IDENTITY` is a two-sided unit of the Hamilton product and the default quaternion is `IDENTITY` |
| Quaternion.MulInverse | src/types/quaternion.rs:426-433 | a quaternion times its inverse, on either side, is its squared length on the real axis |
| Quaternion.InverseOfMul | src/types/quaternion.rs:426-433 | the inverse of a product is the product of the inverses in reverse order |
| Quaternion.MulNotCommutative | src/types/quaternion.rs:426-433 | on pure x and y quaternions the product in the two orders differs by sign, i·j = k and j·i = -k |
| Quaternion.MulExample | src/types/quaternion.rs:426-433 | (1, -2, 1, 3)·(-1, 2, 3, 2) = (-9, -2, 11, 8) |
| Quaternion.MulAssignAsWritten | src/types/quaternion.rs:434-439 | `*=` as written: its first field is that of the Hamilton product |
| Quaternion.MulAssignAsWrittenY | src/types/quaternion.rs:434-439 | the second field written by `*=` differs from the product's by the change already made to x, times `rhs.z` |
| Quaternion.MulAssignAsWrittenCounterexample | src/types/quaternion.rs:426-439 | `i *= j` as written gives the zero quaternion, while `i * j` is `k` |
| Quaternion.FromAxisAngle | src/types/quaternion.rs:403-416 | a zero axis gives the zero quaternion; otherwise `w` is the cosine of half the angle |
| Quaternion.FromAxisAngleAlongAxis | src/types/quaternion.rs:403-416 | the vector part of the result is parallel to the axis |
| Quaternion.Aligned | src/types/quaternion.rs:190-224 | `slerp` keeps `to` when the dot is non-negative and negates it otherwise, so its dot with `from` is the absolute dot |
| Quaternion.SineRatioEnds | src/types/quaternion.rs:190-224 | the sine ratio `sin(t·ω)/sin(ω)` is 0 at t = 0 and 1 at t = 1 |
| Quaternion.Slerp | src/types/quaternion.rs:190-224 | with `sin(0) = 0`, weight 0 gives `from` and weight 1 the aligned `to`; when `1 - |dot| ≤ CMP_EPSILON` the result is the linear interpolation `from + w·(aligned to - from)`; the aligned target never has a negative dot with `from` |
| Quaternion.SlerpEnds | src/types/quaternion.rs:190-224 | weight 0 gives `from` and weight 1 the aligned `to`, needing a non-zero sine only in the sine branch |
| Quaternion.SlerpTakesShortArc | src/types/quaternion.rs:190-224 | the aligned target never has a negative dot with `from` |
| Quaternion.SlerpNi | src/types/quaternion.rs:227-247 | `slerp_ni` returns `from` unchanged when `|dot| > 1 - CMP_EPSILON/10`; with `sin(0) = 0`, weight 0 gives `from`, and weight 1 gives `to` itself (not aligned) outside that near-parallel case |
| Quaternion.SlerpNiOfSelf | src/types/quaternion.rs:227-247 | for a unit quaternion, `slerp_ni` towards itself or its negation returns it unchanged |
| Quaternion.FlipPhases | src/types/quaternion.rs:268-278 | `pre` and `to` flip exactly when their dot with `from` is negative; `post` flips when its dot with the new `to` is non-positive after a flip of `to` and negative otherwise; afterwards no consecutive pair has a negative dot |
| Quaternion.FlipPhasesZeroDot | src/types/quaternion.rs:268-278 | at a zero dot between `to` and `post`, `post` flips exactly when `to` did |
| Basis.GetColumn | src/types/basis.rs:877-884 | component i of column index is the matrix entry at row i, column index |
| Basis.SetRow | src/types/basis.rs:868-875 | the chosen row becomes the new vector and the other two rows are unchanged |
| Basis.SetColumn | src/types/basis.rs:885-904 | the chosen column becomes the new vector and the other two columns are unchanged |
| Basis.New | src/types/basis.rs:260-262 | the three arguments are the columns of the new basis |
| Basis.NewRows | src/types/basis.rs:264-266 | the three arguments are the rows of the new basis |
| Basis.SetColumns | src/types/basis.rs:906-910 | setting all three columns yields the basis built from those columns |
| Basis.IdentityEntries | src/types/basis.rs:199-203 | the identity has 1 on the diagonal and 0 elsewhere, and the default basis is the identity |
| Basis.RowColumnRoundTrip | src/types/basis.rs:859-904 | reading back a written row or column gives what was written; writing back what was read changes nothing |
| Basis.Transposed | src/types/basis.rs:853-857 | entry (i, j) of the transpose is entry (j, i) of the original |
| Basis.TransposedFacts | src/types/basis.rs:853-857 | transposing twice is the identity; column-built equals the transpose of row-built; columns of the transpose are the rows |
| Basis.TransposedExample | src/types/basis.rs:853-857 | the transpose of the basis with columns (1,2,3), (4,5,6), (7,8,9) has columns (1,4,7), (2,5,8), (3,6,9) |
| Basis.XformColumns | src/types/basis.rs:966-968 | transforming v is the combination of the three columns weighted by the components of v |
| Basis.XformTransposed | src/types/basis.rs:811-827 | t_dot_x/y/z are the dot products with the columns, and together they transform by the transpose |
| Basis.MulEntries | src/types/basis.rs:979-988 | entry (i, j) of a product is row i of the left factor dotted with column j of the right factor |
| Basis.MulIdentity | src/types/basis.rs:979-988 | the identity is a left and right unit of the product |
| Basis.TransposedOfMul | src/types/basis.rs:979-988 | the transpose of a product is the product of the transposes in reverse order |
| Basis.XformOfMul | src/types/basis.rs:979-988 | transforming by a product equals transforming by the right factor and then by the left factor |
| Basis.MulAssociative | src/types/basis.rs:979-988 | the product is associative |
| Basis.DeterminantFacts | src/types/basis.rs:293-297 | the determinant is the triple product of the rows and of the columns, unchanged by transposing, negated by swapping two rows |
| Basis.FromScale | src/types/basis.rs:346-348 | the result is diagonal with the scale components on the diagonal, and its determinant is their product |
| Basis.Scaled | src/types/basis.rs:789-793 | row i of the result is row i of the basis multiplied by scale component i |
| Basis.ScaledLocal | src/types/basis.rs:39-41 | each column of the result is the matching column multiplied by the matching scale component |
| Basis.MulByDiagonal | src/types/basis.rs:763-767 | right multiplication by a diagonal scales the components of every row; left multiplication by it is scaled |
| Basis.ScaledIsLeftMul | src/types/basis.rs:789-793 | scaled equals left multiplication by the scale matrix, and scaling by (1, 1, 1) changes nothing |
| Basis.ScaledExample | src/types/basis.rs:789-793 | scaling the basis with columns (1,1,1), (2,2,2), (3,3,3) by (0, 2, -2) gives columns (0,2,-2), (0,4,-4), (0,6,-6) |
| Basis.ScalarMulFacts | src/types/basis.rs:998-1001 | multiplying by a scalar multiplies every entry, equals scaling by (k, k, k), and 1 leaves the basis unchanged |
| Basis.XformAxes | src/types/basis.rs:966-968 | transforming the unit axes yields the three columns |
| Basis.ScalarMulIsMul | src/types/basis.rs:998-1001 | multiplying by a scalar equals multiplying by the diagonal matrix of that scalar on either side |
| Basis.MulScalarMul | src/types/basis.rs:979-1001 | a scalar factor can be moved out of either factor of a product |
| Basis.Diagonal | src/types/basis.rs:346-348 | the diagonal matrix of d is the scale matrix of (d, d, d) and is its own transpose |
| Basis.MulAdjugate | src/types/basis.rs:637-659 | the basis times its cofactor matrix, on either side, is the determinant times the identity |
| Basis.Inverse | src/types/basis.rs:637-666 | for a non-zero determinant the inverse is a left and right inverse of the basis |
| Basis.InverseIsScaledAdjugate | src/types/basis.rs:637-659 | cofactors times the reciprocal of the determinant invert the basis on both sides |
| Basis.ShapeImplications | src/types/basis.rs:171-196 | orthonormal and conformal imply orthogonal; a rotation is conformal and its determinant lies within UNIT_EPSILON of 1 |
| Basis.RotationDeterminantNearOne | src/types/basis.rs:194-196 | a rotation's determinant lies strictly between 1 - UNIT_EPSILON and 1 + UNIT_EPSILON |
| Basis.ExactlyOrthonormalFacts | src/types/basis.rs:180-190 | an exactly orthonormal basis passes the orthonormal, conformal and orthogonal tests and its transpose is its inverse |
| Basis.ExactlyOrthonormalShape | src/types/basis.rs:180-190 | an exactly orthonormal basis passes the orthonormal, conformal and orthogonal tests |
| Basis.ExactlyOrthonormalTransposeUndoes | src/types/basis.rs:180-190 | for an exactly orthonormal basis, `transposed() * b` is the identity |
| Basis.FromScaleShape | src/types/basis.rs:160-176 | a scale matrix is diagonal and orthogonal, and conformal when the three scale factors agree |
| Basis.SkewedShape | src/types/basis.rs:171-196 | a skewed basis is neither orthogonal, conformal, orthonormal nor a rotation |
| Basis.DefaultShape | src/types/basis.rs:171-203 | the default basis is orthogonal, conformal, orthonormal and a rotation |
| Basis.FlipShape | src/types/basis.rs:171-190 | the all-axes flip is orthogonal, conformal and orthonormal |
| Basis.FromScaleExactlyOrthonormal | src/types/basis.rs:346-348 | a scale matrix whose factors square to 1 is exactly orthonormal |
| Basis.FlipNotRotation | src/types/basis.rs:194-196 | the all-axes flip is not a rotation because its determinant is -1 |
| Basis.NonUniformScaleShape | src/types/basis.rs:171-196 | scale (1.2, 3.4, 5.6) is orthogonal but not conformal, orthonormal or a rotation |
| Basis.UniformScaleShape | src/types/basis.rs:669-679 | a uniform scale of 1.2 is conformal |
| Basis.FlipRotateScaleShape | src/types/basis.rs:171-190 | a flipped, rotated and uniformly scaled basis is orthogonal and conformal but not orthonormal |
| Basis.ZeroShape | src/types/basis.rs:171-176 | the zero basis passes the orthogonal and conformal tests |
| Basis.ZeroNotOrthonormal | src/types/basis.rs:180-190 | the zero basis is not orthonormal |
| Basis.ZeroNotRotation | src/types/basis.rs:194-196 | the zero basis is not a rotation |
| Basis.NotRotationByDeterminant | src/types/basis.rs:194-196 | no basis with a non-positive determinant is a rotation |
| Basis.SqueezeShape | src/types/basis.rs:194-196 | a squeeze with determinant 1 is still not a rotation because it is not conformal |
| Basis.QuaternionPivot | src/types/basis.rs:555-567 | the pivot is the index of a largest diagonal entry, every diagonal entry before it strictly smaller, and it and its two successors mod 3 cover all indices |
| Basis.PivotRadicand | src/types/basis.rs:569-570 | with a non-positive trace the square-root argument at the pivot is at least 1 |
| Basis.GetQuaternion | src/types/basis.rs:540-580 | with a positive trace the scalar part is positive; otherwise the component at the pivot is positive |
| Basis.GetQuaternionSymmetric | src/types/basis.rs:546-553 | a symmetric basis with positive trace gives a quaternion with zero vector part |
| Basis.GetQuaternionIdentity | src/types/basis.rs:540-580 | the identity basis gives the identity quaternion |
| Basis.GetQuaternionHalfTurn | src/types/basis.rs:554-577 | the half turn about Y selects pivot 1 and gives the quaternion (0, 1, 0, 0) |
| Basis.DominantAxis | src/types/basis.rs:95-131 | the chosen axis holds a largest value; it is X exactly when X is strictly largest, and Z only when Y is not larger than Z |
| Basis.HalfTurnAxis | src/types/basis.rs:87-133 | below CMP_EPSILON the axis uses FRAC_1_SQRT_2 off the dominant axis; otherwise the dominant component is the positive square root and the products match the off-diagonal averages |
| Basis.HalfTurnTriple | src/types/basis.rs:95-131 | below CMP_EPSILON the result is (0, FRAC_1_SQRT_2, FRAC_1_SQRT_2); otherwise the first component is the positive root and its products with the others are the given values |
| Basis.SkewAxis | src/types/basis.rs:135-149 | the axis is parallel to the skew vector, points the same way, and is non-zero when the skew vector is |
| Basis.SkewAxisValue | src/types/basis.rs:135-149 | when the skew length is at least CMP_EPSILON the axis is the skew vector divided by that length |
| Basis.GetAxisAngle | src/types/basis.rs:69-158 | identity gives angle 0 about UP; other symmetric bases give PI about the half-turn axis; otherwise the angle is safe_acos((trace - 1) / 2) about a non-zero axis along the skew vector |
| Basis.AxisAngleIdentity | src/types/basis.rs:77-86 | the identity basis gives angle 0 about UP |
| Basis.AxisAngleHalfTurn | src/types/basis.rs:87-133 | the half turn about Y gives angle PI about UP |
| Basis.AxisAngleAboutZ | src/types/basis.rs:135-157 | a rotation-like basis about Z gives the BACK or FORWARD axis, by the sign of its skew part, with angle safe_acos of its cosine |
| Basis.NonSingularAxisAngle | src/types/basis.rs:135-157 | for a non-symmetric basis the result is the normalised skew vector with angle safe_acos((trace - 1) / 2) |
| Basis.AxisAngleQuarterTurnX | src/types/basis.rs:135-157 | the quarter turn about X gives axis RIGHT and angle acos(0) |
| Basis.AxisAngleQuarterTurnY | src/types/basis.rs:135-157 | the quarter turn about Y gives axis UP |
| Basis.AxisAngleQuarterTurnZ | src/types/basis.rs:135-157 | the quarter turn about Z gives axis BACK |
| Basis.DivScalar | src/types/basis.rs:1003-1009 | multiplying the quotient by the divisor gives back the basis |
| Basis.DivScalarMul | src/types/basis.rs:1003-1009 | dividing by k undoes multiplying by k |
| Basis.ScalarOperatorsTranspose | src/types/basis.rs:998-1009 | the operators as written return the transpose of the scaled and divided basis |
| Basis.ScalarMulAsWrittenCounterexample | src/types/basis.rs:998-1000 | as written, multiplying a sheared basis by 1 moves entry (0, 1) to (1, 0) |
| Basis.OuterXform | src/types/vectors/vector3.rs:459-465 | the outer product of a and w maps v to a scaled by w · v |
| Basis.OuterAsWrittenTransposes | src/types/vectors/vector3.rs:459-465 | the outer product as written is the transpose of the intended one, that is the outer product of w and a |
| Basis.OuterAsWrittenSwaps | src/types/vectors/vector3.rs:459-465 | the outer product as written of a and w is the intended outer product of w and a |
| Basis.OuterAsWrittenTransposesOuter | src/types/vectors/vector3.rs:459-465 | the outer product as written is the transpose of the intended one |
| Basis.OuterAsWrittenXform | src/types/vectors/vector3.rs:459-465 | as written, the outer product of a and w maps v to w scaled by a · v |
| Basis.OuterAsWrittenCounterexample | src/types/vectors/vector3.rs:459-465 | as written, the outer product of RIGHT and UP maps RIGHT to UP instead of to zero |
| Basis.ScaledIdentity | src/types/basis.rs:998-1000 | the identity multiplied by d is the diagonal matrix of d |
| Basis.ZeroDeterminant | src/types/basis.rs:293-297 | the zero basis has determinant 0 |
| Transform2D.DefaultIsIdentity | src/types/transform2d.rs:28-50 | the default is the identity with axes (1, 0) and (0, 1), and the flips negate one axis each |
| Transform2D.BasisXformColumns | src/types/transform2d.rs:72-74 | the basis transform of v is the X axis scaled by v.x plus the Y axis scaled by v.y |
| Transform2D.Xform | src/types/transform2d.rs:230-232 | the image minus the origin is the basis transform, so with a zero origin the two agree |
| Transform2D.XformAxes | src/types/transform2d.rs:222-232 | zero goes to the origin and the unit axes go to the two basis columns |
| Transform2D.BasisXformLinear | src/types/transform2d.rs:72-74 | the basis transform preserves sums, negation and scaling |
| Transform2D.XformExample | src/types/transform2d.rs:230-232 | the transform with axes (1, 2), (3, 4) and origin (5, 6) sends (2, 3) to (16, 22) |
| Transform2D.BasisXformExample | src/types/transform2d.rs:72-74 | the basis transform ignores the origin: it differs from xform for a non-zero origin and agrees for a zero one |
| Transform2D.EqualByXform | src/types/transform2d.rs:405-409 | two transforms that agree on zero and the two unit axes are equal |
| Transform2D.BasisXformOfMul | src/types/transform2d.rs:419-436 | the basis of a product applies the right factor's basis first |
| Transform2D.XformOfMul | src/types/transform2d.rs:419-436 | transforming by a product is transforming by the right factor and then by the left factor |
| Transform2D.MulIdentity | src/types/transform2d.rs:419-436 | the identity is a left and right unit of composition |
| Transform2D.MulAssociative | src/types/transform2d.rs:419-436 | composition is associative |
| Transform2D.Determinant | src/types/transform2d.rs:115-117 | the determinant is the 2D cross product of the two axes |
| Transform2D.DeterminantOfMul | src/types/transform2d.rs:115-117 | the determinant of a product is the product of the determinants |
| Transform2D.AffineInverseIsInverse | src/types/transform2d.rs:76-95 | for a non-zero determinant the affine inverse composed with the transform on either side is the identity |
| Transform2D.AffineInverseDeterminant | src/types/transform2d.rs:76-95 | the determinant of the affine inverse is the reciprocal of the original determinant |
| Transform2D.AffineInverseTwice | src/types/transform2d.rs:76-95 | the affine inverse is again invertible, and inverting twice gives the transform back |
| Transform2D.Inverse | src/types/transform2d.rs:182-194 | the result sends the original origin back to zero, whatever the basis |
| Transform2D.InverseBasisIsTransposed | src/types/transform2d.rs:98-107 | the basis of the inverse is basis_xform_inv, the dot products with the two axes |
| Transform2D.InverseOfOrthonormal | src/types/transform2d.rs:182-194 | for an orthonormal basis inverse is a left and right inverse and equals affine_inverse |
| Transform2D.BasisXformInvUndoes | src/types/transform2d.rs:105-107 | for an orthonormal basis basis_xform_inv undoes basis_xform |
| Transform2D.QuarterTurnInverse | src/types/transform2d.rs:182-194 | the inverse of the quarter turn with origin (3, 4) is the opposite turn with origin (-4, 3) |
| Transform2D.ScaleInverseFails | src/types/transform2d.rs:182-194 | for the uniform scale by 2, which is not orthonormal, inverse composed with the transform is not the identity |
| Transform2D.Translated | src/types/transform2d.rs:324-327 | the axes are kept and the origin moves by the offset |
| Transform2D.TranslatedLocal | src/types/transform2d.rs:334-336 | the axes are kept and the origin moves by the offset sent through the basis |
| Transform2D.TranslatedIsLeftMul | src/types/transform2d.rs:319-327 | translated equals left multiplication by a pure translation, and moves the image of zero by the offset |
| Transform2D.TranslatedLocalIsRightMul | src/types/transform2d.rs:329-336 | translated_local equals right multiplication by a pure translation, and moves the image of zero to the image of the offset |
| Transform2D.TranslatedExample | src/types/transform2d.rs:324-336 | translating (1, 2, 3, 4, 5, 6) by (1, 2) gives origin (6, 8) globally and (12, 16) locally |
| Transform2D.XformScaled | src/types/transform2d.rs:285-307 | transforming by the scaled transform is transforming and then multiplying by the scale componentwise |
| Transform2D.XformScaledLocal | src/types/transform2d.rs:314-317 | transforming by the locally scaled transform is scaling the point first and then transforming |
| Transform2D.ScaledIsLeftMul | src/types/transform2d.rs:297-307 | scaled equals left multiplication by a pure scale |
| Transform2D.ScaledLocalIsRightMul | src/types/transform2d.rs:309-317 | scaled_local equals right multiplication by a pure scale |
| Transform2D.ScaledExample | src/types/transform2d.rs:302-317 | scaling (1, 2, 3, 4, 5, 6) by (1, 2) gives (1, 4, 3, 8, 5, 12) globally and (1, 2, 6, 8, 5, 6) locally |
| Transform2D.MulVectorIsScaled | src/types/transform2d.rs:440-462 | multiplying by a vector or by a scalar is scaled by that vector or by (k, k) |
| Transform2D.MulVectorScaled | src/types/transform2d.rs:440-462 | `t * v` for a vector `v` is `t.scaled(v)` |
| Transform2D.MulScalarScaled | src/types/transform2d.rs:440-462 | `t * k` for a scalar `k` is `t.scaled((k, k))` |
| Transform2D.DivScalar | src/types/transform2d.rs:476-486 | multiplying the quotient by the divisor gives back the transform |
| Transform2D.DivScalarMul | src/types/transform2d.rs:476-486 | dividing by k undoes multiplying by k |
| Transform2D.ExactlyConformalIsConformal | src/types/transform2d.rs:197-208 | a basis that is exactly a rotation-scale, flipped or not, passes the conformal test |
| Transform2D.RotationScaleIsConformal | src/types/transform2d.rs:197-208 | every rotation-scale basis and every flipped one is conformal, whatever the origin |
| Transform2D.ConformalIffOrthogonalUniform | src/types/transform2d.rs:197-208 | a basis is exactly conformal if and only if its axes are perpendicular and equally long |
| Transform2D.NotConformalExamples | src/types/transform2d.rs:197-208 | a non-uniform scale and a skewed basis are not conformal |
| Transform2D.ConformalExamples | src/types/transform2d.rs:197-208 | the identity, a flip, a uniform scale and a flipped rotation-scale are conformal |
| Transform2D.Set | src/types/transform2d.rs:347-354 | the chosen slot takes the new value and the other two slots are unchanged |
| Transform2D.SetGet | src/types/transform2d.rs:338-354 | writing back what was read changes nothing, and the second of two writes to one slot wins |
| Transform3D.DefaultIsIdentity | src/types/transform3d.rs:10-31 | the derived default is the identity, and each flip has determinant -1 |
| Transform3D.Xform | src/types/transform3d.rs:186-192 | the image minus the origin is the basis transform, so with a zero origin the two agree |
| Transform3D.XformAxes | src/types/transform3d.rs:186-192 | zero goes to the origin and the unit axes go to the basis columns offset by the origin |
| Transform3D.EqualByXform | src/types/transform3d.rs:195-199 | two transforms that agree on zero and the three unit axes are equal |
| Transform3D.XformOfMul | src/types/transform3d.rs:201-209 | transforming by a product is transforming by the right factor and then by the left factor |
| Transform3D.MulIdentity | src/types/transform3d.rs:201-209 | the identity is a left and right unit of composition |
| Transform3D.MulAssociative | src/types/transform3d.rs:201-209 | composition is associative |
| Transform3D.AffineInverseIsInverse | src/types/transform3d.rs:38-50 | for a non-zero determinant the affine inverse composed with the transform on either side is the identity |
| Transform3D.AffineInverseUnique | src/types/transform3d.rs:38-50 | any right inverse of an invertible transform is its affine inverse |
| Transform3D.Inverse | src/types/transform3d.rs:73-86 | the result sends the original origin back to zero, whatever the basis |
| Transform3D.InverseOfOrthonormal | src/types/transform3d.rs:73-86 | for an orthonormal basis inverse composed before the transform gives the identity |
| Transform3D.DoubleNotOrthonormal | src/types/transform3d.rs:73-86 | the uniform scale by 2 is not orthonormal and inverse keeps its basis |
| Transform3D.DoubleInverseScales | src/types/transform3d.rs:73-86 | for the uniform scale by 2 inverse composed with the transform scales by 4 instead of giving the identity |
| Transform3D.Translated | src/types/transform3d.rs:171-174 | the basis is kept and the origin moves by the offset |
| Transform3D.TranslatedLocal | src/types/transform3d.rs:181-184 | the basis is kept and the origin moves by the offset sent through the basis |
| Transform3D.TranslatedIsLeftMul | src/types/transform3d.rs:166-174 | translated equals left multiplication by a pure translation |
| Transform3D.TranslatedLocalIsRightMul | src/types/transform3d.rs:176-184 | translated_local equals right multiplication by a pure translation |
| Transform3D.ScaledIdentity | src/types/transform3d.rs:151-164 | scaling the identity, globally or locally, gives the scale matrix with no translation |
| Transform3D.XformFromScale | src/types/transform3d.rs:151-154 | the scale matrix multiplies a vector componentwise by the scale |
| Transform3D.ScaledIsLeftMul | src/types/transform3d.rs:146-154 | scaled equals left multiplication by a pure scale |
| Transform3D.ScaledLocalIsRightMul | src/types/transform3d.rs:156-164 | scaled_local equals right multiplication by a pure scale |
| Transform3D.DivScalar | src/types/transform3d.rs:242-250 | multiplying the quotient by the divisor gives back the transform |
| Transform3D.MulScalarIsScaled | src/types/transform3d.rs:224-232 | multiplying by a scalar is scaled by (k, k, k) |
| Transform3D.XformMulScalar | src/types/transform3d.rs:224-232 | the transform multiplied by k sends every point to k times its old image |
| Transform3D.DivScalarMul | src/types/transform3d.rs:242-250 | dividing by k undoes multiplying by k |
| Transform3D.MulVectorAsWrittenTransposes | src/types/transform3d.rs:211-218 | the transform-times-vector operator as written transforms by the transposed basis |
| Transform3D.ShearXform | src/types/transform3d.rs:186-192 | xform of the shear sends UP to (1, 1, 0) |
| Transform3D.ShearMulVectorAsWritten | src/types/transform3d.rs:211-218 | the operator as written sends UP to UP under the shear |
| Transform3D.MulVectorAsWrittenCounterexample | src/types/transform3d.rs:211-218 | the operator as written disagrees with xform on the shear |
| Transform3D.MulVectorOfMul | src/types/transform3d.rs:211-218 | the corrected operator composes like the transforms and the identity fixes every vector |

## Left out

- Trigonometry and square roots: the values produced by `sqrt`, `acos`, `sin`, `cos` and `atan2` are not modelled. They are parameters, and fixtures that need a value state it as a precondition, for example `sqrt(4) == 2`.
- Operations whose results are numerics of this kind are not modelled:
  - `Basis`: Euler conversions, `set_axis_angle`, `set_quaternion`, `get_rotation_quaternion`, `get_scale`, `orthonormalize`, `rotated`, `slerp`, `looking_at`;
  - `Quaternion`: Euler conversions, `exp`/`log`, `get_angle`/`get_axis`, `xform`, and the interpolation weights;
  - vectors: `slerp`, `rotated`, `angle*`, `normalized`, `length`, `limit_length`, `move_toward`, `direction_to` and octahedron encoding;
  - `Transform2D`: rotation, scale and skew accessors, `interpolate_with`, `looking_at`, `orthonormalized`, `rotated*`;
  - `Transform3D`: `rotated*`, `interpolate_with`, `looking_at`, `orthonormalized`.
- IEEE-754 behaviour: rounding, NaN, infinities, `-0.0` and `is_finite` are outside a model over `real`. So is the sign of `-0.0` that the flip rule of `spherical_cubic_interpolate` partly depends on.
- Integer overflow: `i32` is unbounded `int`, so neither the debug-build panic nor the release-build wrap-around is modelled.
- `Color` colour science: `okhsl`, `powf`-based sRGB conversions and `rgbe9995` rely on external crates or transcendental functions.
- `Color` arithmetic operators (`+`, `-`, `*`, `/` and their assigning forms) are not part of the codec modelled here.
- Defects in code outside the modelled operations are not stated as properties: `Color::set_h`, `set_s`, `set_l` and `set_v` write `b = c.g`.
- Color.Html: its contract is stated for inputs that pass `html_is_valid` (plus the default for a wrong length). The function itself follows the code on every input, including the leading `+` or `-` that `from_str_radix` accepts in a field, as `Color.FromStrRadix16` states. Rust measures and slices the string in UTF-8 bytes and panics when a slice boundary falls inside a multi-byte character; the model counts characters, so those panics are not modelled.
- Color.Normalize: upper-cases ASCII letters only and keeps the length. Rust's `to_uppercase` applies the full Unicode mapping, which can turn non-ASCII text into a table name (`ı` becomes `I`, `ſ` becomes `S`) and can lengthen the string (`ß` becomes `SS`). So `named("alıce blue", None)` is `ALICE_BLUE` in the source and the default in the model; the Unicode case tables are not modelled.
- Printing and formatting: `Display`/`to_string`, the `error!` in `html`, and the `println!` calls in `Basis` `*` and `get_axis_angle` are output only.
- Operator plumbing:
  - the compound-assignment forms (`*=`, `/=`, `+=`) are modelled through the binary operator they mirror, with two exceptions: `Quaternion *=` overwrites fields before reading them (a finding below, `Quaternion.MulAssignAsWritten`), and `Basis *= scalar` and `/= scalar` scale every entry, which is the corrected `Basis.ScalarMul` and `Basis.DivScalar` rather than the transposing `*` and `/` as written;
  - the reference, integer and commutative `auto_ops` variants are not modelled separately;
  - the `Vec<…>` operators are not modelled.
- `scalar / Transform2D` and `scalar / Transform3D` are generated by the same commutative macro as `transform / scalar`, so they divide the transform by the scalar. They are not modelled separately.
- `Rect2 * Transform2D` and `Rect2i::from(Rect2)` are not modelled: neither is among the modelled operations.
- `is_equal_approx` on the vector, basis and transform types is modelled only through `Utils.IsEqualApprox` on single components. The compound predicates have no rows.
- Transform3D.InverseOfOrthonormal: proves only that `inverse` composed before the transform gives the identity. The other order needs the product rule for 3×3 determinants, which is not proved here.
- Basis.GetQuaternion: states the sign of the component chosen by the trace test or the pivot. It does not state the output values, which depend on `sqrt`.
- Basis.GetAxisAngle: states the branch taken, the angle expression, and the direction of the axis. In the half-turn branch the axis is stated relative to the `sqrt` parameter.

## Findings

| source | as written | input that shows it | evidently intended | confidence | as-written member | corrected member |
|---|---|---|---|---|---|---|
| src/types/basis.rs:998-1009 | `basis * scalar` and `basis / scalar` pass the scaled rows to `Basis::new`, which takes columns, so the result is transposed | the shear with rows (1, 2, 0), (0, 1, 0), (0, 0, 1) times 1 moves entry (0, 1) to (1, 0) | every entry multiplied or divided by the scalar, as `*=` and `/=` do at src/types/basis.rs:1014-1028 | not executed | Basis.ScalarMulAsWritten, Basis.ScalarOperatorsTranspose, Basis.ScalarMulAsWrittenCounterexample | Basis.ScalarMul, Basis.ScalarMulFacts, Basis.DivScalar, Basis.DivScalarMul |
| src/types/vectors/vector3.rs:459-465 | `outer` passes the rows of the outer product to `Basis::new`, which takes columns, so it builds the transposed outer product | `RIGHT.outer(UP)` maps `RIGHT` to `UP` instead of to zero | rows `self[i] * with`, so that `a.outer(w)` maps v to a · (w · v) | not executed | Basis.OuterAsWritten, Basis.OuterAsWrittenTransposes, Basis.OuterAsWrittenCounterexample | Basis.Outer, Basis.OuterXform |
| src/types/transform3d.rs:211-218 | `Transform3D * Vector3` dots v with the basis columns, which transforms by the transposed basis | the shear with rows (1, 1, 0), (0, 1, 0), (0, 0, 1) sends `UP` to `UP`, while `xform` sends it to (1, 1, 0) | the same result as `xform`, the rows dotted with v plus the origin | not executed | Transform3D.MulVectorAsWritten, Transform3D.MulVectorAsWrittenTransposes, Transform3D.MulVectorAsWrittenCounterexample | Transform3D.MulVector, Transform3D.MulVectorOfMul |
| src/types/vectors/vector4.rs:518-525 | `scalar / Vector4` comes from the commutative macro, so it computes `v / k` | 2 / (1, 1, 1, 1) gives (0.5, 0.5, 0.5, 0.5) | componentwise k / v, giving (2, 2, 2, 2) | not executed | Vector4.ScalarDivAsWritten, Vector4.ScalarDivAsWrittenCounterexample | Vector4.ScalarDiv, Vector4.ScalarDivIsScaledInverse |
| src/types/quaternion.rs:434-439 | `Quaternion *=` assigns `x`, `y`, `z` and `w` in turn, and each later line reads the fields already overwritten | `i *= j` with i = (1, 0, 0, 0) and j = (0, 1, 0, 0) gives (0, 0, 0, 0) | the Hamilton product `lhs * rhs` of src/types/quaternion.rs:426-433, here `k` = (0, 0, 1, 0) | not executed | Quaternion.MulAssignAsWritten, Quaternion.MulAssignAsWrittenY, Quaternion.MulAssignAsWrittenCounterexample | Quaternion.Mul, Quaternion.MulInverse, Quaternion.InverseOfMul |
