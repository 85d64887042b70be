# Vessel kinematics: closest point of approach and collision courses

A Dafny model of the `vessel` class of a small Python tool for collision
avoidance at sea. Two vessels move in the plane at constant velocity. The
plane's x axis points east and its y axis north. Headings and bearings are
compass degrees, clockwise from north. The class does three things:

- **Construction.** It builds a vessel from a length, a position, a speed and
  a heading. The velocity `(speed·sin h, speed·cos h)` is derived once, at
  construction.
- **CPA.** It computes the closest point of approach between ownship and a
  target vessel:
  - the time `tcpa = -(Vr·D)/|Vr|²`, where D is the target's position and Vr
    its velocity, both relative to ownship;
  - both vessels' positions at that time;
  - the range and compass bearing from ownship to the target at that moment.
- **Collision courses.** It generates speeds and headings on which the target
  would run into ownship. These are the velocities `-a·D + V_own` for scale
  factors `a` sampled with `numpy.arange` between `minSpeed/|D|` and
  `maxSpeed/|D|`.

The model works over `real`. It is split into modules:

- `Numerics` (numerics.dfy) holds the transcendental primitives and Python's
  float `%` by 360.
- `Vectors` (vectors.dfy) holds planar vector algebra.
- `Vessels` (vessel.dfy) holds construction and the bearing helper.
- `ClosestApproach` (cpa.dfy) holds the CPA computation and its minimality
  theory.
- `Collision` (collision.dfy) holds `numpy.arange`, the scale factors and the
  course generator.
- `Findings` (findings.dfy) holds the source's defects as written.
- `Results` (results.dfy) holds the result type.

The library functions `sin`, `cos`, `atan2` and `sqrt` and the constant `pi`
reach the model as the fields of a `MathLib` value. Each lemma names, as a
precondition, the laws of real analysis it relies on:

- the square root of a non-negative number is non-negative and squares back;
- pi is positive, and half a turn negates sine and cosine;
- sin² + cos² = 1;
- the range of `atan2`, and that it gives the polar angle;
- that `atan2` depends only on direction;
- that `atan2` turns by half a turn under negation;
- sine and cosine are 0 and 1 at zero, and 1 and 0 at a quarter turn.

Where the source divides by zero, or hands `numpy.arange` a step it rejects,
the model returns an error value instead.

Edge cases, stated for the code and the model:

- **Identical velocities.** The code divides 0 by 0 and yields NaN. The
  model reports `SameVelocity` exactly when the velocities are equal, with
  no tolerance.
- **Intercept time.** A candidate course brings the target onto ownship
  at `t = 1/a = |D|/speed`, not at a fixed time, and the model proves it
  for that time.
- **`minSpeed == maxSpeed`.** The code asks `numpy.arange` for a step of
  zero, which it rejects. The model returns `ZeroStep`.
- **`minSpeed > maxSpeed`.** The code samples the speeds in descending
  order, and so does the model.
- **Docstring typo.** The docstring at Vessel.py:81 writes D's second
  component as `(Vyt-Vy)`. The code at line 96 uses the position
  difference, as does the model.
- **Default arguments.** The generator's defaults (N = 10, minSpeed = 2,
  maxSpeed = 25) are the model's default parameters.

## Model

| member | source | states |
|---|---|---|
| Vessels.Deg2Rad | Vessel.py:20-21 | The degrees-to-radians conversion is undone by the radians-to-degrees conversion of the bearing code, and maps a heading in [0, 360) into [0, 2·pi). |
| Vessels.HeadingVelocity | Vessel.py:20-21 | The velocity derived from speed and heading has, under sin² + cos² = 1, squared length speed², whatever the heading. |
| Vessels.Make | Vessel.py:15-21 | The vessel keeps length, position (x, y), speed and the heading exactly as given, with no reduction to [0, 360). Its velocity is (speed·sin h, speed·cos h) for h the heading in radians. Under sin² + cos² = 1, that velocity's squared length is speed². |
| Vessels.MakeSpeed | Vessel.py:20-21 | The length of the constructed velocity is the absolute value of the speed. |
| Vessels.CardinalHeadings | Vessel.py:20-21 | Headings 0, 90, 180 and 270 give velocities pointing north, east, south and west. |
| Vessels.HeadingFullTurn | Vessel.py:18-21 | A heading plus 360 gives the same velocity, so storing the heading un-normalised is harmless. |
| Vessels.Bearing | Vessel.py:113-115 | The bearing of (dx, dy) is `(atan2(dx, dy)·180/pi + 360) % 360`, with the east component given to atan2 first. It always lies in [0, 360). |
| Vessels.Rad2Deg | Vessel.py:114 | The radians-to-degrees conversion maps the range (-pi, pi] of `atan2` into (-180, 180], keeping the sign. |
| Numerics.Mod360 | Vessel.py:114 | Python's float `% 360` always lands in [0, 360), because its remainder takes the sign of the modulus. |
| Vessels.BearingRadians | Vessel.py:113-115 | Back in radians, the bearing is the arctangent itself when that is non-negative, and the arctangent plus a full turn otherwise. |
| Vessels.HeadingRoundTrip | Vessel.py:113-115 | Construction inverts the bearing: steering at the length of w on the bearing of w gives velocity exactly w. |
| Vessels.BearingScaleInvariant | Vessel.py:113-115 | Scaling (dx, dy) by a positive factor leaves the bearing unchanged. |
| Vessels.BearingOpposite | Vessel.py:113-115 | Reversing a non-zero displacement turns the bearing by 180 degrees, modulo 360. |
| Numerics.Mod360Unique | Vessel.py:114 | Python's float `% 360` is the unique value in [0, 360) that differs from its argument by whole turns. |
| Vectors.Norm | Vessel.py:106 | The vector norm is non-negative, and zero exactly for the zero vector. |
| ClosestApproach.SeparationOfPositions | Vessel.py:53-56 | The separation D + Vr·t is the target's position at t less ownship's position at t, each moving along its own velocity. |
| ClosestApproach.Tcpa | Vessel.py:100 | `tcpa = -(Vr·D)/|Vr|²`, defined only for Vr ≠ 0. At tcpa the separation is perpendicular to Vr, so the derivative of the range vanishes. |
| ClosestApproach.TcpaPerpendicular | Vessel.py:77-85 | The separation is perpendicular to Vr at tcpa and at no other time. |
| ClosestApproach.ClosestApproachIdentity | Vessel.py:70-85 | For every t, the squared range at t equals the squared range at tcpa plus |Vr|²(t - tcpa)². |
| ClosestApproach.TcpaMinimises | Vessel.py:73-85 | tcpa minimises the squared range over all times, past and future. |
| ClosestApproach.TcpaUnique | Vessel.py:73-85 | A time is a closest approach if and only if it is tcpa. |
| ClosestApproach.NoRelativeMotion | Vessel.py:94-100 | When the two velocities are equal, the separation never changes and every time is a closest approach. |
| ClosestApproach.ClosestNotFarther | Vessel.py:105-106 | The range at a closest approach is at most the current range \|D\|. |
| ClosestApproach.FixAt | Vessel.py:101-108 | The fix for time t puts the two vessels at positions that differ by the separation D + Vr·t. Its range is the length of that separation, zero exactly when the two positions coincide. Its bearing lies in [0, 360). |
| ClosestApproach.FixAtTcpa | Vessel.py:100-108 | The fix at tcpa puts each vessel at its own position plus its velocity times tcpa, in both coordinates. The range is non-negative and squares to the squared separation. The range is zero exactly when the two positions coincide, and is at most the current range. The bearing lies in [0, 360). |
| ClosestApproach.Cpa | Vessel.py:93-111 | CPA fails exactly when the two velocities are equal. Otherwise it returns a fix with all the properties above. |
| ClosestApproach.CpaBearingPointsAtTarget | Vessel.py:105-108 | Steering from ownship's CPA position for the CPA range, on the CPA bearing, reaches the target's CPA position. |
| ClosestApproach.TcpaSwap | Vessel.py:94-100 | Exchanging the two vessels leaves tcpa unchanged and negates the separation at tcpa. |
| ClosestApproach.CpaSwap | Vessel.py:93-111 | Seen from the target, CPA fails exactly when it fails seen from ownship. Otherwise it gives the same time and the same range, exchanges the two positions, and, for a non-zero range, reverses the bearing. |
| ClosestApproach.CpaAtPerpendicular | Vessel.py:77-85 | CPA reports the fix at whichever time the separation is perpendicular to a non-zero Vr. |
| ClosestApproach.CpaAtMeeting | Vessel.py:100-106 | When the vessels meet at time t, CPA reports tcpa = t, range zero and both vessels at one point. |
| Collision.Ceil | Vessel.py:172 | The ceiling c of x satisfies x ≤ c < x + 1. It sets the length of an `arange`. |
| Collision.ArangeLength | Vessel.py:172 | An `arange` is empty exactly when its start does not come before its stop. |
| Collision.ArangeLengthBound | Vessel.py:172 | Index i is within the length of an `arange` exactly when i is below (stop - start)/step. |
| Collision.GridBefore | Vessel.py:172 | Grid point start + i·step comes before `stop` exactly when i is below (stop - start)/step, for either sign of step. |
| Collision.ArangeIndex | Vessel.py:172 | Grid point i is produced by `arange` exactly when it comes before `stop`, that is below it for a positive step and above it for a negative one. |
| Collision.Arange | Vessel.py:172 | Every point `arange` produces comes before `stop`, and the next grid point does not. |
| Collision.ArangeMembers | Vessel.py:172 | The points are start + i·step, and every grid point that comes before `stop` is among them. |
| Collision.SampleSpeedBounds | Vessel.py:168-172 | For lo < hi, the sample speeds start at lo, increase strictly and stay below hi. |
| Collision.ScaleFactors | Vessel.py:168-172 | The arange from minSpeed/\|D\| to maxSpeed/\|D\| with step (max_a - min_a)/N has exactly N scale factors, and a_i·\|D\| is the i-th evenly spaced sample speed. |
| Collision.CandidateVelocity | Vessel.py:175 | The candidate velocity for scale factor a moves the target, relative to ownship, at -a·D, that is along the line of sight towards ownship for a > 0. |
| Collision.CoursesToCollide | Vessel.py:154-178 | With defaults N = 10, minSpeed = 2 and maxSpeed = 25, the generator succeeds exactly when D ≠ 0, N > 0 and minSpeed ≠ maxSpeed. It then returns N speeds, each non-negative, and N headings, each in [0, 360). |
| Collision.SteerAt | Vessel.py:175-177 | A vessel steered at the speed and heading derived from w moves with velocity exactly w, and stays where it is. |
| Collision.InterceptMotion | Vessel.py:175 | A target whose velocity relative to ownship is -a·D, with a ≠ 0, is at ownship after 1/a time units. |
| Collision.Intercept | Vessel.py:175 | For such a target CPA succeeds with tcpa = 1/a, range zero, and both vessels at one point. |
| Collision.SteeredCandidate | Vessel.py:175-177 | The target steered at candidate velocity -a·D + V_own stays put and moves at -a·D relative to ownship. |
| Collision.ClosingSpeed | Vessel.py:175-176 | Moving at -a·D relative to ownship with a·\|D\| = s is closing at speed \|s\|. |
| Collision.InterceptTime | Vessel.py:175 | Closing at a non-zero speed s from distance \|D\|, the target is at ownship at tcpa, and tcpa·s = \|D\|. |
| Collision.MeetsAfter | Vessel.py:175 | In that case CPA reports tcpa, with tcpa·s = \|D\| and range zero. |
| Collision.CandidateCollides | Vessel.py:175-177 | The target steered at candidate velocity a, with a·\|D\| = s, closes at speed \|s\|. When s ≠ 0 it meets ownship at the CPA, after \|D\|/s. |
| Collision.CoursesCollide | Vessel.py:154-178 | Each reported (speed, heading) is a collision course. The steered target closes at sample speed i and, when that speed is not zero, CPA reports range zero at tcpa = \|D\|/speed. |
| Collision.ClosingSpeedsInRange | Vessel.py:167-176 | For 0 < minSpeed < maxSpeed, every course closes on ownship at a speed in [minSpeed, maxSpeed), equal to sample i, and ends at range zero. |
| Collision.CourseClosesAt | Vessel.py:167-176 | For 0 < minSpeed < maxSpeed, course i closes on ownship at exactly sample speed i. |
| Collision.ClosingSpeedsIncrease | Vessel.py:167-176 | For 0 < minSpeed < maxSpeed, the first course closes at minSpeed, and each course closes strictly faster than the one before it. |
| Collision.DefaultCourses | Vessel.py:154-176 | With the default arguments, vessels that are apart get ten courses, closing at 2 + 2.3·i for i = 0 … 9. |
| Findings.OwnshipAtAsWrittenWrong | Vessel.py:103-104 | The as-written ownship position at time t is the true one exactly when ownship's x and y coordinates agree. |
| Findings.CpaAsWritten | Vessel.py:93-111 | The as-written CPA fails when the corrected one does. It reports the same tcpa and the same target position, and a bearing in [0, 360). |
| Findings.CpaAsWrittenDiffers | Vessel.py:103-104 | The as-written fix equals the corrected fix exactly when ownship's x equals its y. Otherwise it reports ownship where ownship is not. |
| Findings.CandidateAsWritten | Vessel.py:175 | The as-written candidate exceeds the intended one by V_v1 - V_own. |
| Findings.CandidateAsWrittenDiffers | Vessel.py:175 | The as-written candidate is the intended one exactly when v1 shares ownship's velocity. |
| Findings.CandidateAsWrittenMisses | Vessel.py:175 | A target on the as-written candidate is off by (V_v1 - V_own)/a at time 1/a, so it meets ownship then only if v1 moves as ownship does. |
| Findings.CoursesAsWritten | Vessel.py:169 | The generator with line 169's override, and otherwise corrected, succeeds whatever N is asked for and always returns 10 courses. Its candidates use ownship's velocity; line 175's defect is modelled separately. |
| Findings.CoursesAsWrittenIgnoresN | Vessel.py:169 | Whenever the corrected generator succeeds, the as-written one returns N courses only when N is 10. |
| Findings.CoursesAsWrittenThree | Vessel.py:169 | Asked for 3 courses, the as-written generator returns 10 and the corrected one returns 3. |

## Left out

- `print` (Vessel.py:23-29): console output only.
- `plotcpa` (Vessel.py:117-145): matplotlib drawing, with no computation the rest depends on.
- `riskofcollision` (Vessel.py:147-152): an empty stub with no behaviour.
- Floating point.
  - The model computes over exact reals, not IEEE doubles.
  - The number of points `numpy.arange` returns under rounding is not modelled. Over the reals, the generator's arange has exactly N points.
  - NaN and infinity are replaced by error values:
    - `SameVelocity` when Vr = 0;
    - `CoincidentVessels` when \|D\| = 0;
    - `ZeroStep` when minSpeed = maxSpeed.
  - The model also adds `NoSamples` for N = 0. The code as written never meets that case because it overwrites N with 10.
- sin, cos, atan2, sqrt and pi are parameters, and only the laws listed above are assumed of them. Their numerical values are not modelled.
- Matrix shapes and numpy array types: positions and velocities are pairs of reals, and the generator's two arrays are sequences.
- The headings in the generator are computed by calling the bearing helper on `v1` (Vessel.py:177). The helper does not read its receiver, so the model computes a plain bearing.
- Findings.CandidateAsWritten: it models line 175 only when the class runs in a namespace that binds `v1`, such as an interactive session that also defines the vessels. Vessel.py itself binds no `v1`. Imported as a module, the class raises `NameError` at line 175 on every call that gets past line 172, because line 169 makes the list of scale factors non-empty. That failure is not modelled.
- Collision.CoursesCollide: it promises a meeting only for a non-zero sample speed. At speed zero the candidate velocity equals ownship's, so the vessels keep their distance and CPA reports `SameVelocity`.
- Vessels.Make: the speed statement is about the squared length. The length itself is given by `Vessels.MakeSpeed`, which also needs the square-root law.

## Findings

| source | as written | input that shows it | evidently intended | confidence | as-written member | corrected member |
|---|---|---|---|---|---|---|
| Vessel.py:103-104 | ownship's y at CPA is `self.pos[0] + self.V[1]*tcpa`, starting from ownship's x coordinate | ownship at (0, 10), stationary; target at (10, 10) moving west at 1. CPA is at t = 10 with the target on ownship, but the fix puts ownship at (0, 0) and reports range 10 | `self.pos[1] + self.V[1]*tcpa`, as the parameterisation Yos(t) = Yo + Vy·t at Vessel.py:54 states | not executed | Findings.CpaAsWrittenDiffers | ClosestApproach.FixAtTcpa |
| Vessel.py:175 | candidate velocities are `-D*x + v1.V`, with `v1` a name Vessel.py never binds (where it is bound, some other vessel; where it is not, a NameError) | `v1` moving at (1, 0) and ownship stationary: every candidate is off by (1, 0), and at t = 1/a the target is (1/a, 0) away from ownship instead of on it | `-D*x + self.V` | not executed | Findings.CandidateAsWrittenMisses | Collision.CandidateCollides |
| Vessel.py:169 | `N = 10.` overwrites the caller's N before sampling | N = 3: ten courses are returned | the caller's N decides the number of courses | not executed | Findings.CoursesAsWrittenIgnoresN | Collision.ScaleFactors |
