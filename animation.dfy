/** The shape-parameter oscillator of the render loop. Every frame adds the
    frame time to an accumulator; once the accumulator reaches the tick period
    it is reset to zero and the superellipsoid exponent moves one step of 0.1
    towards its current bound, bouncing between 0.1 and 2.5. The exponent is
    kept in integer tenths, so 0.1 is 1 and 2.5 is 25. */
module ShapeAnimation {
  import opened Numerics
  import opened Vectors
  import opened Meshes
  import opened GridIndices

  /** Seconds the accumulator must reach before the exponent moves. */
  const TickPeriod: real := 0.1
  /** Upper bound of the exponent, in tenths (2.5). */
  const MaxParam: int := 25
  /** Lower bound of the exponent once it is moving, in tenths (0.1). */
  const MinParam: int := 1
  /** One bounce from MaxParam to MinParam and back takes this many ticks. */
  const Period: nat := 48

  /** The exponent in tenths and the direction it is moving in. */
  datatype Shape = Shape(param: int, increasing: bool)

  /** The exponent and direction the program starts with: 0.0 and rising. */
  const Initial: Shape := Shape(0, true)

  /** One tick: step by one tenth; on reaching a bound, clamp to it and turn.
      Within range a tick moves at most one tenth, in the current direction,
      and the direction turns exactly when the parameter lands on a bound. */
  function Tick(s: Shape): (r: Shape)
    ensures r.increasing != s.increasing <==> r.param == (if s.increasing then MaxParam else MinParam)
    ensures 0 <= s.param <= MaxParam ==> MinParam <= r.param <= MaxParam && -1 <= r.param - s.param <= 1
    ensures MinParam <= s.param <= MaxParam ==>
              (s.increasing ==> r.param >= s.param) && (!s.increasing ==> r.param <= s.param)
  {
    if s.increasing then
      (if s.param + 1 >= MaxParam then Shape(MaxParam, false) else Shape(s.param + 1, true))
    else
      (if s.param - 1 <= MinParam then Shape(MinParam, true) else Shape(s.param - 1, false))
  }

  /** The state after n ticks from s. */
  function Ticks(s: Shape, n: nat): Shape
  {
    if n == 0 then s else Tick(Ticks(s, n - 1))
  }

  /** The closed form of the oscillation from Initial: 25 ticks of rising from
      0 to 25, then a triangle wave of period 48 between 25 and 1. */
  function TriangleWave(n: nat): Shape
  {
    if n < MaxParam then Shape(n, true)
    else
      var q := (n - MaxParam) % Period;
      if q < MaxParam - MinParam then Shape(MaxParam - q, false)
      else Shape(q - (MaxParam - MinParam) + MinParam, true)
  }

  /** Rising below the top bound moves by exactly one tenth per tick. */
  lemma {:induction false} Rise(k: int, n: nat)
    requires 0 <= k && k + n < MaxParam
    ensures Ticks(Shape(k, true), n) == Shape(k + n, true)
  {
    if n > 0 {
      Rise(k, n - 1);
    }
  }

  /** Falling above the bottom bound moves by exactly one tenth per tick. */
  lemma {:induction false} Fall(k: int, n: nat)
    requires k - n > MinParam
    ensures Ticks(Shape(k, false), n) == Shape(k - n, false)
  {
    if n > 0 {
      Fall(k, n - 1);
    }
  }

  /** Rising from k reaches 2.5 after 25 - k ticks and turns there. */
  lemma ReachTop(k: int)
    requires 0 <= k < MaxParam
    ensures Ticks(Shape(k, true), MaxParam - k) == Shape(MaxParam, false)
  {
    Rise(k, MaxParam - k - 1);
  }

  /** Falling from k reaches 0.1 after k - 1 ticks and turns there. */
  lemma ReachBottom(k: int)
    requires MinParam < k <= MaxParam
    ensures Ticks(Shape(k, false), k - MinParam) == Shape(MinParam, true)
  {
    Fall(k, k - MinParam - 1);
  }

  /** One tick moves the triangle wave one step on. */
  lemma WaveStep(n: nat)
    requires n >= 1
    ensures Tick(TriangleWave(n - 1)) == TriangleWave(n)
  {
    if n > MaxParam {
      var q', q := (n - 1 - MaxParam) % Period, (n - MaxParam) % Period;
      ModSuccessor(n - 1 - MaxParam);
      assert TriangleWave(n - 1) ==
        if q' < MaxParam - MinParam then Shape(MaxParam - q', false)
        else Shape(q' - (MaxParam - MinParam) + MinParam, true);
      if q' + 1 == Period {
        assert q == 0;
      } else {
        assert q == q' + 1;
      }
    }
  }

  lemma ModSuccessor(a: nat)
    ensures (a + 1) % Period == if a % Period + 1 == Period then 0 else a % Period + 1
  {
  }

  /** The oscillator follows the triangle wave exactly. */
  lemma {:induction false} TicksWave(n: nat)
    ensures Ticks(Initial, n) == TriangleWave(n)
  {
    if n > 0 {
      TicksWave(n - 1);
      WaveStep(n);
    }
  }

  /** Once the first rise is over, the oscillation repeats every 48 ticks. */
  lemma Periodic(n: nat)
    requires n >= MaxParam
    ensures Ticks(Initial, n + Period) == Ticks(Initial, n)
  {
    WavePeriodic(n);
    TicksWave(n);
    TicksWave(n + Period);
  }

  lemma WavePeriodic(n: nat)
    requires n >= MaxParam
    ensures TriangleWave(n + Period) == TriangleWave(n)
  {
    var k := n - MaxParam;
    assert n + Period - MaxParam == k + Period;
    assert (k + Period) % Period == k % Period;
  }

  /** The exponent never leaves [0, 2.5] and is at least 0.1 from the first
      tick on; it is 2.5 exactly when it has just turned downwards or is about
      to, and it only falls while above 0.1. */
  lemma TicksRange(n: nat)
    ensures 0 <= Ticks(Initial, n).param <= MaxParam
    ensures n >= 1 ==> MinParam <= Ticks(Initial, n).param
    ensures Ticks(Initial, n).param == MaxParam ==> !Ticks(Initial, n).increasing
    ensures !Ticks(Initial, n).increasing ==> Ticks(Initial, n).param > MinParam
  {
    TicksWave(n);
  }

  /** Grid of the superellipsoid regenerated every frame. */
  const AnimatedStacks: Positive := 15
  const AnimatedSlices: Positive := 30
  /** Radius of the superellipsoid regenerated every frame. */
  const AnimatedRadius: real := 0.08

  /** The exponent passed to the superellipsoid generator. */
  function Exponent(param: int): real
  {
    param as real / 10.0
  }

  /** The animated superellipsoid is never generated with an exponent outside
      [0, 2.5], nor with exponent 0 once the first tick has passed. */
  lemma ExponentRange(n: nat)
    ensures 0.0 <= Exponent(Ticks(Initial, n).param) <= 2.5
    ensures n >= 1 ==> 0.1 <= Exponent(Ticks(Initial, n).param)
  {
    TicksRange(n);
  }

  /** The three variables of main that drive the oscillation. */
  class ShapeAnimator {
    var shapeParam: int
    var increasing: bool
    var shapeTimer: real
    /** Ticks taken so far. */
    ghost var ticks: nat

    function State(): Shape
      reads this
    {
      Shape(shapeParam, increasing)
    }

    ghost predicate Valid()
      reads this
    {
      State() == Ticks(Initial, ticks) && shapeTimer < TickPeriod
    }

    constructor ()
      ensures Valid()
      ensures shapeParam == 0 && increasing && shapeTimer == 0.0 && ticks == 0
    {
      shapeParam := 0;
      increasing := true;
      shapeTimer := 0.0;
      ticks := 0;
    }

    /** One frame: accumulate the frame time and tick at most once. */
    method Step(deltaTime: real)
      requires Valid()
      modifies this
      ensures Valid()
      ensures old(shapeTimer) + deltaTime >= TickPeriod ==>
                shapeTimer == 0.0 && State() == Tick(old(State())) && ticks == old(ticks) + 1
      ensures old(shapeTimer) + deltaTime < TickPeriod ==>
                shapeTimer == old(shapeTimer) + deltaTime && State() == old(State()) && ticks == old(ticks)
    {
      shapeTimer := shapeTimer + deltaTime;
      if shapeTimer >= TickPeriod {
        shapeTimer := 0.0;
        if increasing {
          shapeParam := shapeParam + 1;
          if shapeParam >= MaxParam {
            shapeParam := MaxParam;
            increasing := false;
          }
        } else {
          shapeParam := shapeParam - 1;
          if shapeParam <= MinParam {
            shapeParam := MinParam;
            increasing := true;
          }
        }
        ticks := ticks + 1;
      }
    }

    /** One frame of the render loop as far as the model goes: step the
        oscillator, then regenerate the 15 x 30 superellipsoid of radius 0.08
        with the current exponent. */
    method Frame(vertices: Vector<real>, indices: Vector<nat>, m: Transcendental, deltaTime: real)
      requires Valid()
      modifies this, vertices, indices
      ensures Valid()
      ensures old(shapeTimer) + deltaTime >= TickPeriod ==>
                shapeTimer == 0.0 && State() == Tick(old(State())) && ticks == old(ticks) + 1
      ensures old(shapeTimer) + deltaTime < TickPeriod ==>
                shapeTimer == old(shapeTimer) + deltaTime && State() == old(State()) && ticks == old(ticks)
      ensures vertices.elems == VertexBuffer(m, Superellipsoid(AnimatedRadius, Exponent(shapeParam)), AnimatedStacks, AnimatedSlices)
      ensures indices.elems == IndexBuffer(AnimatedStacks, AnimatedSlices)
      ensures 0.0 <= Exponent(shapeParam) <= 2.5
    {
      Step(deltaTime);
      ExponentRange(ticks);
      GenerateSuperellipsoid(vertices, indices, m, AnimatedRadius, Exponent(shapeParam), AnimatedStacks, AnimatedSlices);
    }
  }
}
