/** The idle-mode policy of render.js (lines 24-42 and 289-356): which idle mode a
    uniform draw selects, how an immediate repeat is resampled, and how many
    animation cycles the chosen mode runs. Every draw is a parameter in [0, 1). */
module IdlePolicy {
  import opened Wrappers

  /** The three idle modes, in the order of the list at render.js:317. */
  datatype IdleMode = Standing | Sleeping | Stretching

  const IdleOrder: seq<IdleMode> := [Standing, Sleeping, Stretching]

  const StandingProbability: real := 0.2
  const SleepProbability: real := 0.1
  const StretchingProbability: real := 0.2

  function MinCycles(m: IdleMode): nat
  {
    match m
    case Standing => 2
    case Sleeping => 5
    case Stretching => 2
  }

  function MaxCycles(m: IdleMode): nat
  {
    match m
    case Standing => 4
    case Sleeping => 8
    case Stretching => 4
  }

  /** The threshold cascade of render.js:301-310: the draw partitions [0, 1) into
      [0, 0.2) standing, [0.2, 0.3) sleeping, [0.3, 0.5) stretching and
      [0.5, 1) no idle mode. */
  function IdleDraw(rand: real): (r: Option<IdleMode>)
    ensures r == Some(Standing) <==> rand < 0.2
    ensures r == Some(Sleeping) <==> 0.2 <= rand < 0.3
    ensures r == Some(Stretching) <==> 0.3 <= rand < 0.5
    ensures r == None <==> 0.5 <= rand
  {
    if rand < StandingProbability then Some(Standing)
    else if rand < StandingProbability + SleepProbability then Some(Sleeping)
    else if rand < StandingProbability + SleepProbability + StretchingProbability then Some(Stretching)
    else None
  }

  /** `modes.filter(s => s !== x)`. */
  function Without(modes: seq<IdleMode>, x: IdleMode): (r: seq<IdleMode>)
    ensures forall m :: m in r <==> m in modes && m != x
    ensures |r| <= |modes|
  {
    if modes == [] then []
    else if modes[0] == x then Without(modes[1..], x)
    else [modes[0]] + Without(modes[1..], x)
  }

  /** The two idle modes other than `last`, in declaration order. */
  function Others(last: IdleMode): (r: seq<IdleMode>)
    ensures |r| == 2 && r[0] != r[1]
    ensures forall m :: m in r <==> m != last
  {
    Without(IdleOrder, last)
  }

  /** `availableStates[Math.floor(Math.random() * availableStates.length)]`
      (render.js:317-321): a uniform pick among the idle modes other than `last`. */
  function Resample(last: IdleMode, rand: real): (m: IdleMode)
    requires 0.0 <= rand < 1.0
    ensures m != last
    ensures m == Others(last)[if rand < 0.5 then 0 else 1]
  {
    var available := Others(last);
    available[(rand * |available| as real).Floor]
  }

  /** Both other modes are reachable by the resample: the pick never collapses onto one. */
  lemma ResampleReachesEveryOther(last: IdleMode, m: IdleMode)
    requires m != last
    ensures exists rand: real :: 0.0 <= rand < 1.0 && Resample(last, rand) == m
  {
    if m == Others(last)[0] {
      assert Resample(last, 0.0) == m;
    } else {
      assert Resample(last, 0.5) == m;
    }
  }

  /** The idle mode an idle check applies (render.js:297-322), given the previous
      idle mode (`None` for the initial `""`): none with probability one half,
      otherwise a mode that differs from the previous one. */
  function ChooseIdle(rand: real, last: Option<IdleMode>, resampleRand: real): (r: Option<IdleMode>)
    requires 0.0 <= resampleRand < 1.0
    ensures r.Some? <==> rand < 0.5
    ensures r.Some? ==> last != Some(r.value)
    ensures IdleDraw(rand) != last ==> r == IdleDraw(rand)
  {
    match IdleDraw(rand)
    case None => None
    case Some(m) => if Some(m) == last then Some(Resample(m, resampleRand)) else Some(m)
  }

  /** `Math.floor(Math.random() * (MAX - MIN + 1)) + MIN` for the mode's range. */
  function CycleCount(m: IdleMode, rand: real): (n: int)
    requires 0.0 <= rand < 1.0
    ensures MinCycles(m) <= n <= MaxCycles(m)
  {
    (rand * (MaxCycles(m) - MinCycles(m) + 1) as real).Floor + MinCycles(m)
  }

  /** Every count in the inclusive range is drawn by some value in [0, 1). */
  lemma CycleCountCovers(m: IdleMode, n: int)
    requires MinCycles(m) <= n <= MaxCycles(m)
    ensures exists rand: real :: 0.0 <= rand < 1.0 && CycleCount(m, rand) == n
  {
    var span := (MaxCycles(m) - MinCycles(m) + 1) as real;
    var rand := (n - MinCycles(m)) as real / span;
    assert rand * span == (n - MinCycles(m)) as real;
    assert CycleCount(m, rand) == n;
  }
}
