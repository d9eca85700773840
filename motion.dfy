/** Arithmetic of render.js that does not depend on the character's mode: the
    rounding and throttling of position updates sent to the window (lines 92-98)
    and the fixed-step falling integration (lines 412-424). Positions and velocity
    are real numbers, so the gravity step 0.8 is exact. */
module Motion {

  const Gravity: real := 0.8
  /** Milliseconds that must pass between two unforced position updates. */
  const MinUpdateInterval: int := 24

  /** `Math.round`: the nearest integer, halves rounded up. */
  function Round(x: real): (r: int)
    ensures x - 0.5 < r as real <= x + 0.5
  {
    (x + 0.5).Floor
  }

  /** Whether `updateWindowPosition(force)` at time `now` forwards the position. */
  predicate Forwards(force: bool, now: int, lastUpdateTime: int)
    ensures force ==> Forwards(force, now, lastUpdateTime)
    ensures !Forwards(force, now, lastUpdateTime) ==> now < lastUpdateTime + MinUpdateInterval
  {
    force || now - lastUpdateTime >= MinUpdateInterval
  }

  /** The times at which a run of unforced update requests, made at the given times,
      is forwarded to the window, starting from the last send at `lastUpdateTime`. */
  function SendTimes(lastUpdateTime: int, requests: seq<int>): (sent: seq<int>)
    ensures |sent| <= |requests|
    ensures forall t :: t in sent ==> t in requests
    ensures |sent| > 0 ==> sent[0] - lastUpdateTime >= MinUpdateInterval
    ensures forall i :: 0 < i < |sent| ==> sent[i] - sent[i - 1] >= MinUpdateInterval
    ensures requests != [] && requests[0] - lastUpdateTime >= MinUpdateInterval ==>
      sent != [] && sent[0] == requests[0]
    decreases requests
  {
    if requests == [] then []
    else if Forwards(false, requests[0], lastUpdateTime) then [requests[0]] + SendTimes(requests[0], requests[1..])
    else SendTimes(lastUpdateTime, requests[1..])
  }

  /** Throttling bounds the rate: the k-th forwarded update comes at least k intervals
      after the last one sent before the run, whatever the request times. */
  lemma {:induction false} SendRate(lastUpdateTime: int, requests: seq<int>, k: nat)
    requires k < |SendTimes(lastUpdateTime, requests)|
    ensures SendTimes(lastUpdateTime, requests)[k] - lastUpdateTime >= MinUpdateInterval * (k + 1)
  {
    var sent := SendTimes(lastUpdateTime, requests);
    if k > 0 {
      SendRate(lastUpdateTime, requests, k - 1);
      assert sent[k] - sent[k - 1] >= MinUpdateInterval;
    }
  }

  /** The time of the latest send after a run of unforced requests: the last forwarded
      request, or `lastUpdateTime` when none was forwarded. */
  function LastSend(lastUpdateTime: int, requests: seq<int>): int
  {
    var sent := SendTimes(lastUpdateTime, requests);
    if sent == [] then lastUpdateTime else sent[|sent| - 1]
  }

  /** Each request is forwarded exactly when it comes at least one interval after the
      latest send before it: a request appended to a run is forwarded if and only if
      it is 24 ms or more after that run's last send. */
  lemma {:induction false} SendTimesAppend(lastUpdateTime: int, requests: seq<int>, t: int)
    ensures SendTimes(lastUpdateTime, requests + [t])
         == SendTimes(lastUpdateTime, requests)
            + (if t - LastSend(lastUpdateTime, requests) >= MinUpdateInterval then [t] else [])
    decreases requests
  {
    if requests == [] {
      assert [] + [t] == [t];
    } else {
      var r0, rest := requests[0], requests[1..];
      assert (requests + [t])[0] == r0 && (requests + [t])[1..] == rest + [t];
      if Forwards(false, r0, lastUpdateTime) {
        SendTimesAppend(r0, rest, t);
        assert LastSend(lastUpdateTime, requests) == LastSend(r0, rest);
      } else {
        SendTimesAppend(lastUpdateTime, rest, t);
      }
    }
  }

  /** Position, velocity and whether the ground was reached, after falling ticks. */
  datatype Fall = Fall(posY: real, velocityY: real, landed: bool)

  /** One falling tick against the landing line `floor`: velocity grows by the gravity
      step, the position moves by the new velocity, and reaching the line clamps the
      position to it and stops. */
  function FallStep(posY: real, velocityY: real, floor: real): (r: Fall)
    ensures r.landed <==> posY + velocityY + Gravity >= floor
    ensures r.landed ==> r.posY == floor && r.velocityY == 0.0
    ensures !r.landed ==> r.posY < floor && r.velocityY - velocityY == Gravity && r.posY == posY + r.velocityY
  {
    var v := velocityY + Gravity;
    var y := posY + v;
    if y >= floor then Fall(floor, 0.0, true) else Fall(y, v, false)
  }

  /** Up to n falling ticks; ticking stops at the first landing. */
  function FallTicks(posY: real, velocityY: real, floor: real, n: nat): (r: Fall)
    ensures n > 0 ==> r.posY <= floor
    ensures r.landed ==> r.posY == floor && r.velocityY == 0.0
    decreases n
  {
    if n == 0 then Fall(posY, velocityY, false)
    else
      var s := FallStep(posY, velocityY, floor);
      if s.landed then s else FallTicks(s.posY, s.velocityY, floor, n - 1)
  }

  /** n + 1 ticks are n ticks followed by one more step, unless the first n landed. */
  lemma {:induction false} FallTicksAppend(posY: real, velocityY: real, floor: real, n: nat)
    ensures var r := FallTicks(posY, velocityY, floor, n);
      FallTicks(posY, velocityY, floor, n + 1) == if r.landed then r else FallStep(r.posY, r.velocityY, floor)
    decreases n
  {
    if n > 0 {
      var s := FallStep(posY, velocityY, floor);
      if !s.landed {
        FallTicksAppend(s.posY, s.velocityY, floor, n - 1);
      }
    }
  }

  /** 1 + 2 + ... + n. */
  function Triangle(n: nat): (t: nat)
    ensures 2 * t == n * (n + 1)
  {
    if n == 0 then 0 else n + Triangle(n - 1)
  }

  /** Before contact the integration is exact: after n ticks the velocity has grown
      by n gravity steps and the position by n * v + Gravity * (1 + ... + n). */
  lemma {:induction false} FreeFall(posY: real, velocityY: real, floor: real, n: nat)
    requires velocityY >= 0.0
    requires posY + n as real * velocityY + Gravity * Triangle(n) as real < floor
    ensures FallTicks(posY, velocityY, floor, n)
         == Fall(posY + n as real * velocityY + Gravity * Triangle(n) as real,
                 velocityY + Gravity * n as real, false)
    decreases n
  {
    if n > 0 {
      var m := n - 1;
      var v := velocityY + Gravity;
      var y := posY + v;
      assert Triangle(n) == Triangle(m) + n;
      assert y + m as real * v + Gravity * Triangle(m) as real
          == posY + n as real * velocityY + Gravity * Triangle(n) as real;
      assert n as real * velocityY >= velocityY;
      assert Triangle(n) >= 1;
      assert !FallStep(posY, velocityY, floor).landed;
      FreeFall(y, v, floor, m);
    }
  }

  /** Falling always ends: once n ticks of free fall would reach the line, the
      character has landed within those n ticks, on the line, at rest. */
  lemma {:induction false} LandsWithin(posY: real, velocityY: real, floor: real, n: nat)
    requires velocityY >= 0.0 && n > 0
    requires posY + n as real * velocityY + Gravity * Triangle(n) as real >= floor
    ensures FallTicks(posY, velocityY, floor, n) == Fall(floor, 0.0, true)
    decreases n
  {
    var s := FallStep(posY, velocityY, floor);
    if !s.landed {
      var m := n - 1;
      assert Triangle(n) == Triangle(m) + n;
      assert s.posY + m as real * s.velocityY + Gravity * Triangle(m) as real
          == posY + n as real * velocityY + Gravity * Triangle(n) as real;
      LandsWithin(s.posY, s.velocityY, floor, m);
    }
  }
}
