/** Clients of `Render.Character` that follow the handlers through several events,
    using nothing but the methods' contracts. */
module Scenarios {
  import opened Wrappers
  import opened IdlePolicy
  import opened Motion
  import opened Render

  /** Idle countdown (render.js:181-235): an idle mode entered with n cycles stays in
      force for n - 1 animation ends and returns to walking on exactly the n-th. */
  method IdleCountdown(c: Character, name: string, now: int) returns (events: nat)
    requires c.Valid() && c.state.Idle? && IsIdleAnimation(name)
    modifies c
    ensures c.Valid() && c.state == Walking && !c.isIdle
    ensures events == old(c.idleCyclesRemaining)
    ensures c.lastDirectionChangeTime == now
    ensures c.lastIdleState == old(c.lastIdleState) && c.lastIdleCheck == old(c.lastIdleCheck)
  {
    var mode := c.state;
    var n := c.idleCyclesRemaining;
    events := 0;
    while c.state.Idle?
      invariant c.Valid()
      invariant events + c.idleCyclesRemaining == n
      invariant c.lastIdleState == old(c.lastIdleState) && c.lastIdleCheck == old(c.lastIdleCheck)
      invariant c.state.Idle? ==> c.state == mode
      invariant !c.state.Idle? ==> c.state == Walking && events == n && c.lastDirectionChangeTime == now
      decreases c.idleCyclesRemaining
    {
      c.AnimationEnd(name, now);
      events := events + 1;
    }
  }

  /** Drag cycle (render.js:138-176, 243-252): after a press, one move elsewhere
      and a move back to the press point, the press-time position is restored. */
  method DragBack(c: Character, pressX: real, pressY: real, moveX: real, moveY: real)
    requires c.Valid()
    modifies c
    ensures c.Valid() && c.state == Dragging && c.velocityY == 0.0
    ensures c.posX == old(c.posX) && c.posY == old(c.posY)
    ensures c.Sent == old(c.Sent) + [(Round(moveX - pressX + old(c.posX)), Round(moveY - pressY + old(c.posY))),
                                     (Round(old(c.posX)), Round(old(c.posY)))]
  {
    c.MouseDown(pressX, pressY);
    c.MouseMove(moveX, moveY);
    c.MouseMove(pressX, pressY);
  }

  /** A run of unforced position updates at the times `ts` (render.js:92-98) sends
      exactly the requests that `SendTimes` keeps, each carrying the unchanged
      rounded position, and leaves the last of them as the send time. */
  method ThrottledRun(c: Character, ts: seq<int>)
    modifies c`lastUpdateTime, c`Sent
    ensures |c.Sent| == |old(c.Sent)| + |SendTimes(old(c.lastUpdateTime), ts)|
    ensures c.Sent[..|old(c.Sent)|] == old(c.Sent)
    ensures forall k :: |old(c.Sent)| <= k < |c.Sent| ==> c.Sent[k] == (Round(c.posX), Round(c.posY))
    ensures c.lastUpdateTime == LastSend(old(c.lastUpdateTime), ts)
  {
    var i := 0;
    while i < |ts|
      invariant 0 <= i <= |ts|
      invariant |c.Sent| == |old(c.Sent)| + |SendTimes(old(c.lastUpdateTime), ts[..i])|
      invariant c.Sent[..|old(c.Sent)|] == old(c.Sent)
      invariant forall k :: |old(c.Sent)| <= k < |c.Sent| ==> c.Sent[k] == (Round(c.posX), Round(c.posY))
      invariant c.lastUpdateTime == LastSend(old(c.lastUpdateTime), ts[..i])
    {
      assert ts[..i + 1] == ts[..i] + [ts[i]];
      SendTimesAppend(old(c.lastUpdateTime), ts[..i], ts[i]);
      c.UpdateWindowPosition(false, ts[i]);
      i := i + 1;
    }
    assert ts[..i] == ts;
  }

  /** Walking into the right edge of a 1920-pixel-wide screen from x = 1840: the
      step to 1842 already crosses the bound, so the same tick clamps back to 1840
      and turns left. */
  method RightEdgeTurn(loadTime: int, now: int) returns (c: Character)
    ensures c.Valid() && c.state == Walking
    ensures c.posX == 1840.0 && c.direction == -1 && c.posY == 995.0
  {
    c := new Character(loadTime, 1920, 1080, 1840, 995, true);
    c.Tick(now, 0.9, 0.0, 0.0, 0.0);
  }

  /** A drop followed by n frames follows the falling integration of `Motion`:
      from the host-reported height with zero velocity, n ticks leave the
      character exactly where `FallTicks` puts it. */
  method DropAndFall(c: Character, hostX: int, hostY: int, times: seq<int>)
    requires c.Valid() && c.state == Dragging
    modifies c
    ensures c.Valid()
    ensures var f := FallTicks(hostY as real, 0.0, FootY(c.groundY, Falling), |times|);
      c.posY == f.posY && c.velocityY == f.velocityY && (c.state == Fallen <==> f.landed)
    ensures c.state == Falling || c.state == Fallen
  {
    c.MouseUp(hostX, hostY);
    var floor := FootY(c.groundY, Falling);
    var i := 0;
    while i < |times|
      invariant 0 <= i <= |times|
      invariant c.Valid() && (c.state == Falling || c.state == Fallen)
      invariant var f := FallTicks(hostY as real, 0.0, floor, i);
        c.posY == f.posY && c.velocityY == f.velocityY && (c.state == Fallen <==> f.landed)
    {
      FallTicksAppend(hostY as real, 0.0, floor, i);
      c.Tick(times[i], 0.0, 0.0, 0.0, 0.0);
      i := i + 1;
    }
  }

  /** The fallen timer is cancelled only by the mode check when it fires: a timer
      left from an earlier landing ends a later Fallen period before its own two
      seconds have passed. */
  method StaleFallenTimer(c: Character, pressX: real, pressY: real, hostX: int, landTime: int, fireTime: int)
    requires c.Valid() && c.state == Fallen && |c.FallenTimers| == 1
    requires c.FallenTimers[0] <= fireTime < landTime + FallenRecoveryDelay
    modifies c
    ensures c.state == Walking && c.posY == c.groundY as real
    ensures c.FallenTimers == [landTime + FallenRecoveryDelay]
  {
    var landing := c.groundY + WalkingSpriteHeight - FallingSpriteHeight;
    c.MouseDown(pressX, pressY);
    c.MouseUp(hostX, landing);
    c.Tick(landTime, 0.0, 0.0, 0.0, 0.0);
    assert c.state == Fallen;
    c.FallenTimerFires(fireTime);
  }

  /** Two idle checks in a row that both draw "sleeping": the second one is
      resampled to standing or stretching. */
  method SleepThenResample(c: Character, name: string, endTime: int, checkTime: int, rPick: real)
    requires c.Valid() && c.state == Idle(Sleeping) && IsIdleAnimation(name)
    requires checkTime - c.lastIdleCheck >= IdleCheckInterval
    requires 0.0 <= rPick < 1.0
    modifies c
    ensures c.state == Idle(Standing) || c.state == Idle(Stretching)
  {
    var _ := IdleCountdown(c, name, endTime);
    c.Tick(checkTime, 0.25, rPick, 0.0, 0.0);
  }
}
