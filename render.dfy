/** Model of the behaviour engine of render.js: the module-level state (lines 51-82)
    becomes the fields of one `Character`, and each event handler, the per-frame
    `gameLoop` and the 2-second fallen timer become methods. The clock (`Date.now`)
    and every `Math.random` draw are parameters. Outgoing window commands are
    recorded: `Sent` holds every `set-window-position` pair, `Resized` every
    `set-window-size` pair, `FallenTimers` the due times of scheduled fallen timers. */
module Render {
  import opened Wrappers
  import opened IdlePolicy
  import opened Motion

  const WindowWidth: int := 80
  const WindowHeight: int := 130
  const WalkSpeed: int := 2
  const GroundOffset: int := 45
  const MinWalkTime: int := 5000
  const DirectionChangeChance: real := 0.01
  const IdleCheckInterval: int := 10000
  const FallenRecoveryDelay: int := 2000

  const FallingSpriteHeight: int := 68
  const WalkingSpriteHeight: int := 86
  const StandingSpriteHeight: int := 86
  const SleepingSpriteHeight: int := 44
  const StretchingSpriteHeight: int := 90

  /** The value of `currentState`. */
  datatype Mode = Walking | Dragging | Falling | Fallen | Idle(kind: IdleMode)

  /** The height of the sprite shown in a mode (render.js:21-37); the dragging sprite's
      height does not enter the model. */
  function SpriteHeight(m: Mode): int
    requires m != Dragging
  {
    match m
    case Walking => WalkingSpriteHeight
    case Idle(Standing) => StandingSpriteHeight
    case Idle(Sleeping) => SleepingSpriteHeight
    case Idle(Stretching) => StretchingSpriteHeight
    case Falling => FallingSpriteHeight
    case Fallen => FallingSpriteHeight
  }

  /** The y at which a mode's sprite has its feet on the ground line: the ground line
      shifted by the walking sprite's height minus the mode's sprite height. Standing
      uses the ground line itself (render.js:376). */
  function FootY(groundY: int, m: Mode): (y: real)
    requires m != Dragging
    ensures y + SpriteHeight(m) as real == (groundY + WalkingSpriteHeight) as real
    ensures m == Walking || m == Idle(Standing) ==> y == groundY as real
    ensures m == Idle(Sleeping) ==> y == groundY as real + 42.0
    ensures m == Idle(Stretching) ==> y == groundY as real - 4.0
    ensures m == Falling || m == Fallen ==> y == groundY as real + 18.0
  {
    match m
    case Walking => groundY as real
    case Idle(Standing) => groundY as real
    case Idle(Sleeping) => (groundY + WalkingSpriteHeight - SleepingSpriteHeight) as real
    case Idle(Stretching) => (groundY + WalkingSpriteHeight - StretchingSpriteHeight) as real
    case Falling => (groundY + WalkingSpriteHeight - FallingSpriteHeight) as real
    case Fallen => (groundY + WalkingSpriteHeight - FallingSpriteHeight) as real
  }

  /** The window size requested on entering an idle mode. */
  function IdleWindowSize(k: IdleMode): (size: (int, int))
    ensures k == Sleeping <==> size == (108, 72)
    ensures k != Sleeping ==> size == WalkingWindowSize
  {
    match k
    case Standing => (80, 130)
    case Sleeping => (108, 72)
    case Stretching => (80, 130)
  }

  /** The window size requested on returning to walking (render.js:214). */
  const WalkingWindowSize: (int, int) := (80, 130)

  /** The names of the idle animations whose end counts down a cycle. */
  predicate IsIdleAnimation(name: string)
    ensures IsIdleAnimation(name) ==> |name| > 5 && name[..5] == "idle-"
    ensures IsIdleAnimation(name) ==> name != "idle-standing" ==> name == "idle-sleep" || name == "idle-stretching"
  {
    name == "idle-standing" || name == "idle-sleep" || name == "idle-stretching"
  }

  class Character {
    const screenWidth: int
    const screenHeight: int
    const groundY: int

    var state: Mode
    var direction: int
    var lastDirection: int
    var lastDirectionChangeTime: int
    var posX: real
    var posY: real
    var velocityY: real
    var isDragging: bool
    var dragOffsetX: real
    var dragOffsetY: real
    var lastUpdateTime: int
    var lastIdleCheck: int
    var idleCyclesRemaining: int
    var isIdle: bool
    var lastIdleState: Option<IdleMode>
    /** Whether the element carries the "walking" class; render.js:457 reads it. */
    var walkingShown: bool

    ghost var Sent: seq<(int, int)>
    ghost var Resized: seq<(int, int)>
    ghost var FallenTimers: seq<int>

    /** The relations the handlers keep between the variables. */
    ghost predicate Valid()
      reads this
    {
      && groundY == screenHeight - WindowHeight + GroundOffset
      && (direction == 1 || direction == -1)
      && lastDirection == direction
      && (isDragging <==> state == Dragging)
      && (isIdle <==> state.Idle?)
      && (if state.Idle?
          then 1 <= idleCyclesRemaining <= MaxCycles(state.kind) && lastIdleState == Some(state.kind)
          else idleCyclesRemaining == 0)
      && (state != Walking ==> !walkingShown)
      && (state != Falling ==> velocityY == 0.0)
      && (state == Fallen ==> posY == FootY(groundY, Fallen))
    }

    /** Module load followed by a successful `init`: the screen work area, the ground
        line derived from it, and the window's position as the host reports it. */
    constructor (loadTime: int, width: int, height: int, x: int, y: int, walkingClassAtStart: bool)
      ensures Valid()
      ensures screenWidth == width && screenHeight == height
      ensures groundY == height - WindowHeight + GroundOffset
      ensures state == Walking && direction == 1 && lastDirectionChangeTime == loadTime
      ensures posX == x as real && posY == y as real && velocityY == 0.0
      ensures lastUpdateTime == 0 && lastIdleCheck == 0 && lastIdleState == None
      ensures walkingShown == walkingClassAtStart
      ensures Sent == [] && Resized == [] && FallenTimers == []
    {
      screenWidth, screenHeight := width, height;
      groundY := height - WindowHeight + GroundOffset;
      state := Walking;
      direction, lastDirection := 1, 1;
      lastDirectionChangeTime := loadTime;
      posX, posY := x as real, y as real;
      velocityY := 0.0;
      isDragging := false;
      dragOffsetX, dragOffsetY := 0.0, 0.0;
      lastUpdateTime, lastIdleCheck := 0, 0;
      idleCyclesRemaining := 0;
      isIdle := false;
      lastIdleState := None;
      walkingShown := walkingClassAtStart;
      Sent, Resized, FallenTimers := [], [], [];
    }

    /** The effect of `updateWindowPosition(force)` at time `now`, between the state
        on entry and the current one: the rounded position is sent and the send time
        recorded exactly when the update is forced or the interval has elapsed. */
    twostate predicate PositionRequested(force: bool, now: int)
      reads this
    {
      if Forwards(force, now, old(lastUpdateTime))
      then lastUpdateTime == now && Sent == old(Sent) + [(Round(posX), Round(posY))]
      else lastUpdateTime == old(lastUpdateTime) && Sent == old(Sent)
    }

    /** render.js:92-98. */
    method UpdateWindowPosition(force: bool, now: int)
      modifies this`lastUpdateTime, this`Sent
      ensures PositionRequested(force, now)
    {
      if force || now - lastUpdateTime >= MinUpdateInterval {
        Sent := Sent + [(Round(posX), Round(posY))];
        lastUpdateTime := now;
      }
    }

    /** The `mousedown` handler (render.js:138-176), cursor at (screenX, screenY). */
    method MouseDown(screenX: real, screenY: real)
      requires Valid()
      modifies this`isDragging, this`velocityY, this`isIdle, this`idleCyclesRemaining,
               this`state, this`walkingShown, this`dragOffsetX, this`dragOffsetY
      ensures Valid()
      ensures state == Dragging && isDragging && velocityY == 0.0
      ensures !isIdle && idleCyclesRemaining == 0 && !walkingShown
      ensures dragOffsetX == screenX - posX && dragOffsetY == screenY - posY
    {
      isDragging := true;
      velocityY := 0.0;
      if state.Idle? {
        isIdle := false;
        idleCyclesRemaining := 0;
      }
      state := Dragging;
      walkingShown := false;
      dragOffsetX := screenX - posX;
      dragOffsetY := screenY - posY;
    }

    /** The `mousemove` handler (render.js:243-252): while dragging, the window
        follows the cursor at the grab offset and the position is sent unthrottled. */
    method MouseMove(screenX: real, screenY: real)
      requires Valid()
      modifies this`posX, this`posY, this`Sent
      ensures Valid()
      ensures if old(isDragging)
        then posX == screenX - dragOffsetX && posY == screenY - dragOffsetY
          && Sent == old(Sent) + [(Round(posX), Round(posY))]
        else unchanged(this)
    {
      if !isDragging {
        return;
      }
      posX := screenX - dragOffsetX;
      posY := screenY - dragOffsetY;
      Sent := Sent + [(Round(posX), Round(posY))];
    }

    /** The `mouseup` handler (render.js:258-275); (hostX, hostY) is the position the
        host reports for `get-window-position`. */
    method MouseUp(hostX: int, hostY: int)
      requires Valid()
      modifies this`isDragging, this`posX, this`posY, this`state, this`velocityY
      ensures Valid()
      ensures if old(isDragging)
        then !isDragging && state == Falling && velocityY == 0.0
          && posX == hostX as real && posY == hostY as real
        else unchanged(this)
    {
      if !isDragging {
        return;
      }
      isDragging := false;
      posX, posY := hostX as real, hostY as real;
      state := Falling;
      velocityY := 0.0;
    }

    /** The `animationend` handler (render.js:181-237): the end of an idle animation
        in an idle mode counts down one cycle; the last one returns to walking. */
    method AnimationEnd(name: string, now: int)
      requires Valid()
      modifies this`idleCyclesRemaining, this`isIdle, this`state, this`walkingShown,
               this`Resized, this`lastDirectionChangeTime
      ensures Valid()
      ensures if IsIdleAnimation(name) && old(state).Idle?
        then idleCyclesRemaining == old(idleCyclesRemaining) - 1
          && (if idleCyclesRemaining == 0
              then state == Walking && !isIdle && walkingShown
                && Resized == old(Resized) + [WalkingWindowSize] && lastDirectionChangeTime == now
              else (state == old(state) && walkingShown == old(walkingShown)
                && Resized == old(Resized) && lastDirectionChangeTime == old(lastDirectionChangeTime)))
        else unchanged(this)
    {
      if IsIdleAnimation(name) && state.Idle? {
        idleCyclesRemaining := idleCyclesRemaining - 1;
        if idleCyclesRemaining <= 0 {
          isIdle := false;
          state := Walking;
          walkingShown := true;
          Resized := Resized + [WalkingWindowSize];
          lastDirectionChangeTime := now;
        }
      }
    }

    /** The callback scheduled at landing (render.js:435-445), firing at `now`. It
        acts only if the mode is still Fallen; an earlier drag makes it a no-op. */
    method FallenTimerFires(now: int)
      requires Valid()
      requires FallenTimers != [] && now >= FallenTimers[0]
      modifies this`FallenTimers, this`state, this`posY, this`lastDirectionChangeTime
      ensures Valid()
      ensures FallenTimers == old(FallenTimers)[1..]
      ensures if old(state) == Fallen
        then state == Walking && posY == groundY as real && lastDirectionChangeTime == now
        else (state == old(state) && posY == old(posY)
          && lastDirectionChangeTime == old(lastDirectionChangeTime))
    {
      FallenTimers := FallenTimers[1..];
      if state == Fallen {
        state := Walking;
        posY := groundY as real;
        lastDirectionChangeTime := now;
      }
    }

    /** Whether the tick at `now` runs an idle check (render.js:289-293). */
    predicate IdleCheckDue(now: int)
      reads this
      ensures IdleCheckDue(now) ==> state == Walking && now >= lastIdleCheck + IdleCheckInterval
      ensures state == Walking && !isIdle && now >= lastIdleCheck + IdleCheckInterval ==> IdleCheckDue(now)
    {
      state == Walking && !isIdle && now - lastIdleCheck >= IdleCheckInterval
    }

    /** Applying the chosen idle mode `k` (render.js:325-366): the mode, its cycle
        count, its window size, and for sleeping and stretching the new foot line,
        sent at once. */
    method EnterIdle(k: IdleMode, now: int, rCycles: real)
      requires Valid() && state == Walking && lastIdleState != Some(k)
      requires 0.0 <= rCycles < 1.0
      modifies this`lastIdleState, this`isIdle, this`state, this`walkingShown,
               this`idleCyclesRemaining, this`posY, this`lastUpdateTime, this`Sent, this`Resized
      ensures Valid()
      ensures state == Idle(k) && lastIdleState == Some(k) && isIdle && !walkingShown
      ensures idleCyclesRemaining == CycleCount(k, rCycles)
      ensures Resized == old(Resized) + [IdleWindowSize(k)]
      ensures k == Standing ==> posY == old(posY) && lastUpdateTime == old(lastUpdateTime) && Sent == old(Sent)
      ensures k != Standing ==>
        posY == FootY(groundY, Idle(k)) && lastUpdateTime == now
        && Sent == old(Sent) + [(Round(posX), Round(posY))]
    {
      lastIdleState := Some(k);
      isIdle := true;
      state := Idle(k);
      walkingShown := false;
      idleCyclesRemaining := CycleCount(k, rCycles);
      Resized := Resized + [IdleWindowSize(k)];
      if k != Standing {
        posY := FootY(groundY, state);
        UpdateWindowPosition(true, now);
      }
    }

    /** The idle check at the start of `gameLoop` (render.js:289-313): at most every
        ten seconds of walking, a draw that may choose an idle mode, never the
        previous one. */
    method IdleCheck(now: int, rIdle: real, rPick: real, rCycles: real)
      requires Valid()
      requires 0.0 <= rPick < 1.0 && 0.0 <= rCycles < 1.0
      modifies this`lastIdleCheck, this`lastIdleState, this`isIdle, this`state,
               this`walkingShown, this`idleCyclesRemaining, this`posY,
               this`lastUpdateTime, this`Sent, this`Resized
      ensures Valid()
      ensures !old(IdleCheckDue(now)) ==> unchanged(this)
      ensures old(IdleCheckDue(now)) ==> lastIdleCheck == now
      ensures old(IdleCheckDue(now)) && ChooseIdle(rIdle, old(lastIdleState), rPick).None? ==>
        && state == Walking && lastIdleState == old(lastIdleState)
        && walkingShown == old(walkingShown) && posY == old(posY)
        && lastUpdateTime == old(lastUpdateTime) && Sent == old(Sent) && Resized == old(Resized)
      ensures old(IdleCheckDue(now)) && ChooseIdle(rIdle, old(lastIdleState), rPick).Some? ==>
        var k := ChooseIdle(rIdle, old(lastIdleState), rPick).value;
        && state == Idle(k) && lastIdleState == Some(k) && !walkingShown
        && idleCyclesRemaining == CycleCount(k, rCycles)
        && Resized == old(Resized) + [IdleWindowSize(k)]
        && (k == Standing ==> posY == old(posY) && lastUpdateTime == old(lastUpdateTime) && Sent == old(Sent))
        && (k != Standing ==>
              posY == FootY(groundY, Idle(k)) && lastUpdateTime == now
              && Sent == old(Sent) + [(Round(posX), Round(posY))])
      ensures state.Idle? && !old(state).Idle? ==>
        old(lastIdleState) != Some(state.kind) && MinCycles(state.kind) <= idleCyclesRemaining
    {
      if state == Walking && !isIdle && now - lastIdleCheck >= IdleCheckInterval {
        lastIdleCheck := now;
        var next := ChooseIdle(rIdle, lastIdleState, rPick);
        if next.Some? {
          EnterIdle(next.value, now, rCycles);
        }
      }
    }

    /** The standing, sleeping and stretching branches of `gameLoop`
        (render.js:373-407): the position is moved to the mode's foot line when it is
        elsewhere, with a throttled update. */
    method IdleTick(now: int)
      requires Valid() && state.Idle?
      modifies this`posY, this`lastUpdateTime, this`Sent
      ensures Valid()
      ensures posY == FootY(groundY, state)
      ensures if old(posY) == posY then unchanged(this) else PositionRequested(false, now)
    {
      var targetY := FootY(groundY, state);
      if posY != targetY {
        posY := targetY;
        UpdateWindowPosition(false, now);
      }
    }

    /** The falling branch of `gameLoop` (render.js:412-450). */
    method FallingTick(now: int)
      requires Valid() && state == Falling
      modifies this`velocityY, this`posY, this`state, this`lastUpdateTime, this`Sent,
               this`FallenTimers
      ensures Valid()
      ensures var f := FallStep(old(posY), old(velocityY), FootY(groundY, Falling));
        && posY == f.posY && velocityY == f.velocityY
        && state == (if f.landed then Fallen else Falling)
        && FallenTimers == old(FallenTimers) + (if f.landed then [now + FallenRecoveryDelay] else [])
        && if f.landed
           then lastUpdateTime == now && Sent == old(Sent) + [(Round(posX), Round(posY))]
           else PositionRequested(false, now)
    {
      velocityY := velocityY + Gravity;
      posY := posY + velocityY;
      var groundYFalling := FootY(groundY, Falling);
      if posY >= groundYFalling {
        posY := groundYFalling;
        velocityY := 0.0;
        state := Fallen;
        UpdateWindowPosition(true, now);
        FallenTimers := FallenTimers + [now + FallenRecoveryDelay];
      }
      UpdateWindowPosition(false, now);
    }

    /** The walking branch of `gameLoop` (render.js:455-519): one fixed step along the
        direction on the ground line, clamping and turning at the screen edges, and a
        spontaneous turn when the minimum walk time has passed and the draw is below
        the per-frame chance. */
    method WalkingTick(now: int, rFlip: real)
      requires Valid() && state == Walking
      modifies this`walkingShown, this`lastDirectionChangeTime, this`posX, this`posY,
               this`direction, this`lastDirection, this`lastUpdateTime, this`Sent
      ensures Valid() && walkingShown
      ensures posY == groundY as real
      ensures screenWidth >= WindowWidth ==> 0.0 <= posX <= (screenWidth - WindowWidth) as real
      ensures var x := old(posX) + (WalkSpeed * old(direction)) as real;
        if x + WindowWidth as real >= screenWidth as real then
          posX == (screenWidth - WindowWidth) as real && direction == -1 && lastDirectionChangeTime == now
        else if x <= 0.0 then
          posX == 0.0 && direction == 1 && lastDirectionChangeTime == now
        else
          posX == x &&
          (if old(walkingShown) && now - old(lastDirectionChangeTime) > MinWalkTime && rFlip < DirectionChangeChance
           then direction == -old(direction) && lastDirectionChangeTime == now
           else (direction == old(direction)
             && lastDirectionChangeTime == (if old(walkingShown) then old(lastDirectionChangeTime) else now)))
      ensures PositionRequested(false, now)
    {
      if !walkingShown {
        walkingShown := true;
        lastDirectionChangeTime := now;
      }
      posY := groundY as real;
      posX := posX + (WalkSpeed * direction) as real;
      if posX + WindowWidth as real >= screenWidth as real {
        direction := -1;
        posX := (screenWidth - WindowWidth) as real;
        lastDirectionChangeTime := now;
      } else if posX <= 0.0 {
        direction := 1;
        posX := 0.0;
        lastDirectionChangeTime := now;
      }
      if now - lastDirectionChangeTime > MinWalkTime {
        if rFlip < DirectionChangeChance {
          direction := direction * -1;
          lastDirectionChangeTime := now;
        }
      }
      if direction != lastDirection {
        lastDirection := direction;
      }
      UpdateWindowPosition(false, now);
    }

    /** The fallen branch of `gameLoop` (render.js:524-529). */
    method FallenTick(now: int)
      requires Valid() && state == Fallen
      modifies this`posY, this`lastUpdateTime, this`Sent
      ensures Valid()
      ensures posY == FootY(groundY, Fallen)
      ensures PositionRequested(false, now)
    {
      posY := FootY(groundY, Fallen);
      UpdateWindowPosition(false, now);
    }

    /** One frame of `gameLoop` (render.js:286-538) at time `now`: the idle check,
        then the branch of the mode in force after it. The draws stand for the calls
        to `Math.random` at lines 298, 321, 333/341/355 and 504. */
    method Tick(now: int, rIdle: real, rPick: real, rCycles: real, rFlip: real)
      requires Valid()
      requires 0.0 <= rIdle < 1.0 && 0.0 <= rPick < 1.0 && 0.0 <= rCycles < 1.0 && 0.0 <= rFlip < 1.0
      modifies this`lastIdleCheck, this`lastIdleState, this`isIdle, this`state, this`walkingShown,
               this`idleCyclesRemaining, this`posX, this`posY, this`velocityY, this`direction,
               this`lastDirection, this`lastDirectionChangeTime, this`lastUpdateTime,
               this`Sent, this`Resized, this`FallenTimers
      ensures Valid()
      ensures old(state) == Dragging ==> unchanged(this)
      // the mode
      ensures state == old(state)
           || (old(state) == Walking && state.Idle?)
           || (old(state) == Falling && state == Fallen)
      ensures old(state) == Walking ==>
        (state == Walking <==> !old(IdleCheckDue(now)) || ChooseIdle(rIdle, old(lastIdleState), rPick).None?)
      ensures lastIdleCheck == if old(IdleCheckDue(now)) then now else old(lastIdleCheck)
      ensures walkingShown <==> state == Walking
      // entering an idle mode
      ensures old(state) == Walking && state.Idle? ==>
        Some(state.kind) == ChooseIdle(rIdle, old(lastIdleState), rPick)
        && idleCyclesRemaining == CycleCount(state.kind, rCycles)
      ensures state.Idle? && !old(state).Idle? ==>
        old(lastIdleState) != Some(state.kind) && MinCycles(state.kind) <= idleCyclesRemaining
      ensures old(state).Idle? ==> idleCyclesRemaining == old(idleCyclesRemaining)
      ensures lastIdleState == if state.Idle? && !old(state).Idle? then Some(state.kind) else old(lastIdleState)
      ensures Resized == old(Resized) + if state.Idle? && !old(state).Idle? then [IdleWindowSize(state.kind)] else []
      // the vertical position
      ensures state != Dragging && state != Falling ==> posY == FootY(groundY, state)
      ensures state == Falling ==> posY < FootY(groundY, Falling)
      ensures old(state) == Falling ==>
        var f := FallStep(old(posY), old(velocityY), FootY(groundY, Falling));
        posY == f.posY && velocityY == f.velocityY && (state == Fallen <==> f.landed)
      ensures FallenTimers == old(FallenTimers) + if old(state) == Falling && state == Fallen then [now + FallenRecoveryDelay] else []
      // the horizontal position: only walking moves it
      ensures state != Walking ==>
        posX == old(posX) && direction == old(direction) && lastDirectionChangeTime == old(lastDirectionChangeTime)
      ensures state == Walking && screenWidth >= WindowWidth ==>
        0.0 <= posX <= (screenWidth - WindowWidth) as real
      ensures state == Walking ==>
        var x := old(posX) + (WalkSpeed * old(direction)) as real;
        if x + WindowWidth as real >= screenWidth as real then
          posX == (screenWidth - WindowWidth) as real && direction == -1 && lastDirectionChangeTime == now
        else if x <= 0.0 then
          posX == 0.0 && direction == 1 && lastDirectionChangeTime == now
        else
          posX == x &&
          (if old(walkingShown) && now - old(lastDirectionChangeTime) > MinWalkTime && rFlip < DirectionChangeChance
           then direction == -old(direction) && lastDirectionChangeTime == now
           else (direction == old(direction)
             && lastDirectionChangeTime == (if old(walkingShown) then old(lastDirectionChangeTime) else now)))
      // what is sent to the host
      ensures old(state) == Fallen || (old(state) == Walking && state == Walking) ==> PositionRequested(false, now)
      ensures old(state) == Falling ==>
        if state == Fallen
        then lastUpdateTime == now && Sent == old(Sent) + [(Round(posX), Round(posY))]
        else PositionRequested(false, now)
      ensures state.Idle? && (old(state).Idle? || state.kind == Standing) ==>
        if old(posY) == posY
        then lastUpdateTime == old(lastUpdateTime) && Sent == old(Sent)
        else PositionRequested(false, now)
      ensures !old(state).Idle? && state.Idle? && state.kind != Standing ==>
        lastUpdateTime == now && Sent == old(Sent) + [(Round(posX), Round(posY))]
      ensures |Sent| <= old(|Sent|) + 1
    {
      IdleCheck(now, rIdle, rPick, rCycles);
      match state {
        case Idle(_) => IdleTick(now);
        case Falling => FallingTick(now);
        case Walking => WalkingTick(now, rFlip);
        case Fallen => FallenTick(now);
        case Dragging =>
      }
    }
  }
}
