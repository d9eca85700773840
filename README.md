# Desktop pet behaviour engine, modelled in Dafny

This project models the core of a desktop "virtual pet" overlay: the character Susie
walks along the bottom of the screen, pauses now and then to stand, sleep or stretch,
can be dragged with the mouse, falls when released, lies on the ground for two seconds
and then walks again. Two source files are modelled.

- **render.js**, the behaviour engine. Its module-level variables become the fields of
  one class, `Render.Character`. Each event handler and each branch of the per-frame
  `gameLoop` becomes a method, and `Tick` is one whole frame. Each method names the
  fields it may change and states their new values; `Valid()` is the invariant they
  all keep. The clock and every
  `Math.random` draw are parameters (each draw lies in [0, 1)). Outgoing commands are
  recorded in ghost fields: `Sent` holds the rounded `set-window-position` pairs,
  `Resized` the `set-window-size` pairs, and `FallenTimers` the due times of the
  2-second fallen timers. The pure parts are separate modules:
  - `IdlePolicy`: threshold draw, no-repeat resample, cycle counts;
  - `Motion`: `Math.round`, the 24 ms throttle, the gravity integration.

  `Scenarios` holds client methods that drive the class through several events, using
  only the method contracts.
- **check_dims.js**, the PNG header decode (module `PngHeader`). It compares the
  8-byte signature through its lower-case hex spelling. It reads width and height as
  big-endian unsigned 32-bit integers at offsets 16 and 20 of a zero-filled 24-byte
  buffer, following sections 5.2 and 11.2.2 of the W3C PNG Specification, Second
  Edition. Bytes 8-15 (chunk length and type) are not checked, as in the code.

Modelling choices and facts the proofs brought out:

- Positions and velocity are `real`, so the gravity step 0.8 is exact. Time is an
  integer number of milliseconds. Every `Date.now()` inside one event or frame reads
  the same instant.
- The idle thresholds are the constants in the code: 0.2, 0.2 + 0.1 and
  0.2 + 0.1 + 0.2. The comments beside them (render.js:28, 34, 40) say 40 %, 20 % and
  20 %, which do not match the values 0.2 and 0.1; the values are used.
- The throttle interval is the constant 24 ms (render.js:17, whose comment says
  ~41 fps). The docstring of `updateWindowPosition` (render.js:90) says ~30 fps; the
  constant is used.
- `direction == lastDirection` holds between any two events (it is part of `Valid()`).
  The `direction !== lastDirection` branch only matters inside the walking frame that
  changes the direction.
- `idleCyclesRemaining` is between 1 and the mode's maximum while idle, and 0
  otherwise. `isIdle` holds exactly in the three idle modes, and `isDragging` exactly
  in Dragging.
- The only "walking" CSS class state that is modelled is `walkingShown`, because
  render.js:457 resets the direction timer when the class is missing.
- The fallen timer is cancelled only by the mode check when it fires. Suppose the
  character lands, is dragged, and lands again within two seconds. Then the first
  timer ends the second Fallen period early (`Scenarios.StaleFallenTimer`).
- Four behaviours of the code worth knowing:
  - At x = 1840 on a 1920-pixel screen, walking right, the step to 1842 already meets
    the edge test `posX + 80 >= screenWidth`. The same frame clamps back to 1840 and
    turns left (`Scenarios.RightEdgeTurn`), so the position is never 1842.
  - An idle mode stays in force while the count after the decrement is above 0, not
    above 1.
  - Only sleeping and stretching force a position update when they start; standing
    does not.
  - Leaving an idle mode does not move the character. The sleeping or stretching
    offset remains until the next walking frame puts it back on the ground line.

## Model

| member | source | states |
|---|---|---|
| `Render.Character.constructor` | render.js:51-129 | After a successful start-up the state is Walking, direction right, position as the host reports it, zero velocity, direction timer at the module-load time, last send and last idle check at 0, no previous idle mode, ground line = screen height − 130 + 45, nothing sent, and the invariant holds |
| `Render.FootY` | render.js:376-419 | The foot line of a mode (the same offsets are used on idle entry at render.js:349-364 and when fallen at render.js:526-527) is the ground line shifted so that the mode's sprite bottom meets the walking sprite's: ground for walking and standing, +42 for sleeping, −4 for stretching, +18 for falling and fallen |
| `Render.IdleWindowSize` | render.js:337-359 | Sleeping requests a 108×72 window; standing and stretching keep the 80×130 walking window |
| `Render.IsIdleAnimation` | render.js:183-186 | Exactly the three idle animations, "idle-standing", "idle-sleep" and "idle-stretching", count down a cycle |
| `Render.Character.IdleCheckDue` | render.js:289-293 | The idle check is due only while walking, not idle, and at least 10 000 ms after the last check, and is then due |
| `Render.Character.UpdateWindowPosition` | render.js:92-98 | The rounded position is sent and `lastUpdateTime` set to now exactly when forced or when at least 24 ms have passed; otherwise nothing is sent and the timestamp is kept |
| `Render.Character.MouseDown` | render.js:138-176 | Always yields Dragging with zero velocity and grab offset = cursor − position; an idle mode is cancelled (count 0, not idle); the invariant is kept |
| `Render.Character.MouseMove` | render.js:243-252 | While dragging, position = cursor − grab offset and that position is sent without throttling; otherwise nothing changes |
| `Render.Character.MouseUp` | render.js:258-275 | While dragging: position := host-reported position, mode Falling, zero velocity, no longer dragging; otherwise nothing changes |
| `Render.Character.AnimationEnd` | render.js:181-237 | Only an idle animation's end in an idle mode counts: the count drops by one; at 0 the mode becomes Walking, not idle, walking size requested, direction timer reset; above 0 the mode is kept; any other event changes nothing |
| `Render.Character.FallenTimerFires` | render.js:435-445 | Consumes the oldest due timer; if the mode is still Fallen it becomes Walking on the ground line with the direction timer reset, otherwise mode and position are untouched |
| `Render.Character.EnterIdle` | render.js:324-366 | Applying an idle mode sets mode, previous idle mode and a cycle count in range, requests the mode's window size, and for sleeping (+42) and stretching (−4) moves to the foot line with a forced send; standing sends nothing |
| `Render.Character.IdleCheck` | render.js:289-313 | The check runs only when walking, not idle and 10 000 ms after the last one, and then always records the time; with a draw ≥ 0.5 the mode stays Walking, otherwise the chosen idle mode, never the previous one, is entered |
| `Render.Character.IdleTick` | render.js:373-407 | In an idle mode the position ends on the mode's foot line (ground, +42, −4); a throttled update is requested only if it had to move |
| `Render.Character.FallingTick` | render.js:412-450 | The new height and velocity are one gravity step of `FallStep` toward ground + 18; landing means mode Fallen, a forced send and a timer due 2000 ms later; otherwise a throttled update |
| `Render.Character.WalkingTick` | render.js:455-519 | After a walking frame the character is on the ground line within [0, screenWidth − 80]; the right edge turns it left, the left edge right, each resetting the timer; elsewhere it turns only after 5000 ms and with a draw below 0.01; lastDirection follows direction |
| `Render.Character.FallenTick` | render.js:524-529 | While fallen the position stays at ground + 18 and a throttled update is requested |
| `Render.Character.Tick` | render.js:286-538 | One frame leaves Dragging untouched and otherwise changes only the named fields: it only moves Walking→idle or Falling→Fallen; an idle mode is entered exactly when the check is due and `ChooseIdle` picks one, with its cycle count, window size and previous-mode record; every mode but Dragging and Falling ends on its foot line and Falling follows `FallStep`; only walking moves x or turns, with the edge clamps and the timed random turn; the send is throttled for fallen, walking and falling frames, forced on landing and on entering sleeping or stretching, and absent in an idle frame already on its foot line; a timer is scheduled exactly on landing |
| `IdlePolicy.IdleDraw` | render.js:297-310 | The draw partitions [0,1): standing below 0.2, sleeping in [0.2, 0.3), stretching in [0.3, 0.5), no idle mode from 0.5 |
| `IdlePolicy.Without` | render.js:317-319 | The filter keeps exactly the modes other than the excluded one |
| `IdlePolicy.Others` | render.js:317-319 | There are exactly two other idle modes, distinct, and neither is the previous one |
| `IdlePolicy.Resample` | render.js:317-321 | The resampled mode is never the previous one: the first of the other two for draws below 0.5, the second otherwise |
| `IdlePolicy.ResampleReachesEveryOther` | render.js:317-321 | Each of the two other modes is produced by some draw in [0,1) |
| `IdlePolicy.ChooseIdle` | render.js:296-322 | A mode is chosen exactly when the draw is below 0.5, it never equals the previous idle mode, and a first draw that differs from the previous mode is kept as is |
| `IdlePolicy.CycleCount` | render.js:330-356 | The cycle count for a draw in [0,1) lies in [2,4] for standing, [5,8] for sleeping and [2,4] for stretching |
| `IdlePolicy.CycleCountCovers` | render.js:330-356 | Every count in a mode's inclusive range is drawn by some value in [0,1) |
| `Motion.Round` | render.js:95 | `Math.round` gives the integer r with x − 0.5 < r ≤ x + 0.5 |
| `Motion.SendTimes` | render.js:92-98 | Unforced requests are forwarded only at request times, the first at least 24 ms after the last send and each at least 24 ms after the previous one; a first request 24 ms or more after the last send is forwarded |
| `Motion.SendTimesAppend` | render.js:92-98 | A request appended to a run is forwarded if and only if it comes 24 ms or more after that run's last send, and the earlier sends are unchanged |
| `Motion.Forwards` | render.js:94 | A forced update is always forwarded; an unforced one is held back only when less than 24 ms have passed since the last send |
| `Motion.SendRate` | render.js:92-98 | The k-th forwarded update comes at least 24·(k+1) ms after the last earlier send, so the rate is bounded whatever the frame rate |
| `Motion.FallStep` | render.js:412-424 | A falling tick lands exactly when y + v + 0.8 reaches the line, and then sits on it at rest; otherwise it stays strictly above it, the velocity has grown by 0.8 and the height has moved by the new velocity |
| `Motion.FallTicks` | render.js:412-424 | After at least one falling tick the height never exceeds the landing line, and a landing leaves it on the line at rest |
| `Motion.FallTicksAppend` | render.js:412-424 | n + 1 ticks are n ticks and one more step unless the first n landed, so per-frame calls compose to `FallTicks` |
| `Motion.FreeFall` | render.js:412-424 | Before contact, n ticks from (y, v) give velocity v + 0.8·n and height y + n·v + 0.8·(1 + … + n) |
| `Motion.LandsWithin` | render.js:412-424 | Falling ends: once n ticks of free fall would reach the line, the character has landed on it, at rest, within n ticks |
| `Scenarios.IdleCountdown` | render.js:181-235 | An idle mode entered with n cycles returns to walking on exactly the n-th idle animation end, keeping its mode until then |
| `Scenarios.DragBack` | render.js:243-252 | Press, one move elsewhere, then a move back to the press point: the press-time position is restored and both positions were sent |
| `Scenarios.ThrottledRun` | render.js:92-98 | Unforced updates at a sequence of times send exactly as many positions as `SendTimes` forwards, each the current rounded position, and leave the last forwarded time as the send time |
| `Scenarios.RightEdgeTurn` | render.js:486-499 | From x = 1840 walking right on a 1920-wide screen, one frame leaves x = 1840, direction left, on the ground line 995 |
| `Scenarios.DropAndFall` | render.js:412-450 | After a release at the host position, n frames put height, velocity and Fallen-ness exactly where `FallTicks` from zero velocity does |
| `Scenarios.StaleFallenTimer` | render.js:435-445 | A timer from an earlier landing ends a later Fallen period before that period's own two seconds are up |
| `Scenarios.SleepThenResample` | render.js:313-322 | After sleeping, an idle check whose draw says sleeping again enters standing or stretching instead |
| `PngHeader.HexDigit` | check_dims.js:13 | A nibble is spelled as one of 0-9 or a-f |
| `PngHeader.Hex` | check_dims.js:13 | The hex spelling has two characters per byte, high nibble first |
| `PngHeader.HexDigitInjective` | check_dims.js:13 | Distinct nibbles are spelled differently |
| `PngHeader.HexInjective` | check_dims.js:13 | Equal-length byte strings with the same hex spelling are equal |
| `PngHeader.SignatureCheck` | check_dims.js:13 | The string comparison with "89504e470d0a1a0a" accepts exactly the bytes 89 50 4E 47 0D 0A 1A 0A |
| `PngHeader.ReadUInt32BE` | check_dims.js:18-19 | A big-endian read of four bytes lies in [0, 2^32) |
| `PngHeader.BigEndian32` | check_dims.js:18-19 | The big-endian encoding of a 32-bit value has four bytes |
| `PngHeader.ReadOfBigEndian` | check_dims.js:18-19 | Reading back an encoded value gives the value |
| `PngHeader.BigEndianOfRead` | check_dims.js:18-19 | Encoding a value read at an offset gives back the four bytes there |
| `PngHeader.BigEndianInjective` | check_dims.js:18-19 | Distinct 32-bit values have distinct encodings |
| `PngHeader.FillBuffer` | check_dims.js:9-10 | The buffer has 24 bytes: the file's bytes where it has them, zero elsewhere |
| `PngHeader.DecodeHeader` | check_dims.js:13-20 | The result is non-null exactly when bytes 0-7 are the signature; then width and height are below 2^32 and are the big-endian values of bytes 16-19 and 20-23 |
| `PngHeader.GetPngDimensions` | check_dims.js:6-25 | A result exactly when the file has at least 8 bytes and starts with the signature, so files shorter than 8 bytes give null |
| `PngHeader.FirstBytesOnly` | check_dims.js:9-10 | Files that agree on their first 24 bytes give the same result |
| `PngHeader.EncodeHeader` | check_dims.js:13-20 | A header made of signature, 8 chunk bytes, width and height has 24 bytes |
| `PngHeader.DecodeEncodedHeader` | check_dims.js:13-20 | Decoding an encoded header followed by anything returns its dimensions, whatever the chunk length and type bytes are |

## Left out

- main.js: window creation, the always-on-top refresh, the tray menu and dialog, and
  the IPC handlers. These are host glue. The size and position requests are only
  recorded, never carried out.
- The DOM effects of render.js: `classList` changes other than the "walking" class,
  inline styles, CSS variables, the reflow, `stopPropagation`/`preventDefault`. They do
  not feed back into the state, except through the "walking" class, which is modelled.
- `requestAnimationFrame`: each call of `Tick` is one frame; how often frames come is
  up to the caller.
- `init` failure and console logging: the constructor models a successful start-up. A
  failed query, after which the loop never starts, is not modelled. Events that
  arrive before `init` finishes are not modelled either; index.html is not part of
  this model, so the initial "walking" class is a constructor parameter.
- The `await` inside the `mouseup` handler: `MouseUp` is atomic and takes the host's
  reply as parameters. Events that arrive between `isDragging = false` and the switch
  to Falling are not modelled.
- `Date.now` and `Math.random` are parameters. Probabilities are not modelled; the
  model states which draws give which outcomes.
- IEEE-754 doubles: arithmetic is over reals. In doubles 0.2 + 0.1 is slightly above
  0.3, and repeated `+= 0.8` is inexact. Draws on such boundaries, and the rounding
  drift of long falls, can differ from the model.
- The timing of `setTimeout`: `FallenTimerFires` may be called for the oldest
  scheduled timer once its due time has come. The order in which the environment
  interleaves it with frames is left to the caller.
- check_dims.js file I/O: `openSync`/`readSync`/`closeSync`, the `catch` path that
  returns null on an I/O error, and the top-level script that prints the result.
