# Video player controls, modelled in Dafny

This project models the control logic of the `VideoPlayer` React component: a
custom control bar around a native `<video>` element. It covers four pieces:

- `formatTime`. It shows a count of seconds as `HH:MM:SS` under the progress bar.
- The play/pause intent `isPlaying` and the effect that calls `play()` or
  `pause()` on the element whenever the intent changes.
- The replay-5 and forward-5 buttons, which move the element's `currentTime`.
- The speed buttons. They step the `speed` state by 0.25 within [0.25, 2] and
  copy the new value into the element's `playbackRate`.

Modules:

- `Decimal` (`decimal.dfy`) models the two string operations `formatTime`
  uses. The first is `Number.prototype.toString` on an integer (`NatToString`,
  `IntToString`). The second is `String.prototype.padStart` (`PadStart`). The
  module also has `Value`, which reads digits back.
- `TimeFormat` (`time_format.dfy`) holds `Split`, the floor arithmetic of
  `formatTime`, and `FormatTime`, the template string. It also holds a parser
  `ParseClock`, which reads `H:MM:SS` back into its three fields. The round-trip
  lemmas are stated against that parser.
- `Speed` (`speed.dfy`) counts the speed in quarters: 1..8, starting at 4.
  Each allowed speed is a multiple of 0.25 and is exact in binary floating
  point, so counting quarters loses nothing. `IncreasedSpeed` and
  `DecreasedSpeed` copy the source's arithmetic on real numbers. Two lemmas
  prove that the quarter model agrees with them.
- `Player` (`player.dfy`) models the component's state as a value,
  `PlayerState`. `Step` is the effect of one user action and `Run` applies a
  sequence of actions. The class `VideoPlayer` is the mounted component. Its
  fields are the React state and the element properties that the handlers
  write. Its constructor and handler methods are proved to move its `State()`
  exactly as `Step` does.

Two modelling choices:

- The play/pause effect is modelled as a log, `issued`, of the `play()` and
  `pause()` calls made so far. The effect also runs once on mount, while
  `isPlaying` is still false. So the constructor already records one
  `Pause`.
- The element's `playbackRate` starts at the media element default, 1. This is
  the same value as the initial `speed`.

## Model

| member | source | states |
|---|---|---|
| Decimal.NatToString | src/VideoPlayer.js:113-115 | toString of a non-negative integer is all digits, has exactly NumDigits(n) characters and has no leading zero |
| Decimal.IntToString | src/VideoPlayer.js:113-115 | toString of a non-negative integer is a digit string that denotes it; of a negative one, "-" followed by a digit string that denotes its magnitude |
| Decimal.ValueOfNatToString | src/VideoPlayer.js:113-115 | reading the printed digits of n gives back n |
| Decimal.LeadingZeros | src/VideoPlayer.js:113-115 | zeros put in front of a digit string by padding do not change the number it denotes |
| Decimal.PadStart | src/VideoPlayer.js:113-115 | padStart returns a string of length max(width, length), ending in the original string and filled with the pad character in front; it never truncates |
| TimeFormat.Split | src/VideoPlayer.js:110-112 | for every input, hours*3600 + minutes*60 + seconds equals floor(time), with 0 <= minutes < 60 and 0 <= seconds < 60; hours are non-negative for a non-negative time |
| TimeFormat.SplitIsDivMod | src/VideoPlayer.js:110-112 | the three fields are exactly floor(time) div 3600, (floor(time) mod 3600) div 60 and floor(time) mod 60 |
| TimeFormat.Field | src/VideoPlayer.js:113-115 | one field, `x.toString().padStart(2, '0')`, has at least two characters; NonNegativeField and NegativeField state what it denotes |
| TimeFormat.FormatClock | src/VideoPlayer.js:113-115 | the template literal joins the three fields with colons and has at least 8 characters; FormatClockRoundTrip and FormatClockShape state its meaning and layout |
| TimeFormat.FormatTime | src/VideoPlayer.js:109-116 | formatTime has at least 8 characters; FormatTimeRoundTrip states that it denotes floor(time), FormatTimeShape and FormatTimeUnderHundredHours its layout |
| TimeFormat.NonNegativeField | src/VideoPlayer.js:113-115 | a non-negative field has width max(2, digits), is all digits and reads back as the number, so padding never drops a digit |
| TimeFormat.NegativeField | src/VideoPlayer.js:113-115 | a negative hours field is "-" and digits, which padding leaves unchanged, and it parses back to the number |
| TimeFormat.FormatClockRoundTrip | src/VideoPlayer.js:113-115 | the template H:MM:SS parses back to the exact clock it was built from, whatever the hours |
| TimeFormat.FormatTimeRoundTrip | src/VideoPlayer.js:109-116 | formatTime(time) parses back to the fields of the split, so the text denotes floor(time) seconds |
| TimeFormat.FormatClockShape | src/VideoPlayer.js:113-115 | for non-negative hours the text is an all-digit hours field of width max(2, digits(hours)), then ':', two digits, ':', two digits |
| TimeFormat.FormatTimeShape | src/VideoPlayer.js:109-116 | for time >= 0, formatTime has length 6 + max(2, digits(hours)), with colons and digit fields in that layout |
| TimeFormat.FormatTimeUnderHundredHours | src/VideoPlayer.js:109-116 | for 0 <= time < 360000 the output is exactly HH:MM:SS: two digits, ':', two digits, ':', two digits |
| Speed.Increased | src/VideoPlayer.js:91-97 | an increase keeps the speed within [0.25, 2] and moves it by at most one quarter upward |
| Speed.Decreased | src/VideoPlayer.js:99-105 | a decrease keeps the speed within [0.25, 2] and moves it by at most one quarter downward |
| Speed.IncreasedSpeed | src/VideoPlayer.js:92-93 | the source's rule on the real speed: the result is the speed or the speed plus 0.25, plus 0.25 exactly when the speed is at most 1.75, and never above 2 from a speed at most 2 |
| Speed.DecreasedSpeed | src/VideoPlayer.js:100-101 | the source's rule on the real speed: the result is the speed or the speed minus 0.25, minus 0.25 exactly when the speed is at least 0.5, and never below 0.25 from a speed at least 0.25 |
| Speed.IncreasedAgrees | src/VideoPlayer.js:91-97 | counting quarters gives the same speed as the source's `speed + 0.25 <= 2` rule on real numbers, for every count |
| Speed.DecreasedAgrees | src/VideoPlayer.js:99-105 | counting quarters gives the same speed as the source's `speed - 0.25 >= 0.25` rule on real numbers, for every count |
| Speed.IncreaseApplied | src/VideoPlayer.js:91-97 | an increase applies exactly when the speed is below 2, and then adds 0.25 |
| Speed.DecreaseApplied | src/VideoPlayer.js:99-105 | a decrease applies exactly when the speed is above 0.25, and then subtracts 0.25 |
| Speed.StepsUndo | src/VideoPlayer.js:91-105 | an applied increase followed by a decrease restores the speed, and so does an applied decrease followed by an increase |
| Speed.IncreasedTimesSaturates | src/VideoPlayer.js:91-97 | k presses of "+" from an allowed speed reach min(speed + 0.25k, 2) |
| Speed.IncreaseScenario | src/VideoPlayer.js:91-97 | from 1x, three increases give 1.75x, a fourth gives 2x, and a fifth is refused |
| Player.EffectFor | src/VideoPlayer.js:19-25 | the effect issues play() exactly when isPlaying is true and pause() otherwise |
| Player.Initial | src/VideoPlayer.js:9-25 | the state after mount is paused at speed 1 with the single pause() of the effect's first run, and satisfies the invariant |
| Player.Step | src/VideoPlayer.js:60-105 | every handler preserves the invariant: the speed stays in [0.25, 2], playbackRate equals speed, and the last play/pause call matches isPlaying |
| Player.RunPreservesValid | src/VideoPlayer.js:60-105 | any sequence of actions from a valid state keeps the invariant and only appends to the play/pause history |
| Player.Reachable | src/VideoPlayer.js:14-105 | every state reachable from mount is valid, so the speed is a multiple of 0.25 in [0.25, 2] |
| Player.PlayClickEffect | src/VideoPlayer.js:60-62 | a click negates isPlaying, issues play() exactly when the new value is true, and changes nothing else |
| Player.PlayClickTwice | src/VideoPlayer.js:19-62 | two clicks restore isPlaying, after issuing play then pause (or pause then play), and change nothing else |
| Player.SkipShifts | src/VideoPlayer.js:83-89 | the skips shift currentTime by exactly -5 and +5 with no clamp, change nothing else, and undo each other |
| Player.SpeedSteps | src/VideoPlayer.js:91-105 | on the whole state, an applied speed step moves speed and playbackRate together by 0.25 and leaves the rest unchanged; a refused step changes nothing; an applied step is undone by the opposite one |
| Player.VideoPlayer.constructor | src/VideoPlayer.js:9-25 | mounting gives the initial state, including the pause() call from the effect's first run |
| Player.VideoPlayer.PlayEffect | src/VideoPlayer.js:19-25 | the effect appends play() or pause() to the element's call history according to isPlaying |
| Player.VideoPlayer.HandlePlayClick | src/VideoPlayer.js:60-62 | negates isPlaying, then the effect issues the matching call; the new state is Step(old, PlayClick) and the invariant holds |
| Player.VideoPlayer.HandleBackward | src/VideoPlayer.js:83-85 | currentTime decreases by 5; the new state is Step(old, SkipBackward) |
| Player.VideoPlayer.HandleForward | src/VideoPlayer.js:87-89 | currentTime increases by 5; the new state is Step(old, SkipForward) |
| Player.VideoPlayer.HandleSpeedIncrease | src/VideoPlayer.js:91-97 | speed and playbackRate become Increased(speed); the new state is Step(old, SpeedIncrease) |
| Player.VideoPlayer.HandleSpeedDecrease | src/VideoPlayer.js:99-105 | speed and playbackRate become Decreased(speed); the new state is Step(old, SpeedDecrease) |

## Left out

- Rendering, icons and class names (src/VideoPlayer.js:118-158) are presentation only.
- The time-update, duration-change and progress listeners, with their attach and detach (src/VideoPlayer.js:27-58), are browser event plumbing.
- `handleTimeUpdate` and the loaded-percentage computation (src/VideoPlayer.js:64-73) are left out. They read native media properties (`buffered.end(0)`, `duration`) and divide by `duration` without a guard.
- The progress-bar gradient (src/VideoPlayer.js:41-42) is a direct DOM mutation.
- Seeking by clicking the progress bar (src/VideoPlayer.js:75-81) is left out. It depends on pixel geometry from `getBoundingClientRect`.
- The native behaviour of `play()`, `pause()` and the `currentTime` setter is not modelled. This includes any clamping the browser applies to the position. The model records only the value written or the call issued.
- The model follows the code for the skips, which apply no clamp. A clamp of the position to [0, duration] is a possible redesign; it is not current behaviour.
- TimeFormat.FormatTime: computes on exact real numbers. JavaScript's floating point is not modelled: NaN, Infinity, rounding of `time / 3600`, and the exponent notation `toString` uses from 1e21 up. The only callers pass the element's `currentTime`, which is a finite non-negative number.
- Player.SkipShifts: the position is an exact real number, so a forward skip followed by a backward one restores it exactly only in the model; the program's `currentTime += 5` and `-= 5` use double-precision arithmetic, which can round (0.1 + 5 - 5 is not 0.1 in doubles).
- Player.Step: the same exact-real position; the 5-second shifts carry no floating-point rounding.
- Player.VideoPlayer.HandlePlayClick: handler and effect form one step. React's batching of several clicks before a re-render is not modelled.
- src/App.js only mounts the component with a fixed URL and has no logic.
