/** The VideoPlayer component's control state: the play/pause intent and the
    effect that forwards it to the media element, the two 5-second skips, and
    the speed buttons that also set the element's playbackRate. */
module Player {
  import Speed

  /** What the play/pause effect tells the media element. */
  datatype Instruction = Play | Pause

  /** A user action on the controls. */
  datatype Command = PlayClick | SkipBackward | SkipForward | SpeedIncrease | SpeedDecrease

  /** The component state together with the element properties it writes.
      `issued` lists every play()/pause() call made so far, oldest first. */
  datatype PlayerState = PlayerState(
    isPlaying: bool,
    speedQuarters: int,
    playbackRateQuarters: int,
    currentTime: real,
    issued: seq<Instruction>)

  /** Seconds moved by the replay-5 and forward-5 buttons. */
  const SkipSeconds: real := 5.0

  /** The effect on `isPlaying`: play() when it is true, pause() otherwise. */
  function EffectFor(isPlaying: bool): (i: Instruction)
    ensures i == Play <==> isPlaying
  {
    if isPlaying then Play else Pause
  }

  /** State right after mount: paused, speed 1, the element's default rate 1,
      position 0, and the one pause() the effect issues on its first run. */
  function Initial(): (st: PlayerState)
    ensures Valid(st)
    ensures !st.isPlaying && Speed.Rate(st.speedQuarters) == 1.0 && st.issued == [Pause]
  {
    PlayerState(false, Speed.InitialQuarters, Speed.InitialQuarters, 0.0, [Pause])
  }

  /** The invariant: the speed is an allowed one and equals the element's
      rate, and the last instruction issued matches the intent. */
  predicate Valid(st: PlayerState) {
    Speed.InRange(st.speedQuarters)
    && st.playbackRateQuarters == st.speedQuarters
    && |st.issued| > 0
    && st.issued[|st.issued| - 1] == EffectFor(st.isPlaying)
  }

  /** One action, as the handler and any effect it triggers perform it. */
  function Step(st: PlayerState, cmd: Command): (r: PlayerState)
    ensures Valid(st) ==> Valid(r)
  {
    match cmd
    case PlayClick =>
      var playing := !st.isPlaying;
      st.(isPlaying := playing, issued := st.issued + [EffectFor(playing)])
    case SkipBackward => st.(currentTime := st.currentTime - SkipSeconds)
    case SkipForward => st.(currentTime := st.currentTime + SkipSeconds)
    case SpeedIncrease =>
      var q := Speed.Increased(st.speedQuarters);
      if q != st.speedQuarters then st.(speedQuarters := q, playbackRateQuarters := q) else st
    case SpeedDecrease =>
      var q := Speed.Decreased(st.speedQuarters);
      if q != st.speedQuarters then st.(speedQuarters := q, playbackRateQuarters := q) else st
  }

  /** A sequence of actions, first to last. */
  function Run(st: PlayerState, cmds: seq<Command>): PlayerState
    decreases |cmds|
  {
    if cmds == [] then st else Run(Step(st, cmds[0]), cmds[1..])
  }

  /** Whatever the user presses, the state stays valid: the speed remains a
      multiple of 0.25 in [0.25, 2], the element's rate follows it, and the
      last play()/pause() matches the intent; earlier calls stay recorded. */
  lemma {:induction false} RunPreservesValid(st: PlayerState, cmds: seq<Command>)
    requires Valid(st)
    ensures Valid(Run(st, cmds))
    ensures st.issued <= Run(st, cmds).issued
    decreases |cmds|
  {
    if cmds != [] {
      RunPreservesValid(Step(st, cmds[0]), cmds[1..]);
    }
  }

  /** Every state reachable from mount is valid. */
  lemma Reachable(cmds: seq<Command>)
    ensures Valid(Run(Initial(), cmds))
    ensures 0.25 <= Speed.Rate(Run(Initial(), cmds).speedQuarters) <= 2.0
  {
    RunPreservesValid(Initial(), cmds);
  }

  /** A click flips the intent and issues play() exactly when the new intent
      is to play; nothing else changes. */
  lemma PlayClickEffect(st: PlayerState)
    ensures var r := Step(st, PlayClick);
      r.isPlaying == !st.isPlaying
      && r.issued == st.issued + [EffectFor(r.isPlaying)]
      && r.(isPlaying := st.isPlaying, issued := st.issued) == st
  {
  }

  /** Two clicks restore the intent, after issuing play then pause, or pause
      then play. */
  lemma PlayClickTwice(st: PlayerState)
    ensures var r := Run(st, [PlayClick, PlayClick]);
      r.isPlaying == st.isPlaying
      && r.issued == st.issued + (if st.isPlaying then [Pause, Play] else [Play, Pause])
      && r.(issued := st.issued) == st
  {
    var once := Step(st, PlayClick);
    assert Run(st, [PlayClick, PlayClick]) == Run(once, [PlayClick]);
    assert [PlayClick, PlayClick][1..] == [PlayClick];
  }

  /** Skips move the position by exactly 5 seconds, without clamping, and
      touch nothing else; a backward skip undoes a forward one. */
  lemma SkipShifts(st: PlayerState)
    ensures Step(st, SkipBackward).currentTime == st.currentTime - 5.0
    ensures Step(st, SkipForward).currentTime == st.currentTime + 5.0
    ensures Step(st, SkipBackward).(currentTime := st.currentTime) == st
    ensures Step(st, SkipForward).(currentTime := st.currentTime) == st
    ensures Step(Step(st, SkipForward), SkipBackward) == st
    ensures Step(Step(st, SkipBackward), SkipForward) == st
  {
  }

  /** Speed steps: an increase applies exactly below 2x, a decrease exactly
      above 0.25x; an applied one moves speed and rate together by 0.25 and
      changes nothing else, and an applied step is undone by the opposite one. */
  lemma SpeedSteps(st: PlayerState)
    requires Valid(st)
    ensures var r := Step(st, SpeedIncrease);
      (r != st <==> st.speedQuarters < Speed.MaxQuarters)
      && (r != st ==> Speed.Rate(r.speedQuarters) == Speed.Rate(st.speedQuarters) + 0.25
                      && r.playbackRateQuarters == r.speedQuarters
                      && r.(speedQuarters := st.speedQuarters, playbackRateQuarters := st.playbackRateQuarters) == st
                      && Step(r, SpeedDecrease) == st)
    ensures var r := Step(st, SpeedDecrease);
      (r != st <==> Speed.MinQuarters < st.speedQuarters)
      && (r != st ==> Speed.Rate(r.speedQuarters) == Speed.Rate(st.speedQuarters) - 0.25
                      && r.playbackRateQuarters == r.speedQuarters
                      && r.(speedQuarters := st.speedQuarters, playbackRateQuarters := st.playbackRateQuarters) == st
                      && Step(r, SpeedIncrease) == st)
  {
    Speed.StepsUndo(st.speedQuarters);
  }

  /** The mounted component. Fields are the React state (`isPlaying`,
      `speed`) and the media element's properties it writes (`playbackRate`,
      `currentTime`), with the play()/pause() calls recorded in `issued`. */
  class VideoPlayer {
    var isPlaying: bool
    var speedQuarters: int
    var playbackRateQuarters: int
    var currentTime: real
    var issued: seq<Instruction>

    function State(): PlayerState
      reads this
    {
      PlayerState(isPlaying, speedQuarters, playbackRateQuarters, currentTime, issued)
    }

    predicate Inv()
      reads this
    {
      Valid(State())
    }

    /** Mount: initial state values, then the effect's first run. */
    constructor ()
      ensures State() == Initial() && Inv()
    {
      isPlaying := false;
      speedQuarters := Speed.InitialQuarters;
      playbackRateQuarters := Speed.InitialQuarters;
      currentTime := 0.0;
      issued := [];
      new;
      PlayEffect();
    }

    /** The effect that runs whenever `isPlaying` changes. */
    method PlayEffect()
      modifies this`issued
      ensures issued == old(issued) + [EffectFor(isPlaying)]
    {
      if isPlaying {
        issued := issued + [Play];
      } else {
        issued := issued + [Pause];
      }
    }

    /** handlePlayClick, followed by the effect it triggers. */
    method HandlePlayClick()
      requires Inv()
      modifies this
      ensures State() == Step(old(State()), PlayClick) && Inv()
      ensures isPlaying == !old(isPlaying)
      ensures issued == old(issued) + [EffectFor(isPlaying)]
    {
      isPlaying := !isPlaying;
      PlayEffect();
    }

    /** handleBackward: the element's position minus 5 seconds. */
    method HandleBackward()
      requires Inv()
      modifies this`currentTime
      ensures State() == Step(old(State()), SkipBackward) && Inv()
      ensures currentTime == old(currentTime) - SkipSeconds
    {
      currentTime := currentTime - SkipSeconds;
    }

    /** handleForward: the element's position plus 5 seconds. */
    method HandleForward()
      requires Inv()
      modifies this`currentTime
      ensures State() == Step(old(State()), SkipForward) && Inv()
      ensures currentTime == old(currentTime) + SkipSeconds
    {
      currentTime := currentTime + SkipSeconds;
    }

    /** handleSpeedIncrease: if one quarter more is at most 2, set both the
      speed and the element's playbackRate to it. */
    method HandleSpeedIncrease()
      requires Inv()
      modifies this`speedQuarters, this`playbackRateQuarters
      ensures State() == Step(old(State()), SpeedIncrease) && Inv()
      ensures speedQuarters == Speed.Increased(old(speedQuarters))
    {
      var newSpeed := speedQuarters + 1;
      if newSpeed <= Speed.MaxQuarters {
        speedQuarters := newSpeed;
        playbackRateQuarters := newSpeed;
      }
    }

    /** handleSpeedDecrease: if one quarter less is at least 0.25, set both
      the speed and the element's playbackRate to it. */
    method HandleSpeedDecrease()
      requires Inv()
      modifies this`speedQuarters, this`playbackRateQuarters
      ensures State() == Step(old(State()), SpeedDecrease) && Inv()
      ensures speedQuarters == Speed.Decreased(old(speedQuarters))
    {
      var newSpeed := speedQuarters - 1;
      if newSpeed >= Speed.MinQuarters {
        speedQuarters := newSpeed;
        playbackRateQuarters := newSpeed;
      }
    }
  }
}
