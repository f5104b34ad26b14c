/** Playback speed. The component keeps `speed` as a number that starts at 1
    and moves by 0.25, staying within [0.25, 2]. Every such value is a whole
    number of quarters and is exact in binary floating point, so the model
    counts quarters: 1..8, starting at 4. */
module Speed {

  const MinQuarters: int := 1
  const MaxQuarters: int := 8
  const InitialQuarters: int := 4

  /** A speed the controls allow: 0.25, 0.5, ..., 2. */
  predicate InRange(q: int) {
    MinQuarters <= q <= MaxQuarters
  }

  /** The speed a quarter count stands for, as the component shows it. */
  function Rate(q: int): real {
    q as real / 4.0
  }

  /** handleSpeedIncrease on the speed value: one quarter more when that is
      at most 2, otherwise unchanged. */
  function Increased(q: int): (r: int)
    ensures InRange(q) ==> InRange(r)
    ensures q <= r <= q + 1
  {
    if q + 1 <= MaxQuarters then q + 1 else q
  }

  /** handleSpeedDecrease on the speed value: one quarter less when that is
      at least 0.25, otherwise unchanged. */
  function Decreased(q: int): (r: int)
    ensures InRange(q) ==> InRange(r)
    ensures q - 1 <= r <= q
  {
    if q - 1 >= MinQuarters then q - 1 else q
  }

  /** The source's own arithmetic on the real-valued speed: never above 2
      once at most 2, and a step of 0.25 exactly when the speed is at most 1.75. */
  function IncreasedSpeed(speed: real): (r: real)
    ensures speed <= 2.0 ==> r <= 2.0
    ensures r == speed || r == speed + 0.25
    ensures r == speed + 0.25 <==> speed <= 1.75
  {
    var newSpeed := speed + 0.25;
    if newSpeed <= 2.0 then newSpeed else speed
  }

  /** Never below 0.25 once at least 0.25, and a step of 0.25 exactly when
      the speed is at least 0.5. */
  function DecreasedSpeed(speed: real): (r: real)
    ensures 0.25 <= speed ==> 0.25 <= r
    ensures r == speed || r == speed - 0.25
    ensures r == speed - 0.25 <==> 0.5 <= speed
  {
    var newSpeed := speed - 0.25;
    if newSpeed >= 0.25 then newSpeed else speed
  }

  /** Counting quarters agrees with the source's arithmetic on speeds. */
  lemma IncreasedAgrees(q: int)
    ensures Rate(Increased(q)) == IncreasedSpeed(Rate(q))
  {
  }

  lemma DecreasedAgrees(q: int)
    ensures Rate(Decreased(q)) == DecreasedSpeed(Rate(q))
  {
  }

  /** An increase is applied exactly when the speed is below 2, and then adds
      one quarter; otherwise nothing changes. */
  lemma IncreaseApplied(q: int)
    requires InRange(q)
    ensures Increased(q) != q <==> q < MaxQuarters
    ensures Increased(q) != q ==> Rate(Increased(q)) == Rate(q) + 0.25
  {
  }

  /** A decrease is applied exactly when the speed is above 0.25, and then
      removes one quarter; otherwise nothing changes. */
  lemma DecreaseApplied(q: int)
    requires InRange(q)
    ensures Decreased(q) != q <==> MinQuarters < q
    ensures Decreased(q) != q ==> Rate(Decreased(q)) == Rate(q) - 0.25
  {
  }

  /** An applied increase is undone by a decrease, and the other way round. */
  lemma StepsUndo(q: int)
    requires InRange(q)
    ensures Increased(q) != q ==> Decreased(Increased(q)) == q
    ensures Decreased(q) != q ==> Increased(Decreased(q)) == q
  {
  }

  /** Pressing "+" k times from an allowed speed reaches min(q + k, 8). */
  function IncreasedTimes(q: int, k: nat): int {
    if k == 0 then q else Increased(IncreasedTimes(q, k - 1))
  }

  lemma {:induction false} IncreasedTimesSaturates(q: int, k: nat)
    requires InRange(q)
    ensures IncreasedTimes(q, k) == if q + k <= MaxQuarters then q + k else MaxQuarters
  {
    if k > 0 {
      IncreasedTimesSaturates(q, k - 1);
    }
  }

  /** From 1x, three presses give 1.75x, a fourth gives 2x, a fifth is refused. */
  lemma IncreaseScenario()
    ensures Rate(IncreasedTimes(InitialQuarters, 3)) == 1.75
    ensures Rate(IncreasedTimes(InitialQuarters, 4)) == 2.0
    ensures Rate(IncreasedTimes(InitialQuarters, 5)) == 2.0
  {
    IncreasedTimesSaturates(InitialQuarters, 3);
    IncreasedTimesSaturates(InitialQuarters, 4);
    IncreasedTimesSaturates(InitialQuarters, 5);
  }
}
