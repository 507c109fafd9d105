/** The frame gate both game loops share: `requestAnimationFrame` timestamps, a delta of 0 on
    the first frame (no previous timestamp), and no update while the celebration is showing. */
module FrameClock {

  /** `lastTime ? currentTime - lastTime : 0`; a stored timestamp of 0 means "no previous frame". */
  function DeltaTime(lastTime: real, currentTime: real): real {
    if lastTime != 0.0 then currentTime - lastTime else 0.0
  }

  /** Whether the frame callback runs the update half of the frame. */
  predicate FrameRuns(isCelebration: bool, lastTime: real, currentTime: real) {
    !isCelebration && DeltaTime(lastTime, currentTime) > 0.0
  }

  /** The first frame after a (re)start never updates, and neither does a frame during the
      celebration or one whose timestamp does not move forward. */
  lemma FrameGate(isCelebration: bool, lastTime: real, currentTime: real)
    ensures lastTime == 0.0 ==> !FrameRuns(isCelebration, lastTime, currentTime)
    ensures isCelebration ==> !FrameRuns(isCelebration, lastTime, currentTime)
    ensures FrameRuns(isCelebration, lastTime, currentTime) <==>
              !isCelebration && lastTime != 0.0 && currentTime > lastTime
  {
  }
}
