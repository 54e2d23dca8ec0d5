/**
 * The arithmetic of the playback controls (components/Controls.tsx): the
 * targets of the rewind and fast-forward buttons, the index a click on the
 * progress bar asks for, the bounds of the speed slider, and the progress
 * shown (App.tsx passes it in).
 */
module Controls {
  import opened JsMath

  /** How many words the rewind and fast-forward buttons jump. */
  const SeekStep := 20

  /** The speed slider's range and step, in words per minute. */
  const MinWpm := 100
  const MaxWpm := 1200
  const WpmStep := 10

  /** A value the speed slider can produce. */
  predicate IsSliderWpm(wpm: int) {
    MinWpm <= wpm <= MaxWpm && (wpm - MinWpm) % WpmStep == 0
  }

  /** The rewind button's target: twenty words back, but not before the
      first word. */
  function RewindTarget(currentIndex: int): (target: int)
    ensures 0 <= target
    ensures 0 <= currentIndex ==> target <= currentIndex
    ensures currentIndex - target <= SeekStep
    ensures SeekStep <= currentIndex ==> target == currentIndex - SeekStep
    ensures currentIndex < SeekStep ==> target == 0
  {
    Max(0, currentIndex - SeekStep)
  }

  /** The fast-forward button's target: twenty words on, but not past the
      last word. */
  function ForwardTarget(currentIndex: int, totalWords: int): (target: int)
    ensures target <= totalWords - 1
    ensures target <= currentIndex + SeekStep
    ensures currentIndex + SeekStep <= totalWords - 1 ==> target == currentIndex + SeekStep
    ensures currentIndex < totalWords ==> currentIndex <= target
    ensures totalWords - 1 < currentIndex + SeekStep ==> target == totalWords - 1
  {
    Min(totalWords - 1, currentIndex + SeekStep)
  }

  /** The index a click on the progress bar asks for, given the fraction
      of the bar's width to the left of the click: the floor of the word
      count times that fraction, which lies in [0, totalWords] for a click
      inside the bar. */
  function ProgressClickTarget(totalWords: nat, pct: real): (target: int)
    ensures target as real <= totalWords as real * pct < target as real + 1.0
    ensures 0.0 <= pct <= 1.0 ==> 0 <= target <= totalWords
    ensures 0.0 <= pct < 1.0 && 0 < totalWords ==> target < totalWords
  {
    (totalWords as real * pct).Floor
  }

  /** The progress shown, in percent: the share of the words before the
      current one. It lies in [0, 100) whenever the index is a valid word
      position, and is 0 at the first word. */
  function Progress(currentIndex: int, totalWords: int): (percent: real)
    requires totalWords != 0
    ensures 0 <= currentIndex < totalWords ==> 0.0 <= percent < 100.0
    ensures currentIndex == 0 ==> percent == 0.0
  {
    (currentIndex as real / totalWords as real) * 100.0
  }
}
