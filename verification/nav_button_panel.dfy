/**
 * The navigation button panel of the viewer: six buttons that move the
 * index of the displayed water-level snapshot within `[0, maxIndex]`.
 * The handlers guard only on equality with a boundary and never clamp, so
 * single steps and jumps stay in range while the fast (12-record) steps can
 * leave it, after which the guards never fire again.
 */
module NavButtonPanel {

  /** Records skipped by the fast-backward and fast-forward buttons. */
  const FastStep: int := 12

  /** Index after `decrementWaterlevelKey(step)`: unchanged at 0, otherwise lowered by `step` without clamping. */
  function Decremented(index: int, step: int): int
  {
    if index == 0 then index else index - step
  }

  /** Index after `incrementWaterlevelKey(step)`: unchanged at `maxIndex`, otherwise raised by `step` without clamping. */
  function Incremented(index: int, step: int, maxIndex: int): int
  {
    if index == maxIndex then index else index + step
  }

  /** Index after `setAbsoluteIndex(target)`: a target outside `[0, maxIndex]` is ignored. */
  function Jumped(index: int, target: int, maxIndex: int): int
  {
    if target < 0 || target > maxIndex then index else target
  }

  predicate InRange(index: int, maxIndex: int)
  {
    0 <= index <= maxIndex
  }

  /** The six buttons, left to right. */
  datatype Button = SkipToFirst | FastBackward | PreviousRecord | NextRecord | FastForward | SkipToLast

  /** The `disabled` expression of the "skip to first record" button. */
  predicate FirstDisabled(index: int)
  {
    index == 0
  }

  /** The `disabled` expression of the "skip to last record" button. */
  predicate LastDisabled(index: int, maxIndex: int)
  {
    index == maxIndex
  }

  /** The other four buttons are never disabled. */
  predicate Disabled(b: Button, index: int, maxIndex: int)
  {
    match b
    case SkipToFirst => FirstDisabled(index)
    case SkipToLast => LastDisabled(index, maxIndex)
    case _ => false
  }

  /** What each button's `onClick` does to the index. */
  function Clicked(b: Button, index: int, maxIndex: int): int
  {
    match b
    case SkipToFirst => Jumped(index, 0, maxIndex)
    case FastBackward => Decremented(index, FastStep)
    case PreviousRecord => Decremented(index, 1)
    case NextRecord => Incremented(index, 1, maxIndex)
    case FastForward => Incremented(index, FastStep, maxIndex)
    case SkipToLast => Jumped(index, maxIndex, maxIndex)
  }

  /** The index after clicking `b` `n` times in a row. */
  function ClickedTimes(b: Button, index: int, maxIndex: int, n: nat): int
    decreases n
  {
    if n == 0 then index else ClickedTimes(b, Clicked(b, index, maxIndex), maxIndex, n - 1)
  }

  /**
   * The panel's view of the displayed index.  The index itself is state of
   * the enclosing component, reached through `setWaterlevelIndex`; here it
   * is a field, and `maxIndex` the value the panel was rendered with.
   */
  class Panel {
    var index: int
    const maxIndex: int

    constructor (index: int, maxIndex: int)
      ensures this.index == index && this.maxIndex == maxIndex
    {
      this.index := index;
      this.maxIndex := maxIndex;
    }

    method DecrementWaterlevelKey(step: int)
      modifies this
      ensures old(index) == 0 ==> index == old(index)
      ensures old(index) != 0 ==> index == old(index) - step
      ensures index == Decremented(old(index), step)
    {
      if index == 0 {
        return;
      }
      index := index - step;
    }

    method IncrementWaterlevelKey(step: int)
      modifies this
      ensures old(index) == maxIndex ==> index == old(index)
      ensures old(index) != maxIndex ==> index == old(index) + step
      ensures index == Incremented(old(index), step, maxIndex)
    {
      if index == maxIndex {
        return;
      }
      index := index + step;
    }

    method SetAbsoluteIndex(target: int)
      modifies this
      ensures target < 0 || target > maxIndex ==> index == old(index)
      ensures 0 <= target <= maxIndex ==> index == target
      ensures index == Jumped(old(index), target, maxIndex)
    {
      if target < 0 || target > maxIndex {
        return;
      }
      index := target;
    }

    /** A click on an enabled button runs that button's handler. */
    method Click(b: Button)
      requires !Disabled(b, index, maxIndex)
      modifies this
      ensures index == Clicked(b, old(index), maxIndex)
      ensures b != FastBackward && b != FastForward && InRange(old(index), maxIndex) ==> InRange(index, maxIndex)
    {
      if b != FastBackward && b != FastForward && InRange(index, maxIndex) {
        SingleStepsKeepRange(b, index, maxIndex);
      }
      match b
      case SkipToFirst => SetAbsoluteIndex(0);
      case FastBackward => DecrementWaterlevelKey(FastStep);
      case PreviousRecord => DecrementWaterlevelKey(1);
      case NextRecord => IncrementWaterlevelKey(1);
      case FastForward => IncrementWaterlevelKey(FastStep);
      case SkipToLast => SetAbsoluteIndex(maxIndex);
    }
  }

  /** Decrement is a no-op exactly at index 0; elsewhere it subtracts the whole step. */
  lemma DecrementSemantics(index: int, step: int)
    requires step != 0
    ensures Decremented(index, step) == index <==> index == 0
    ensures index != 0 ==> Decremented(index, step) == index - step
  {
  }

  /** Increment is a no-op exactly at `maxIndex`; elsewhere it adds the whole step. */
  lemma IncrementSemantics(index: int, step: int, maxIndex: int)
    requires step != 0
    ensures Incremented(index, step, maxIndex) == index <==> index == maxIndex
    ensures index != maxIndex ==> Incremented(index, step, maxIndex) == index + step
  {
  }

  /** A jump outside `[0, maxIndex]` changes nothing, one inside lands exactly, and jumping twice is jumping once. */
  lemma JumpSemantics(index: int, target: int, maxIndex: int)
    ensures !InRange(target, maxIndex) ==> Jumped(index, target, maxIndex) == index
    ensures InRange(target, maxIndex) ==> Jumped(index, target, maxIndex) == target
    ensures Jumped(Jumped(index, target, maxIndex), target, maxIndex) == Jumped(index, target, maxIndex)
  {
  }

  /** Every button except the two fast ones keeps the index in `[0, maxIndex]`. */
  lemma SingleStepsKeepRange(b: Button, index: int, maxIndex: int)
    requires b != FastBackward && b != FastForward
    requires InRange(index, maxIndex)
    ensures InRange(Clicked(b, index, maxIndex), maxIndex)
  {
  }

  /**
   * The fast buttons do not keep the range: from index 5 fast-backward gives
   * -7, and from index 10 of 20 fast-forward gives 22.
   */
  lemma FastStepsLeaveRange()
    ensures InRange(5, 20) && Clicked(FastBackward, 5, 20) == -7 && !InRange(-7, 20)
    ensures InRange(10, 20) && Clicked(FastForward, 10, 20) == 22 && !InRange(22, 20)
  {
  }

  /**
   * Once past the last record, the equality guard of increment never fires
   * again: `n` more clicks of "next" or "fast forward" add `n` steps.
   */
  lemma {:induction false} PastEndRunsAway(b: Button, index: int, maxIndex: int, n: nat)
    requires b == NextRecord || b == FastForward
    requires index > maxIndex
    ensures ClickedTimes(b, index, maxIndex, n) == index + n * (if b == NextRecord then 1 else FastStep)
    decreases n
  {
    if n > 0 {
      var step := if b == NextRecord then 1 else FastStep;
      PastEndRunsAway(b, index + step, maxIndex, n - 1);
      assert index + step + (n - 1) * step == index + n * step;
    }
  }

  /**
   * Likewise below the first record: `n` more clicks of "previous" or "fast
   * backward" from a negative index subtract `n` steps.
   */
  lemma {:induction false} BeforeStartRunsAway(b: Button, index: int, maxIndex: int, n: nat)
    requires b == PreviousRecord || b == FastBackward
    requires index < 0
    ensures ClickedTimes(b, index, maxIndex, n) == index - n * (if b == PreviousRecord then 1 else FastStep)
    decreases n
  {
    if n > 0 {
      var step := if b == PreviousRecord then 1 else FastStep;
      BeforeStartRunsAway(b, index - step, maxIndex, n - 1);
      assert index - step - (n - 1) * step == index - n * step;
    }
  }

  /**
   * With a non-empty series, "first" is disabled exactly when clicking it
   * would leave the index unchanged, and so is "last".
   */
  lemma DisabledExactlyWhenNoOp(index: int, maxIndex: int)
    requires maxIndex >= 0
    ensures FirstDisabled(index) <==> Clicked(SkipToFirst, index, maxIndex) == index
    ensures LastDisabled(index, maxIndex) <==> Clicked(SkipToLast, index, maxIndex) == index
  {
  }
}
