/** The first-visit walkthrough (components/TutorialModal.tsx): a step counter moved by
    "next" and "previous" buttons, where "next" on the last step closes the walkthrough. */
module TutorialModal {
  import opened Utf16

  /** The walkthrough has four pages. */
  const StepCount: nat := 4
  const LastStep: nat := StepCount - 1

  const StartLabel: Str := Units("开始体验")
  const NextLabel: Str := Units("下一步")

  /** Whether "next" on `step` closes the walkthrough instead of turning the page. */
  predicate ClosesOnNext(step: nat) {
    !(step < LastStep)
  }

  /** The page after "next": one further, except on the last page, which closes instead. */
  function AfterNext(step: nat): (next: nat)
    ensures step < StepCount ==> next < StepCount
    ensures ClosesOnNext(step) <==> next == step
  {
    if step < LastStep then step + 1 else step
  }

  /** The page after "previous": one back, except on the first page, which stays. */
  function AfterPrev(step: nat): (prev: nat)
    ensures prev <= step
    ensures step > 0 ==> prev == step - 1
    ensures step == 0 ==> prev == 0
  {
    if step > 0 then step - 1 else step
  }

  /** The main button's text. */
  function PrimaryLabel(step: nat): Str {
    if step == LastStep then StartLabel else NextLabel
  }

  /** The main button reads "开始体验" exactly on the last page, "下一步" on every other. */
  lemma PrimaryLabelCases(step: nat)
    ensures PrimaryLabel(step) == StartLabel <==> step == LastStep
    ensures PrimaryLabel(step) == NextLabel <==> step != LastStep
  {
    assert StartLabel[0] != NextLabel[0];
  }

  /** "Previous" undoes a "next" that turned the page. */
  lemma PrevUndoesNext(step: nat)
    requires !ClosesOnNext(step)
    ensures AfterPrev(AfterNext(step)) == step
  {
  }

  /** The page reached by `k` presses of "next" from `step`. */
  function NextTimes(step: nat, k: nat): nat {
    if k == 0 then step else AfterNext(NextTimes(step, k - 1))
  }

  /** Pressing "next" from a page turns one page per press and first closes on the press made
      on the last page: from the first page, that is the fourth press. */
  lemma {:induction false} FirstCloseFrom(step: nat, k: nat)
    requires step < StepCount && k <= LastStep - step
    ensures NextTimes(step, k) == step + k
    ensures ClosesOnNext(NextTimes(step, k)) <==> k == LastStep - step
  {
    if k > 0 {
      FirstCloseFrom(step, k - 1);
    }
  }

  class TutorialModal {
    var step: nat

    ghost predicate Valid()
      reads this
    {
      step < StepCount
    }

    constructor ()
      ensures Valid() && step == 0
    {
      step := 0;
    }

    /** The main button. Returns whether it called `onClose`. */
    method HandleNext() returns (close: bool)
      requires Valid()
      modifies this
      ensures Valid()
      ensures step == AfterNext(old(step))
      ensures close <==> ClosesOnNext(old(step))
    {
      if step < LastStep {
        step := step + 1;
        close := false;
      } else {
        close := true;
      }
    }

    /** The back button. */
    method HandlePrev()
      requires Valid()
      modifies this
      ensures Valid()
      ensures step == AfterPrev(old(step))
    {
      if step > 0 {
        step := step - 1;
      }
    }
  }
}
