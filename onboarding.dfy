/**
 * The guided tour: six steps walked with "next" and "previous", and the placement of the
 * tour card next to the element a step points at, flipped to the other side when it would
 * leave the window and clamped to the window's safe area. Geometry is in CSS pixels as
 * exact reals; the page's element lookup is a parameter.
 */
module Onboarding {
  import opened Wrappers

  datatype Position = Center | Left | Right | Top | Bottom

  /** A step of the tour, with the fields the logic reads (description and icon are
      display only). */
  datatype OnboardingStep = OnboardingStep(title: string, targetId: Option<string>, position: Position)

  /** `STEPS`. */
  function Steps(): seq<OnboardingStep> {
    [
      OnboardingStep("Bienvenido a GPS Discovery", None, Center),
      OnboardingStep("Selección de Datos", Some("tour-data-selector"), Right),
      OnboardingStep("Smart Context", Some("tour-smart-context"), Right),
      OnboardingStep("Mapa de Flujo Dinámico", Some("tour-flow-map"), Top),
      OnboardingStep("Análisis Multicapa", Some("tour-tabs"), Bottom),
      OnboardingStep("Generación de Reportes", Some("tour-tools"), Left)
    ]
  }

  /** A bounding client rectangle. */
  datatype Rect = Rect(top: real, left: real, bottom: real, right: real, width: real, height: real)

  /** Where the card goes: centred on screen, or at an absolute top-left corner. */
  datatype Placement = Centered | At(top: real, left: real)

  const CardWidth: real := 420.0
  const CardHeight: real := 280.0
  /** The gap between the card and its target. */
  const Gap: real := 24.0

  /** The rectangle of a step's target, when it has one and the page has that element. */
  function TargetRect(step: OnboardingStep, elementRect: string -> Option<Rect>): Option<Rect> {
    if step.targetId.None? then None else elementRect(step.targetId.value)
  }

  function Max(a: real, b: real): real { if a >= b then a else b }
  function Min(a: real, b: real): real { if a <= b then a else b }

  /** `Math.max(lo, Math.min(x, hi))`. */
  function Clamp(x: real, lo: real, hi: real): real {
    Max(lo, Min(x, hi))
  }

  /** The card's top-left corner before clamping, for a non-centred position. */
  function RawCorner(position: Position, rect: Rect, innerWidth: real, innerHeight: real): (real, real) {
    match position
    case Bottom =>
      var below := rect.bottom + Gap;
      (if below + CardHeight > innerHeight then rect.top - CardHeight - Gap else below,
       rect.left + rect.width / 2.0 - CardWidth / 2.0)
    case Top =>
      (rect.top + 40.0, rect.left + rect.width / 2.0 - CardWidth / 2.0)
    case Right =>
      var beside := rect.right + Gap;
      (rect.top + rect.height / 2.0 - CardHeight / 2.0,
       if beside + CardWidth > innerWidth then rect.left - CardWidth - Gap else beside)
    case Left =>
      (rect.top + rect.height / 2.0 - CardHeight / 2.0, rect.left - CardWidth - Gap)
    case Center =>
      (0.0, 0.0)
  }

  /** `updatePosition`: centred when there is no target or the step is centred; otherwise the
      raw corner clamped to at least 80 px from the top and 40 px from the left, and to keep
      the card 40 px clear of the bottom and right edges. */
  function CardPlacement(position: Position, rect: Option<Rect>, innerWidth: real, innerHeight: real): Placement {
    if rect.None? || position == Center then Centered
    else
      var (top, left) := RawCorner(position, rect.value, innerWidth, innerHeight);
      At(Clamp(top, 80.0, innerHeight - CardHeight - 40.0), Clamp(left, 40.0, innerWidth - CardWidth - 40.0))
  }

  // ---------------------------------------------------------------------------------------
  // Properties of the placement
  // ---------------------------------------------------------------------------------------

  /** The clamp never goes below its lower bound, stays under the upper bound when the two
      are ordered, and leaves a value already in range alone. */
  lemma ClampBounds(x: real, lo: real, hi: real)
    ensures Clamp(x, lo, hi) >= lo
    ensures lo <= hi ==> Clamp(x, lo, hi) <= hi
    ensures lo <= x <= hi ==> Clamp(x, lo, hi) == x
    ensures hi < lo ==> Clamp(x, lo, hi) == lo
  {
  }

  /** The card is centred exactly when there is no target rectangle or the step is centred. */
  lemma CenteredExactly(position: Position, rect: Option<Rect>, innerWidth: real, innerHeight: real)
    ensures CardPlacement(position, rect, innerWidth, innerHeight) == Centered <==>
      rect.None? || position == Center
  {
  }

  /** In a window of at least 500 by 400 px, a placed card lies inside the safe area: 80 px
      from the top, 40 px from the other edges. */
  lemma PlacedInsideWindow(position: Position, rect: Option<Rect>, innerWidth: real, innerHeight: real)
    requires innerWidth >= CardWidth + 80.0 && innerHeight >= CardHeight + 120.0
    ensures match CardPlacement(position, rect, innerWidth, innerHeight)
      case Centered => true
      case At(top, left) =>
        && 80.0 <= top && top + CardHeight <= innerHeight - 40.0
        && 40.0 <= left && left + CardWidth <= innerWidth - 40.0
  {
    if rect.Some? && position != Center {
      var (top, left) := RawCorner(position, rect.value, innerWidth, innerHeight);
      ClampBounds(top, 80.0, innerHeight - CardHeight - 40.0);
      ClampBounds(left, 40.0, innerWidth - CardWidth - 40.0);
    }
  }

  /** Below the target: the card goes 24 px under it when it fits above the window's bottom
      and otherwise 24 px above it, horizontally centred on it. */
  lemma BottomFlip(rect: Rect, innerWidth: real, innerHeight: real)
    ensures var (top, left) := RawCorner(Bottom, rect, innerWidth, innerHeight);
      && (rect.bottom + Gap + CardHeight <= innerHeight ==> top == rect.bottom + Gap)
      && (rect.bottom + Gap + CardHeight > innerHeight ==> top + CardHeight + Gap == rect.top)
      && left + CardWidth / 2.0 == rect.left + rect.width / 2.0
  {
  }

  /** Right of the target: the card goes 24 px to its right when it fits inside the window
      and otherwise 24 px to its left, vertically centred on it. */
  lemma RightFlip(rect: Rect, innerWidth: real, innerHeight: real)
    ensures var (top, left) := RawCorner(Right, rect, innerWidth, innerHeight);
      && (rect.right + Gap + CardWidth <= innerWidth ==> left == rect.right + Gap)
      && (rect.right + Gap + CardWidth > innerWidth ==> left + CardWidth + Gap == rect.left)
      && top + CardHeight / 2.0 == rect.top + rect.height / 2.0
  {
  }

  /** A card placed left of its target, before clamping, ends 24 px short of the target's
      left edge and is vertically centred on it; a card placed at the top starts 40 px below
      the target's top edge, horizontally centred. */
  lemma LeftAndTop(rect: Rect, innerWidth: real, innerHeight: real)
    ensures var (top, left) := RawCorner(Left, rect, innerWidth, innerHeight);
      left + CardWidth + Gap == rect.left && top + CardHeight / 2.0 == rect.top + rect.height / 2.0
    ensures var (top, left) := RawCorner(Top, rect, innerWidth, innerHeight);
      top == rect.top + 40.0 && left + CardWidth / 2.0 == rect.left + rect.width / 2.0
  {
  }

  /** The first step has no target, so its card is always centred; every other step has a
      target and a side. */
  lemma StepTargets(elementRect: string -> Option<Rect>, innerWidth: real, innerHeight: real)
    ensures CardPlacement(Steps()[0].position, TargetRect(Steps()[0], elementRect), innerWidth, innerHeight) == Centered
    ensures forall k | 1 <= k < |Steps()| :: Steps()[k].targetId.Some? && Steps()[k].position != Center
  {
  }

  // ---------------------------------------------------------------------------------------
  // The tour
  // ---------------------------------------------------------------------------------------

  /** The walk through the steps. `closeRequests` counts the calls of `onClose`, which
      belongs to the caller that shows the tour. */
  class Tour {
    var currentStep: nat
    var closeRequests: nat
    /** The target's rectangle found by the last placement. */
    var targetRect: Option<Rect>
    /** The card's style; `None` until the first placement. */
    var cardStyle: Option<Placement>

    ghost predicate Valid()
      reads this
    {
      currentStep < |Steps()|
    }

    constructor ()
      ensures Valid() && currentStep == 0 && closeRequests == 0
      ensures targetRect == None && cardStyle == None
    {
      currentStep := 0;
      closeRequests := 0;
      targetRect := None;
      cardStyle := None;
    }

    /** The step shown. */
    function Step(): OnboardingStep
      requires Valid()
      reads this
    {
      Steps()[currentStep]
    }

    /** The primary button reads 'Finalizar' on the last step and 'Siguiente' before it. */
    function NextLabel(): string
      requires Valid()
      reads this
    {
      if currentStep == |Steps()| - 1 then "Finalizar" else "Siguiente"
    }

    /** The "previous" button is shown after the first step only. */
    predicate ShowsPrevious()
      reads this
    {
      currentStep > 0
    }

    /** `handleNext`: advance, or close the tour from the last step. */
    method Next()
      requires Valid()
      modifies this
      ensures Valid()
      ensures old(currentStep) < |Steps()| - 1 ==>
        currentStep == old(currentStep) + 1 && closeRequests == old(closeRequests)
      ensures old(currentStep) == |Steps()| - 1 ==>
        currentStep == old(currentStep) && closeRequests == old(closeRequests) + 1
      ensures targetRect == old(targetRect) && cardStyle == old(cardStyle)
    {
      if currentStep < |Steps()| - 1 {
        currentStep := currentStep + 1;
      } else {
        closeRequests := closeRequests + 1;
      }
    }

    /** `handlePrev`: go back, except from the first step. */
    method Previous()
      requires Valid()
      modifies this
      ensures Valid()
      ensures currentStep == if old(currentStep) > 0 then old(currentStep) - 1 else 0
      ensures closeRequests == old(closeRequests)
      ensures targetRect == old(targetRect) && cardStyle == old(cardStyle)
    {
      if currentStep > 0 {
        currentStep := currentStep - 1;
      }
    }

    /** `updatePosition`, run for the step shown: look the target up, then centre the card
        or place it beside the target, flipping and clamping as `CardPlacement` says. */
    method UpdatePosition(elementRect: string -> Option<Rect>, innerWidth: real, innerHeight: real)
      requires Valid()
      modifies this
      ensures Valid()
      ensures targetRect == TargetRect(Step(), elementRect)
      ensures cardStyle == Some(CardPlacement(Step().position, targetRect, innerWidth, innerHeight))
      ensures currentStep == old(currentStep) && closeRequests == old(closeRequests)
    {
      var step := Steps()[currentStep];
      var rect := if step.targetId.Some? then elementRect(step.targetId.value) else None;
      targetRect := rect;
      if rect.None? || step.position == Center {
        cardStyle := Some(Centered);
      } else {
        var r := rect.value;
        var top, left := 0.0, 0.0;
        if step.position == Bottom {
          top := r.bottom + Gap;
          left := r.left + r.width / 2.0 - CardWidth / 2.0;
          if top + CardHeight > innerHeight {
            top := r.top - CardHeight - Gap;
          }
        } else if step.position == Top {
          top := r.top + 40.0;
          left := r.left + r.width / 2.0 - CardWidth / 2.0;
        } else if step.position == Right {
          top := r.top + r.height / 2.0 - CardHeight / 2.0;
          left := r.right + Gap;
          if left + CardWidth > innerWidth {
            left := r.left - CardWidth - Gap;
          }
        } else {
          top := r.top + r.height / 2.0 - CardHeight / 2.0;
          left := r.left - CardWidth - Gap;
        }
        cardStyle := Some(At(Max(80.0, Min(top, innerHeight - CardHeight - 40.0)),
                             Max(40.0, Min(left, innerWidth - CardWidth - 40.0))));
      }
    }

    /** The close and skip buttons call `onClose` directly. */
    method Close()
      modifies this
      ensures closeRequests == old(closeRequests) + 1
      ensures currentStep == old(currentStep)
      ensures targetRect == old(targetRect) && cardStyle == old(cardStyle)
    {
      closeRequests := closeRequests + 1;
    }
  }

  /** "Previous" right after a "next" that did not close the tour brings back the step. */
  method NextThenPrevious(tour: Tour)
    requires tour.Valid() && tour.currentStep < |Steps()| - 1
    modifies tour
    ensures tour.Valid()
    ensures tour.currentStep == old(tour.currentStep) && tour.closeRequests == old(tour.closeRequests)
  {
    tour.Next();
    tour.Previous();
  }

  /** Pressing "next" `k` times moves the tour and counts close requests exactly as
      `WalkNext` says. */
  method PressNext(tour: Tour, k: nat)
    requires tour.Valid()
    modifies tour
    ensures tour.Valid()
    ensures tour.currentStep == WalkNext(old(tour.currentStep), k, |Steps()|).0
    ensures tour.closeRequests ==
      old(tour.closeRequests) + WalkNext(old(tour.currentStep), k, |Steps()|).1
  {
    var i := 0;
    while i < k
      invariant 0 <= i <= k && tour.Valid()
      invariant tour.currentStep == WalkNext(old(tour.currentStep), i, |Steps()|).0
      invariant tour.closeRequests ==
        old(tour.closeRequests) + WalkNext(old(tour.currentStep), i, |Steps()|).1
    {
      tour.Next();
      i := i + 1;
    }
  }

  /** The primary button reads 'Finalizar' exactly when pressing it closes the tour and
      'Siguiente' exactly when it moves to the next step; "previous" is shown exactly when
      the first step is not the one on display. */
  lemma ButtonsMatchMoves(tour: Tour)
    requires tour.Valid()
    ensures tour.NextLabel() == "Finalizar" <==>
      WalkNext(tour.currentStep, 1, |Steps()|) == (tour.currentStep, 1)
    ensures tour.NextLabel() == "Siguiente" <==>
      WalkNext(tour.currentStep, 1, |Steps()|) == (tour.currentStep + 1, 0)
    ensures tour.ShowsPrevious() <==> tour.currentStep != 0
  {
    assert WalkNext(tour.currentStep, 0, |Steps()|) == (tour.currentStep, 0);
  }

  /** Pressing "next" from the first step `k` times without reaching the end lands on step
      `k`; the tour closes only from the last step. */
  lemma {:induction false} NextWalk(k: nat)
    ensures var s := WalkNext(0, k, |Steps()|);
      && (k < |Steps()| ==> s == (k, 0))
      && (k >= |Steps()| ==> s == (|Steps()| - 1, k - (|Steps()| - 1)))
  {
    if k > 0 {
      NextWalk(k - 1);
    }
  }

  /** The step and the number of close requests after pressing "next" `k` times from `step`. */
  function WalkNext(step: nat, k: nat, count: nat): (nat, nat)
    requires step < count
  {
    if k == 0 then (step, 0)
    else
      var (s, closes) := WalkNext(step, k - 1, count);
      if s < count - 1 then (s + 1, closes) else (s, closes + 1)
  }
}
