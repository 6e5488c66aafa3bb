/**
 Where a window is moved whose title or body can no longer be reached.
 */
module WindowCorrection {
  import opened Common

  datatype Rect = Rect(left: real, top: real, right: real, bottom: real)

  /** A window and the top of its client area, below the title bar. */
  datatype Window = Window(rect: Rect, clientY: real)

  datatype Position = Position(left: real, top: real)

  const REACH := 96.0

  function Max(a: real, b: real): real { if a >= b then a else b }

  function Min(a: real, b: real): real { if a <= b then a else b }

  function Width(r: Rect): real { r.right - r.left }

  function Height(r: Rect): real { r.bottom - r.top }

  predicate Proper(r: Rect) { Width(r) > 0.0 && Height(r) > 0.0 }

  /** The height of the title bar. */
  function Title(w: Window): real { Max(0.0, w.clientY - w.rect.top) }

  function MinimumTitle(w: Window): real { Min(16.0, Max(8.0, Title(w))) }

  function VisibleTitle(w: Window, work: Rect): real {
    Max(0.0, Min(w.clientY, work.bottom) - Max(w.rect.top, work.top))
  }

  function VisibleWidth(w: Window, work: Rect): real {
    Max(0.0, Min(w.rect.right, work.right) - Max(w.rect.left, work.left))
  }

  predicate TitleLost(w: Window, work: Rect) { Title(w) > 0.0 && VisibleTitle(w, work) < MinimumTitle(w) }

  predicate WidthLost(w: Window, work: Rect) { VisibleWidth(w, work) < REACH }

  /** Where a lost title moves the window. */
  function ForTitle(w: Window, work: Rect): Position {
    var left := w.rect.left;
    if !TitleLost(w, work) then Position(left, w.rect.top)
    else if Width(w.rect) <= Width(work) then Position(Max(work.left, Min(left, work.right - Width(w.rect))), work.top)
    else Position(if left < work.left then work.left else left, work.top)
  }

  /** Where a lost width moves it on from there. */
  function ForWidth(w: Window, work: Rect, p: Position): Position {
    if !WidthLost(w, work) then p
    else
      Position(if w.rect.right <= work.left + REACH then work.left else Max(work.left, work.right - Width(w.rect)),
               if p.top < work.top || p.top >= work.bottom - 16.0 then work.top else p.top)
  }

  /** `planWindowsX11WindowCorrection`, for finite numbers. */
  function Plan(w: Window, work: Rect): Option<Position> {
    if !Proper(w.rect) || !Proper(work) then None
    else if !TitleLost(w, work) && !WidthLost(w, work) then None
    else
      var p := ForWidth(w, work, ForTitle(w, work));
      if p == Position(w.rect.left, w.rect.top) then None else Some(p)
  }

  function Moved(w: Window, p: Position): Window {
    var dx, dy := p.left - w.rect.left, p.top - w.rect.top;
    Window(Rect(p.left, p.top, w.rect.right + dx, w.rect.bottom + dy), w.clientY + dy)
  }

  /** One correction is enough exactly if the work area is wider than 96, or the window reaches
      at most 96 into it from the left, or the window is at least as wide as the work area. */
  lemma OneCorrectionSufficesIff(w: Window, work: Rect)
    requires Plan(w, work).Some?
    ensures var p := Plan(w, work).value;
            Plan(Moved(w, p), work).None?
            <==> Width(work) > REACH || w.rect.right <= work.left + REACH || Width(w.rect) >= Width(work)
  {
  }

  /** After a correction the title and 96 units of the width are visible exactly if window and
      work area are that wide and the title bar, if there is one, is high enough to be seen
      and fits. */
  lemma CorrectedIsReachableIff(w: Window, work: Rect)
    requires Plan(w, work).Some?
    ensures var m := Moved(w, Plan(w, work).value);
            !TitleLost(m, work) && !WidthLost(m, work)
            <==> Width(w.rect) >= REACH && Width(work) >= REACH
                 && (Title(w) == 0.0 || (Title(w) >= 8.0 && Height(work) >= Min(16.0, Title(w))))
  {
  }

  function Distance(a: real, b: real): real { if a >= b then a - b else b - a }

  /** A window whose title is lost goes to the top of the work area, and sideways only as far as it
      must: into the work area if it fits, to its left edge if it is too wide and begins before. */
  lemma LostTitleMovesLittle(w: Window, work: Rect)
    requires Plan(w, work).Some? && !WidthLost(w, work)
    ensures var p, width := Plan(w, work).value, w.rect.right - w.rect.left;
            && p.top == work.top
            && (width <= work.right - work.left ==>
                  && work.left <= p.left <= work.right - width
                  && forall x :: work.left <= x <= work.right - width ==>
                       Distance(p.left, w.rect.left) <= Distance(x, w.rect.left))
            && (width > work.right - work.left ==>
                  p.left == if w.rect.left < work.left then work.left else w.rect.left)
  {
  }

  /** A window of which too little of the width shows goes to the edge of the work area it came
      from, a wide one to the left edge; it keeps its height in the work area unless its title is
      lost or it is above, or so low that 16 units do not show. */
  lemma LostWidthMovesToTheEdge(w: Window, work: Rect)
    requires Plan(w, work).Some? && WidthLost(w, work)
    ensures var p, width := Plan(w, work).value, w.rect.right - w.rect.left;
            && (w.rect.right <= work.left + 96.0 || width >= work.right - work.left ==> p.left == work.left)
            && (w.rect.right > work.left + 96.0 && width < work.right - work.left ==> p.left + width == work.right)
            && p.top == if TitleLost(w, work) || w.rect.top < work.top || w.rect.top >= work.bottom - 16.0
                        then work.top else w.rect.top
  {
  }

  /** The planner itself, which adjusts two coordinates step by step. */
  method PlanCorrection(w: Window, work: Rect) returns (plan: Option<Position>)
    ensures plan == Plan(w, work)
    ensures plan.Some? && Width(work) > REACH ==> Plan(Moved(w, plan.value), work).None?
  {
    var rect := w.rect;
    var width := rect.right - rect.left;
    if width <= 0.0 || rect.bottom <= rect.top || work.right <= work.left || work.bottom <= work.top { return None; }
    var titleIsUnreachable := TitleLost(w, work);
    var windowIsHorizontallyUnreachable := WidthLost(w, work);
    if !titleIsUnreachable && !windowIsHorizontallyUnreachable { return None; }
    var nextLeft, nextTop := rect.left, rect.top;
    if titleIsUnreachable {
      nextTop := work.top;
      if width <= work.right - work.left {
        nextLeft := Max(work.left, Min(rect.left, work.right - width));
      } else if rect.left < work.left {
        nextLeft := work.left;
      }
    }
    if windowIsHorizontallyUnreachable {
      nextLeft := if rect.right <= work.left + REACH then work.left else Max(work.left, work.right - width);
      if nextTop < work.top || nextTop >= work.bottom - 16.0 { nextTop := work.top; }
    }
    plan := if nextLeft == rect.left && nextTop == rect.top then None else Some(Position(nextLeft, nextTop));
    if plan.Some? { OneCorrectionSufficesIff(w, work); }
  }
}
