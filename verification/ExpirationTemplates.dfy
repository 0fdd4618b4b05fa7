/**
 The expiration timeline of app/core/expiration_template_selection.py: each template covers a window of days
 before or after the expiry, and the windows of the applicable templates partition time.
 */
module ExpirationTemplates {
  import opened Options

  // ----- windows

  /** The greatest of `values` below `bound`. */
  function GreatestBelow(values: seq<int>, bound: int): Option<int> {
    if values == [] then None else
      var rest := GreatestBelow(values[1..], bound);
      if values[0] < bound && (rest.None? || rest.value < values[0]) then Some(values[0]) else rest
  }

  /** The least of `values` above `bound`. */
  function LeastAbove(values: seq<int>, bound: int): Option<int> {
    if values == [] then None else
      var rest := LeastAbove(values[1..], bound);
      if values[0] > bound && (rest.None? || rest.value > values[0]) then Some(values[0]) else rest
  }

  lemma {:induction false} GreatestBelowIs(values: seq<int>, bound: int)
    ensures match GreatestBelow(values, bound)
            case None => forall v :: v in values ==> v >= bound
            case Some(g) => g in values && g < bound && forall v :: v in values && v < bound ==> v <= g
  {
    if values != [] {
      GreatestBelowIs(values[1..], bound);
      assert forall v :: v in values <==> v == values[0] || v in values[1..];
    }
  }

  lemma {:induction false} LeastAboveIs(values: seq<int>, bound: int)
    ensures match LeastAbove(values, bound)
            case None => forall v :: v in values ==> v <= bound
            case Some(g) => g in values && g > bound && forall v :: v in values && v > bound ==> v >= g
  {
    if values != [] {
      LeastAboveIs(values[1..], bound);
      assert forall v :: v in values <==> v == values[0] || v in values[1..];
    }
  }

  /** match_before_window */
  predicate MatchBeforeWindow(daysLeft: int, current: int, allValues: seq<int>, afterValues: seq<int>) {
    if daysLeft < 0 then
      current == 0 &&
      var nextAfter := LeastAbove(afterValues, -1);
      nextAfter.None? || -daysLeft < nextAfter.value
    else
      var lower := GreatestBelow(allValues, current);
      (if lower.None? then -1 else lower.value) < daysLeft <= current
  }

  /** match_after_window */
  predicate MatchAfterWindow(daysLeft: int, current: int, allValues: seq<int>) {
    daysLeft < 0 &&
    var upper := LeastAbove(allValues, current);
    current <= -daysLeft && (upper.None? || -daysLeft < upper.value)
  }

  /** A place on the timeline that templates can occupy. */
  datatype Slot = Before(days: int) | After(days: int)

  /** The slot is offered by some template and its window contains the day. */
  predicate ActiveSlot(slot: Slot, daysLeft: int, befores: seq<int>, afters: seq<int>) {
    match slot
    case Before(v) => v in befores && MatchBeforeWindow(daysLeft, v, befores, afters)
    case After(v) => v in afters && MatchAfterWindow(daysLeft, v, afters)
  }

  predicate NonNegative(values: seq<int>) {
    forall v :: v in values ==> v >= 0
  }

  /** Time order of slots: fewer days before come later, and everything before precedes everything after. */
  predicate NotLater(a: Slot, b: Slot) {
    match (a, b)
    case (Before(x), Before(y)) => x >= y
    case (Before(_), After(_)) => true
    case (After(_), Before(_)) => false
    case (After(x), After(y)) => x <= y
  }

  lemma WindowFacts(slot: Slot, befores: seq<int>, afters: seq<int>)
    ensures var below, above := GreatestBelow(befores, slot.days), LeastAbove(afters, slot.days);
            && (below.None? ==> forall v :: v in befores ==> v >= slot.days)
            && (below.Some? ==> below.value in befores && below.value < slot.days
                                && forall v :: v in befores && v < slot.days ==> v <= below.value)
            && (above.None? ==> forall v :: v in afters ==> v <= slot.days)
            && (above.Some? ==> above.value in afters && above.value > slot.days
                                && forall v :: v in afters && v > slot.days ==> v >= above.value)
    ensures var first := LeastAbove(afters, -1);
            && (first.None? ==> forall v :: v in afters ==> v <= -1)
            && (first.Some? ==> first.value in afters && first.value > -1
                                && forall v :: v in afters && v > -1 ==> v >= first.value)
  {
    GreatestBelowIs(befores, slot.days);
    LeastAboveIs(afters, slot.days);
    LeastAboveIs(afters, -1);
  }

  /** As days_left falls, the active slot only moves forward; on one day there is at most one active slot. */
  lemma SlotsMoveForward(earlier: Slot, later: Slot, dayOfEarlier: int, dayOfLater: int,
                         befores: seq<int>, afters: seq<int>)
    requires NonNegative(befores) && NonNegative(afters) && dayOfEarlier >= dayOfLater
    requires ActiveSlot(earlier, dayOfEarlier, befores, afters) && ActiveSlot(later, dayOfLater, befores, afters)
    ensures NotLater(earlier, later)
  {
    WindowFacts(earlier, befores, afters);
    WindowFacts(later, befores, afters);
  }

  lemma OneSlotPerDay(a: Slot, b: Slot, daysLeft: int, befores: seq<int>, afters: seq<int>)
    requires NonNegative(befores) && NonNegative(afters)
    requires ActiveSlot(a, daysLeft, befores, afters) && ActiveSlot(b, daysLeft, befores, afters)
    ensures a == b
  {
    SlotsMoveForward(a, b, daysLeft, daysLeft, befores, afters);
    SlotsMoveForward(b, a, daysLeft, daysLeft, befores, afters);
  }

  /** The days with an active slot: up to the greatest before value, and overdue once a slot has begun. */
  predicate Covered(daysLeft: int, befores: seq<int>, afters: seq<int>) {
    if daysLeft >= 0 then exists v :: v in befores && v >= daysLeft
    else 0 in befores || exists v :: v in afters && v <= -daysLeft
  }

  lemma CoveredIffActive(daysLeft: int, befores: seq<int>, afters: seq<int>)
    requires NonNegative(befores) && NonNegative(afters)
    ensures Covered(daysLeft, befores, afters) <==> exists slot :: ActiveSlot(slot, daysLeft, befores, afters)
  {
    if Covered(daysLeft, befores, afters) {
      var slot := FindSlot(daysLeft, befores, afters);
    }
    forall slot | ActiveSlot(slot, daysLeft, befores, afters) ensures Covered(daysLeft, befores, afters) {
      WindowFacts(slot, befores, afters);
    }
  }

  lemma FindSlot(daysLeft: int, befores: seq<int>, afters: seq<int>) returns (slot: Slot)
    requires NonNegative(befores) && NonNegative(afters) && Covered(daysLeft, befores, afters)
    ensures ActiveSlot(slot, daysLeft, befores, afters)
  {
    if daysLeft >= 0 {
      LeastAboveIs(befores, daysLeft - 1);
      slot := Before(LeastAbove(befores, daysLeft - 1).value);
    } else {
      GreatestBelowIs(afters, -daysLeft + 1);
      var last := GreatestBelow(afters, -daysLeft + 1);
      slot := if last.Some? then After(last.value) else Before(0);
    }
    WindowFacts(slot, befores, afters);
  }
}
