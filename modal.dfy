/**
 * The confirmation modal: its personalised text, its visibility state (the
 * overlay's `hidden` and `active` classes and its `aria-hidden` attribute)
 * and the timers that dismiss it.
 *
 * Timers are explicit pending events rather than real time: `setTimeout`
 * appends a `Timer` with a fresh handle to `pending`, `clearTimeout` removes
 * the timer with a given handle (if it is still pending), and the event
 * loop's firing of a timer is the method `Fire`, which may pick any pending
 * timer. Only the 3500 ms auto-hide timer's handle is remembered (in
 * `timeoutId`); the 300 ms timer that finishes a hide is not.
 */
module Modal {
  import opened Wrappers
  import opened Decimal

  // ------------------------------------------------------------ text

  /** The greeting name: the given name, or "Lifter" when it is empty. */
  function DisplayName(name: string): (r: string)
    ensures r != ""
    ensures name != "" ==> r == name
  {
    if name == "" then "Lifter" else name
  }

  /** The display-name table for lift choices, with "lifting" for anything else. */
  function LiftLabel(lift: string): (r: string)
    ensures r in {"Deadlift", "Bench Press", "Weighted Pull Up", "lifting"}
  {
    if lift == "deadlift" then "Deadlift"
    else if lift == "bench-press" then "Bench Press"
    else if lift == "weighted-pullup" then "Weighted Pull Up"
    else "lifting"
  }

  /** Only a choice outside the table shows the fallback label. */
  lemma LiftLabelFallback(lift: string)
    ensures LiftLabel(lift) == "lifting" <==>
            lift != "deadlift" && lift != "bench-press" && lift != "weighted-pullup"
  {
  }

  const MessageMiddle: string := " spot(s) locked in. See you at the "
  const MessageEnd: string := " mayhem!"

  /** The modal's message for a guest count and a lift label. */
  function ModalMessage(guests: nat, liftName: string): string {
    DecimalString(guests) + MessageMiddle + liftName + MessageEnd
  }

  /** `s` occurs in `m` at position `p`. */
  predicate OccursAt(m: string, s: string, p: nat) {
    p + |s| <= |m| && m[p..p + |s|] == s
  }

  /** `s` occurs somewhere in `m`. */
  ghost predicate Mentions(m: string, s: string) {
    exists p :: OccursAt(m, s, p)
  }

  /** The message names the lift label and shows the guest count's digits first. */
  lemma MessageShowsCountAndLabel(guests: nat, liftName: string)
    ensures Mentions(ModalMessage(guests, liftName), liftName)
    ensures OccursAt(ModalMessage(guests, liftName), DecimalString(guests), 0)
  {
    var m, d := ModalMessage(guests, liftName), DecimalString(guests);
    var p := |d| + |MessageMiddle|;
    assert m[p..p + |liftName|] == liftName;
    assert OccursAt(m, liftName, p);
    assert m[0..|d|] == d;
  }

  /** Different counts or labels always give different messages. */
  lemma MessageInjective(g1: nat, n1: string, g2: nat, n2: string)
    requires ModalMessage(g1, n1) == ModalMessage(g2, n2)
    ensures g1 == g2 && n1 == n2
  {
    var m := ModalMessage(g1, n1);
    var d1, d2 := DecimalString(g1), DecimalString(g2);
    assert forall i :: 0 <= i < |d1| ==> m[i] == d1[i];
    assert forall i :: 0 <= i < |d2| ==> m[i] == d2[i];
    assert m[|d1|] == ' ' && m[|d2|] == ' ';
    if |d1| < |d2| {
      assert false;
    }
    if |d2| < |d1| {
      assert false;
    }
    assert d1 == m[..|d1|] == d2;
    DecimalInjective(g1, g2);
    var p := |d1| + |MessageMiddle|;
    assert m[p..p + |n1|] == n1;
    assert m[p..p + |n2|] == n2;
  }

  // ------------------------------------------------------------ timers

  datatype TimerKind =
    | AutoHide    // the 3500 ms timer that calls hideModal
    | FinishHide  // the 300 ms timer that adds the `hidden` class

  /** A scheduled timer and the handle `setTimeout` returned for it. */
  datatype Timer = Timer(id: nat, kind: TimerKind)

  /** Handles are strictly increasing along the pending list. */
  predicate Ascending(p: seq<Timer>) {
    forall i, j :: 0 <= i < j < |p| ==> p[i].id < p[j].id
  }

  /** The pending list with the timer whose handle is `id` taken out. */
  function Without(p: seq<Timer>, id: nat): (r: seq<Timer>)
    ensures |r| <= |p|
    ensures forall t :: t in r <==> t in p && t.id != id
    ensures Ascending(p) ==> Ascending(r)
  {
    if p == [] then []
    else
      var rest := Without(p[1..], id);
      if p[0].id == id then rest
      else
        assert Ascending(p) ==> forall t :: t in p[1..] ==> p[0].id < t.id;
        [p[0]] + rest
  }

  /**
   * `clearTimeout(handle)` behind the `!== null` guard: a null handle clears
   * nothing, otherwise the timer with that handle is taken out.
   */
  function Cleared(p: seq<Timer>, handle: Option<nat>): (r: seq<Timer>)
    ensures forall t :: t in r <==> t in p && handle != Some(t.id)
    ensures Ascending(p) ==> Ascending(r)
  {
    match handle
    case None => p
    case Some(id) => Without(p, id)
  }

  /**
   * When every pending auto-hide timer carries the tracked handle, at most
   * one auto-hide timer is pending.
   */
  lemma SingleAutoHide(p: seq<Timer>, tracked: Option<nat>)
    requires Ascending(p)
    requires forall t :: t in p && t.kind == AutoHide ==> tracked == Some(t.id)
    ensures forall i, j ::
              (0 <= i < |p| && 0 <= j < |p| && p[i].kind == AutoHide && p[j].kind == AutoHide) ==> i == j
  {
  }

  /**
   * The timer bookkeeping the controller keeps: handles are fresh and
   * ordered, the tracked handle was issued, every pending auto-hide timer is
   * the tracked one and no finish timer carries the tracked handle.
   */
  predicate WellFormed(p: seq<Timer>, tracked: Option<nat>, next: nat) {
    && Ascending(p)
    && (forall t :: t in p ==> t.id < next)
    && (tracked.Some? ==> tracked.value < next)
    && (forall t :: t in p && t.kind == AutoHide ==> tracked == Some(t.id))
    && (forall t :: t in p && t.kind == FinishHide ==> tracked != Some(t.id))
  }

  /**
   * showModal's timer step: clearing the tracked handle and scheduling a new
   * auto-hide leaves exactly one auto-hide pending, the new one, and keeps
   * every pending finish timer.
   */
  lemma ReshowTimers(p: seq<Timer>, tracked: Option<nat>, next: nat)
    requires WellFormed(p, tracked, next)
    ensures var q := Cleared(p, tracked) + [Timer(next, AutoHide)];
            && WellFormed(q, Some(next), next + 1)
            && Timer(next, AutoHide) in q
            && (forall t :: t in q && t.kind == AutoHide ==> t.id == next)
            && (forall t :: t in p && t.kind == FinishHide ==> t in q)
  {
  }

  /** hideModal's timer step: the untracked finish timer keeps the bookkeeping. */
  lemma FinishScheduled(p: seq<Timer>, tracked: Option<nat>, next: nat)
    requires WellFormed(p, tracked, next)
    ensures WellFormed(p + [Timer(next, FinishHide)], tracked, next + 1)
  {
  }

  /** Firing (or clearing) a pending timer keeps the bookkeeping. */
  lemma Removed(p: seq<Timer>, tracked: Option<nat>, next: nat, id: nat)
    requires WellFormed(p, tracked, next)
    ensures WellFormed(Without(p, id), tracked, next)
  {
  }

  // ------------------------------------------------------------ controller

  class ModalController {
    var hidden: bool            // overlay has class `hidden`
    var active: bool            // overlay has class `active`
    var ariaHidden: bool        // overlay's `aria-hidden` is "true"
    var nameText: string        // the name slot
    var messageText: string     // the message slot
    var timeoutId: Option<nat>  // modalTimeoutId
    var pending: seq<Timer>     // timers scheduled and neither fired nor cleared
    var nextId: nat             // the handle the next setTimeout returns

    /**
     * Handles are fresh and ordered, and every pending auto-hide timer is the
     * one whose handle is tracked.
     */
    ghost predicate Valid()
      reads this
    {
      WellFormed(pending, timeoutId, nextId)
    }

    /** The shown modal for this name, count and lift, with its one auto-hide pending. */
    ghost predicate Displays(name: string, guests: nat, lift: string)
      reads this
    {
      && nameText == DisplayName(name)
      && messageText == ModalMessage(guests, LiftLabel(lift))
      && !hidden && active && !ariaHidden
      && timeoutId.Some?
      && Timer(timeoutId.value, AutoHide) in pending
      && (forall t :: t in pending && t.kind == AutoHide ==> t.id == timeoutId.value)
    }

    /** The overlay as the markup starts it: hidden, inactive, no timers. */
    constructor ()
      ensures Valid()
      ensures hidden && !active && ariaHidden
      ensures nameText == "" && messageText == ""
      ensures timeoutId == None && pending == [] && nextId == 0
    {
      hidden, active, ariaHidden := true, false, true;
      nameText, messageText := "", "";
      timeoutId, pending, nextId := None, [], 0;
    }

    /** `setTimeout`: schedule a timer and return its fresh handle. */
    method SetTimeout(kind: TimerKind) returns (id: nat)
      requires forall t :: t in pending ==> t.id < nextId
      modifies this`pending, this`nextId
      ensures forall t :: t in old(pending) ==> t.id < id
      ensures id == old(nextId) && nextId == id + 1
      ensures pending == old(pending) + [Timer(id, kind)]
    {
      id := nextId;
      pending := pending + [Timer(id, kind)];
      nextId := nextId + 1;
    }

    /**
     * showModal: set the texts, clear the tracked auto-hide timer, make the
     * overlay visible and active, and schedule a new auto-hide whose handle
     * is tracked. A pending 300 ms finish timer is left alone.
     */
    method Show(name: string, guests: nat, lift: string)
      requires Valid()
      modifies this
      ensures Valid()
      ensures Displays(name, guests, lift)
      ensures timeoutId == Some(old(nextId)) && nextId == old(nextId) + 1
      ensures pending == Cleared(old(pending), old(timeoutId)) + [Timer(old(nextId), AutoHide)]
      ensures forall t :: t in old(pending) && t.kind == FinishHide ==> t in pending
    {
      ReshowTimers(pending, timeoutId, nextId);
      nameText, messageText := DisplayName(name), ModalMessage(guests, LiftLabel(lift));
      pending := Cleared(pending, timeoutId);
      hidden, active, ariaHidden := false, true, false;
      var id := SetTimeout(AutoHide);
      timeoutId := Some(id);
    }

    /** hideModal: deactivate, mark aria-hidden, and schedule the untracked finish timer. */
    method Hide()
      requires Valid()
      modifies this
      ensures Valid()
      ensures !active && ariaHidden && hidden == old(hidden)
      ensures nameText == old(nameText) && messageText == old(messageText)
      ensures timeoutId == old(timeoutId) && nextId == old(nextId) + 1
      ensures pending == old(pending) + [Timer(old(nextId), FinishHide)]
    {
      active := false;
      ariaHidden := true;
      FinishScheduled(pending, timeoutId, nextId);
      var _ := SetTimeout(FinishHide);
    }

    /**
     * The event loop fires the pending timer at position `k`: an auto-hide
     * runs hideModal, a finish adds `hidden` whatever the overlay shows now.
     */
    method Fire(k: nat)
      requires Valid()
      requires k < |pending|
      modifies this
      ensures Valid()
      ensures nameText == old(nameText) && messageText == old(messageText)
      ensures timeoutId == old(timeoutId)
      ensures old(pending[k]).kind == AutoHide ==>
                && !active && ariaHidden && hidden == old(hidden)
                && nextId == old(nextId) + 1
                && pending == Without(old(pending), old(pending[k]).id) + [Timer(old(nextId), FinishHide)]
      ensures old(pending[k]).kind == FinishHide ==>
                && hidden && active == old(active) && ariaHidden == old(ariaHidden)
                && nextId == old(nextId)
                && pending == Without(old(pending), old(pending[k]).id)
    {
      var t := pending[k];
      Removed(pending, timeoutId, nextId, t.id);
      pending := Without(pending, t.id);
      if t.kind == AutoHide {
        Hide();
      } else {
        hidden := true;
      }
    }
  }

  // ------------------------------------------------------------ scenarios

  /**
   * Two shows in a row: the first show's auto-hide (handle 0) is cleared, so
   * the only pending timer is the second show's.
   */
  method ReshowLeavesOneAutoHide() returns (timers: seq<Timer>, visible: bool)
    ensures timers == [Timer(1, AutoHide)]
    ensures visible
  {
    var m := new ModalController();
    m.Show("Jo", 2, "deadlift");
    m.Show("Al", 1, "bench-press");
    timers := m.pending;
    visible := !m.hidden && m.active && !m.ariaHidden;
  }

  /**
   * The untracked 300 ms timer: the auto-hide fires, the modal is shown
   * again before the finish timer fires, and that stale timer then hides the
   * overlay while it is still active and announced as visible.
   */
  method StaleFinishHidesReshownModal() returns (hidden: bool, active: bool, ariaHidden: bool)
    ensures hidden && active && !ariaHidden
  {
    var m := new ModalController();
    m.Show("Jo", 2, "deadlift");
    assert m.pending == [Timer(0, AutoHide)];
    m.Fire(0);
    assert m.pending == [Timer(1, FinishHide)];
    m.Show("Al", 1, "bench-press");
    assert m.pending == [Timer(1, FinishHide), Timer(2, AutoHide)];
    m.Fire(0);
    hidden, active, ariaHidden := m.hidden, m.active, m.ariaHidden;
  }
}
