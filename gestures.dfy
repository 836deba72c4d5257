/** The rules behind the side-menu controller's gestures, as pure functions:
    where a drag puts the content view, whether a released drag opens or closes
    the menu, where the menu container is laid out, and the state that each
    event (a pan phase, an outside tap, an explicit show or hide) leads to.
    The controller class in module Controller is proved against these. */
module Gestures {

  /** The three successive versions of ARTSideMenuController. */
  datatype Version =
    | Storyboard   // ARTSideMenu/ARTSideMenuController.swift: storyboard support, recognizers made in viewDidLoad
    | Framework    // ARTSideMenu/ARTSideMenu/ARTSideMenuController.swift: recognizers made in init
    | Early        // sidemenu/ARTSideMenuController.swift: no ignoreGestures, fixed 0.1 s animation, no width relayout

  /** The state a gesture recognizer reports to its action (UIGestureRecognizerState). */
  datatype Phase = Possible | Began | Changed | Ended | Cancelled | Failed

  /** A CGRect; CGFloat is modelled as `real`. */
  datatype Rect = Rect(x: real, y: real, width: real, height: real)

  /** A view's bounds: its frame's size at origin zero. */
  function Bounds(r: Rect): Rect {
    Rect(0.0, 0.0, r.width, r.height)
  }

  /** The full-size frame `CGRectMake(0, 0, width, height)` given to the content container. */
  function FullFrame(viewWidth: real, viewHeight: real): Rect {
    Rect(0.0, 0.0, viewWidth, viewHeight)
  }

  /** The menu container's frame: as wide as the menu and flush with the right edge of the view. */
  function MenuFrame(viewWidth: real, viewHeight: real, menuWidth: real): (r: Rect)
    ensures r.x + r.width == viewWidth
    ensures r.width == menuWidth && r.y == 0.0 && r.height == viewHeight
  {
    Rect(viewWidth - menuWidth, 0.0, menuWidth, viewHeight)
  }

  /** Swift's `abs` on CGFloat. */
  function Abs(x: real): (r: real)
    ensures r >= 0.0 && (r == x || r == -x)
  {
    if x < 0.0 then -x else x
  }

  /** The duration handed to the animation by show and hide: the configured
      `animationDuration` when animated, except in the early version, where it is a fixed 0.1 s. */
  function Duration(version: Version, animated: bool, configured: real): real {
    if !animated then 0.0 else if version == Early then 0.1 else configured
  }

  /** The part of the controller's state that gestures and show/hide change:
      the content view's horizontal offset (`contentView.frame.origin.x`),
      whether the invisible tap-catcher covers the content view, and the
      `enabled` flags of the edge (show) and hide pan recognizers. */
  datatype Drawer = Drawer(offset: real, tapCatcherAttached: bool, showPanEnabled: bool, hidePanEnabled: bool)

  /** The state `showMenuAnimated` leaves behind. */
  function Shown(menuWidth: real): Drawer {
    Drawer(-menuWidth, true, false, true)
  }

  /** The state `hideMenuAnimated` leaves behind. */
  function Hidden(): Drawer {
    Drawer(0.0, false, true, false)
  }

  predicate AtRest(d: Drawer, menuWidth: real) {
    d == Shown(menuWidth) || d == Hidden()
  }

  /** Exactly one recognizer is enabled, and the tap-catcher is attached exactly while the hide pan is enabled. */
  predicate Exclusive(d: Drawer) {
    d.showPanEnabled != d.hidePanEnabled && d.tapCatcherAttached == d.hidePanEnabled
  }

  /** Content offset while the edge pan is dragging: the translation, clamped from below only. */
  function ShowPanOffset(translation: real, menuWidth: real): (offset: real)
    ensures offset >= -menuWidth && offset >= translation
    ensures offset == translation || offset == -menuWidth
  {
    var originX := translation;
    if originX >= -menuWidth then originX else -menuWidth
  }

  /** Content offset while the hide pan is dragging: the open position moved by the
      translation, never further left than the open position. */
  function HidePanOffset(translation: real, menuWidth: real): (offset: real)
    ensures offset >= -menuWidth
    ensures translation >= 0.0 ==> offset == -menuWidth + translation
    ensures translation <= 0.0 ==> offset == -menuWidth
  {
    var originX := -menuWidth + translation;
    if originX >= -menuWidth then originX else -menuWidth
  }

  /** Whether a released drag travelled at least a third of the menu width,
      i.e. the negation of the source's `abs(translation.x) < menuWidth / 3`. */
  function PastThreshold(translation: real, menuWidth: real): (past: bool)
    ensures past <==> (translation <= -menuWidth / 3.0 || translation >= menuWidth / 3.0)
  {
    !(Abs(translation) < menuWidth / 3.0)
  }

  /** `handleShowPan`: what one callback of the edge recognizer does. */
  function ShowPanStep(d: Drawer, menuWidth: real, ignoreGestures: bool, phase: Phase, translation: real): (r: Drawer)
    ensures ignoreGestures || !(phase.Began? || phase.Changed? || phase.Ended?) ==> r == d
    ensures !ignoreGestures && (phase.Began? || phase.Changed?) ==>
              r == d.(offset := ShowPanOffset(translation, menuWidth)) && r.offset >= -menuWidth
    ensures !ignoreGestures && phase.Ended? ==>
              (r == Shown(menuWidth) <==> PastThreshold(translation, menuWidth)) &&
              (r == Hidden() <==> !PastThreshold(translation, menuWidth))
  {
    if ignoreGestures then d
    else match phase
      case Began | Changed => d.(offset := ShowPanOffset(translation, menuWidth))
      case Ended => if Abs(translation) < menuWidth / 3.0 then Hidden() else Shown(menuWidth)
      case _ => d
  }

  /** `handleHidePan`: what one callback of the hide recognizer does. */
  function HidePanStep(d: Drawer, menuWidth: real, ignoreGestures: bool, phase: Phase, translation: real): (r: Drawer)
    ensures ignoreGestures || !(phase.Began? || phase.Changed? || phase.Ended?) ==> r == d
    ensures !ignoreGestures && (phase.Began? || phase.Changed?) ==>
              r == d.(offset := HidePanOffset(translation, menuWidth)) && r.offset >= -menuWidth
    ensures !ignoreGestures && phase.Ended? ==>
              (r == Hidden() <==> PastThreshold(translation, menuWidth)) &&
              (r == Shown(menuWidth) <==> !PastThreshold(translation, menuWidth))
  {
    if ignoreGestures then d
    else match phase
      case Began | Changed => d.(offset := HidePanOffset(translation, menuWidth))
      case Ended => if Abs(translation) < menuWidth / 3.0 then Shown(menuWidth) else Hidden()
      case _ => d
  }

  /** The inputs the controller reacts to: recognizer callbacks, a tap on the
      tap-catcher, and the public show and hide calls. */
  datatype Event =
    | ShowPan(phase: Phase, translation: real)
    | HidePan(phase: Phase, translation: real)
    | OutsideTap
    | ShowMenu(animated: bool)
    | HideMenu(animated: bool)

  predicate IsPan(e: Event) {
    e.ShowPan? || e.HidePan?
  }

  /** The state after one event, for a fixed menu width and ignore flag. */
  function Step(d: Drawer, menuWidth: real, ignoreGestures: bool, e: Event): (r: Drawer)
    ensures Exclusive(d) ==> Exclusive(r)
    ensures !IsPan(e) ==> AtRest(r, menuWidth)
    ensures ignoreGestures && IsPan(e) ==> r == d
  {
    match e
    case ShowPan(phase, t) => ShowPanStep(d, menuWidth, ignoreGestures, phase, t)
    case HidePan(phase, t) => HidePanStep(d, menuWidth, ignoreGestures, phase, t)
    case OutsideTap => Hidden()
    case ShowMenu(_) => Shown(menuWidth)
    case HideMenu(_) => Hidden()
  }

  /** The state after a sequence of events, delivered in order. */
  function Run(d: Drawer, menuWidth: real, ignoreGestures: bool, events: seq<Event>): Drawer
    decreases |events|
  {
    if events == [] then d
    else Run(Step(d, menuWidth, ignoreGestures, events[0]), menuWidth, ignoreGestures, events[1..])
  }

  // ---------------------------------------------------------------------------
  // Properties of the gesture rules

  /** Running a sequence and then one more event is one step past the sequence. */
  lemma {:induction false} RunSnoc(d: Drawer, menuWidth: real, ignoreGestures: bool, events: seq<Event>, e: Event)
    ensures Run(d, menuWidth, ignoreGestures, events + [e])
         == Step(Run(d, menuWidth, ignoreGestures, events), menuWidth, ignoreGestures, e)
    decreases |events|
  {
    if events == [] {
      assert events + [e] == [e];
    } else {
      assert (events + [e])[1..] == events[1..] + [e];
      RunSnoc(Step(d, menuWidth, ignoreGestures, events[0]), menuWidth, ignoreGestures, events[1..], e);
    }
  }

  /** Recognizer mutual exclusion, and the tap-catcher following the hide
      recognizer, hold after any sequence of events once they hold at the start. */
  lemma {:induction false} RunKeepsExclusive(d: Drawer, menuWidth: real, ignoreGestures: bool, events: seq<Event>)
    requires Exclusive(d)
    ensures Exclusive(Run(d, menuWidth, ignoreGestures, events))
    decreases |events|
  {
    if events != [] {
      RunKeepsExclusive(Step(d, menuWidth, ignoreGestures, events[0]), menuWidth, ignoreGestures, events[1..]);
    }
  }

  /** The content view never goes further left than the fully open position,
      whatever events arrive (for a non-negative menu width). */
  lemma {:induction false} RunKeepsLowerBound(d: Drawer, menuWidth: real, ignoreGestures: bool, events: seq<Event>)
    requires menuWidth >= 0.0 && d.offset >= -menuWidth
    ensures Run(d, menuWidth, ignoreGestures, events).offset >= -menuWidth
    decreases |events|
  {
    if events != [] {
      var next := Step(d, menuWidth, ignoreGestures, events[0]);
      assert next.offset >= -menuWidth;
      RunKeepsLowerBound(next, menuWidth, ignoreGestures, events[1..]);
    }
  }

  /** With `ignoreGestures` set, no sequence of pan callbacks changes anything. */
  lemma {:induction false} IgnoredPansFreeze(d: Drawer, menuWidth: real, events: seq<Event>)
    requires forall i :: 0 <= i < |events| ==> IsPan(events[i])
    ensures Run(d, menuWidth, true, events) == d
    decreases |events|
  {
    if events != [] {
      assert IsPan(events[0]);
      IgnoredPansFreeze(d, menuWidth, events[1..]);
    }
  }

  /** With `ignoreGestures` set, an outside tap and the explicit show and hide still act. */
  lemma IgnoreLeavesTapAndCallsActive(d: Drawer, menuWidth: real, animated: bool)
    ensures Step(d, menuWidth, true, OutsideTap) == Hidden()
    ensures Step(d, menuWidth, true, ShowMenu(animated)) == Shown(menuWidth)
    ensures Step(d, menuWidth, true, HideMenu(animated)) == Hidden()
  {
  }

  /** Once a sequence ends with a released drag (gestures not ignored), a tap, or
      a show or hide, the controller is at rest: fully open or fully closed. */
  lemma SettlesAfterRelease(d: Drawer, menuWidth: real, ignoreGestures: bool, events: seq<Event>, e: Event)
    requires !IsPan(e) || (!ignoreGestures && e.phase.Ended?)
    ensures AtRest(Run(d, menuWidth, ignoreGestures, events + [e]), menuWidth)
  {
    RunSnoc(d, menuWidth, ignoreGestures, events, e);
  }

  /** Showing or hiding twice is the same as doing it once, from any state. */
  lemma ShowHideIdempotent(d: Drawer, menuWidth: real, ignoreGestures: bool, a: bool, b: bool)
    ensures Run(d, menuWidth, ignoreGestures, [ShowMenu(a), ShowMenu(b)]) == Run(d, menuWidth, ignoreGestures, [ShowMenu(b)])
    ensures Run(d, menuWidth, ignoreGestures, [HideMenu(a), HideMenu(b)]) == Run(d, menuWidth, ignoreGestures, [HideMenu(b)])
  {
    assert [ShowMenu(a), ShowMenu(b)][1..] == [ShowMenu(b)];
    assert [HideMenu(a), HideMenu(b)][1..] == [HideMenu(b)];
  }

  /** Release decides by magnitude only: the sign of the translation does not matter. */
  lemma ReleaseIgnoresDirection(d: Drawer, menuWidth: real, translation: real)
    ensures ShowPanStep(d, menuWidth, false, Ended, translation) == ShowPanStep(d, menuWidth, false, Ended, -translation)
    ensures HidePanStep(d, menuWidth, false, Ended, translation) == HidePanStep(d, menuWidth, false, Ended, -translation)
  {
  }

  /** A drag of exactly a third of the menu width is not "short": the edge pan
      opens and the hide pan closes. */
  lemma ThresholdTieBreak(d: Drawer, menuWidth: real)
    ensures ShowPanStep(d, menuWidth, false, Ended, -menuWidth / 3.0) == Shown(menuWidth)
    ensures HidePanStep(d, menuWidth, false, Ended, menuWidth / 3.0) == Hidden()
  {
  }

  /** A whole edge-pan drag (began, changed, ended at the same translation)
      from the closed state snaps back when short and opens otherwise; a whole
      hide-pan drag from the open state mirrors it. */
  lemma CompleteDrag(menuWidth: real, t: real)
    ensures Run(Hidden(), menuWidth, false, [ShowPan(Began, t), ShowPan(Changed, t), ShowPan(Ended, t)])
         == (if Abs(t) < menuWidth / 3.0 then Hidden() else Shown(menuWidth))
    ensures Run(Shown(menuWidth), menuWidth, false, [HidePan(Began, t), HidePan(Changed, t), HidePan(Ended, t)])
         == (if Abs(t) < menuWidth / 3.0 then Shown(menuWidth) else Hidden())
  {
    var showDrag := [ShowPan(Began, t), ShowPan(Changed, t), ShowPan(Ended, t)];
    var hideDrag := [HidePan(Began, t), HidePan(Changed, t), HidePan(Ended, t)];
    RunSnoc(Hidden(), menuWidth, false, showDrag[..2], showDrag[2]);
    RunSnoc(Shown(menuWidth), menuWidth, false, hideDrag[..2], hideDrag[2]);
    assert showDrag[..2] + [showDrag[2]] == showDrag;
    assert hideDrag[..2] + [hideDrag[2]] == hideDrag;
  }

  /** There is no upper clamp: dragging the edge pan rightwards, or the hide pan
      further right than the menu width, moves the content view past its closed position. */
  lemma NoUpperClamp(menuWidth: real, t: real)
    requires menuWidth >= 0.0 && t > 0.0
    ensures ShowPanStep(Hidden(), menuWidth, false, Changed, t).offset == t
    ensures HidePanStep(Shown(menuWidth), menuWidth, false, Changed, menuWidth + t).offset == t
  {
  }

  /** A drag that is cancelled or fails after it began is not settled: the
      content stays where the finger left it, between the two rest positions,
      and the recognizers keep their flags. */
  lemma CancelledDragStaysMidway(menuWidth: real, t: real, phase: Phase)
    requires menuWidth > 0.0 && -menuWidth < t < 0.0
    requires phase.Cancelled? || phase.Failed?
    ensures Run(Hidden(), menuWidth, false, [ShowPan(Began, t), ShowPan(phase, t)]) == Hidden().(offset := t)
    ensures !AtRest(Run(Hidden(), menuWidth, false, [ShowPan(Began, t), ShowPan(phase, t)]), menuWidth)
  {
    var events := [ShowPan(Began, t), ShowPan(phase, t)];
    var began := Step(Hidden(), menuWidth, false, events[0]);
    assert began == Hidden().(offset := t);
    assert events[1..] == [ShowPan(phase, t)] && events[1..][1..] == [];
    assert Step(began, menuWidth, false, ShowPan(phase, t)) == began;
    assert Run(began, menuWidth, false, events[1..])
        == Run(began, menuWidth, false, events[1..][1..]);
  }

  /** The hide pan closes the menu after a long drag in either direction, even
      one to the left, where the content view stayed pinned at the open position. */
  lemma LeftwardHideDragCloses(menuWidth: real, t: real)
    requires menuWidth >= 0.0 && t <= -menuWidth / 3.0
    ensures HidePanStep(Shown(menuWidth), menuWidth, false, Changed, t) == Shown(menuWidth)
    ensures HidePanStep(Shown(menuWidth), menuWidth, false, Ended, t) == Hidden()
  {
  }

  /** The early version animates for a fixed 0.1 s whatever the configuration; no version animates when not asked to. */
  lemma DurationChoice(version: Version, animated: bool, configured: real, other: real)
    ensures Duration(Early, animated, configured) == Duration(Early, animated, other)
    ensures animated ==> Duration(Early, animated, configured) == 0.1
    ensures Duration(version, false, configured) == 0.0
    ensures version != Early && animated ==> Duration(version, animated, configured) == configured
  {
  }
}
