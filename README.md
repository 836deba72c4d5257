# ARTSideMenu controller model

A Dafny model of `ARTSideMenuController`, a UIKit container view controller.
It shows a content view and a menu view. The content view slides left to
reveal a menu of fixed width anchored at the right edge. Two pan recognizers
drive it: an edge pan from the right edge opens the menu, and a pan on the
view closes it. An invisible tap-catcher covers the content while the menu is
open, and a tap on it closes the menu. The public `showMenuAnimated` and
`hideMenuAnimated` calls force either state.

The repository holds three versions of the class. One model covers all three,
selected by `Gestures.Version`:

- `Storyboard` is `ARTSideMenu/ARTSideMenuController.swift`. It creates its recognizers in `viewDidLoad`.
- `Framework` is `ARTSideMenu/ARTSideMenu/ARTSideMenuController.swift`. It creates its recognizers in `init`.
- `Early` is `sidemenu/ARTSideMenuController.swift`. It has no `ignoreGestures` and a fixed 0.1 s animation. Its `menuWidth` is a plain stored property that does not re-lay out the menu.

The project has two modules:

- `gestures.dfy` (module `Gestures`) is pure. It holds the drag clamp, the release threshold, the menu frame, the gesture-relevant state `Drawer`, and a function per event. `Run` folds these over a sequence of events. The lemmas prove the invariants over any such sequence.
- `controller.dfy` (module `Controller`) holds the class `SideMenuController`. Its fields are the ones the source mutates: the content offset and frames, the tap-catcher's attachment, the recognizers' `enabled` flags, `menuWidth`, `animationDuration` and `ignoreGestures`. Each method states its new state through the functions of `Gestures`. The object invariant `Valid()` includes the mutual exclusion of the recognizers once the view is loaded.

`CGFloat` is modelled as `real`. The code only compares, negates, adds and
divides by 3. An animation is modelled as the immediate assignment of its
final offset. The requested duration is recorded in `lastAnimationDuration`.

Several behaviours of the code differ from what a drawer would usually do.
The model keeps them as the code has them:

- **No upper clamp.** A drawer would usually keep the offset in `[-menuWidth, 0]` during a drag. The code clamps only from below. A rightward edge pan, or a hide pan longer than the menu width, puts the content to the right of its closed position (`NoUpperClamp`).
- **Taps ignore the flag.** `ignoreGestures` stops only the two pan handlers. The outside tap still closes the menu, and show and hide still act (`IgnoreLeavesTapAndCallsActive`).
- **No relayout on resize.** None of the three versions re-lays out its containers when the view's size changes, for example on rotation.
- **Cancelled drags stay put.** A drag that is cancelled or fails after it began takes the `default` branch and changes nothing. The content stays where the finger left it, between the two rest positions, and the recognizers keep their flags. The controller is then neither fully open nor fully closed (`CancelledDragStaysMidway`).

The hide pan decides on the magnitude of the translation alone. A long drag to
the left, which pins the content at the open position, therefore closes the
menu on release (`LeftwardHideDragCloses`).

## Model

| member | source | states |
|---|---|---|
| `Gestures.MenuFrame` | ARTSideMenu/ARTSideMenuController.swift:113-114 | the menu frame's right edge equals the view's right edge; its width is `menuWidth`, its y is 0 and its height is the view's height (same frame in ARTSideMenu/ARTSideMenu/ARTSideMenuController.swift:87 and sidemenu/ARTSideMenuController.swift:51) |
| `Gestures.ShowPanOffset` | ARTSideMenu/ARTSideMenuController.swift:145-148 | the offset during an edge pan is the translation clamped from below at `-menuWidth`: never left of the open position, never left of the finger, and either the translation or `-menuWidth` |
| `Gestures.HidePanOffset` | ARTSideMenu/ARTSideMenuController.swift:167-170 | the offset during a hide pan is `-menuWidth` moved right by a positive translation; a leftward translation leaves it pinned at `-menuWidth`; it is never below `-menuWidth` |
| `Gestures.PastThreshold` | ARTSideMenu/ARTSideMenuController.swift:150 | a release counts as long exactly when the translation is at least `menuWidth/3` to either side, so the strict `<` makes equality long |
| `Gestures.ShowPanStep` | ARTSideMenu/ARTSideMenuController.swift:138-158 | with gestures ignored, or in a phase other than Began/Changed/Ended, nothing changes; Began/Changed set only the offset, to the clamped translation `ShowPanOffset`, which is at or above `-menuWidth`; Ended ends fully open if and only if the release was long, and fully closed otherwise |
| `Gestures.HidePanStep` | ARTSideMenu/ARTSideMenuController.swift:160-180 | the mirror of the edge pan: Began/Changed set only the offset, to `HidePanOffset` of the translation, which is at or above `-menuWidth`; Ended closes if and only if the release was long and reopens otherwise; nothing changes when ignored or in other phases |
| `Gestures.Step` | ARTSideMenu/ARTSideMenuController.swift:138-204 | every event keeps recognizer mutual exclusion; a tap, show or hide always leaves the controller fully open or fully closed; with gestures ignored a pan changes nothing |
| `Gestures.RunKeepsExclusive` | ARTSideMenu/ARTSideMenuController.swift:187-199 | after any sequence of events, exactly one recognizer is enabled and the tap-catcher is attached exactly while the hide recognizer is enabled, given that this held at the start (it holds after `viewDidLoad`) |
| `Gestures.RunKeepsLowerBound` | ARTSideMenu/ARTSideMenu/ARTSideMenuController.swift:119-122 | for a non-negative menu width, no sequence of events moves the content left of `-menuWidth` (both clamps, and show/hide targets, respect it; also lines 141-144) |
| `Gestures.IgnoredPansFreeze` | ARTSideMenu/ARTSideMenu/ARTSideMenuController.swift:112-154 | with `ignoreGestures` set, any sequence of pan callbacks leaves the whole state unchanged |
| `Gestures.IgnoreLeavesTapAndCallsActive` | ARTSideMenu/ARTSideMenuController.swift:202-204 | with `ignoreGestures` set, an outside tap still closes the menu and show/hide still open and close it |
| `Gestures.SettlesAfterRelease` | ARTSideMenu/ARTSideMenu/ARTSideMenuController.swift:123-128 | any history that ends with a released drag (gestures not ignored), a tap, a show or a hide leaves the controller fully open or fully closed |
| `Gestures.ShowHideIdempotent` | sidemenu/ARTSideMenuController.swift:105-123 | showing twice equals showing once, and hiding twice equals hiding once, from any state and with any animation flags |
| `Gestures.ReleaseIgnoresDirection` | sidemenu/ARTSideMenuController.swift:76-81 | the outcome of a release depends on the magnitude of the translation only, not its sign, for both recognizers (also lines 94-99) |
| `Gestures.ThresholdTieBreak` | ARTSideMenu/ARTSideMenuController.swift:171-176 | a release at exactly a third of the menu width is long: the edge pan opens and the hide pan closes (edge pan at lines 149-154) |
| `Gestures.CompleteDrag` | sidemenu/ARTSideMenuController.swift:69-103 | a whole Began/Changed/Ended edge drag from closed ends closed when shorter than `menuWidth/3` and open otherwise; a whole hide drag from open ends open when short and closed otherwise |
| `Gestures.CancelledDragStaysMidway` | ARTSideMenu/ARTSideMenuController.swift:155-156 | an edge drag that began and is then cancelled or fails leaves the content at the translation, with the closed state's flags, so the controller is neither open nor closed |
| `Gestures.NoUpperClamp` | sidemenu/ARTSideMenuController.swift:72-75 | a rightward edge pan puts the offset at the translation, right of the closed position; a hide pan longer than the menu width does the same (lines 90-93) |
| `Gestures.LeftwardHideDragCloses` | sidemenu/ARTSideMenuController.swift:90-99 | a hide pan dragged at least `menuWidth/3` to the left keeps the content at the open position while dragging, yet closes the menu on release |
| `Gestures.DurationChoice` | sidemenu/ARTSideMenuController.swift:106 | the early version animates for exactly 0.1 s whatever value is configured; no version animates when not asked to; the later versions use the configured `animationDuration` (ARTSideMenu/ARTSideMenuController.swift:183) |
| `Controller.SideMenuController.constructor` | ARTSideMenu/ARTSideMenu/ARTSideMenuController.swift:52-68 | default width 280 and duration 0.3, gestures not ignored. The framework and early versions create both recognizers and then read `view` (line 63; sidemenu/ARTSideMenuController.swift:34), which runs `viewDidLoad`. They therefore return loaded, laid out and closed, with only the edge recognizer enabled. The storyboard version returns with no recognizers and zero frames, not yet loaded (ARTSideMenu/ARTSideMenuController.swift:53-60) |
| `Controller.SideMenuController.SetMenuWidth` | ARTSideMenu/ARTSideMenuController.swift:15-19 | the width is stored; the two later versions move the menu frame to the right-aligned `MenuFrame` of the new width; the early version leaves the menu frame where it was (sidemenu/ARTSideMenuController.swift:13) |
| `Controller.SideMenuController.SetIgnoreGestures` | ARTSideMenu/ARTSideMenuController.swift:22 | the flag is stored; the early version has no such property |
| `Controller.SideMenuController.SetAnimationDuration` | ARTSideMenu/ARTSideMenuController.swift:20 | the duration is stored; the early version has no such property |
| `Controller.SideMenuController.ViewDidLoad` | ARTSideMenu/ARTSideMenuController.swift:69-79 | run once, when the view first loads: from the constructor in the framework and early versions, and by UIKit in the storyboard version; afterwards the controller is closed and the invariant `Valid()` holds: the content fills the view, the menu frame is right-aligned, the tap-catcher and child frames fill their containers, and there was no animation (same outcome as ARTSideMenu/ARTSideMenu/ARTSideMenuController.swift:75-81 and sidemenu/ARTSideMenuController.swift:44-67) |
| `Controller.SideMenuController.ConfigureGestureRecognizers` | ARTSideMenu/ARTSideMenuController.swift:97-106 | both recognizers exist and are enabled |
| `Controller.SideMenuController.ConfigureContainerViews` | ARTSideMenu/ARTSideMenu/ARTSideMenuController.swift:85-101 | the content frame is the full view at origin 0; the menu frame is `MenuFrame`; the tap-catcher and content child frames equal the content bounds; the menu child frame equals the menu bounds (ARTSideMenu/ARTSideMenuController.swift:108-127) |
| `Controller.SideMenuController.ShowMenuAnimated` | ARTSideMenu/ARTSideMenuController.swift:182-190 | the offset is `-menuWidth`, the tap-catcher is attached, the edge pan is disabled and the hide pan enabled, whatever the previous state (hence idempotent); only the content's x changes in its frame; the duration is `Duration(version, animated, animationDuration)` (ARTSideMenu/ARTSideMenu/ARTSideMenuController.swift:156-164, sidemenu/ARTSideMenuController.swift:105-113) |
| `Controller.SideMenuController.HideMenuAnimated` | ARTSideMenu/ARTSideMenuController.swift:192-200 | the offset is 0, the tap-catcher is detached, the edge pan is enabled and the hide pan disabled, whatever the previous state (hence idempotent); same duration rule (ARTSideMenu/ARTSideMenu/ARTSideMenuController.swift:166-174, sidemenu/ARTSideMenuController.swift:115-123) |
| `Controller.SideMenuController.HandleShowPan` | ARTSideMenu/ARTSideMenu/ARTSideMenuController.swift:112-132 | the new state is `ShowPanStep` of the old one, so all of its properties apply; only the content's x moves; an animation is requested exactly on a release that is not ignored |
| `Controller.SideMenuController.HandleHidePan` | ARTSideMenu/ARTSideMenu/ARTSideMenuController.swift:134-154 | the new state is `HidePanStep` of the old one; only the content's x moves; an animation is requested exactly on a release that is not ignored |
| `Controller.SideMenuController.OutsideViewTapped` | sidemenu/ARTSideMenuController.swift:125-127 | the controller ends closed, with an animation, even when gestures are ignored (ARTSideMenu/ARTSideMenuController.swift:202-204) |

## Left out

- Shadows (`shadowRadius`, `shadowOpacity`, `shadowOffset`, `shadowColor`, `configureShadow`) are left out. They only pass values to the content view's layer and change no state the controller reads.
- `sharedController`, the process-wide reference to the last controller created, is left out. It is global plumbing.
- Storyboard construction is left out: `init?(coder:)`, `configureChildControllersAfterStoryboardCreation` and its `assertionFailure`. So is the `fatalError` in the other versions' `init?(coder:)`. These are framework lookups.
- View and child-controller containment is left out: `addSubview`, `addChildViewController`, `didMoveToParentViewController`, the recognizers' `edges`, and target/action registration. Only the tap-catcher's attachment and the frames are modelled.
- Animation timing and easing (`animationOptions`) are left out. The animated offset is assigned at once, and the chosen duration is recorded.
- Gesture recognition itself is left out. The phase and the horizontal translation are inputs. UIKit delivers callbacks only to enabled recognizers and taps only to an attached tap-catcher. The model does not rely on this: its lemmas hold for any order of events.
- UIKit's lazy view loading is modelled only where `init` reads `view` (the framework and early versions): their constructor runs ViewDidLoad. Left out is the storyboard version's `menuWidth` setter run before the view is loaded, which would load it through its read of `view`. The model takes the view's bounds as fixed values given at construction.
- `SetMenuWidth` while the menu is open does not move the content view. The lower-bound lemma `RunKeepsLowerBound` is stated for a fixed menu width.
- Controller.SideMenuController.ShowMenuAnimated and HideMenuAnimated require `recognizersCreated`. In the storyboard version the recognizers are implicitly unwrapped optionals that stay nil until `viewDidLoad` creates them (ARTSideMenu/ARTSideMenuController.swift:50-51, 75, 98-103). A call before the view has loaded, for instance through `sharedController`, which `init` already sets, traps when it sets `enabled` (lines 188, 198). The model excludes that trap by this precondition instead of modelling the crash.
- Floating-point rounding of `CGFloat` is left out. It is modelled as exact `real`.
