/** ARTSideMenuController: the container view controller that slides its content
    view left to reveal a right-hand menu. One class covers the three versions of
    the source; `version` selects what differs between them. Each method states
    its new state through the functions of module Gestures. */
module Controller {
  import opened Gestures

  class SideMenuController {
    const version: Version
    /** `view.bounds` of the controller's root view. */
    const viewWidth: real
    const viewHeight: real

    var menuWidth: real
    /** `animationDuration`; the early version has no such property and always animates for 0.1 s. */
    var animationDuration: real
    /** `ignoreGestures`; absent (always false) in the early version. */
    var ignoreGestures: bool

    var contentFrame: Rect        // contentView.frame; its x is the offset the gestures move
    var menuFrame: Rect           // menuView.frame
    var tapCatcherFrame: Rect     // outsideTapView.frame
    var contentChildFrame: Rect   // contentController.view.frame
    var menuChildFrame: Rect      // menuController.view.frame
    var tapCatcherAttached: bool  // outsideTapView is a subview of contentView
    var recognizersCreated: bool  // the two pan recognizers exist (they are implicitly unwrapped optionals)
    var showPanEnabled: bool      // showPanGestureRecognizer.enabled
    var hidePanEnabled: bool      // hidePanGestureRecognizer.enabled
    var viewLoaded: bool          // viewDidLoad has run
    var lastAnimationDuration: real  // the duration passed to the latest UIView.animateWithDuration

    /** The gesture-relevant part of the state. */
    function State(): Drawer
      reads this
    {
      Drawer(contentFrame.x, tapCatcherAttached, showPanEnabled, hidePanEnabled)
    }

    /** The object invariant: the early version has no ignore flag, the framework
        and early versions create their recognizers in init, and once the view is
        loaded exactly one recognizer is enabled and the tap-catcher is attached
        exactly while the hide recognizer is. */
    ghost predicate Valid()
      reads this
    {
      (version == Early ==> !ignoreGestures) &&
      (version != Storyboard ==> recognizersCreated) &&
      (viewLoaded ==> recognizersCreated && Exclusive(State()))
    }

    /** `init(contentController:menuController:)`. The framework and early
        versions create both pan recognizers (enabled, as UIKit makes them) and then
        read `view` to attach the hide recognizer; that first read loads the view,
        so UIKit runs `viewDidLoad` before `init` returns and the controller comes
        back laid out and closed. The storyboard version neither creates the
        recognizers nor touches `view`: its container views keep a zero frame until
        UIKit loads the view and calls ViewDidLoad. */
    constructor (version: Version, viewWidth: real, viewHeight: real)
      ensures Valid()
      ensures this.version == version && this.viewWidth == viewWidth && this.viewHeight == viewHeight
      ensures menuWidth == 280.0 && animationDuration == 0.3 && !ignoreGestures
      ensures recognizersCreated == viewLoaded == (version != Storyboard)
      ensures version == Storyboard ==>
                !tapCatcherAttached && contentFrame == Rect(0.0, 0.0, 0.0, 0.0) &&
                menuFrame == Rect(0.0, 0.0, 0.0, 0.0)
      ensures version != Storyboard ==>
                State() == Hidden() &&
                contentFrame == FullFrame(viewWidth, viewHeight) &&
                menuFrame == MenuFrame(viewWidth, viewHeight, 280.0) &&
                tapCatcherFrame == Bounds(contentFrame) && contentChildFrame == Bounds(contentFrame) &&
                menuChildFrame == Bounds(menuFrame) && lastAnimationDuration == 0.0
    {
      this.version := version;
      this.viewWidth := viewWidth;
      this.viewHeight := viewHeight;
      menuWidth := 280.0;
      animationDuration := 0.3;
      ignoreGestures := false;
      var zero := Rect(0.0, 0.0, 0.0, 0.0);
      contentFrame, menuFrame, tapCatcherFrame := zero, zero, zero;
      contentChildFrame, menuChildFrame := zero, zero;
      tapCatcherAttached := false;
      recognizersCreated := version != Storyboard;
      showPanEnabled, hidePanEnabled := recognizersCreated, recognizersCreated;
      viewLoaded := false;
      lastAnimationDuration := 0.0;
      new;
      if version != Storyboard {
        // `view.addGestureRecognizer(hidePanGestureRecognizer)` loads the view
        ViewDidLoad();
      }
    }

    /** The `menuWidth` setter. The two later versions move the menu container
        so that it stays flush with the right edge; the early version only stores the width. */
    method SetMenuWidth(w: real)
      requires Valid()
      modifies this`menuWidth, this`menuFrame
      ensures Valid()
      ensures menuWidth == w
      ensures version != Early ==> menuFrame == MenuFrame(viewWidth, viewHeight, w)
      ensures version == Early ==> menuFrame == old(menuFrame)
    {
      menuWidth := w;
      if version != Early {
        menuFrame := Rect(viewWidth - menuWidth, 0.0, menuWidth, viewHeight);
      }
    }

    /** The `ignoreGestures` setter (later versions only). */
    method SetIgnoreGestures(ignore: bool)
      requires Valid() && version != Early
      modifies this`ignoreGestures
      ensures Valid() && ignoreGestures == ignore
    {
      ignoreGestures := ignore;
    }

    /** The `animationDuration` setter (later versions only). */
    method SetAnimationDuration(d: real)
      requires Valid() && version != Early
      modifies this`animationDuration
      ensures Valid() && animationDuration == d
    {
      animationDuration := d;
    }

    /** `viewDidLoad`: make the recognizers (storyboard version), lay out the
        containers, and close the menu without animation. UIKit calls it once. */
    method ViewDidLoad()
      requires Valid() && !viewLoaded
      modifies this
      ensures Valid() && viewLoaded
      ensures State() == Hidden()
      ensures contentFrame == FullFrame(viewWidth, viewHeight)
      ensures menuFrame == MenuFrame(viewWidth, viewHeight, menuWidth)
      ensures tapCatcherFrame == Bounds(contentFrame) && contentChildFrame == Bounds(contentFrame)
      ensures menuChildFrame == Bounds(menuFrame)
      ensures lastAnimationDuration == 0.0
      ensures menuWidth == old(menuWidth) && animationDuration == old(animationDuration)
      ensures ignoreGestures == old(ignoreGestures)
    {
      if version == Storyboard {
        ConfigureGestureRecognizers();
      }
      ConfigureContainerViews();
      HideMenuAnimated(false);
      viewLoaded := true;
    }

    /** `configureGestureRecognizers` (storyboard version): create both recognizers, enabled. */
    method ConfigureGestureRecognizers()
      requires Valid() && !viewLoaded
      modifies this`recognizersCreated, this`showPanEnabled, this`hidePanEnabled
      ensures Valid()
      ensures recognizersCreated && showPanEnabled && hidePanEnabled
    {
      recognizersCreated := true;
      showPanEnabled := true;
      hidePanEnabled := true;
    }

    /** `configureContainerViews`: the content container fills the view, the menu
        container is flush right and `menuWidth` wide, and the tap-catcher and the
        two child views fill their containers. */
    method ConfigureContainerViews()
      requires Valid() && !viewLoaded
      modifies this`contentFrame, this`menuFrame, this`tapCatcherFrame, this`contentChildFrame, this`menuChildFrame
      ensures Valid()
      ensures contentFrame == FullFrame(viewWidth, viewHeight)
      ensures menuFrame == MenuFrame(viewWidth, viewHeight, menuWidth)
      ensures tapCatcherFrame == Bounds(contentFrame) && contentChildFrame == Bounds(contentFrame)
      ensures menuChildFrame == Bounds(menuFrame)
    {
      menuFrame := Rect(viewWidth - menuWidth, 0.0, menuWidth, viewHeight);
      menuChildFrame := Bounds(menuFrame);
      contentFrame := Rect(0.0, 0.0, viewWidth, viewHeight);
      contentChildFrame := Bounds(contentFrame);
      tapCatcherFrame := Bounds(contentFrame);
    }

    /** `showMenuAnimated`: slide the content fully left, cover it with the
        tap-catcher, and swap which recognizer is enabled. The new state does not
        depend on the old one, so showing twice is the same as showing once. */
    method ShowMenuAnimated(animated: bool)
      requires Valid() && recognizersCreated
      modifies this`contentFrame, this`tapCatcherAttached, this`showPanEnabled, this`hidePanEnabled,
               this`lastAnimationDuration
      ensures Valid()
      ensures State() == Shown(menuWidth)
      ensures contentFrame == old(contentFrame).(x := -menuWidth)
      ensures lastAnimationDuration == Duration(version, animated, animationDuration)
    {
      var duration := if animated then (if version == Early then 0.1 else animationDuration) else 0.0;
      lastAnimationDuration := duration;
      contentFrame := contentFrame.(x := -menuWidth);
      tapCatcherAttached := true;
      showPanEnabled := false;
      hidePanEnabled := true;
    }

    /** `hideMenuAnimated`: slide the content back to the origin, remove the
        tap-catcher, and swap which recognizer is enabled; idempotent like show. */
    method HideMenuAnimated(animated: bool)
      requires Valid() && recognizersCreated
      modifies this`contentFrame, this`tapCatcherAttached, this`showPanEnabled, this`hidePanEnabled,
               this`lastAnimationDuration
      ensures Valid()
      ensures State() == Hidden()
      ensures contentFrame == old(contentFrame).(x := 0.0)
      ensures lastAnimationDuration == Duration(version, animated, animationDuration)
    {
      var duration := if animated then (if version == Early then 0.1 else animationDuration) else 0.0;
      lastAnimationDuration := duration;
      contentFrame := contentFrame.(x := 0.0);
      tapCatcherAttached := false;
      showPanEnabled := true;
      hidePanEnabled := false;
    }

    /** `handleShowPan`: the edge recognizer's action. While dragging it moves the
        content with the finger, never past the open position; on release it
        opens or closes by comparing the distance with a third of the menu width. */
    method HandleShowPan(phase: Phase, translation: real)
      requires Valid() && recognizersCreated
      modifies this`contentFrame, this`tapCatcherAttached, this`showPanEnabled, this`hidePanEnabled,
               this`lastAnimationDuration
      ensures Valid()
      ensures State() == ShowPanStep(old(State()), menuWidth, ignoreGestures, phase, translation)
      ensures contentFrame == old(contentFrame).(x := State().offset)
      ensures lastAnimationDuration ==
                if !ignoreGestures && phase.Ended? then Duration(version, true, animationDuration)
                else old(lastAnimationDuration)
    {
      if ignoreGestures {
        return;
      }
      match phase {
        case Began | Changed =>
          var originX := translation;
          originX := if originX >= -menuWidth then originX else -menuWidth;
          contentFrame := contentFrame.(x := originX);
        case Ended =>
          if Abs(translation) < menuWidth / 3.0 {
            HideMenuAnimated(true);
          } else {
            ShowMenuAnimated(true);
          }
        case _ =>
      }
    }

    /** `handleHidePan`: the hide recognizer's action, the mirror of HandleShowPan
        starting from the open position. */
    method HandleHidePan(phase: Phase, translation: real)
      requires Valid() && recognizersCreated
      modifies this`contentFrame, this`tapCatcherAttached, this`showPanEnabled, this`hidePanEnabled,
               this`lastAnimationDuration
      ensures Valid()
      ensures State() == HidePanStep(old(State()), menuWidth, ignoreGestures, phase, translation)
      ensures contentFrame == old(contentFrame).(x := State().offset)
      ensures lastAnimationDuration ==
                if !ignoreGestures && phase.Ended? then Duration(version, true, animationDuration)
                else old(lastAnimationDuration)
    {
      if ignoreGestures {
        return;
      }
      match phase {
        case Began | Changed =>
          var originX := -menuWidth + translation;
          originX := if originX >= -menuWidth then originX else -menuWidth;
          contentFrame := contentFrame.(x := originX);
        case Ended =>
          if Abs(translation) < menuWidth / 3.0 {
            ShowMenuAnimated(true);
          } else {
            HideMenuAnimated(true);
          }
        case _ =>
      }
    }

    /** `outsideViewTapped`: a tap on the tap-catcher closes the menu, animated,
        whether or not gestures are ignored. */
    method OutsideViewTapped()
      requires Valid() && recognizersCreated
      modifies this`contentFrame, this`tapCatcherAttached, this`showPanEnabled, this`hidePanEnabled,
               this`lastAnimationDuration
      ensures Valid()
      ensures State() == Step(old(State()), menuWidth, ignoreGestures, OutsideTap) == Hidden()
      ensures contentFrame == old(contentFrame).(x := 0.0)
      ensures lastAnimationDuration == Duration(version, true, animationDuration)
    {
      HideMenuAnimated(true);
    }
  }
}
