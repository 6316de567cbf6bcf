/**
 * The earlier top-level program (melange.py): an unclamped widget registry, the overlay mode toggle
 * and the edit-mode flag driven by the middle mouse button. Notifications and calls into foreign
 * objects are kept in ghost logs, in the order they happen.
 */
module Legacy {
  import opened Wrappers
  import opened Widgets
  import Registry

  const MOUSE_BUTTON_MIDDLE: int := 2

  datatype Mode = ModeNormal | ModeEdit

  datatype EditMode = EditModeNone | EditModeMove

  datatype Effect =
    | WindowAdded(w: Widget)
    | WindowRemoved(w: Widget)
    | CalledRemove(w: Widget)

  /** `WidgetManager` (its subclass `CommonWidgetManager` overrides `move_request_cb` with the same body). */
  class WidgetManager {
    var widgets: map<string, Widget>
    ghost var effects: seq<Effect>

    constructor ()
      ensures widgets == map[] && effects == []
    {
      widgets, effects := map[], [];
    }

    /**
     * `add`: stores the widget under its instance id (replacing any earlier entry), subscribes to
     * its move and remove requests, moves it only when both coordinates are truthy and emits
     * `window-added`.
     */
    method Add(widget: Widget, x: Option<int>, y: Option<int>)
      requires widget.Valid()
      modifies this`widgets, this`effects, widget`handlers, widget`nextHandler, widget`x, widget`y
      ensures widget.Valid()
      ensures widgets == old(widgets)[widget.instanceId := widget]
      ensures exists hMove: nat, hRemove: nat :: hMove != hRemove && hMove !in old(widget.handlers) &&
                hRemove !in old(widget.handlers) &&
                widget.handlers == old(widget.handlers)[hMove := Signal.MoveRequest][hRemove := Signal.RemoveRequest]
      ensures Registry.Truthy(x) && Registry.Truthy(y) ==> widget.x == x.value && widget.y == y.value
      ensures !(Registry.Truthy(x) && Registry.Truthy(y)) ==> widget.x == old(widget.x) && widget.y == old(widget.y)
      ensures effects == old(effects) + [WindowAdded(widget)]
    {
      widgets := widgets[widget.instanceId := widget];
      var hMove := widget.Connect(Signal.MoveRequest);
      var hRemove := widget.Connect(Signal.RemoveRequest);
      if x.Some? && x.value != 0 && y.Some? && y.value != 0 {
        widget.SetPosition(x.value, y.value);
      }
      effects := effects + [WindowAdded(widget)];
    }

    /** `move_request_cb`: the widget moves by exactly the requested delta, with no bound. */
    method MoveRequest(widget: Widget, dx: int, dy: int)
      modifies widget`x, widget`y
      ensures widget.x == old(widget.x) + dx && widget.y == old(widget.y) + dy
    {
      var newX := widget.x + dx;
      var newY := widget.y + dy;
      widget.SetPosition(newX, newY);
    }

    /** `remove`: deletes the widget's instance id; a `KeyError` (`removed` false) when it is absent. */
    method Remove(widget: Widget) returns (removed: bool)
      modifies this`widgets
      ensures removed <==> widget.instanceId in old(widgets)
      ensures widgets == old(widgets) - {widget.instanceId}
    {
      removed := widget.instanceId in widgets;
      if removed {
        widgets := widgets - {widget.instanceId};
      }
    }

    /**
     * `remove_request_cb`: emits `window-removed`, tells the widget to remove itself, and only then
     * removes it from the registry.
     */
    method RemoveRequest(widget: Widget) returns (removed: bool)
      modifies this`widgets, this`effects
      ensures effects == old(effects) + [WindowRemoved(widget), CalledRemove(widget)]
      ensures removed <==> widget.instanceId in old(widgets)
      ensures widgets == old(widgets) - {widget.instanceId}
    {
      effects := effects + [WindowRemoved(widget)];
      effects := effects + [CalledRemove(widget)];
      removed := Remove(widget);
    }
  }

  /** The other mode of the overlay toggle. */
  function Toggled(m: Mode): (r: Mode)
    ensures r != m
  {
    if m == ModeNormal then ModeEdit else ModeNormal
  }

  /** Two toggles give back the mode one started from. */
  lemma ToggleTwice(m: Mode)
    ensures Toggled(Toggled(m)) == m
  {
  }

  /** A call the legacy program makes into its chrome, the screen or a widget window. */
  datatype Chrome =
    | SlideIn
    | SlideOut
    | ShowingDesktop(on: bool)
    | ShowBackground
    | HideBackground
    | AcceptFocus(w: Widget)
    | Present(w: Widget)
    | StartMove(w: Widget)  // the first `move_cb` round's `set_position`, by the pointer's drift

  /**
   * How `button_press_cb` ends: it returns `None` (the event is not consumed), or `start_move`
   * raises `AttributeError` out of the callback.
   */
  datatype PressOutcome = NotConsumed | MoveFailed

  /** The mode state of `Melange` in melange.py. */
  class Melange {
    var mode: Mode
    var editMode: EditMode
    ghost var chrome: seq<Chrome>

    constructor ()
      ensures mode == ModeNormal && editMode == EditModeNone && chrome == []
    {
      mode, editMode, chrome := ModeNormal, EditModeNone, [];
    }

    /** `toggle_overlay`: flips between the normal and the edit mode, showing or hiding the chrome. */
    method ToggleOverlay()
      modifies this`mode, this`chrome
      ensures mode == Toggled(old(mode))
      ensures old(mode) == ModeNormal ==> chrome == old(chrome) + [SlideIn, ShowingDesktop(true), ShowBackground]
      ensures old(mode) == ModeEdit ==> chrome == old(chrome) + [SlideOut, ShowingDesktop(false), HideBackground]
    {
      if mode == ModeNormal {
        mode := ModeEdit;
        chrome := chrome + [SlideIn, ShowingDesktop(true), ShowBackground];
      } else {
        mode := ModeNormal;
        chrome := chrome + [SlideOut, ShowingDesktop(false), HideBackground];
      }
    }

    /**
     * `button_press_cb`: focuses the widget's window; in edit mode the middle button sets the edit
     * mode to move and calls `start_move`. Its first `move_cb` round moves the widget by the pointer's
     * drift and then asks the registry for `iteritems`, which the registry does not have, so the
     * `AttributeError` propagates and `return True` is never reached.
     */
    method ButtonPress(widget: Widget, button: int) returns (outcome: PressOutcome)
      modifies this`editMode, this`chrome
      ensures outcome == MoveFailed <==> old(mode) == ModeEdit && button == MOUSE_BUTTON_MIDDLE
      ensures editMode == if outcome == MoveFailed then EditModeMove else old(editMode)
      ensures chrome == old(chrome) + [AcceptFocus(widget), Present(widget)] +
                        (if outcome == MoveFailed then [StartMove(widget)] else [])
    {
      chrome := chrome + [AcceptFocus(widget), Present(widget)];
      outcome := NotConsumed;
      if mode == ModeEdit && button == MOUSE_BUTTON_MIDDLE {
        editMode := EditModeMove;
        chrome := chrome + [StartMove(widget)];
        outcome := MoveFailed;
      }
    }

    /** `button_release_cb`: releasing the middle button ends any move; other buttons change nothing. */
    method ButtonRelease(button: int) returns (handled: bool)
      modifies this`editMode
      ensures handled <==> button == MOUSE_BUTTON_MIDDLE
      ensures editMode == if handled then EditModeNone else old(editMode)
    {
      handled := false;
      if button == MOUSE_BUTTON_MIDDLE {
        editMode := EditModeNone;
        handled := true;
      }
    }
  }

  /** Toggling the overlay twice restores the mode; the chrome is shown and hidden again. */
  method ToggleOverlayTwice(m: Melange)
    modifies m`mode, m`chrome
    ensures m.mode == old(m.mode)
  {
    m.ToggleOverlay();
    m.ToggleOverlay();
    ToggleTwice(old(m.mode));
  }
}
