/**
 * The widget registry (`WidgetManager`, src/melange.py): a map from instance id to widget and a map
 * from widget to the ids of the five subscriptions made on it, wired to the primary widget layer.
 * Notifications it emits and the calls it makes into widgets are kept in the ghost log `effects`.
 */
module Registry {
  import opened Wrappers
  import opened Widgets
  import Layer

  function Max(a: int, b: int): int
  {
    if a >= b then a else b
  }

  function Min(a: int, b: int): int
  {
    if a <= b then a else b
  }

  function Abs(a: int): int
  {
    if a >= 0 then a else -a
  }

  /**
   * One coordinate of `move_request_cb`: `max(0, min(start + delta, screen - size))`. The result
   * always lies in `[0, max(0, screen - size)]`; a target inside `[0, screen - size]` is kept as it
   * is, one before it goes to 0 and one beyond it to the far edge (to 0 when the widget is larger
   * than the screen).
   */
  function Clamp(start: int, delta: int, screen: int, size: int): (r: int)
    ensures 0 <= r <= Max(0, screen - size)
    ensures 0 <= start + delta <= screen - size ==> r == start + delta
    ensures start + delta < 0 ==> r == 0
    ensures start + delta > screen - size ==> r == Max(0, screen - size)
  {
    Max(0, Min(start + delta, screen - size))
  }

  /** When the widget fits on the screen, the clamped position is the on-screen position nearest the target. */
  lemma ClampIsNearest(start: int, delta: int, screen: int, size: int, p: int)
    requires 0 <= p <= screen - size
    ensures Abs(Clamp(start, delta, screen, size) - (start + delta)) <= Abs(p - (start + delta))
  {
  }

  /** A clamped position is left in place by a zero move. */
  lemma ClampStable(start: int, delta: int, screen: int, size: int)
    ensures Clamp(Clamp(start, delta, screen, size), 0, screen, size) == Clamp(start, delta, screen, size)
  {
  }

  /** Python truthiness of an optional coordinate, as in `if x and y`. */
  predicate Truthy(v: Option<int>)
  {
    v.Some? && v.value != 0
  }

  /** The handler ids `add` records for a widget, one per signal. */
  datatype Handlers = Handlers(raiseRequest: nat, endMove: nat, moveRequest: nat, removeRequest: nat, reloadRequest: nat)

  /** The five ids are distinct and none was in use before. */
  predicate FreshIds(hs: Handlers, before: map<nat, Signal>)
  {
    && hs.raiseRequest !in before && hs.endMove !in before && hs.moveRequest !in before
    && hs.removeRequest !in before && hs.reloadRequest !in before
    && hs.raiseRequest != hs.endMove && hs.raiseRequest != hs.moveRequest
    && hs.raiseRequest != hs.removeRequest && hs.raiseRequest != hs.reloadRequest
    && hs.endMove != hs.moveRequest && hs.endMove != hs.removeRequest && hs.endMove != hs.reloadRequest
    && hs.moveRequest != hs.removeRequest && hs.moveRequest != hs.reloadRequest
    && hs.removeRequest != hs.reloadRequest
  }

  /** The live subscriptions after `add` connected the five handlers `hs`. */
  function Subscribed(before: map<nat, Signal>, hs: Handlers): map<nat, Signal>
  {
    before[hs.raiseRequest := RaiseRequest][hs.endMove := EndMove][hs.moveRequest := MoveRequest]
          [hs.removeRequest := RemoveRequest][hs.reloadRequest := ReloadRequest]
  }

  /** The ids `remove` disconnects: all but the reload-request one. */
  function Disconnected(hs: Handlers): set<nat>
  {
    {hs.raiseRequest, hs.endMove, hs.moveRequest, hs.removeRequest}
  }

  datatype Effect =
    | WidgetAdded(w: Widget)
    | WidgetRemoved(w: Widget)
    | CalledRemove(w: Widget)
    | CalledLoad(w: Widget)

  /** How a callback ended: normally, or with the exception Python raises. */
  datatype Status = Done | KeyError | ValueError

  class WidgetManager {
    const screenWidth: int
    const screenHeight: int
    const layer: Layer.WidgetLayer
    var widgets: map<string, Widget>
    var signalHandlers: map<Widget, Handlers>
    ghost var effects: seq<Effect>

    /** Every registered widget is stored under its own instance id and has its handler ids recorded. */
    ghost predicate Valid()
      reads this
    {
      forall id :: id in widgets ==> widgets[id].instanceId == id && widgets[id] in signalHandlers
    }

    constructor (screenWidth: int, screenHeight: int)
      ensures Valid() && fresh(layer)
      ensures this.screenWidth == screenWidth && this.screenHeight == screenHeight
      ensures widgets == map[] && signalHandlers == map[] && effects == []
      ensures layer.widgets == [] && layer.mode == Layer.StateNone
    {
      this.screenWidth, this.screenHeight := screenWidth, screenHeight;
      layer := new Layer.WidgetLayer();
      widgets, signalHandlers, effects := map[], map[], [];
    }

    /**
     * `add`: stores the widget under its instance id (replacing any earlier entry), subscribes to its
     * five signals, moves it only when both coordinates are truthy, appends it to the layer and emits
     * `widget-added`.
     */
    method Add(widget: Widget, x: Option<int>, y: Option<int>)
      requires Valid() && widget.Valid()
      modifies this`widgets, this`signalHandlers, this`effects
      modifies widget`handlers, widget`nextHandler, widget`x, widget`y, layer`widgets, layer`calls
      ensures Valid() && widget.Valid()
      ensures widgets == old(widgets)[widget.instanceId := widget]
      ensures widget in signalHandlers && signalHandlers == old(signalHandlers)[widget := signalHandlers[widget]]
      ensures FreshIds(signalHandlers[widget], old(widget.handlers))
      ensures widget.handlers == Subscribed(old(widget.handlers), signalHandlers[widget])
      ensures Truthy(x) && Truthy(y) ==> widget.x == x.value && widget.y == y.value
      ensures !(Truthy(x) && Truthy(y)) ==> widget.x == old(widget.x) && widget.y == old(widget.y)
      ensures layer.widgets == old(layer.widgets) + [widget]
      ensures layer.calls == old(layer.calls) + [Layer.LayoutAdd(widget, widget.x, widget.y)]
      ensures effects == old(effects) + [WidgetAdded(widget)]
    {
      widgets := widgets[widget.instanceId := widget];
      var hs := Subscribe(widget);
      signalHandlers := signalHandlers[widget := hs];
      if x.Some? && x.value != 0 && y.Some? && y.value != 0 {
        widget.SetPosition(x.value, y.value);
      }
      layer.AddWidget(widget);
      effects := effects + [WidgetAdded(widget)];
    }

    /** The five `connect` calls of `add`, in the source's order. */
    static method Subscribe(widget: Widget) returns (hs: Handlers)
      requires widget.Valid()
      modifies widget`handlers, widget`nextHandler
      ensures widget.Valid()
      ensures FreshIds(hs, old(widget.handlers))
      ensures widget.handlers == Subscribed(old(widget.handlers), hs)
    {
      var raiseId := widget.Connect(Signal.RaiseRequest);
      var endId := widget.Connect(Signal.EndMove);
      var moveId := widget.Connect(Signal.MoveRequest);
      var removeId := widget.Connect(Signal.RemoveRequest);
      var reloadId := widget.Connect(Signal.ReloadRequest);
      hs := Handlers(raiseId, endId, moveId, removeId, reloadId);
    }

    /** `raise_request_cb`: raises the widget's view; the registry and the widget list are left as they are. */
    method RaiseRequest(widget: Widget)
      modifies layer`calls
      ensures layer.calls == old(layer.calls) + [Layer.LayoutRaise(widget)]
    {
      layer.RaiseWidget(widget);
    }

    /**
     * `move_request_cb`: moves the widget by the requested delta, clamped so that it stays on the
     * screen, both in the layout and in the widget's own position.
     */
    method MoveRequest(widget: Widget, dx: int, dy: int)
      modifies widget`x, widget`y, layer`calls
      ensures widget.x == Clamp(old(widget.x), dx, screenWidth, widget.width)
      ensures widget.y == Clamp(old(widget.y), dy, screenHeight, widget.height)
      ensures 0 <= widget.x <= Max(0, screenWidth - widget.width)
      ensures 0 <= widget.y <= Max(0, screenHeight - widget.height)
      ensures layer.calls == old(layer.calls) + [Layer.LayoutMove(widget, widget.x, widget.y)]
    {
      var newX := Max(0, Min(widget.x + dx, screenWidth - widget.width));
      var newY := Max(0, Min(widget.y + dy, screenHeight - widget.height));
      layer.MoveWidget(widget, newX, newY);
      widget.SetPosition(newX, newY);
    }

    /**
     * `remove`: deletes the widget's instance id (a `KeyError` when it is not registered), then
     * disconnects four of its five handlers (a `KeyError` when none were recorded for this widget)
     * and emits `widget-removed`. The reload-request subscription and the recorded ids stay.
     */
    method Remove(widget: Widget) returns (status: Status)
      requires Valid() && widget.Valid()
      modifies this`widgets, this`effects, widget`handlers
      ensures Valid() && widget.Valid()
      ensures widget.instanceId !in old(widgets) ==> status == KeyError && widgets == old(widgets)
      ensures widget.instanceId in old(widgets) ==> widgets == old(widgets) - {widget.instanceId}
      ensures status == Done <==> widget.instanceId in old(widgets) && widget in signalHandlers
      ensures status == Done ==> widget.handlers == old(widget.handlers) - Disconnected(signalHandlers[widget])
      ensures status == Done ==> effects == old(effects) + [WidgetRemoved(widget)]
      ensures status != Done ==> status == KeyError && widget.handlers == old(widget.handlers) && effects == old(effects)
    {
      if widget.instanceId !in widgets {
        return KeyError;
      }
      widgets := widgets - {widget.instanceId};
      if widget !in signalHandlers {
        return KeyError;
      }
      var hs := signalHandlers[widget];
      widget.Disconnect(hs.raiseRequest);
      widget.Disconnect(hs.endMove);
      widget.Disconnect(hs.moveRequest);
      widget.Disconnect(hs.removeRequest);
      effects := effects + [WidgetRemoved(widget)];
      status := Done;
    }

    /**
     * `remove_request_cb`: removes the widget from the registry, then from the layer, then tells the
     * widget to remove itself; each step runs only when the one before did not raise.
     */
    method RemoveRequest(widget: Widget) returns (status: Status)
      requires Valid() && widget.Valid()
      modifies this`widgets, this`effects, widget`handlers, layer`widgets, layer`calls
      ensures Valid() && widget.Valid()
      ensures widgets == if widget.instanceId in old(widgets) then old(widgets) - {widget.instanceId} else old(widgets)
      ensures status == Done <==>
                widget.instanceId in old(widgets) && widget in signalHandlers && widget in old(layer.widgets)
      ensures status == Done ==> widget.handlers == old(widget.handlers) - Disconnected(signalHandlers[widget])
      ensures status == Done ==> effects == old(effects) + [WidgetRemoved(widget), CalledRemove(widget)]
      ensures status == Done ==> layer.widgets == Layer.RemoveFirst(old(layer.widgets), widget)
      ensures status == Done ==> layer.calls == old(layer.calls) + [Layer.LayoutRemove(widget)]
      ensures status != Done ==> layer.widgets == old(layer.widgets) && layer.calls == old(layer.calls)
      ensures status == KeyError ==> widget.handlers == old(widget.handlers) && effects == old(effects)
      ensures status == ValueError ==>
                widget.instanceId in old(widgets) && widget in signalHandlers && widget !in old(layer.widgets) &&
                widget.handlers == old(widget.handlers) - Disconnected(signalHandlers[widget]) &&
                effects == old(effects) + [WidgetRemoved(widget)]
    {
      ghost var layerBefore, callsBefore := layer.widgets, layer.calls;
      status := Remove(widget);
      assert layer.widgets == layerBefore && layer.calls == callsBefore;
      if status != Done {
        return;
      }
      ghost var removed := effects;
      assert removed == old(effects) + [WidgetRemoved(widget)];
      var found := layer.RemoveWidget(widget);
      assert found <==> widget in layerBefore;
      if !found {
        return ValueError;
      }
      effects := effects + [CalledRemove(widget)];
      assert effects == old(effects) + [WidgetRemoved(widget), CalledRemove(widget)];
    }

    /**
     * `reload_request_cb`: takes the widget out of the layer, reloads it and appends it again, so the
     * widget ends up last; the registry itself is not touched.
     */
    method ReloadRequest(widget: Widget) returns (status: Status)
      modifies this`effects, layer`widgets, layer`calls
      ensures status == Done <==> widget in old(layer.widgets)
      ensures status == Done ==> layer.widgets == Layer.RemoveFirst(old(layer.widgets), widget) + [widget]
      ensures status == Done ==> effects == old(effects) + [CalledLoad(widget)]
      ensures status == Done ==>
                layer.calls == old(layer.calls) + [Layer.LayoutRemove(widget), Layer.LayoutAdd(widget, widget.x, widget.y)]
      ensures status != Done ==>
                status == ValueError && layer.widgets == old(layer.widgets) && layer.calls == old(layer.calls) &&
                effects == old(effects)
    {
      var found := layer.RemoveWidget(widget);
      if !found {
        return ValueError;
      }
      effects := effects + [CalledLoad(widget)];
      layer.AddWidget(widget);
      status := Done;
    }
  }

  /**
   * Adding a new widget and then handling its remove request gives back the registry's map and the
   * layer's list as they were, but leaves exactly one live subscription on the widget: the
   * reload-request handler, which `remove` never disconnects.
   */
  method AddThenRemoveRequest(m: WidgetManager, w: Widget)
    requires m.Valid() && w.Valid() && w.instanceId !in m.widgets && w !in m.layer.widgets && w.handlers == map[]
    modifies m`widgets, m`signalHandlers, m`effects
    modifies w`handlers, w`nextHandler, w`x, w`y, m.layer`widgets, m.layer`calls
    ensures m.widgets == old(m.widgets)
    ensures m.layer.widgets == old(m.layer.widgets)
    ensures exists h :: w.handlers == map[h := Signal.ReloadRequest]
  {
    m.Add(w, None, None);
    var hs := m.signalHandlers[w];
    var status := m.RemoveRequest(w);
    Layer.RemoveFirstOfAppended(old(m.layer.widgets), w);
    assert m.widgets == old(m.widgets);
    OnlyReloadSurvives(hs);
  }

  /** Connecting five fresh handlers to a widget with none and disconnecting four leaves the reload one. */
  lemma OnlyReloadSurvives(hs: Handlers)
    requires FreshIds(hs, map[])
    ensures Subscribed(map[], hs) - Disconnected(hs) == map[hs.reloadRequest := Signal.ReloadRequest]
  {
  }
}
