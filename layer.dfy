/**
 * The compositing layer that hosts every widget view (`WidgetLayer`, src/melange.py): its move-mode
 * input state machine, driven by the Super_L key and by mouse buttons on a view, and its ordered
 * list of hosted widgets. The calls it makes into the widgets and into its layout container are
 * recorded, in order, in the ghost log `calls`.
 */
module Layer {
  import Widgets

  type Widget = Widgets.Widget

  /** The X11 keysym of Super_L, the key `gtk.accelerator_parse('Super_L')` names. */
  const SUPER_L: int := 0xffeb

  /**
   * The modifier states accepted with it: none, GDK's Mod4 mask (64, usually Super itself) and Mod4
   * with button 1 held (320 = 64 + 256), the state a Super_L release has while the left button is down.
   */
  const MOVE_MASKS: seq<int> := [0, 64, 320]

  datatype Mode = StateNone | StateMove | StateMoving

  /** The input events the layer reacts to. */
  datatype Event =
    | KeyPress(keysym: int, mask: int)
    | KeyRelease(keysym: int, mask: int)
    | ButtonPress
    | ButtonRelease

  datatype Cursor = Fleur | DefaultCursor

  /** A call the layer makes into a hosted widget or into its layout container. */
  datatype Call =
    | BeginMove(w: Widget)
    | EndMove(w: Widget)
    | SetCursor(w: Widget, cursor: Cursor)
    | LayoutAdd(w: Widget, x: int, y: int)
    | LayoutRemove(w: Widget)
    | LayoutRaise(w: Widget)
    | LayoutMove(w: Widget, x: int, y: int)

  /** The gesture key: Super_L with one of the accepted modifier masks. */
  predicate IsMoveKey(keysym: int, mask: int)
  {
    keysym == SUPER_L && mask in MOVE_MASKS
  }

  /** The mode after the layer handles `e` in mode `m`. */
  function Next(m: Mode, e: Event): Mode
  {
    match e
    case KeyPress(k, mask) =>
      if IsMoveKey(k, mask) then StateMove else m
    case KeyRelease(k, mask) =>
      if !IsMoveKey(k, mask) then m
      else if m == StateMove then StateNone
      else if m == StateMoving then StateMove
      else m
    case ButtonPress =>
      if m == StateMove then StateMoving else m
    case ButtonRelease =>
      if m == StateMove then StateNone
      else if m == StateMoving then StateMove
      else m
  }

  /** Handling `e` notifies every widget "begin move". */
  predicate Begins(e: Event)
  {
    e.KeyPress? && IsMoveKey(e.keysym, e.mask)
  }

  /** Handling `e` in mode `m` notifies every widget "end move". */
  predicate Ends(m: Mode, e: Event)
  {
    m == StateMove && (e.ButtonRelease? || (e.KeyRelease? && IsMoveKey(e.keysym, e.mask)))
  }

  /** The "end move" notification fires exactly when move mode is left for the normal mode. */
  lemma EndsIffLeavesMoveMode(m: Mode, e: Event)
    ensures Ends(m, e) <==> (m != StateNone && Next(m, e) == StateNone)
  {
  }

  /**
   * Single steps: keys other than the gesture key change nothing; a held button is never dropped
   * straight to the normal mode; move mode is entered only by the gesture key or by letting go of
   * the button; and a button press changes the mode only in `StateMove`.
   */
  lemma ModeSteps(m: Mode, e: Event)
    ensures (e.KeyPress? || e.KeyRelease?) && !IsMoveKey(e.keysym, e.mask) ==> Next(m, e) == m
    ensures m == StateMoving ==> Next(m, e) != StateNone
    ensures Next(m, e) == StateMove && m != StateMove ==> Begins(e) || m == StateMoving
    ensures e.ButtonPress? ==> (Next(m, e) != m <==> m == StateMove)
    ensures (e.ButtonRelease? || e.KeyRelease?) && m == StateNone ==> Next(m, e) == StateNone
    ensures e.KeyRelease? && IsMoveKey(e.keysym, e.mask) && m == StateMoving ==> Next(m, e) == StateMove && !Ends(m, e)
  {
  }

  /** The mode after a whole sequence of events. */
  function Run(m: Mode, es: seq<Event>): Mode
  {
    if es == [] then m else Next(Run(m, es[..|es| - 1]), es[|es| - 1])
  }

  /** An event that leaves `StateMoving` as it is. */
  predicate Inert(e: Event)
  {
    e.ButtonPress? || ((e.KeyPress? || e.KeyRelease?) && !IsMoveKey(e.keysym, e.mask))
  }

  lemma RunSplit(m: Mode, es: seq<Event>, i: nat)
    requires i < |es|
    ensures es[..i + 1][..i] == es[..i]
    ensures Run(m, es[..i + 1]) == Next(Run(m, es[..i]), es[i])
  {
  }

  /** A button press at `i` found the layer in `StateMove`, and nothing after it ended the gesture. */
  predicate HeldFrom(m: Mode, es: seq<Event>, i: nat)
  {
    i < |es| && es[i] == ButtonPress && Run(m, es[..i]) == StateMove &&
    forall j :: i < j < |es| ==> Inert(es[j])
  }

  /**
   * The layer is in `StateMoving` only while a button pressed in `StateMove` is held: the last
   * button press found it in `StateMove`, and nothing after it released the button or the key.
   */
  lemma {:induction false} MovingMeansButtonHeld(m: Mode, es: seq<Event>)
    requires m != StateMoving && Run(m, es) == StateMoving
    ensures exists i: nat :: HeldFrom(m, es, i)
  {
    var n := |es| - 1;
    assert es[..n + 1] == es;
    RunSplit(m, es, n);
    var before := Run(m, es[..n]);
    if before == StateMoving {
      var p := es[..n];
      MovingMeansButtonHeld(m, p);
      var i: nat :| HeldFrom(m, p, i);
      assert p[..i] == es[..i];
      assert Inert(es[n]);
      forall j | i < j < |es| ensures Inert(es[j]) {
        if j < n { assert p[j] == es[j]; }
      }
      assert HeldFrom(m, es, i);
    } else {
      assert es[n] == ButtonPress && before == StateMove;
      assert HeldFrom(m, es, n);
    }
  }

  /** Conversely, a button press in `StateMove` followed only by inert events leaves it moving. */
  lemma {:induction false} ButtonHeldMeansMoving(m: Mode, es: seq<Event>, i: nat)
    requires HeldFrom(m, es, i)
    ensures Run(m, es) == StateMoving
  {
    var n := |es| - 1;
    assert es[..n + 1] == es;
    RunSplit(m, es, n);
    if i < n {
      var p := es[..n];
      assert p[..i] == es[..i];
      forall j | i < j < |p| ensures Inert(p[j]) {
        assert p[j] == es[j];
      }
      assert HeldFrom(m, p, i);
      ButtonHeldMeansMoving(m, p, i);
      assert Inert(es[n]);
    }
  }

  /** Move mode is entered only through the gesture key: from the normal mode, no other event leaves it. */
  lemma {:induction false} ArmedOnlyByModifier(es: seq<Event>)
    requires Run(StateNone, es) != StateNone
    ensures exists i :: 0 <= i < |es| && Begins(es[i])
  {
    var n := |es| - 1;
    assert es[..n + 1] == es;
    RunSplit(StateNone, es, n);
    if Run(StateNone, es[..n]) == StateNone {
      assert Begins(es[n]);
    } else {
      ArmedOnlyByModifier(es[..n]);
      var i :| 0 <= i < n && Begins(es[..n][i]);
      assert Begins(es[i]);
    }
  }

  /** The calls one notification pass makes: for each widget in order, the notice and its cursor. */
  function Notified(ws: seq<Widget>, begin: bool): (r: seq<Call>)
    ensures |r| == 2 * |ws|
  {
    if ws == [] then []
    else
      var last := ws[|ws| - 1];
      Notified(ws[..|ws| - 1], begin) +
      [if begin then BeginMove(last) else EndMove(last), SetCursor(last, if begin then Fleur else DefaultCursor)]
  }

  /** Widget `i`'s notice is call `2 * i` of the pass and its cursor change is call `2 * i + 1`. */
  lemma {:induction false} NotifiedOrder(ws: seq<Widget>, begin: bool)
    ensures forall i :: 0 <= i < |ws| ==>
              Notified(ws, begin)[2 * i] == (if begin then BeginMove(ws[i]) else EndMove(ws[i])) &&
              Notified(ws, begin)[2 * i + 1] == SetCursor(ws[i], if begin then Fleur else DefaultCursor)
  {
    if ws != [] {
      var p := ws[..|ws| - 1];
      NotifiedOrder(p, begin);
      forall i | 0 <= i < |p| ensures ws[i] == p[i] { }
    }
  }

  /** The index of the first occurrence of `x` in `s`. */
  function IndexOf<T(==)>(s: seq<T>, x: T): (i: nat)
    requires x in s
    ensures i < |s| && s[i] == x && x !in s[..i]
  {
    if s[0] == x then 0
    else
      var j := IndexOf(s[1..], x);
      assert s[..j + 1] == [s[0]] + s[1..][..j];
      j + 1
  }

  /** `list.remove(x)`: drops the first occurrence of `x`, keeping the others in order. */
  function RemoveFirst<T(==)>(s: seq<T>, x: T): (r: seq<T>)
    ensures x !in s ==> r == s
    ensures x in s ==> exists i :: 0 <= i < |s| && s[i] == x && x !in s[..i] && r == s[..i] + s[i + 1..]
  {
    if x !in s then s
    else
      var i := IndexOf(s, x);
      s[..i] + s[i + 1..]
  }

  /** Removing one occurrence takes exactly one copy of `x` out of the list's multiset. */
  lemma RemoveFirstMultiset<T>(s: seq<T>, x: T)
    ensures multiset(RemoveFirst(s, x)) == multiset(s) - multiset{x}
  {
    if x !in s {
      assert multiset(s)[x] == 0;
    } else {
      var i := IndexOf(s, x);
      assert s == s[..i] + [x] + s[i + 1..];
    }
  }

  /** Removing an element just appended to a list that did not hold it gives the list back. */
  lemma RemoveFirstOfAppended<T>(s: seq<T>, x: T)
    requires x !in s
    ensures RemoveFirst(s + [x], x) == s
  {
    var i := IndexOf(s + [x], x);
    assert i == |s|;
    assert (s + [x])[..|s|] == s;
  }

  class WidgetLayer {
    var mode: Mode
    var widgets: seq<Widget>
    ghost var calls: seq<Call>

    constructor ()
      ensures mode == StateNone && widgets == [] && calls == []
    {
      mode, widgets, calls := StateNone, [], [];
    }

    /** One notification pass over the hosted widgets, as the three callback loops make it. */
    method NotifyAll(begin: bool)
      modifies this`calls
      ensures calls == old(calls) + Notified(widgets, begin)
    {
      for i := 0 to |widgets|
        invariant calls == old(calls) + Notified(widgets[..i], begin)
      {
        assert widgets[..i + 1][..i] == widgets[..i];
        var w := widgets[i];
        calls := calls + [if begin then BeginMove(w) else EndMove(w)];
        calls := calls + [SetCursor(w, if begin then Fleur else DefaultCursor)];
      }
      assert widgets[..|widgets|] == widgets;
    }

    /** `key_press_cb`: the gesture key arms move mode from any mode and notifies every widget. */
    method KeyPress(keysym: int, mask: int)
      modifies this`mode, this`calls
      ensures mode == Next(old(mode), Event.KeyPress(keysym, mask))
      ensures calls == old(calls) + (if IsMoveKey(keysym, mask) then Notified(widgets, true) else [])
    {
      if keysym == SUPER_L && mask in MOVE_MASKS {
        mode := StateMove;
        NotifyAll(true);
      }
    }

    /** `key_release_cb`: leaves move mode (notifying) or drops back from moving to move mode. */
    method KeyRelease(keysym: int, mask: int)
      modifies this`mode, this`calls
      ensures mode == Next(old(mode), Event.KeyRelease(keysym, mask))
      ensures calls == old(calls) + (if Ends(old(mode), Event.KeyRelease(keysym, mask)) then Notified(widgets, false) else [])
    {
      if keysym == SUPER_L && mask in MOVE_MASKS {
        if mode == StateMove {
          NotifyAll(false);
          mode := StateNone;
        } else if mode == StateMoving {
          mode := StateMove;
        }
      }
    }

    /** `button_press_cb`: starts moving; the event is consumed only then. */
    method ButtonPress() returns (handled: bool)
      modifies this`mode
      ensures mode == Next(old(mode), Event.ButtonPress)
      ensures handled <==> old(mode) == StateMove
    {
      handled := false;
      if mode == StateMove {
        mode := StateMoving;
        handled := true;
      }
    }

    /** `button_release_cb`: ends the move gesture (notifying) or stops moving. */
    method ButtonRelease() returns (handled: bool)
      modifies this`mode, this`calls
      ensures mode == Next(old(mode), Event.ButtonRelease)
      ensures calls == old(calls) + (if Ends(old(mode), Event.ButtonRelease) then Notified(widgets, false) else [])
      ensures handled <==> old(mode) == StateMoving
    {
      handled := false;
      if mode == StateMove {
        NotifyAll(false);
        mode := StateNone;
      } else if mode == StateMoving {
        mode := StateMove;
        handled := true;
      }
    }

    /** `add_widget`: appends the widget and places its view at the widget's position. */
    method AddWidget(w: Widget)
      modifies this`widgets, this`calls
      ensures widgets == old(widgets) + [w]
      ensures calls == old(calls) + [LayoutAdd(w, w.x, w.y)]
    {
      widgets := widgets + [w];
      calls := calls + [LayoutAdd(w, w.x, w.y)];
    }

    /**
     * `remove_widget`: drops one occurrence of the widget; `list.remove` raises `ValueError` when it
     * is absent (`found` false), and then the view stays in the layout.
     */
    method RemoveWidget(w: Widget) returns (found: bool)
      modifies this`widgets, this`calls
      ensures found <==> w in old(widgets)
      ensures widgets == RemoveFirst(old(widgets), w)
      ensures calls == old(calls) + (if found then [LayoutRemove(w)] else [])
    {
      found := w in widgets;
      if found {
        widgets := RemoveFirst(widgets, w);
        calls := calls + [LayoutRemove(w)];
      }
    }

    /** `raise_widget`: raises the view in the layout; the widget list is left as it is. */
    method RaiseWidget(w: Widget)
      modifies this`calls
      ensures calls == old(calls) + [LayoutRaise(w)]
    {
      calls := calls + [LayoutRaise(w)];
    }

    /** `move_widget`: moves the view in the layout; the widget list is left as it is. */
    method MoveWidget(w: Widget, x: int, y: int)
      modifies this`calls
      ensures calls == old(calls) + [LayoutMove(w, x, y)]
    {
      calls := calls + [LayoutMove(w, x, y)];
    }
  }
}
