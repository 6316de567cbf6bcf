/**
 * The hosted widget, as far as the core sees it. The widget object itself (melange/widget.py) is
 * not part of this model: only the state the core reads or changes through it is kept here, its
 * position, the allocation of its view, and its signal subscriptions (GObject `connect`/`disconnect`).
 */
module Widgets {

  /** The widget signals the registries subscribe to. */
  datatype Signal = RaiseRequest | EndMove | MoveRequest | RemoveRequest | ReloadRequest

  class Widget {
    const instanceId: string
    var x: int
    var y: int
    /** the allocation of the widget's view */
    var width: int
    var height: int
    /** the live subscriptions, by handler id */
    var handlers: map<nat, Signal>
    var nextHandler: nat

    ghost predicate Valid()
      reads this
    {
      forall h :: h in handlers ==> h < nextHandler
    }

    constructor (id: string, x: int, y: int, width: int, height: int)
      ensures Valid()
      ensures instanceId == id && this.x == x && this.y == y
      ensures this.width == width && this.height == height
      ensures handlers == map[]
    {
      instanceId := id;
      this.x, this.y := x, y;
      this.width, this.height := width, height;
      handlers, nextHandler := map[], 0;
    }

    /** `widget.connect(signal, callback)`: a new subscription under a fresh handler id. */
    method Connect(s: Signal) returns (h: nat)
      requires Valid()
      modifies this`handlers, this`nextHandler
      ensures Valid()
      ensures h !in old(handlers)
      ensures handlers == old(handlers)[h := s]
    {
      h := nextHandler;
      handlers := handlers[h := s];
      nextHandler := nextHandler + 1;
    }

    /** `widget.disconnect(h)`: drops the subscription `h` (an unknown id only draws a warning). */
    method Disconnect(h: nat)
      requires Valid()
      modifies this`handlers
      ensures Valid()
      ensures handlers == old(handlers) - {h}
    {
      handlers := handlers - {h};
    }

    /** `widget.set_position(x, y)` */
    method SetPosition(nx: int, ny: int)
      modifies this`x, this`y
      ensures x == nx && y == ny
    {
      x, y := nx, ny;
    }
  }
}
