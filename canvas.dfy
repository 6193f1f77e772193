/**
 * The part of the browser's 2D canvas context the program drives: a drawing
 * state (fill style, filter, current transform, clip region), the stack that
 * `save()`/`restore()` push and pop, and the ordered log of calls that paint
 * or change state. Pixels are not modelled; every painting call records the
 * state it was made in, which is what decides where and how it paints.
 */
module Canvas {

  import opened Util

  datatype Rect = Rect(x: real, y: real, w: real, h: real)

  datatype Point = Point(x: real, y: real)

  /** A clip path: `roundRect(x, y, w, h, radius)` or, where that is unsupported, `rect(x, y, w, h)`. */
  datatype Clip = RoundRectClip(area: Rect, radius: real) | RectClip(area: Rect)

  /** One factor of the current transform. The angle is kept in degrees; the radians conversion is not modelled. */
  datatype Op = Translate(dx: real, dy: real) | Rotate(degrees: int)

  /** The part of the drawing state that `save()` stores. The clip region is the intersection of `clips`. */
  datatype State = State(fillStyle: string, filter: string, ops: seq<Op>, clips: seq<Clip>)

  /** The drawing state of a freshly created context. */
  const InitialState: State := State("#000000", "none", [], [])

  datatype Command =
    | Save
    | Restore
    | SetFillStyle(style: string)
    | SetFilter(filter: string)
    | Transform(op: Op)
    | ClipPath(clip: Clip)
    | ClearRect(area: Rect, state: State)
    | FillRect(area: Rect, state: State)
    | DrawImage(image: nat, source: Option<Rect>, dest: Rect, state: State)

  /** `(cos θ, sin θ)` of an angle given in degrees. */
  type Trig = int -> Point

  /** Applies one transform factor to a point, with the y axis pointing down as on a canvas. */
  function ApplyOp(op: Op, trig: Trig, p: Point): Point {
    match op
    case Translate(dx, dy) => Point(p.x + dx, p.y + dy)
    case Rotate(d) =>
      var cs := trig(d);
      Point(cs.x * p.x - cs.y * p.y, cs.y * p.x + cs.x * p.y)
  }

  /**
   * Where a point given in user coordinates lands on the canvas under the
   * transform `ops`: each call post-multiplies the current matrix, so the
   * factor added last acts on the point first.
   */
  function ToDevice(ops: seq<Op>, trig: Trig, p: Point): Point
    decreases |ops|
  {
    if ops == [] then p else ToDevice(ops[..|ops| - 1], trig, ApplyOp(ops[|ops| - 1], trig, p))
  }

  class Context {
    var width: real
    var height: real
    var state: State
    var stack: seq<State>
    var log: seq<Command>

    /** A fresh canvas of the given size and its context. */
    constructor (w: real, h: real)
      ensures width == w && height == h
      ensures state == InitialState && stack == [] && log == []
    {
      width, height := w, h;
      state, stack, log := InitialState, [], [];
    }

    method Save()
      modifies this
      ensures state == old(state) && stack == old(stack) + [old(state)]
      ensures log == old(log) + [Command.Save]
      ensures width == old(width) && height == old(height)
    {
      stack := stack + [state];
      log := log + [Command.Save];
    }

    /** Pops the last saved state; with nothing saved the state stays as it is. */
    method Restore()
      modifies this
      ensures old(stack) == [] ==> state == old(state) && stack == []
      ensures old(stack) != [] ==>
        state == old(stack)[|old(stack)| - 1] && stack == old(stack)[..|old(stack)| - 1]
      ensures log == old(log) + [Command.Restore]
      ensures width == old(width) && height == old(height)
    {
      if stack != [] {
        state := stack[|stack| - 1];
        stack := stack[..|stack| - 1];
      }
      log := log + [Command.Restore];
    }

    method SetFillStyle(style: string)
      modifies this
      ensures state == old(state).(fillStyle := style) && stack == old(stack)
      ensures log == old(log) + [Command.SetFillStyle(style)]
      ensures width == old(width) && height == old(height)
    {
      state := state.(fillStyle := style);
      log := log + [Command.SetFillStyle(style)];
    }

    method SetFilter(filter: string)
      modifies this
      ensures state == old(state).(filter := filter) && stack == old(stack)
      ensures log == old(log) + [Command.SetFilter(filter)]
      ensures width == old(width) && height == old(height)
    {
      state := state.(filter := filter);
      log := log + [Command.SetFilter(filter)];
    }

    method Translate(dx: real, dy: real)
      modifies this
      ensures state == old(state).(ops := old(state).ops + [Op.Translate(dx, dy)]) && stack == old(stack)
      ensures log == old(log) + [Transform(Op.Translate(dx, dy))]
      ensures width == old(width) && height == old(height)
    {
      state := state.(ops := state.ops + [Op.Translate(dx, dy)]);
      log := log + [Transform(Op.Translate(dx, dy))];
    }

    method Rotate(degrees: int)
      modifies this
      ensures state == old(state).(ops := old(state).ops + [Op.Rotate(degrees)]) && stack == old(stack)
      ensures log == old(log) + [Transform(Op.Rotate(degrees))]
      ensures width == old(width) && height == old(height)
    {
      state := state.(ops := state.ops + [Op.Rotate(degrees)]);
      log := log + [Transform(Op.Rotate(degrees))];
    }

    /** `beginPath()`, one `roundRect` or `rect`, then `clip()`: narrows the clip region by that path. */
    method ClipTo(clip: Clip)
      modifies this
      ensures state == old(state).(clips := old(state).clips + [clip]) && stack == old(stack)
      ensures log == old(log) + [ClipPath(clip)]
      ensures width == old(width) && height == old(height)
    {
      state := state.(clips := state.clips + [clip]);
      log := log + [ClipPath(clip)];
    }

    method ClearRect(area: Rect)
      modifies this
      ensures state == old(state) && stack == old(stack)
      ensures log == old(log) + [Command.ClearRect(area, old(state))]
      ensures width == old(width) && height == old(height)
    {
      log := log + [Command.ClearRect(area, state)];
    }

    method FillRect(area: Rect)
      modifies this
      ensures state == old(state) && stack == old(stack)
      ensures log == old(log) + [Command.FillRect(area, old(state))]
      ensures width == old(width) && height == old(height)
    {
      log := log + [Command.FillRect(area, state)];
    }

    /** `drawImage(img, dx, dy, dw, dh)` or, with a source rectangle, `drawImage(img, sx, sy, sw, sh, dx, dy, dw, dh)`. */
    method DrawImage(image: nat, source: Option<Rect>, dest: Rect)
      modifies this
      ensures state == old(state) && stack == old(stack)
      ensures log == old(log) + [Command.DrawImage(image, source, dest, old(state))]
      ensures width == old(width) && height == old(height)
    {
      log := log + [Command.DrawImage(image, source, dest, state)];
    }
  }
}
