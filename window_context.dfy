/**
 * yt_idv's pyglet rendering context: window placement, the mapping of
 * drag coordinates to the [-1, 1] square, and the redraw flag
 * `_do_update` that input and resize handlers raise and `on_draw`
 * consumes.
 *
 * Window-system, OpenGL, GUI and camera calls are recorded as `Call`s in
 * the order the handlers make them; the camera's own arithmetic is not
 * modelled.  A handler that would raise (a missing scene, a zero window
 * dimension, a negative position) returns `ok == false` and leaves the
 * redraw flag as it was.
 */
module PygletContext {

  datatype Option<T> = None | Some(value: T)

  /** The screen a window lives on: origin and size in pixels. */
  datatype Screen = Screen(x: int, y: int, width: int, height: int)

  /** Calls the context makes into pyglet, the scene, the camera and the GUI. */
  datatype Call =
    | SetLocation(x: int, y: int)
    | ClearWindow
    | RenderScene
    | RenderGui
    | ResizeViewport(width: int, height: int)
    | ResetFramebuffers
    | SetAspectRatio(ratio: real)
    | UpdateMatrices
    | UpdateOrientation(startX: real, startY: real, endX: real, endY: real)
    | OffsetPosition(zoom: real)

  // ---------------------------------------------------------------------
  // Window placement
  // ---------------------------------------------------------------------

  /** Python's `int(x)`: truncation toward zero. */
  function Truncate(x: real): (n: int)
    ensures x >= 0.0 ==> 0 <= n && n as real <= x < n as real + 1.0
    ensures x < 0.0 ==> n <= 0 && n as real - 1.0 < x <= n as real
  {
    if x >= 0.0 then x.Floor else -((-x).Floor)
  }

  function Max(a: real, b: real): real
  {
    if a >= b then a else b
  }

  /**
   * One coordinate of `set_position`: a value strictly between 0 and 1 is
   * a fraction of the screen at which the window's centre should sit,
   * clamped so that the window does not start before 0; any other value
   * is an absolute position and passes through.
   */
  function Place(pos: real, origin: real, span: real, win: real): (r: real)
    ensures pos >= 0.0 ==> r >= 0.0
    ensures pos == 0.0 || pos >= 1.0 ==> r == pos
  {
    if 0.0 < pos < 1.0 then Max(origin + pos * span - 0.5 * win, 0.0) else pos
  }

  /**
   * A relative coordinate puts the window's centre on the requested point
   * of the screen, unless that would start the window before 0, in which
   * case the window starts at 0.
   */
  lemma PlaceRelative(pos: real, origin: real, span: real, win: real)
    requires 0.0 < pos < 1.0
    ensures var r := Place(pos, origin, span, win);
      (r > 0.0 && r + 0.5 * win == origin + pos * span) ||
      (r == 0.0 && origin + pos * span - 0.5 * win <= 0.0)
  {
  }

  /**
   * On a screen whose origin is not negative, `set_position(0.5, 0.5)`
   * places a window no larger than the screen so that the margins on both
   * sides are equal before `int()` truncates the location, and differ by at
   * most one pixel after: the right margin gets the odd pixel.
   */
  lemma CentreMargins(origin: int, span: int, win: int)
    requires origin >= 0 && 0 <= win <= span
    ensures var p := Place(0.5, origin as real, span as real, win as real);
      p - origin as real == (origin + span) as real - (p + win as real)
    ensures var loc := Truncate(Place(0.5, origin as real, span as real, win as real));
      var left, right := loc - origin, (origin + span) - (loc + win);
      0 <= left && (right == left || right == left + 1)
  {
    var p := Place(0.5, origin as real, span as real, win as real);
    assert p == origin as real + 0.5 * span as real - 0.5 * win as real;
    var loc := Truncate(p);
    var d := 2 * origin + span - win - 2 * loc;
    assert d as real == 2.0 * p - 2.0 * loc as real;
    assert 0 <= d < 2;
    assert loc >= origin by {
      assert origin as real <= p;
    }
  }

  // ---------------------------------------------------------------------
  // Drag coordinates
  // ---------------------------------------------------------------------

  /** `-1.0 + 2.0 * p / size`: a pixel coordinate mapped onto [-1, 1]. */
  function ToClip(p: real, size: real): (c: real)
    requires size != 0.0
    ensures FromClip(c, size) == p
    ensures size > 0.0 && 0.0 <= p <= size ==> -1.0 <= c <= 1.0
  {
    HalfScaleBounds(p, size);
    -1.0 + 2.0 * p / size
  }

  lemma HalfScaleBounds(p: real, size: real)
    requires size != 0.0
    ensures (2.0 * p / size) * size == 2.0 * p
    ensures size > 0.0 && 0.0 <= p <= size ==> 0.0 <= 2.0 * p / size <= 2.0
  {
    if size > 0.0 && 0.0 <= p <= size {
      assert 2.0 * p / size <= 2.0 * size / size;
    }
  }

  /** The inverse mapping, from [-1, 1] back to pixels. */
  function FromClip(c: real, size: real): (p: real)
  {
    (c + 1.0) * size / 2.0
  }

  /** The edges of the window map to -1 and 1, and the window onto [-1, 1], in order. */
  lemma ClipRange(p: real, q: real, size: real)
    requires size > 0.0
    ensures ToClip(0.0, size) == -1.0 && ToClip(size, size) == 1.0
    ensures 0.0 <= p <= size ==> -1.0 <= ToClip(p, size) <= 1.0
    ensures p <= q ==> ToClip(p, size) <= ToClip(q, size)
  {
    if 0.0 <= p <= size {
      assert 2.0 * p / size <= 2.0 * size / size;
    }
    if p <= q {
      assert 2.0 * p / size <= 2.0 * q / size;
    }
  }

  /** Mapping to [-1, 1] and back gives the pixel coordinate again, and conversely. */
  lemma ClipRoundTrip(p: real, c: real, size: real)
    requires size != 0.0
    ensures FromClip(ToClip(p, size), size) == p
    ensures ToClip(FromClip(c, size), size) == c
  {
    var f := 2.0 * FromClip(c, size);
    var q := f / size;
    assert q * size == f;
    assert f == (c + 1.0) * size;
    assert (q - (c + 1.0)) * size == 0.0;
  }

  // ---------------------------------------------------------------------
  // The redraw flag over a run of events
  // ---------------------------------------------------------------------

  /** Whether `on_draw` renders the scene. */
  predicate Renders(doUpdate: bool, hasScene: bool)
  {
    doUpdate && hasScene
  }

  /** `_do_update` after `on_draw`: cleared exactly when the scene was rendered. */
  function FlagAfterDraw(doUpdate: bool, hasScene: bool): (flag: bool)
    ensures flag <==> doUpdate && !Renders(doUpdate, hasScene)
  {
    doUpdate && !hasScene
  }

  /** A handled input or resize event, or a draw. */
  datatype Signal = Input | Draw

  datatype Replayed = Replayed(doUpdate: bool, renders: nat)

  /** The flag and the number of scene renders after handling `signals` in order. */
  function Replay(doUpdate: bool, hasScene: bool, signals: seq<Signal>): (r: Replayed)
    ensures r.renders <= |signals|
    decreases |signals|
  {
    if |signals| == 0 then Replayed(doUpdate, 0)
    else
      var prev := Replay(doUpdate, hasScene, signals[..|signals| - 1]);
      match signals[|signals| - 1]
      case Input => Replayed(true, prev.renders)
      case Draw =>
        Replayed(FlagAfterDraw(prev.doUpdate, hasScene),
                 prev.renders + if Renders(prev.doUpdate, hasScene) then 1 else 0)
  }

  function Inputs(signals: seq<Signal>): (n: nat)
    ensures n <= |signals|
    decreases |signals|
  {
    if |signals| == 0 then 0
    else Inputs(signals[..|signals| - 1]) + if signals[|signals| - 1] == Input then 1 else 0
  }

  function BoolToNat(b: bool): nat
  {
    if b then 1 else 0
  }

  /**
   * Every render is paid for by an input event since the previous render
   * (or by the flag being set initially): the scene is never rendered
   * twice for one change.
   */
  lemma {:induction false} RendersPaidByInputs(doUpdate: bool, hasScene: bool, signals: seq<Signal>)
    ensures var r := Replay(doUpdate, hasScene, signals);
      r.renders + BoolToNat(r.doUpdate) <= BoolToNat(doUpdate) + Inputs(signals)
    decreases |signals|
  {
    if |signals| > 0 {
      RendersPaidByInputs(doUpdate, hasScene, signals[..|signals| - 1]);
    }
  }

  /** Without a scene nothing is ever rendered. */
  lemma {:induction false} NoSceneNoRender(doUpdate: bool, signals: seq<Signal>)
    ensures Replay(doUpdate, false, signals).renders == 0
    decreases |signals|
  {
    if |signals| > 0 {
      NoSceneNoRender(doUpdate, signals[..|signals| - 1]);
    }
  }

  /** With a scene, a draw right after an input renders once and clears the flag. */
  lemma DrawAfterInput(doUpdate: bool, signals: seq<Signal>)
    ensures Replay(doUpdate, true, signals + [Input, Draw]) ==
      Replayed(false, Replay(doUpdate, true, signals).renders + 1)
  {
    var s1 := signals + [Input];
    assert (signals + [Input, Draw])[..|signals| + 1] == s1;
    assert s1[..|signals|] == signals;
  }

  /** A second draw with no event in between changes nothing. */
  lemma DrawTwice(doUpdate: bool, hasScene: bool, signals: seq<Signal>)
    ensures Replay(doUpdate, hasScene, signals + [Draw, Draw]) == Replay(doUpdate, hasScene, signals + [Draw])
  {
    var s1 := signals + [Draw];
    assert (signals + [Draw, Draw])[..|signals| + 1] == s1;
    assert s1[..|signals|] == signals;
  }

  // ---------------------------------------------------------------------
  // The rendering context
  // ---------------------------------------------------------------------

  /** PygletRenderingContext: one window with its handlers. */
  class RenderingContext {
    const screen: Screen
    const hasGui: bool
    /** Whether a scene is attached (`self.scene` is not None). */
    const hasScene: bool
    /** The window size as pyglet reports it. */
    var width: int
    var height: int
    /** `_do_update`: the scene must be rendered at the next draw. */
    var doUpdate: bool
    /** The window's position, as last handed to `set_location`. */
    var locX: int
    var locY: int
    var calls: seq<Call>

    /**
     * `__init__`: the window is placed at `position` as given, or centred
     * on the screen when no position is given; the flag starts set.
     */
    constructor (w: int, h: int, position: Option<(int, int)>, scr: Screen, gui: bool, scene: bool)
      ensures screen == scr && width == w && height == h && hasGui == gui && hasScene == scene
      ensures doUpdate
      ensures position.Some? ==> (locX, locY) == position.value
      ensures position.None? ==>
        locX == Truncate(Place(0.5, scr.x as real, scr.width as real, w as real)) &&
        locY == Truncate(Place(0.5, scr.y as real, scr.height as real, h as real))
      ensures calls == [SetLocation(locX, locY)]
    {
      screen, width, height, hasGui, hasScene := scr, w, h, gui, scene;
      doUpdate := true;
      calls := [];
      new;
      if position.None? {
        CenterWindow();
      } else {
        locX, locY := position.value.0, position.value.1;
        calls := calls + [SetLocation(locX, locY)];
      }
    }

    /**
     * `set_position`: a negative coordinate is refused; otherwise each
     * coordinate is placed and truncated, and the window moved there.
     */
    method SetPosition(xpos: real, ypos: real) returns (ok: bool)
      modifies this`locX, this`locY, this`calls
      ensures ok <==> xpos >= 0.0 && ypos >= 0.0
      ensures !ok ==> locX == old(locX) && locY == old(locY) && calls == old(calls)
      ensures ok ==> locX == Truncate(Place(xpos, screen.x as real, screen.width as real, width as real))
      ensures ok ==> locY == Truncate(Place(ypos, screen.y as real, screen.height as real, height as real))
      ensures ok ==> locX >= 0 && locY >= 0
      ensures ok ==> calls == old(calls) + [SetLocation(locX, locY)]
    {
      if xpos < 0.0 || ypos < 0.0 {
        return false;
      }
      var x := Place(xpos, screen.x as real, screen.width as real, width as real);
      var y := Place(ypos, screen.y as real, screen.height as real, height as real);
      locX, locY := Truncate(x), Truncate(y);
      calls := calls + [SetLocation(locX, locY)];
      ok := true;
    }

    /** `center_window`: `set_position(0.5, 0.5)`, which never refuses. */
    method CenterWindow()
      modifies this`locX, this`locY, this`calls
      ensures locX == Truncate(Place(0.5, screen.x as real, screen.width as real, width as real))
      ensures locY == Truncate(Place(0.5, screen.y as real, screen.height as real, height as real))
      ensures calls == old(calls) + [SetLocation(locX, locY)]
    {
      var ok := SetPosition(0.5, 0.5);
    }

    /**
     * `on_draw`: the scene is cleared and rendered only when the flag is
     * set and a scene exists, which clears the flag; the GUI is rendered
     * on every draw.
     */
    method OnDraw() returns (rendered: bool)
      modifies this`doUpdate, this`calls
      ensures rendered == Renders(old(doUpdate), hasScene)
      ensures doUpdate == FlagAfterDraw(old(doUpdate), hasScene)
      ensures calls == old(calls) + (if rendered then [ClearWindow, RenderScene] else [])
        + (if hasGui then [RenderGui] else [])
    {
      rendered := false;
      if doUpdate && hasScene {
        doUpdate := false;
        calls := calls + [ClearWindow, RenderScene];
        rendered := true;
      }
      if hasGui {
        calls := calls + [RenderGui];
      }
    }

    /**
     * `on_resize`: the viewport follows the new size; without a scene, or
     * with a zero height (the aspect ratio divides by it), the handler
     * stops with an error before raising the flag.
     */
    method OnResize(w: int, h: int) returns (ok: bool)
      modifies this`width, this`height, this`doUpdate, this`calls
      ensures width == w && height == h
      ensures ok <==> hasScene && h != 0
      ensures ok ==> doUpdate
      ensures !ok ==> doUpdate == old(doUpdate)
      ensures !hasScene ==> calls == old(calls) + [ResizeViewport(w, h)]
      ensures hasScene && h == 0 ==> calls == old(calls) + [ResizeViewport(w, h), ResetFramebuffers]
      ensures ok ==> calls == old(calls) + [ResizeViewport(w, h), ResetFramebuffers,
                                            SetAspectRatio(w as real / h as real), UpdateMatrices]
    {
      width, height := w, h;
      calls := calls + [ResizeViewport(w, h)];
      if !hasScene {
        return false;
      }
      calls := calls + [ResetFramebuffers];
      if h == 0 {
        return false;
      }
      calls := calls + [SetAspectRatio(w as real / h as real), UpdateMatrices];
      doUpdate := true;
      ok := true;
    }

    /** `on_mouse_press`: raises the flag. */
    method OnMousePress()
      modifies this`doUpdate
      ensures doUpdate
    {
      doUpdate := true;
    }

    /**
     * `on_mouse_drag`: a drag the GUI handled only raises the flag;
     * otherwise the start and end points are mapped onto [-1, 1] and the
     * camera turned, which needs a non-empty window and a scene.
     */
    method OnMouseDrag(x: int, y: int, dx: int, dy: int, guiHandled: bool) returns (ok: bool)
      modifies this`doUpdate, this`calls
      ensures ok <==> (hasGui && guiHandled) || (width != 0 && height != 0 && hasScene)
      ensures ok ==> doUpdate
      ensures !ok ==> doUpdate == old(doUpdate)
      ensures hasGui && guiHandled ==> calls == old(calls)
      ensures !(hasGui && guiHandled) && ok ==>
        calls == old(calls) + [UpdateOrientation(
          ToClip(x as real, width as real), ToClip(y as real, height as real),
          ToClip((x - dx) as real, width as real), ToClip((y + dy) as real, height as real))]
      ensures !ok ==> calls == old(calls)
    {
      if hasGui && guiHandled {
        doUpdate := true;
        return true;
      }
      if width == 0 || height == 0 || !hasScene {
        return false;
      }
      var startX := ToClip(x as real, width as real);
      var endX := ToClip((x - dx) as real, width as real);
      var startY := ToClip(y as real, height as real);
      var endY := ToClip((y + dy) as real, height as real);
      calls := calls + [UpdateOrientation(startX, startY, endX, endY)];
      doUpdate := true;
      ok := true;
    }

    /**
     * `on_mouse_scroll`: a scroll the GUI handled only raises the flag;
     * otherwise the camera moves along its viewing direction by the
     * negated scroll amount, which needs a scene.
     */
    method OnMouseScroll(x: int, y: int, scrollX: real, scrollY: real, guiHandled: bool) returns (ok: bool)
      modifies this`doUpdate, this`calls
      ensures ok <==> (hasGui && guiHandled) || hasScene
      ensures ok ==> doUpdate
      ensures !ok ==> doUpdate == old(doUpdate)
      ensures !(hasGui && guiHandled) && ok ==> calls == old(calls) + [OffsetPosition(-scrollY)]
      ensures (hasGui && guiHandled) || !ok ==> calls == old(calls)
    {
      if hasGui && guiHandled {
        doUpdate := true;
        return true;
      }
      if !hasScene {
        return false;
      }
      calls := calls + [OffsetPosition(-1.0 * scrollY)];
      doUpdate := true;
      ok := true;
    }
  }
}
