/**
 * The capture-and-publish loop of ytOpenSpace.py's `main`.
 *
 * Two (height, width, 4) float buffers are allocated once and rewritten in
 * place on every pass of the loop: the depth buffer's red channel receives
 * the normalised depth readback, the colour buffer's RGB the normalised
 * colour readback and its alpha a background mask.  Window, OpenGL and
 * Spout calls are recorded as events of a trace, in the order the loop
 * makes them; the readbacks are inputs.
 */
module PublishLoop {
  import opened PixelCapture

  const SenderNameColor: string := "OpenSpace-yt-Color"
  const SenderNameDepth: string := "OpenSpace-yt-Depth"
  const TargetFps: int := 30
  /** `1 / TARGET_FPS` seconds, slept at the end of every complete pass. */
  const FramePeriod: real := 1.0 / TargetFps as real
  const DisplayWidth: nat := 800
  const DisplayHeight: nat := 800
  /** SEND_WIDTH = ceil(DISPLAY_WIDTH / 1). */
  const SendWidth: nat := DisplayWidth
  /** SEND_HEIGHT = ceil(DISPLAY_HEIGHT / 1). */
  const SendHeight: nat := DisplayHeight

  /** The two published textures, each with its own Spout sender. */
  datatype Channel = Color | Depth

  function SenderName(ch: Channel): string
  {
    match ch
    case Color => SenderNameColor
    case Depth => SenderNameDepth
  }

  /** The two senders publish under different names, so OpenSpace can tell depth from colour. */
  lemma SenderNamesDistinct(a: Channel, b: Channel)
    ensures SenderName(a) == SenderName(b) <==> a == b
  {
    assert SenderNameColor[13] != SenderNameDepth[13];
  }

  /** The externally visible steps of a run, in the order they happen. */
  datatype Event =
    | NameSender(ch: Channel)                 // setSenderName(SenderName(ch))
    | ClockTick                               // pyglet.clock.tick
    | DispatchEvents                          // window.dispatch_events
    | DrawWindow                              // window.dispatch_event("on_draw")
    | FlipWindow                              // window.flip
    | ReadBack(ch: Channel)                   // glReadPixels inside getPixelData
    | Upload(ch: Channel)                     // glTexImage2D of the RGBA buffer
    | SendTexture(ch: Channel)                // sender.sendTexture
    | FrameSync(ch: Channel)                  // setFrameSync(SenderName(ch))
    | Sleep(seconds: real)                    // asyncio.sleep

  /**
   * What the environment supplies to one pass of the loop: whether the
   * window asked to close, and the two buffers glReadPixels would return.
   */
  datatype Frame = Frame(hasExit: bool, depthReadback: seq<real>, colorReadback: seq<real>)

  /** glReadPixels over the whole window: one float per pixel for depth, four for RGBA. */
  predicate FitsWindow(f: Frame, width: nat, height: nat)
  {
    |f.depthReadback| == width * height && |f.colorReadback| == width * height * 4
  }

  /** `np.where(np.all(rgb <= 0.0), 0.0, 1.0)` for one pixel. */
  function BackgroundAlpha(r: real, g: real, b: real): (a: real)
    ensures a == 0.0 || a == 1.0
    ensures a == 0.0 <==> r <= 0.0 && g <= 0.0 && b <= 0.0
  {
    if r <= 0.0 && g <= 0.0 && b <= 0.0 then 0.0 else 1.0
  }

  // ---------------------------------------------------------------------
  // The trace of a run
  // ---------------------------------------------------------------------

  /** Sender creation and naming before the loop. */
  function Setup(): seq<Event>
  {
    [NameSender(Color), NameSender(Depth)]
  }

  /** The head of every pass: clock tick, then event pump, draw and flip of the window. */
  function DrawPass(): seq<Event>
  {
    [ClockTick, DispatchEvents, DrawWindow, FlipWindow]
  }

  /** Capture and publication of one texture. */
  function PublishPass(ch: Channel): seq<Event>
  {
    [ReadBack(ch), Upload(ch), SendTexture(ch), FrameSync(ch)]
  }

  /** A pass that does not exit: draw, depth, colour, then sleep for one frame period. */
  function FullTick(): seq<Event>
  {
    DrawPass() + PublishPass(Depth) + PublishPass(Color) + [Sleep(FramePeriod)]
  }

  function Repeat(block: seq<Event>, n: nat): seq<Event>
  {
    if n == 0 then [] else Repeat(block, n - 1) + block
  }

  /** Index of the first frame whose window asked to close, or the number of frames. */
  function FirstExit(frames: seq<Frame>): (n: nat)
    ensures n <= |frames|
    ensures forall k :: 0 <= k < n ==> !frames[k].hasExit
    ensures n < |frames| ==> frames[n].hasExit
  {
    if |frames| == 0 || frames[0].hasExit then 0 else 1 + FirstExit(frames[1..])
  }

  /**
   * The loop over `frames`: complete passes up to the first exit; the
   * exiting pass stops after drawing, before any capture.
   */
  function LoopTrace(frames: seq<Frame>): seq<Event>
  {
    var n := FirstExit(frames);
    Repeat(FullTick(), n) + (if n < |frames| then DrawPass() else [])
  }

  /** Without an exiting frame the loop trace is one complete pass per frame. */
  lemma NoExitTrace(frames: seq<Frame>)
    requires FirstExit(frames) == |frames|
    ensures LoopTrace(frames) == Repeat(FullTick(), |frames|)
  {
  }

  function SessionTrace(frames: seq<Frame>): seq<Event>
  {
    Setup() + LoopTrace(frames)
  }

  // ---------------------------------------------------------------------
  // The preallocated buffers and the loop
  // ---------------------------------------------------------------------

  /** `getPixelData(GL_DEPTH_COMPONENT).reshape(SEND_WIDTH, SEND_HEIGHT)`. */
  function DepthGrid(f: Frame, width: nat, height: nat): (g: seq<seq<real>>)
    requires FitsWindow(f, width, height)
    ensures |g| == width
  {
    Reshape2(Normalize(f.depthReadback), width, height)
  }

  /** `getPixelData(GL_RGBA).reshape(SEND_WIDTH, SEND_HEIGHT, 4)`. */
  function ColorGrid(f: Frame, width: nat, height: nat): (g: seq<seq<seq<real>>>)
    requires FitsWindow(f, width, height)
    ensures |g| == width
  {
    Reshape3(Normalize(f.colorReadback), width, height, 4)
  }

  /** Both grids have the shape (width, height), with four channels per colour cell. */
  lemma GridShapes(f: Frame, width: nat, height: nat)
    requires FitsWindow(f, width, height)
    ensures IsGrid2(DepthGrid(f, width, height), width, height)
    ensures IsGrid3(ColorGrid(f, width, height), width, height, 4)
  {
    Reshape2Shape(Normalize(f.depthReadback), width, height);
    Reshape3Shape(Normalize(f.colorReadback), width, height, 4);
  }

  /**
   * Depth cell (i, j) after `reshape(SEND_WIDTH, SEND_HEIGHT)` is the
   * normalised readback value at row-major index i * height + j.
   */
  lemma DepthCell(f: Frame, width: nat, height: nat, i: nat, j: nat)
    requires FitsWindow(f, width, height) && i < width && j < height
    ensures IsGrid2(DepthGrid(f, width, height), width, height)
    ensures i * height + j < |f.depthReadback|
    ensures DepthGrid(f, width, height)[i][j] == Normalize(f.depthReadback)[i * height + j]
  {
    GridShapes(f, width, height);
    Reshape2At(Normalize(f.depthReadback), width, height, i, j);
  }

  /**
   * Colour channel c of cell (i, j) after `reshape(SEND_WIDTH,
   * SEND_HEIGHT, 4)` is the normalised readback value at (i * height + j) * 4 + c.
   */
  lemma ColorCell(f: Frame, width: nat, height: nat, i: nat, j: nat, c: nat)
    requires FitsWindow(f, width, height) && i < width && j < height && c < 4
    ensures IsGrid3(ColorGrid(f, width, height), width, height, 4)
    ensures (i * height + j) * 4 + c < |f.colorReadback|
    ensures ColorGrid(f, width, height)[i][j][c] == Normalize(f.colorReadback)[(i * height + j) * 4 + c]
  {
    GridShapes(f, width, height);
    Reshape3At(Normalize(f.colorReadback), width, height, 4, i, j, c, i * height + j);
  }

  /** A grid of `rows` rows of `cols` cells, each cell `depth` values. */
  predicate IsGrid3(g: seq<seq<seq<real>>>, rows: nat, cols: nat, depth: nat)
  {
    && |g| == rows
    && (forall i :: 0 <= i < rows ==> |g[i]| == cols)
    && (forall i, j :: 0 <= i < rows && 0 <= j < cols ==> |g[i][j]| == depth)
  }

  predicate IsGrid2(g: seq<seq<real>>, rows: nat, cols: nat)
  {
    |g| == rows && forall i :: 0 <= i < rows ==> |g[i]| == cols
  }

  // ---------------------------------------------------------------------
  // What the senders publish
  // ---------------------------------------------------------------------

  /** An RGBA float texture, indexed row, column, channel, as glTexImage2D reads it. */
  type Texture = seq<seq<seq<real>>>

  /** A texture uploaded with glTexImage2D and handed to the channel's Spout sender. */
  datatype Sent = Sent(ch: Channel, texture: Texture)

  /** The contents of a buffer of shape (rows, cols, channels). */
  function Snapshot(a: array3<real>): Texture
    reads a
  {
    seq(a.Length0, i requires 0 <= i < a.Length0 reads a =>
      seq(a.Length1, j requires 0 <= j < a.Length1 reads a =>
        seq(a.Length2, c requires 0 <= c < a.Length2 reads a => a[i, j, c])))
  }

  /** Cell (i, j) of a grid, or 0 outside it. */
  function At2(grid: seq<seq<real>>, i: int, j: int): real
  {
    if 0 <= i < |grid| && 0 <= j < |grid[i]| then grid[i][j] else 0.0
  }

  /** Channel c of cell (i, j) of a grid, or 0 outside it. */
  function At3(grid: Texture, i: int, j: int, c: int): real
  {
    if 0 <= i < |grid| && 0 <= j < |grid[i]| && 0 <= c < |grid[i][j]| then grid[i][j][c] else 0.0
  }

  /** depth_pixels of shape (rows, cols, 4) holding `grid` in red, and 0, 0, 1 in G, B and A. */
  function DepthTexture(grid: seq<seq<real>>, rows: nat, cols: nat): Texture
  {
    seq(rows, i => seq(cols, j => [At2(grid, i, j), 0.0, 0.0, 1.0]))
  }

  /** color_pixels of shape (rows, cols, 4) holding the RGB of `grid` and its background mask as alpha. */
  function ColorTexture(grid: Texture, rows: nat, cols: nat): Texture
  {
    seq(rows, i => seq(cols, j =>
      [At3(grid, i, j, 0), At3(grid, i, j, 1), At3(grid, i, j, 2),
       BackgroundAlpha(At3(grid, i, j, 0), At3(grid, i, j, 1), At3(grid, i, j, 2))]))
  }

  /**
   * The two textures a complete pass over `f` sends: the depth texture,
   * then the colour texture.  The window is square (see `Tick`).
   */
  function PassTextures(f: Frame, width: nat, height: nat): (s: seq<Sent>)
    requires FitsWindow(f, width, height) && width == height
    ensures |s| == 2 && s[0].ch == Depth && s[1].ch == Color
  {
    [Sent(Depth, DepthTexture(DepthGrid(f, width, height), height, width)),
     Sent(Color, ColorTexture(ColorGrid(f, width, height), height, width))]
  }

  /** Every frame fills the window. */
  predicate AllFit(frames: seq<Frame>, width: nat, height: nat)
  {
    forall k :: 0 <= k < |frames| ==> FitsWindow(frames[k], width, height)
  }

  /** The textures pass k of `frames` sends; nothing for a pass past the last frame. */
  function PassOf(frames: seq<Frame>, width: nat, height: nat): nat -> seq<Sent>
  {
    (k: nat) => if k < |frames| && width == height && FitsWindow(frames[k], width, height)
         then PassTextures(frames[k], width, height) else []
  }

  /** Blocks 0 to n - 1 laid end to end. */
  function Concat<T>(block: nat -> seq<T>, n: nat): seq<T>
  {
    if n == 0 then [] else Concat(block, n - 1) + block(n - 1)
  }

  /** Everything sent over the first `n` passes of `frames`, in order. */
  function Publications(frames: seq<Frame>, n: nat, width: nat, height: nat): seq<Sent>
    requires width == height && AllFit(frames, width, height) && n <= |frames|
  {
    Concat(PassOf(frames, width, height), n)
  }

  lemma {:induction false} ConcatPairsLength<T>(block: nat -> seq<T>, n: nat)
    requires forall i :: 0 <= i < n ==> |block(i)| == 2
    ensures |Concat(block, n)| == 2 * n
  {
    if n > 0 {
      ConcatPairsLength(block, n - 1);
    }
  }

  lemma SliceOfPrefix<T>(p: seq<T>, q: seq<T>, i: nat, j: nat)
    requires i <= j <= |p|
    ensures (p + q)[i .. j] == p[i .. j]
  {
  }

  lemma SliceOfSuffix<T>(p: seq<T>, q: seq<T>)
    ensures (p + q)[|p| .. |p| + |q|] == q
  {
  }

  /** When every block has two entries, entries 2k and 2k + 1 of the concatenation are block k. */
  lemma {:induction false} ConcatPairsAt<T>(block: nat -> seq<T>, n: nat, k: nat)
    requires forall i :: 0 <= i < n ==> |block(i)| == 2
    requires k < n
    ensures |Concat(block, n)| == 2 * n
    ensures Concat(block, n)[2 * k .. 2 * k + 2] == block(k)
  {
    ConcatPairsLength(block, n);
    ConcatPairsLength(block, n - 1);
    var p, q := Concat(block, n - 1), block(n - 1);
    if k < n - 1 {
      ConcatPairsAt(block, n - 1, k);
      SliceOfPrefix(p, q, 2 * k, 2 * k + 2);
    } else {
      SliceOfSuffix(p, q);
    }
  }

  /** On frames that fill the window, block k is what pass k sends. */
  lemma PassOfFrames(frames: seq<Frame>, width: nat, height: nat)
    requires width == height && AllFit(frames, width, height)
    ensures forall k :: 0 <= k < |frames| ==> PassOf(frames, width, height)(k) == PassTextures(frames[k], width, height)
    ensures forall k :: 0 <= k < |frames| ==> |PassOf(frames, width, height)(k)| == 2
  {
  }

  /** The first `n` passes publish two textures each. */
  lemma PublicationsLength(frames: seq<Frame>, n: nat, width: nat, height: nat)
    requires width == height && AllFit(frames, width, height) && n <= |frames|
    ensures |Publications(frames, n, width, height)| == 2 * n
  {
    PassOfFrames(frames, width, height);
    ConcatPairsLength(PassOf(frames, width, height), n);
  }

  /** Entries 2k and 2k + 1 of what the first `n` passes publish are the depth and colour textures of pass k. */
  lemma PublicationsAt(frames: seq<Frame>, n: nat, width: nat, height: nat, k: nat)
    requires width == height && AllFit(frames, width, height) && n <= |frames|
    requires k < n
    ensures |Publications(frames, n, width, height)| == 2 * n
    ensures Publications(frames, n, width, height)[2 * k .. 2 * k + 2] == PassTextures(frames[k], width, height)
  {
    PassOfFrames(frames, width, height);
    ConcatPairsAt(PassOf(frames, width, height), n, k);
  }

  /**
   * Cell (i, j) of the published depth texture: the normalised depth
   * readback at row-major index i * height + j in red, then 0, 0 and 1.
   */
  lemma PublishedDepthCell(f: Frame, width: nat, height: nat, i: nat, j: nat)
    requires FitsWindow(f, width, height) && width == height && i < height && j < width
    ensures |PassTextures(f, width, height)[0].texture| == height
    ensures |PassTextures(f, width, height)[0].texture[i]| == width
    ensures i * height + j < |f.depthReadback|
    ensures PassTextures(f, width, height)[0].texture[i][j] ==
      [Normalize(f.depthReadback)[i * height + j], 0.0, 0.0, 1.0]
  {
    DepthCell(f, width, height, i, j);
  }

  /**
   * Cell (i, j) of the published colour texture: channel c < 3 is the
   * normalised colour readback at (i * height + j) * 4 + c; on a non-uniform
   * frame the alpha is 0 exactly when the raw R, G and B are all the frame's
   * minimum, and 1 otherwise.
   */
  lemma PublishedColorCell(f: Frame, width: nat, height: nat, i: nat, j: nat, c: nat)
    requires FitsWindow(f, width, height) && width == height && i < height && j < width && c < 3
    ensures |PassTextures(f, width, height)[1].texture| == height
    ensures |PassTextures(f, width, height)[1].texture[i]| == width
    ensures |PassTextures(f, width, height)[1].texture[i][j]| == 4
    ensures (i * height + j) * 4 + c < |f.colorReadback|
    ensures PassTextures(f, width, height)[1].texture[i][j][c] == Normalize(f.colorReadback)[(i * height + j) * 4 + c]
    ensures PassTextures(f, width, height)[1].texture[i][j][3] == 0.0 || PassTextures(f, width, height)[1].texture[i][j][3] == 1.0
    ensures NonUniform(f.colorReadback) ==>
      IsGrid3(Reshape3(f.colorReadback, width, height, 4), width, height, 4) &&
      (PassTextures(f, width, height)[1].texture[i][j][3] == 0.0 <==>
        forall d :: 0 <= d < 3 ==> Reshape3(f.colorReadback, width, height, 4)[i][j][d] == SeqMin(f.colorReadback))
  {
    ColorCell(f, width, height, i, j, c);
    Reshape3Shape(f.colorReadback, width, height, 4);
    if NonUniform(f.colorReadback) {
      BackgroundIsDarkest(f, width, height, i, j);
    }
  }

  class FramePublisher {
    const width: nat
    const height: nat
    /** depth_pixels, shape (SEND_HEIGHT, SEND_WIDTH, 4). */
    const depthPixels: array3<real>
    /** color_pixels, shape (SEND_HEIGHT, SEND_WIDTH, 4). */
    const colorPixels: array3<real>
    var trace: seq<Event>
    /** The textures handed to the Spout senders so far, in order. */
    var published: seq<Sent>
    /** The grid last stored into the depth buffer's red channel. */
    ghost var shownDepth: seq<seq<real>>
    /** The grid whose first three channels were last stored into the colour buffer. */
    ghost var shownColor: seq<seq<seq<real>>>

    /**
     * Shapes as allocated; the depth texture's G, B and A channels are
     * constant; the depth red channel holds `shownDepth`, the colour RGB
     * holds `shownColor` and the colour alpha is the background mask of
     * that RGB.
     */
    ghost predicate Valid()
      reads this`shownDepth, this`shownColor, depthPixels, colorPixels
    {
      && depthPixels.Length0 == height && depthPixels.Length1 == width && depthPixels.Length2 == 4
      && colorPixels.Length0 == height && colorPixels.Length1 == width && colorPixels.Length2 == 4
      && depthPixels != colorPixels
      && IsGrid2(shownDepth, height, width)
      && IsGrid3(shownColor, height, width, 4)
      && (forall i, j | 0 <= i < height && 0 <= j < width ::
            && depthPixels[i, j, 0] == shownDepth[i][j]
            && depthPixels[i, j, 1] == 0.0 && depthPixels[i, j, 2] == 0.0 && depthPixels[i, j, 3] == 1.0)
      && (forall i, j, c | 0 <= i < height && 0 <= j < width && 0 <= c < 3 ::
            colorPixels[i, j, c] == shownColor[i][j][c])
      && (forall i, j | 0 <= i < height && 0 <= j < width ::
            colorPixels[i, j, 3] == BackgroundAlpha(shownColor[i][j][0], shownColor[i][j][1], shownColor[i][j][2]))
    }

    /**
     * Sender naming, then both buffers allocated as zeros and the depth
     * buffer's alpha set to 1 once.
     */
    constructor (w: nat, h: nat)
      ensures Valid() && width == w && height == h
      ensures fresh(depthPixels) && fresh(colorPixels)
      ensures trace == Setup() && published == []
      ensures forall i, j | 0 <= i < h && 0 <= j < w :: depthPixels[i, j, 0] == 0.0
      ensures forall i, j, c | 0 <= i < h && 0 <= j < w && 0 <= c < 4 :: colorPixels[i, j, c] == 0.0
    {
      width, height := w, h;
      trace := Setup();
      published := [];
      depthPixels := new real[h, w, 4];
      colorPixels := new real[h, w, 4];
      shownDepth := seq(h, i => seq(w, j => 0.0));
      shownColor := seq(h, i => seq(w, j => [0.0, 0.0, 0.0, 0.0]));
      new;
      forall i, j, c | 0 <= i < h && 0 <= j < w && 0 <= c < 4 {
        depthPixels[i, j, c] := if c == 3 then 1.0 else 0.0;
      }
      forall i, j, c | 0 <= i < h && 0 <= j < w && 0 <= c < 4 {
        colorPixels[i, j, c] := 0.0;
      }
    }

    /**
     * One pass of `while pyglet.app.windows`.  The readbacks are reshaped
     * to (SEND_WIDTH, SEND_HEIGHT) and stored into buffers of shape
     * (SEND_HEIGHT, SEND_WIDTH), which only fits when the two are equal.
     */
    method Tick(f: Frame) returns (exit: bool)
      requires Valid() && width == height && FitsWindow(f, width, height)
      modifies this`trace, this`published, this`shownDepth, this`shownColor, depthPixels, colorPixels
      ensures Valid()
      ensures exit == f.hasExit
      ensures exit ==> trace == old(trace) + DrawPass() && published == old(published)
      ensures exit ==> unchanged(depthPixels, colorPixels) && shownDepth == old(shownDepth) && shownColor == old(shownColor)
      ensures !exit ==> trace == old(trace) + FullTick()
      ensures !exit ==> shownDepth == DepthGrid(f, width, height) && shownColor == ColorGrid(f, width, height)
      ensures !exit ==> published == old(published) + PassTextures(f, width, height)
    {
      trace := trace + DrawPass();
      if f.hasExit {
        return true;
      }

      GridShapes(f, width, height);
      StoreDepth(DepthGrid(f, width, height));
      DepthSnapshot();
      var depthTexture := Snapshot(depthPixels);
      published := published + [Sent(Depth, depthTexture)];
      trace := trace + PublishPass(Depth);

      StoreColor(ColorGrid(f, width, height));
      ColorSnapshot();
      published := published + [Sent(Color, Snapshot(colorPixels))];
      trace := trace + PublishPass(Color) + [Sleep(FramePeriod)];
      exit := false;
    }

    /** What glTexImage2D reads from depth_pixels is the texture of the grid last stored. */
    lemma DepthSnapshot()
      requires Valid()
      ensures Snapshot(depthPixels) == DepthTexture(shownDepth, height, width)
    {
      var s, t := Snapshot(depthPixels), DepthTexture(shownDepth, height, width);
      forall i | 0 <= i < height
        ensures s[i] == t[i]
      {
        forall j | 0 <= j < width
          ensures s[i][j] == t[i][j]
        {
          assert s[i][j] == [depthPixels[i, j, 0], depthPixels[i, j, 1], depthPixels[i, j, 2], depthPixels[i, j, 3]];
        }
      }
    }

    /** What glTexImage2D reads from color_pixels is the texture of the grid last stored. */
    lemma ColorSnapshot()
      requires Valid()
      ensures Snapshot(colorPixels) == ColorTexture(shownColor, height, width)
    {
      var s, t := Snapshot(colorPixels), ColorTexture(shownColor, height, width);
      forall i | 0 <= i < height
        ensures s[i] == t[i]
      {
        forall j | 0 <= j < width
          ensures s[i][j] == t[i][j]
        {
          assert s[i][j] == [colorPixels[i, j, 0], colorPixels[i, j, 1], colorPixels[i, j, 2], colorPixels[i, j, 3]];
        }
      }
    }

    /** `depth_pixels[:, :, 0] = grid`: the red channel only. */
    method StoreDepth(grid: seq<seq<real>>)
      requires Valid() && IsGrid2(grid, height, width)
      modifies this`shownDepth, depthPixels
      ensures Valid() && shownDepth == grid
      ensures forall i, j, c | 0 <= i < height && 0 <= j < width && 1 <= c < 4 ::
        depthPixels[i, j, c] == old(depthPixels[i, j, c])
    {
      forall i, j | 0 <= i < height && 0 <= j < width {
        depthPixels[i, j, 0] := grid[i][j];
      }
      shownDepth := grid;
    }

    /**
     * `color_pixels[:, :, :3] = grid[:, :, :3]`, then the alpha channel
     * computed from the RGB just stored.
     */
    method StoreColor(grid: seq<seq<seq<real>>>)
      requires Valid() && IsGrid3(grid, height, width, 4)
      modifies this`shownColor, colorPixels
      ensures Valid() && shownColor == grid
    {
      forall i, j, c | 0 <= i < height && 0 <= j < width && 0 <= c < 3 {
        colorPixels[i, j, c] := grid[i][j][c];
      }
      forall i, j | 0 <= i < height && 0 <= j < width {
        colorPixels[i, j, 3] := BackgroundAlpha(colorPixels[i, j, 0], colorPixels[i, j, 1], colorPixels[i, j, 2]);
      }
      shownColor := grid;
    }

    /**
     * `while pyglet.app.windows`, where `frames` are the passes the
     * environment offers while a window is open.  The loop stops at the
     * first pass whose window asked to close, or when no window is left.
     * Every pass keeps `Valid`: whatever the number of passes, the depth
     * buffer's G, B and A channels are still 0, 0 and 1.
     */
    method Run(frames: seq<Frame>) returns (ticks: nat)
      requires Valid() && width == height
      requires AllFit(frames, width, height)
      modifies this`trace, this`published, this`shownDepth, this`shownColor, depthPixels, colorPixels
      ensures Valid()
      ensures ticks == FirstExit(frames)
      ensures trace == old(trace) + LoopTrace(frames)
      ensures published == old(published) + Publications(frames, ticks, width, height)
      ensures ticks == 0 ==> unchanged(depthPixels, colorPixels)
    {
      ticks := 0;
      while ticks < |frames|
        invariant Valid()
        invariant 0 <= ticks <= FirstExit(frames)
        invariant trace == old(trace) + Repeat(FullTick(), ticks)
        invariant published == old(published) + Publications(frames, ticks, width, height)
        invariant ticks == 0 ==> unchanged(depthPixels, colorPixels)
      {
        var exited := Step(frames, ticks, old(trace), old(published));
        if exited {
          return;
        }
        ticks := ticks + 1;
      }
      NoExitTrace(frames);
    }

    /**
     * One pass of the loop, pass `n` of `frames`, stated against the trace
     * and the sent log of the passes before it.
     */
    method Step(frames: seq<Frame>, n: nat, ghost traceBefore: seq<Event>, ghost sentBefore: seq<Sent>)
      returns (exit: bool)
      requires Valid() && width == height && AllFit(frames, width, height)
      requires n < |frames| && n <= FirstExit(frames)
      requires trace == traceBefore + Repeat(FullTick(), n)
      requires published == sentBefore + Publications(frames, n, width, height)
      modifies this`trace, this`published, this`shownDepth, this`shownColor, depthPixels, colorPixels
      ensures Valid()
      ensures exit == frames[n].hasExit
      ensures exit ==> n == FirstExit(frames) && trace == traceBefore + LoopTrace(frames)
      ensures exit ==> published == sentBefore + Publications(frames, n, width, height)
      ensures exit ==> unchanged(depthPixels, colorPixels)
      ensures !exit ==> n + 1 <= FirstExit(frames) && trace == traceBefore + Repeat(FullTick(), n + 1)
      ensures !exit ==> published == sentBefore + Publications(frames, n + 1, width, height)
    {
      AppendAssoc(traceBefore, Repeat(FullTick(), n), FullTick());
      AppendAssoc(traceBefore, Repeat(FullTick(), n), DrawPass());
      AppendAssoc(sentBefore, Publications(frames, n, width, height), PassTextures(frames[n], width, height));
      exit := Tick(frames[n]);
    }
  }

  lemma AppendAssoc<T>(a: seq<T>, b: seq<T>, c: seq<T>)
    ensures a + b + c == a + (b + c)
  {
  }

  /** `main`: name both senders, allocate the buffers, then run the loop at the fixed window size. */
  method Session(frames: seq<Frame>) returns (publisher: FramePublisher, ticks: nat)
    requires AllFit(frames, SendWidth, SendHeight)
    ensures fresh(publisher) && publisher.Valid()
    ensures publisher.width == SendWidth && publisher.height == SendHeight
    ensures ticks == FirstExit(frames)
    ensures publisher.trace == SessionTrace(frames)
    ensures publisher.published == Publications(frames, ticks, SendWidth, SendHeight)
  {
    publisher := new FramePublisher(SendWidth, SendHeight);
    ticks := publisher.Run(frames);
  }

  // ---------------------------------------------------------------------
  // The background mask
  // ---------------------------------------------------------------------

  /**
   * On a non-uniform colour readback a pixel's alpha is 0 exactly when its
   * red, green and blue readback values are all the frame's minimum: the
   * mask keeps every pixel that is not the darkest value of the frame.
   */
  lemma BackgroundIsDarkest(f: Frame, width: nat, height: nat, i: nat, j: nat)
    requires FitsWindow(f, width, height) && NonUniform(f.colorReadback)
    requires i < width && j < height
    ensures IsGrid3(ColorGrid(f, width, height), width, height, 4)
    ensures IsGrid3(Reshape3(f.colorReadback, width, height, 4), width, height, 4)
    ensures
      var g := ColorGrid(f, width, height);
      var raw := Reshape3(f.colorReadback, width, height, 4);
      BackgroundAlpha(g[i][j][0], g[i][j][1], g[i][j][2]) == 0.0 <==>
        raw[i][j][0] == SeqMin(f.colorReadback) &&
        raw[i][j][1] == SeqMin(f.colorReadback) &&
        raw[i][j][2] == SeqMin(f.colorReadback)
  {
    var s := f.colorReadback;
    var p := i * height + j;
    GridShapes(f, width, height);
    Reshape3Shape(s, width, height, 4);
    Reshape3At(Normalize(s), width, height, 4, i, j, 0, p);
    Reshape3At(Normalize(s), width, height, 4, i, j, 1, p);
    Reshape3At(Normalize(s), width, height, 4, i, j, 2, p);
    Reshape3At(s, width, height, 4, i, j, 0, p);
    Reshape3At(s, width, height, 4, i, j, 1, p);
    Reshape3At(s, width, height, 4, i, j, 2, p);
    NormalizeZero(s, p * 4 + 0);
    NormalizeZero(s, p * 4 + 1);
    NormalizeZero(s, p * 4 + 2);
  }

  // ---------------------------------------------------------------------
  // Order of events
  // ---------------------------------------------------------------------

  /** Every occurrence of `a` in `t` is immediately followed by `b`. */
  ghost predicate FollowedBy(t: seq<Event>, a: Event, b: Event)
  {
    forall i :: 0 <= i < |t| && t[i] == a ==> i + 1 < |t| && t[i + 1] == b
  }

  /** Every occurrence of `b` in `t` is immediately preceded by `a`. */
  ghost predicate PrecededBy(t: seq<Event>, a: Event, b: Event)
  {
    forall i :: 0 <= i < |t| && t[i] == b ==> 0 < i && t[i - 1] == a
  }

  lemma FollowedByAppend(x: seq<Event>, y: seq<Event>, a: Event, b: Event)
    requires FollowedBy(x, a, b) && FollowedBy(y, a, b)
    ensures FollowedBy(x + y, a, b)
  {
    var t := x + y;
    forall i | 0 <= i < |t| && t[i] == a
      ensures i + 1 < |t| && t[i + 1] == b
    {
      if i < |x| {
        assert x[i] == a;
      } else {
        assert y[i - |x|] == a;
      }
    }
  }

  /**
   * Joining two pieces: every `b` of `y` but its first element is preceded
   * within `y`, and a `b` at the head of `y` is preceded by the last event
   * of `x`.
   */
  lemma PrecededByJoin(x: seq<Event>, y: seq<Event>, a: Event, b: Event)
    requires PrecededBy(x, a, b)
    requires forall i :: 0 < i < |y| && y[i] == b ==> y[i - 1] == a
    requires |y| > 0 && y[0] == b ==> |x| > 0 && x[|x| - 1] == a
    ensures PrecededBy(x + y, a, b)
  {
    var t := x + y;
    forall i | 0 <= i < |t| && t[i] == b
      ensures 0 < i && t[i - 1] == a
    {
      if i < |x| {
        assert x[i] == b;
      } else {
        assert y[i - |x|] == b;
      }
    }
  }

  lemma PrecededByAppend(x: seq<Event>, y: seq<Event>, a: Event, b: Event)
    requires PrecededBy(x, a, b) && PrecededBy(y, a, b)
    ensures PrecededBy(x + y, a, b)
  {
    PrecededByJoin(x, y, a, b);
  }

  lemma {:induction false} FollowedByRepeat(block: seq<Event>, n: nat, a: Event, b: Event)
    requires FollowedBy(block, a, b)
    ensures FollowedBy(Repeat(block, n), a, b)
  {
    if n > 0 {
      FollowedByRepeat(block, n - 1, a, b);
      FollowedByAppend(Repeat(block, n - 1), block, a, b);
    }
  }

  lemma {:induction false} PrecededByRepeat(block: seq<Event>, n: nat, a: Event, b: Event)
    requires PrecededBy(block, a, b)
    ensures PrecededBy(Repeat(block, n), a, b)
  {
    if n > 0 {
      PrecededByRepeat(block, n - 1, a, b);
      PrecededByAppend(Repeat(block, n - 1), block, a, b);
    }
  }

  /** A pairing that holds in every block of a session holds in the whole session. */
  lemma SessionFollowedBy(frames: seq<Frame>, a: Event, b: Event)
    requires FollowedBy(Setup(), a, b) && FollowedBy(FullTick(), a, b) && FollowedBy(DrawPass(), a, b)
    ensures FollowedBy(SessionTrace(frames), a, b)
  {
    var n := FirstExit(frames);
    FollowedByRepeat(FullTick(), n, a, b);
    var tail: seq<Event> := if n < |frames| then DrawPass() else [];
    FollowedByAppend(Repeat(FullTick(), n), tail, a, b);
    FollowedByAppend(Setup(), LoopTrace(frames), a, b);
  }

  lemma SessionPrecededBy(frames: seq<Frame>, a: Event, b: Event)
    requires PrecededBy(Setup(), a, b) && PrecededBy(FullTick(), a, b) && PrecededBy(DrawPass(), a, b)
    ensures PrecededBy(SessionTrace(frames), a, b)
  {
    var n := FirstExit(frames);
    PrecededByRepeat(FullTick(), n, a, b);
    var tail: seq<Event> := if n < |frames| then DrawPass() else [];
    PrecededByAppend(Repeat(FullTick(), n), tail, a, b);
    PrecededByAppend(Setup(), LoopTrace(frames), a, b);
  }

  lemma FollowedByAbsent(x: seq<Event>, a: Event, b: Event)
    requires a !in x
    ensures FollowedBy(x, a, b)
  {
  }

  lemma PrecededByAbsent(x: seq<Event>, a: Event, b: Event)
    requires b !in x
    ensures PrecededBy(x, a, b)
  {
  }

  /** Pairings inside the publication of one channel. */
  lemma PublishPassOrder(ch: Channel)
    ensures FollowedBy(PublishPass(ch), SendTexture(ch), FrameSync(ch))
    ensures PrecededBy(PublishPass(ch), SendTexture(ch), FrameSync(ch))
    ensures PrecededBy(PublishPass(ch), Upload(ch), SendTexture(ch))
    ensures PrecededBy(PublishPass(ch), ReadBack(ch), Upload(ch))
  {
  }

  lemma TickFollowedBy(a: Event, b: Event)
    requires FollowedBy(DrawPass(), a, b) && FollowedBy(PublishPass(Depth), a, b)
    requires FollowedBy(PublishPass(Color), a, b) && FollowedBy([Sleep(FramePeriod)], a, b)
    ensures FollowedBy(FullTick(), a, b)
  {
    var d, p, q, z := DrawPass(), PublishPass(Depth), PublishPass(Color), [Sleep(FramePeriod)];
    FollowedByAppend(d, p, a, b);
    FollowedByAppend(d + p, q, a, b);
    FollowedByAppend(d + p + q, z, a, b);
  }

  lemma TickPrecededBy(a: Event, b: Event)
    requires PrecededBy(DrawPass(), a, b) && PrecededBy(PublishPass(Depth), a, b)
    requires PrecededBy(PublishPass(Color), a, b) && PrecededBy([Sleep(FramePeriod)], a, b)
    ensures PrecededBy(FullTick(), a, b)
  {
    var d, p, q, z := DrawPass(), PublishPass(Depth), PublishPass(Color), [Sleep(FramePeriod)];
    PrecededByAppend(d, p, a, b);
    PrecededByAppend(d + p, q, a, b);
    PrecededByAppend(d + p + q, z, a, b);
  }

  /** Every texture sent is frame-synced right after. */
  lemma SyncFollowsSend(frames: seq<Frame>, ch: Channel)
    ensures FollowedBy(SessionTrace(frames), SendTexture(ch), FrameSync(ch))
  {
    var a, b := SendTexture(ch), FrameSync(ch);
    PublishPassOrder(ch);
    if ch == Depth {
      FollowedByAbsent(PublishPass(Color), a, b);
    } else {
      FollowedByAbsent(PublishPass(Depth), a, b);
    }
    FollowedByAbsent(DrawPass(), a, b);
    FollowedByAbsent([Sleep(FramePeriod)], a, b);
    FollowedByAbsent(Setup(), a, b);
    TickFollowedBy(a, b);
    SessionFollowedBy(frames, a, b);
  }

  /** A frame sync happens only right after the texture of its channel is sent. */
  lemma SyncOnlyAfterSend(frames: seq<Frame>, ch: Channel)
    ensures PrecededBy(SessionTrace(frames), SendTexture(ch), FrameSync(ch))
  {
    var a, b := SendTexture(ch), FrameSync(ch);
    PublishPassOrder(ch);
    if ch == Depth {
      PrecededByAbsent(PublishPass(Color), a, b);
    } else {
      PrecededByAbsent(PublishPass(Depth), a, b);
    }
    PrecededByAbsent(DrawPass(), a, b);
    PrecededByAbsent([Sleep(FramePeriod)], a, b);
    PrecededByAbsent(Setup(), a, b);
    TickPrecededBy(a, b);
    SessionPrecededBy(frames, a, b);
  }

  /** A texture is sent only right after it was uploaded. */
  lemma SendOnlyAfterUpload(frames: seq<Frame>, ch: Channel)
    ensures PrecededBy(SessionTrace(frames), Upload(ch), SendTexture(ch))
  {
    var a, b := Upload(ch), SendTexture(ch);
    PublishPassOrder(ch);
    if ch == Depth {
      PrecededByAbsent(PublishPass(Color), a, b);
    } else {
      PrecededByAbsent(PublishPass(Depth), a, b);
    }
    PrecededByAbsent(DrawPass(), a, b);
    PrecededByAbsent([Sleep(FramePeriod)], a, b);
    PrecededByAbsent(Setup(), a, b);
    TickPrecededBy(a, b);
    SessionPrecededBy(frames, a, b);
  }

  /** A texture is uploaded only right after its buffer was read back. */
  lemma UploadOnlyAfterReadBack(frames: seq<Frame>, ch: Channel)
    ensures PrecededBy(SessionTrace(frames), ReadBack(ch), Upload(ch))
  {
    var a, b := ReadBack(ch), Upload(ch);
    PublishPassOrder(ch);
    if ch == Depth {
      PrecededByAbsent(PublishPass(Color), a, b);
    } else {
      PrecededByAbsent(PublishPass(Depth), a, b);
    }
    PrecededByAbsent(DrawPass(), a, b);
    PrecededByAbsent([Sleep(FramePeriod)], a, b);
    PrecededByAbsent(Setup(), a, b);
    TickPrecededBy(a, b);
    SessionPrecededBy(frames, a, b);
  }

  /** The depth buffer is read back only right after the window was drawn and flipped. */
  lemma DepthReadAfterFlip(frames: seq<Frame>)
    ensures PrecededBy(SessionTrace(frames), FlipWindow, ReadBack(Depth))
  {
    var a, b := FlipWindow, ReadBack(Depth);
    var d, p, q, z := DrawPass(), PublishPass(Depth), PublishPass(Color), [Sleep(FramePeriod)];
    PrecededByAbsent(d, a, b);
    PrecededByJoin(d, p, a, b);
    PrecededByAbsent(q, a, b);
    PrecededByAppend(d + p, q, a, b);
    PrecededByAbsent(z, a, b);
    PrecededByAppend(d + p + q, z, a, b);
    PrecededByAbsent(Setup(), a, b);
    SessionPrecededBy(frames, a, b);
  }

  /** The colour buffer is read back only right after the depth texture was synced. */
  lemma ColorReadAfterDepthSync(frames: seq<Frame>)
    ensures PrecededBy(SessionTrace(frames), FrameSync(Depth), ReadBack(Color))
  {
    var a, b := FrameSync(Depth), ReadBack(Color);
    var d, p, q, z := DrawPass(), PublishPass(Depth), PublishPass(Color), [Sleep(FramePeriod)];
    PrecededByAbsent(d, a, b);
    PrecededByAbsent(p, a, b);
    PrecededByAppend(d, p, a, b);
    PrecededByJoin(d + p, q, a, b);
    PrecededByAbsent(z, a, b);
    PrecededByAppend(d + p + q, z, a, b);
    PrecededByAbsent(Setup(), a, b);
    SessionPrecededBy(frames, a, b);
  }

  /** The loop sleeps for one frame period only right after the colour texture was synced. */
  lemma SleepAfterColorSync(frames: seq<Frame>)
    ensures PrecededBy(SessionTrace(frames), FrameSync(Color), Sleep(FramePeriod))
  {
    var a, b := FrameSync(Color), Sleep(FramePeriod);
    var d, p, q, z := DrawPass(), PublishPass(Depth), PublishPass(Color), [Sleep(FramePeriod)];
    PrecededByAbsent(d, a, b);
    PrecededByAbsent(p, a, b);
    PrecededByAppend(d, p, a, b);
    PrecededByAbsent(q, a, b);
    PrecededByAppend(d + p, q, a, b);
    PrecededByJoin(d + p + q, z, a, b);
    PrecededByAbsent(Setup(), a, b);
    SessionPrecededBy(frames, a, b);
  }

  // ---------------------------------------------------------------------
  // How often things happen
  // ---------------------------------------------------------------------

  /** A block holding `e` once, repeated `n` times, holds it `n` times. */
  lemma {:induction false} RepeatOnce(block: seq<Event>, n: nat, e: Event)
    requires multiset(block)[e] == 1
    ensures multiset(Repeat(block, n))[e] == n
  {
    if n > 0 {
      RepeatOnce(block, n - 1, e);
    }
  }

  /** A block without `e`, repeated any number of times, is still without it. */
  lemma {:induction false} RepeatNever(block: seq<Event>, n: nat, e: Event)
    requires multiset(block)[e] == 0
    ensures multiset(Repeat(block, n))[e] == 0
  {
    if n > 0 {
      RepeatNever(block, n - 1, e);
    }
  }

  lemma CountAppend4(d: seq<Event>, p: seq<Event>, q: seq<Event>, z: seq<Event>, e: Event)
    ensures multiset(d + p + q + z)[e] == multiset(d)[e] + multiset(p)[e] + multiset(q)[e] + multiset(z)[e]
  {
  }

  lemma PublishPassCount(c: Channel, e: Event)
    ensures multiset(PublishPass(c))[e] ==
      if e == ReadBack(c) || e == Upload(c) || e == SendTexture(c) || e == FrameSync(c) then 1 else 0
  {
  }

  lemma DrawPassCount(e: Event)
    ensures multiset(DrawPass())[e] ==
      if e == ClockTick || e == DispatchEvents || e == DrawWindow || e == FlipWindow then 1 else 0
  {
  }

  /** How often `e` occurs in one complete pass, block by block. */
  lemma FullTickCount(e: Event)
    ensures multiset(FullTick())[e] ==
      multiset(DrawPass())[e] + multiset(PublishPass(Depth))[e] + multiset(PublishPass(Color))[e]
      + (if e == Sleep(FramePeriod) then 1 else 0)
  {
    CountAppend4(DrawPass(), PublishPass(Depth), PublishPass(Color), [Sleep(FramePeriod)], e);
  }

  lemma ReadBackPerBlock(ch: Channel)
    ensures multiset(Setup())[ReadBack(ch)] == 0
    ensures multiset(FullTick())[ReadBack(ch)] == 1
    ensures multiset(DrawPass())[ReadBack(ch)] == 0
  {
    FullTickCount(ReadBack(ch));
    DrawPassCount(ReadBack(ch));
    PublishPassCount(Depth, ReadBack(ch));
    PublishPassCount(Color, ReadBack(ch));
  }

  lemma SendPerBlock(ch: Channel)
    ensures multiset(Setup())[SendTexture(ch)] == 0
    ensures multiset(FullTick())[SendTexture(ch)] == 1
    ensures multiset(DrawPass())[SendTexture(ch)] == 0
  {
    FullTickCount(SendTexture(ch));
    DrawPassCount(SendTexture(ch));
    PublishPassCount(Depth, SendTexture(ch));
    PublishPassCount(Color, SendTexture(ch));
  }

  lemma CountLoopOnce(setup: seq<Event>, block: seq<Event>, n: nat, tail: seq<Event>, e: Event)
    requires multiset(block)[e] == 1
    ensures multiset(setup + (Repeat(block, n) + tail))[e] == multiset(setup)[e] + n + multiset(tail)[e]
  {
    RepeatOnce(block, n, e);
  }

  lemma CountLoopNever(setup: seq<Event>, block: seq<Event>, n: nat, tail: seq<Event>, e: Event)
    requires multiset(block)[e] == 0
    ensures multiset(setup + (Repeat(block, n) + tail))[e] == multiset(setup)[e] + multiset(tail)[e]
  {
    RepeatNever(block, n, e);
  }

  /** An event of every complete pass occurs once per completed pass, plus in setup and exiting pass. */
  lemma SessionCountOnce(frames: seq<Frame>, e: Event)
    requires multiset(FullTick())[e] == 1
    ensures multiset(SessionTrace(frames))[e] == multiset(Setup())[e] + FirstExit(frames)
      + (if FirstExit(frames) < |frames| then multiset(DrawPass())[e] else 0)
  {
    var n := FirstExit(frames);
    var tail: seq<Event> := if n < |frames| then DrawPass() else [];
    CountLoopOnce(Setup(), FullTick(), n, tail, e);
  }

  /** An event absent from complete passes occurs only in setup and in the exiting pass. */
  lemma SessionCountNever(frames: seq<Frame>, e: Event)
    requires multiset(FullTick())[e] == 0
    ensures multiset(SessionTrace(frames))[e] == multiset(Setup())[e]
      + (if FirstExit(frames) < |frames| then multiset(DrawPass())[e] else 0)
  {
    var n := FirstExit(frames);
    var tail: seq<Event> := if n < |frames| then DrawPass() else [];
    CountLoopNever(Setup(), FullTick(), n, tail, e);
  }

  /** Each buffer is read back once per completed pass and never in the pass that exits. */
  lemma ReadBackCount(frames: seq<Frame>, ch: Channel)
    ensures multiset(SessionTrace(frames))[ReadBack(ch)] == FirstExit(frames)
  {
    ReadBackPerBlock(ch);
    SessionCountOnce(frames, ReadBack(ch));
  }

  /** Each texture is sent once per completed pass and never in the pass that exits. */
  lemma SendCount(frames: seq<Frame>, ch: Channel)
    ensures multiset(SessionTrace(frames))[SendTexture(ch)] == FirstExit(frames)
  {
    SendPerBlock(ch);
    SessionCountOnce(frames, SendTexture(ch));
  }

  lemma DrawWindowPerBlock()
    ensures multiset(Setup())[DrawWindow] == 0
    ensures multiset(FullTick())[DrawWindow] == 1
    ensures multiset(DrawPass())[DrawWindow] == 1
  {
    FullTickCount(DrawWindow);
    DrawPassCount(DrawWindow);
    PublishPassCount(Depth, DrawWindow);
    PublishPassCount(Color, DrawWindow);
  }

  /** The window is drawn once per completed pass and once more in the pass that exits. */
  lemma DrawCount(frames: seq<Frame>)
    ensures multiset(SessionTrace(frames))[DrawWindow] ==
      FirstExit(frames) + (if FirstExit(frames) < |frames| then 1 else 0)
  {
    DrawWindowPerBlock();
    SessionCountOnce(frames, DrawWindow);
  }

  lemma NamePerBlock(ch: Channel)
    ensures multiset(Setup())[NameSender(ch)] == 1
    ensures multiset(FullTick())[NameSender(ch)] == 0
    ensures multiset(DrawPass())[NameSender(ch)] == 0
  {
    FullTickCount(NameSender(ch));
    DrawPassCount(NameSender(ch));
    PublishPassCount(Depth, NameSender(ch));
    PublishPassCount(Color, NameSender(ch));
  }

  /** Each sender is named once, before the loop, and never again. */
  lemma NamedOnce(frames: seq<Frame>, ch: Channel)
    ensures multiset(SessionTrace(frames))[NameSender(ch)] == 1
  {
    NamePerBlock(ch);
    SessionCountNever(frames, NameSender(ch));
  }
}
