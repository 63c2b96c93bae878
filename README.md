# yt → OpenSpace bridge: frame capture, publishing loop and window context

This project models two pieces of the bridge that renders a yt dataset
with yt_idv in a pyglet window and publishes the result to OpenSpace
through two Spout senders.

- `capture.dfy` (module `PixelCapture`) covers the framebuffer readback of `ytOpenSpace.py`:
  - `getPixelData`'s linear rescaling of a readback to [0, 1], using the frame's own minimum and maximum;
  - numpy's row-major `reshape` into rows and pixels;
  - the 0..255 byte scaling of `saveImageColor` and `saveImageDepth`.
- `publish_loop.dfy` (module `PublishLoop`) covers `main`'s capture-and-publish loop:
  - Two (height, width, 4) float buffers are allocated once. They are `array3<real>` fields of the class `FramePublisher`.
  - Every completed pass rewrites them in place. The depth buffer's red channel gets the normalised depth readback; its G, B and A channels stay 0, 0 and 1. The colour buffer's RGB gets the normalised colour readback, and its alpha is a 0/1 background mask.
  - The main window, OpenGL and Spout calls are recorded as events in a trace. Lemmas prove the order of these events and how often each happens over a whole session.
  - Every texture handed to a Spout sender is recorded, with its contents, in a sent log. The contents are read from the buffer right after the store. The loop's contracts state the log: two textures per completed pass, depth then colour, built from that pass's readbacks.
- `window_context.dfy` (module `PygletContext`) covers `PygletRenderingContext`:
  - `set_position` and `center_window` arithmetic;
  - the mapping of drag coordinates onto [-1, 1];
  - the redraw flag `_do_update`. Input and resize handlers raise it; `on_draw` consumes it.
  - A pure replay of the flag over any sequence of events proves that the scene is never rendered twice for one change.

Numbers are exact reals. The GPU's 32-bit floats are not modelled. A
uniform frame (minimum equal to maximum) normalises to all zeros; see
"Left out". Each glReadPixels readback is an input to the model: a flat
sequence of width·height values for depth, and width·height·4 for colour.

The buffers are allocated with shape (SEND_HEIGHT, SEND_WIDTH, 4), but
the readbacks are reshaped to (SEND_WIDTH, SEND_HEIGHT). That fits only
when the two sizes are equal. `FramePublisher.Tick` and `FramePublisher.Run`
therefore require `width == height`. This holds for the 800 × 800 window
the program opens.

## Model

| member | source | states |
|---|---|---|
| PixelCapture.SeqMin | ytOpenSpace.py:42 | `pixels_array.min()`: no element of the readback is smaller |
| PixelCapture.SeqMax | ytOpenSpace.py:42 | `pixels_array.max()`: no element of the readback is larger |
| PixelCapture.SeqMinAttained | ytOpenSpace.py:42 | the minimum is one of the readback's values |
| PixelCapture.SeqMaxAttained | ytOpenSpace.py:42 | the maximum is one of the readback's values |
| PixelCapture.Normalize | ytOpenSpace.py:38-44 | the normalised buffer has as many elements as the readback |
| PixelCapture.NormalizeInUnitInterval | ytOpenSpace.py:42 | every normalised value lies in [0, 1] |
| PixelCapture.NormalizeEndpoints | ytOpenSpace.py:42 | on a non-uniform frame the minimum maps to exactly 0 and the maximum to exactly 1, so both occur |
| PixelCapture.NormalizeMonotone | ytOpenSpace.py:38-42 | s[i] <= s[j] implies norm[i] <= norm[j]; on a non-uniform frame the converse holds too |
| PixelCapture.NormalizeZero | ytOpenSpace.py:42 | on a non-uniform frame a value normalises to 0 or below exactly when it is the frame's minimum |
| PixelCapture.DenormalizeNormalize | ytOpenSpace.py:42 | round trip: scaling back with the frame's minimum and maximum returns the readback |
| PixelCapture.Rescale | ytOpenSpace.py:42 | one element inside [lo, hi] rescales into [0, 1] and scaling back returns it; on a proper range lo goes to 0 and hi to 1; on a uniform frame the element becomes 0 (see Left out) |
| PixelCapture.RescaleNonPositive | ytOpenSpace.py:42 | one element inside [lo, hi] rescales to 0 or below exactly when it equals lo |
| PixelCapture.RescaleAllOrder | ytOpenSpace.py:42 | rescaling against a proper range keeps and reflects the order of any two elements |
| PixelCapture.DenormalizeRescaleAll | ytOpenSpace.py:42 | rescaling a buffer within [lo, hi] and scaling back returns the buffer |
| PixelCapture.Reshape2 | ytOpenSpace.py:164 | `reshape(rows, cols)` yields `rows` rows |
| PixelCapture.Reshape2Shape | ytOpenSpace.py:164 | every row of `reshape(rows, cols)` has `cols` elements |
| PixelCapture.Reshape2Members | ytOpenSpace.py:164 | every cell of the reshaped grid is an element of the flat buffer |
| PixelCapture.Reshape2At | ytOpenSpace.py:164 | row-major layout: cell (i, j) is flat[i·cols + j] |
| PixelCapture.Reshape3 | ytOpenSpace.py:186 | `reshape(rows, cols, depth)` in C order yields `rows` rows; it is `reshape(rows * cols, depth)` regrouped by `cols` |
| PixelCapture.Reshape3Shape | ytOpenSpace.py:186 | `reshape(rows, cols, depth)` has `cols` pixels per row and `depth` values per pixel |
| PixelCapture.Reshape3Pixel | ytOpenSpace.py:186 | pixel (i, j) is pixel i·cols + j of the flat pixel list |
| PixelCapture.Reshape3At | ytOpenSpace.py:186 | element (i, j, c) is flat[(i·cols + j)·depth + c] |
| PixelCapture.ToByte | ytOpenSpace.py:50 | `(v * 255).astype(np.uint8)` for v in [0, 1] is the byte b with b <= 255·v < b + 1 |
| PixelCapture.SnapshotBytes | ytOpenSpace.py:49-50 | the byte image has one byte in 0..255 per readback value |
| PixelCapture.SnapshotBytesRange | ytOpenSpace.py:47-61 | on a non-uniform frame the darkest value becomes byte 0, the brightest byte 255, and byte order follows readback order |
| PixelCapture.DepthImage | ytOpenSpace.py:58-61 | saveImageDepth's array has shape (height, width) and bytes in 0..255 |
| PixelCapture.ColorImage | ytOpenSpace.py:47-50 | saveImageColor's array has shape (height, width, 4) and bytes in 0..255 |
| PixelCapture.DepthImageAt | ytOpenSpace.py:58-61 | pixel (i, j) of saveImageDepth's array is the byte of the normalised readback at i·width + j |
| PixelCapture.ColorImageAt | ytOpenSpace.py:47-50 | channel c of pixel (i, j) of saveImageColor's array is the byte of the normalised readback at (i·width + j)·4 + c |
| PublishLoop.BackgroundAlpha | ytOpenSpace.py:193-194 | alpha is exactly 0 or 1, and 0 exactly when R, G and B are all <= 0 |
| PublishLoop.FirstExit | ytOpenSpace.py:141-157 | the loop completes exactly the passes before the first window that asked to close |
| PublishLoop.DepthGrid | ytOpenSpace.py:164 | the depth readback reshaped to (SEND_WIDTH, SEND_HEIGHT) has SEND_WIDTH rows |
| PublishLoop.ColorGrid | ytOpenSpace.py:186 | the colour readback reshaped to (SEND_WIDTH, SEND_HEIGHT, 4) has SEND_WIDTH rows |
| PublishLoop.GridShapes | ytOpenSpace.py:164-186 | both reshaped readbacks have shape (SEND_WIDTH, SEND_HEIGHT), with four channels per colour cell |
| PublishLoop.DepthCell | ytOpenSpace.py:164 | depth cell (i, j) is the normalised readback at row-major index i·height + j |
| PublishLoop.ColorCell | ytOpenSpace.py:186-189 | colour channel c of cell (i, j) is the normalised readback at (i·height + j)·4 + c |
| PublishLoop.BackgroundIsDarkest | ytOpenSpace.py:186-194 | on a non-uniform colour frame a pixel's alpha is 0 exactly when its raw R, G and B all equal the frame's minimum |
| PublishLoop.SenderNamesDistinct | ytOpenSpace.py:21-22 | the depth and colour senders are named differently, so the two channels never share a name |
| PublishLoop.FullTick | ytOpenSpace.py:141-216 | a pass that does not exit: clock tick, event pump, draw and flip; then read back, upload, send and sync depth; then the same for colour; then sleep one frame period |
| PublishLoop.LoopTrace | ytOpenSpace.py:141-157 | the loop's events: one complete pass per frame before the first exit, then only the drawing of the exiting pass |
| PublishLoop.SessionTrace | ytOpenSpace.py:73-216 | `main`'s events: both senders named, then the loop |
| PublishLoop.PassTextures | ytOpenSpace.py:164-205 | one complete pass sends two textures, depth then colour: depth R = normalised depth grid with G, B, A = 0, 0, 1; colour RGB = normalised colour grid with its background mask as alpha |
| PublishLoop.PublicationsLength | ytOpenSpace.py:141-205 | n completed passes send exactly 2n textures |
| PublishLoop.PublicationsAt | ytOpenSpace.py:141-205 | textures 2k and 2k + 1 sent over a run are the depth and colour textures of pass k |
| PublishLoop.PublishedDepthCell | ytOpenSpace.py:164-173 | cell (i, j) of the sent depth texture is [normalised depth at i·height + j, 0, 0, 1] |
| PublishLoop.PublishedColorCell | ytOpenSpace.py:186-205 | channel c < 3 of cell (i, j) of the sent colour texture is the normalised colour at (i·height + j)·4 + c; its alpha is 0 or 1, and on a non-uniform frame 0 exactly when the raw R, G, B all equal the frame's minimum |
| PublishLoop.FramePublisher.constructor | ytOpenSpace.py:75-127 | senders named; both buffers zero; depth alpha set to 1 once |
| PublishLoop.FramePublisher.Valid | ytOpenSpace.py:110-127 | buffer invariant: both buffers have shape (SEND_HEIGHT, SEND_WIDTH, 4) and are distinct; depth R holds the last depth grid and G, B, A are 0, 0, 1; colour RGB holds the last colour grid and A its background mask |
| PublishLoop.FramePublisher.DepthSnapshot | ytOpenSpace.py:164-170 | under the buffer invariant, the depth buffer glTexImage2D uploads is `DepthTexture` of the last depth grid |
| PublishLoop.FramePublisher.ColorSnapshot | ytOpenSpace.py:186-200 | under the buffer invariant, the colour buffer glTexImage2D uploads is `ColorTexture` of the last colour grid |
| PublishLoop.FramePublisher.Tick | ytOpenSpace.py:141-216 | one pass: an exiting pass only draws, changes neither buffer and sends nothing; otherwise the depth red channel holds the normalised depth grid and the colour RGB the normalised colour grid with alpha its background mask, depth G, B, A stay 0, 0, 1, the trace grows by one complete pass, and the sent log grows by exactly `PassTextures` of the frame: the depth texture taken from the buffer after the depth store, then the colour texture after the colour store |
| PublishLoop.FramePublisher.StoreDepth | ytOpenSpace.py:164 | `depth_pixels[:, :, 0] = grid` rewrites channel 0 only; channels 1..3 keep their values |
| PublishLoop.FramePublisher.StoreColor | ytOpenSpace.py:189-194 | RGB receives the grid's first three channels and alpha the background mask of the stored RGB |
| PublishLoop.FramePublisher.Step | ytOpenSpace.py:141-205 | one pass of the loop over frame n: an exiting frame ends the loop at the first exit, with the trace complete and nothing more sent; any other frame appends one complete pass to the trace and its two textures to the sent log |
| PublishLoop.FramePublisher.Run | ytOpenSpace.py:141-216 | after any number of passes the buffer invariant holds (depth G = 0, B = 0, A = 1); the pass count is FirstExit; the trace is one complete pass per completed pass, plus the drawing of the exiting pass; the sent log grows by the two textures of every completed pass, in order (`Publications`) |
| PublishLoop.Session | ytOpenSpace.py:73-216 | `main` at the 800 × 800 window size: naming, then the loop; the trace is SessionTrace and the textures sent are `Publications` of the completed passes |
| PublishLoop.SyncFollowsSend | ytOpenSpace.py:173-176 | every sendTexture of a channel is immediately followed by that channel's setFrameSync |
| PublishLoop.SyncOnlyAfterSend | ytOpenSpace.py:204-208 | every setFrameSync of a channel immediately follows that channel's sendTexture |
| PublishLoop.SendOnlyAfterUpload | ytOpenSpace.py:170-173 | a texture is sent only right after its glTexImage2D upload |
| PublishLoop.UploadOnlyAfterReadBack | ytOpenSpace.py:164-170 | a texture is uploaded only right after its buffer was read back |
| PublishLoop.DepthReadAfterFlip | ytOpenSpace.py:150-164 | the depth buffer is read only right after the window was drawn and flipped, so never before the exit check |
| PublishLoop.ColorReadAfterDepthSync | ytOpenSpace.py:176-186 | the colour buffer is read only right after the depth texture was frame-synced |
| PublishLoop.SleepAfterColorSync | ytOpenSpace.py:208-216 | the frame-period sleep comes only right after the colour texture was frame-synced |
| PublishLoop.ReadBackCount | ytOpenSpace.py:141-186 | each buffer is read back exactly once per completed pass and never in the exiting pass |
| PublishLoop.SendCount | ytOpenSpace.py:173-205 | each texture is sent exactly once per completed pass |
| PublishLoop.DrawCount | ytOpenSpace.py:141-157 | the window is drawn once per completed pass, plus once in the exiting pass |
| PublishLoop.NamedOnce | ytOpenSpace.py:75-79 | each sender is named exactly once, before the loop |
| PublishLoop.RepeatOnce | ytOpenSpace.py:141 | a block holding an event once, repeated n times, holds it n times |
| PublishLoop.FollowedByRepeat | ytOpenSpace.py:141 | an ordering that holds inside one pass holds over any number of passes |
| PublishLoop.PrecededByRepeat | ytOpenSpace.py:141 | as FollowedByRepeat, for "immediately preceded by" |
| PygletContext.Truncate | yt_idv-main/yt_idv/rendering_contexts/pyglet_context.py:150 | `int(x)` truncates toward zero; a non-negative x gives n with 0 <= n <= x < n + 1 |
| PygletContext.Place | yt_idv-main/yt_idv/rendering_contexts/pyglet_context.py:141-148 | a non-negative coordinate is placed at a non-negative position; 0 and values >= 1 pass through |
| PygletContext.PlaceRelative | yt_idv-main/yt_idv/rendering_contexts/pyglet_context.py:141-148 | a relative coordinate puts the window's centre on that fraction of the screen, or clamps the window to 0 |
| PygletContext.CentreMargins | yt_idv-main/yt_idv/rendering_contexts/pyglet_context.py:150-153 | `set_position(0.5, 0.5)` on a screen whose origin is not negative, with integer screen and window sizes and the window no larger than the screen: equal margins before `int()`, and after it the left margin is non-negative and the right margin equals it or is one pixel larger |
| PygletContext.ClipRange | yt_idv-main/yt_idv/rendering_contexts/pyglet_context.py:162-165 | x = 0 maps to -1 and x = width to 1; [0, width] maps into [-1, 1], and the mapping keeps order |
| PygletContext.ClipRoundTrip | yt_idv-main/yt_idv/rendering_contexts/pyglet_context.py:162-165 | the drag mapping and its inverse undo each other |
| PygletContext.ToClip | yt_idv-main/yt_idv/rendering_contexts/pyglet_context.py:162-165 | the inverse mapping takes the result back to the pixel coordinate, and on a window of positive size [0, width] maps into [-1, 1] |
| PygletContext.FlagAfterDraw | yt_idv-main/yt_idv/rendering_contexts/pyglet_context.py:103-104 | after a draw the flag is still set exactly when it was set and no render happened |
| PygletContext.Replay | yt_idv-main/yt_idv/rendering_contexts/pyglet_context.py:101-195 | the flag and the render count after a sequence of handled inputs and draws; each signal renders at most once |
| PygletContext.RendersPaidByInputs | yt_idv-main/yt_idv/rendering_contexts/pyglet_context.py:101-195 | renders plus the final flag never exceed the initial flag plus the number of handled inputs |
| PygletContext.NoSceneNoRender | yt_idv-main/yt_idv/rendering_contexts/pyglet_context.py:103 | without a scene nothing is ever rendered |
| PygletContext.DrawAfterInput | yt_idv-main/yt_idv/rendering_contexts/pyglet_context.py:103-111 | with a scene, a draw right after an input renders once and clears the flag |
| PygletContext.DrawTwice | yt_idv-main/yt_idv/rendering_contexts/pyglet_context.py:103-104 | a second draw with no event in between changes nothing |
| PygletContext.RenderingContext.constructor | yt_idv-main/yt_idv/rendering_contexts/pyglet_context.py:56-88 | the window is placed at the given position, or centred when none is given; the flag starts set |
| PygletContext.RenderingContext.SetPosition | yt_idv-main/yt_idv/rendering_contexts/pyglet_context.py:135-150 | refused exactly when a coordinate is negative, changing nothing; otherwise the location is the truncated placement, a pair of non-negative integers |
| PygletContext.RenderingContext.CenterWindow | yt_idv-main/yt_idv/rendering_contexts/pyglet_context.py:152-153 | the location is the placement of (0.5, 0.5) |
| PygletContext.RenderingContext.OnDraw | yt_idv-main/yt_idv/rendering_contexts/pyglet_context.py:101-124 | renders exactly when the flag is set and a scene exists, and the flag is then clear; when a GUI exists it renders on every draw |
| PygletContext.RenderingContext.OnResize | yt_idv-main/yt_idv/rendering_contexts/pyglet_context.py:127-132 | succeeds exactly with a scene and a non-zero height, and then sets the flag; on failure the flag is unchanged |
| PygletContext.RenderingContext.OnMousePress | yt_idv-main/yt_idv/rendering_contexts/pyglet_context.py:155-156 | sets the flag |
| PygletContext.RenderingContext.OnMouseDrag | yt_idv-main/yt_idv/rendering_contexts/pyglet_context.py:158-168 | a drag the GUI handled only sets the flag; otherwise it succeeds exactly with a scene and a non-zero window size, turns the camera from the mapped start point (x, y) to the mapped end point (x - dx, y + dy) and sets the flag; a failure changes nothing |
| PygletContext.RenderingContext.OnMouseScroll | yt_idv-main/yt_idv/rendering_contexts/pyglet_context.py:177-195 | a scroll the GUI handled only sets the flag; otherwise it succeeds exactly with a scene, zooms by the negated vertical scroll amount and sets the flag; a failure changes nothing |

## Left out

- PixelCapture.Rescale: a uniform frame (minimum equal to maximum) normalises to all zeros. The source divides 0 by 0 with warnings switched off and gets NaN. There, NaN <= 0 is false, so such a frame's alpha is 1; in this model it is 0. Every lemma that depends on the range says so through `NonUniform`.
- PixelCapture.Normalize: an empty readback gives an empty result, where numpy's `min()` raises. A full-window readback is never empty.
- 32-bit floating point: values are exact reals, so rounding of `(x - min) / (max - min)` is not modelled.
- PixelCapture.ToByte: the `uint8` cast is modelled only for values in [0, 1], the range normalisation produces.
- Only some OpenGL, Spout and pyglet calls are events of the trace: `setSenderName`, `pyglet.clock.tick`, `dispatch_events`, `on_draw`, `flip`, `glReadPixels`, `glTexImage2D`, `sendTexture` and `setFrameSync`. Each has no effect of its own in the model. `Upload(ch)` stands for the bind and `glTexImage2D` of that channel's texture; what it uploads is the entry of the sent log. The re-bind of the colour texture after its upload (ytOpenSpace.py line 201) and the unbinds after `setFrameSync` (lines 181 and 213) are not modelled. Texture creation (`glGenTextures`), texture parameters (`glTexParameteri`/`glTexParameterf`), the other `glBindTexture` calls and `switch_to` are not modelled, neither in `main` nor in `PygletRenderingContext`.
- PublishLoop.Event: sender names are not carried in events. Each channel's name is given by `SenderName`.
- `saveImageColor`/`saveImageDepth`: the PIL image, the `FLIP_TOP_BOTTOM` transpose and the file write are not modelled. Only the arrays handed to PIL are.
- `yt.load`, the `input()` prompts, field listing, `render_context` and `add_scene` are file and terminal I/O and library calls. So is `camerapos`, which is read and never used.
- `asyncio.sleep` is an event carrying its duration. The scheduler is not modelled.
- The loop over `pyglet.app.windows` is modelled for the single window the program opens.
- PublishLoop.FramePublisher.Run: states what every completed pass sent, but not the buffers' contents after the loop; `FramePublisher.Tick` states those for each pass.
- PublishLoop.FramePublisher.Tick: the event trace and the sent log are two separate records. The contract gives the order of the calls and the contents of what was sent, but does not pair each `Upload` event with its entry in the sent log.
- The camera's own arithmetic is not modelled. This covers `update_orientation`, `offset_position`, the norm in `on_mouse_scroll`, `_update_matrices` and `aspect_ratio`. For drags the mapped start and end points handed to the camera are recorded; for `on_mouse_scroll` only the factor `-scroll_y` is recorded, not the offset vector it multiplies.
- `on_key_press`, the `SimpleGUI` internals and the `image_widget` / `write_bitmap` branch of `on_draw` are GUI plumbing. The GUI's `mouse_event_handled` state is a parameter of the drag and scroll handlers.
- PygletContext.RenderingContext.OnResize: pyglet updates the window size before dispatching `on_resize`. The model does this in the handler itself. The pyglet base class is not part of this model.
- Handlers that would raise are modelled as returning `ok == false`, with the calls made up to that point recorded. This covers a missing scene (AttributeError), a zero window dimension (ZeroDivisionError) and a negative `set_position` coordinate (RuntimeError).
- `SENDER_NAME`, `TARGET_FPS` and the display sizes at the top of `pyglet_context.py` are unused there and not modelled.
