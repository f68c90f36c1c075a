# Window capture and configuration store of fishyboteso

This project models two parts of the fishing bot:

- **The window server.** It finds the game window ("Elder Scrolls Online") and measures its border once. Then, in a loop, it grabs the screen, works out the window's title bar height, crops the grab to the client area and publishes that frame. Its status is one of Crashed, Stopped or Running.
- **The configuration store.** It is a dictionary with a `get` that falls back to a default and a `set` that can request a save.

Files:

- `geometry.dfy` (module `WindowGeometry`) holds the pure arithmetic:
  - the border offset;
  - the fullscreen test and the title offset;
  - the crop box;
  - the crop of a grabbed frame with numpy's slice normalisation (negative indices count from the end, indices are clamped, a stop before the start gives an empty slice).
- `window_server.dfy` (module `WindowCapture`) writes each operation twice:
  - as a function on a `ServerState` value (`InitSpec`, `LoopSpec`, `StepSpec`, `RunSpec`, `StartSpec`, `StopSpec`);
  - as a method of the class `WindowServer`, whose fields `status`, `screen`, `windowOffset` and `hwnd` are the source's class-level fields. Each method's postcondition equates the new field values with that function of the old ones.

  The lemmas prove the source's promises about those functions.
- `config.dfy` (module `ConfigStore`) holds the class `Config`. It keeps the dictionary as a `map`, and a ghost counter records how many saves were requested.

How the operating system is modelled:

- Every window-system call (`FindWindow`, `GetWindowRect`, `GetClientRect`, the screen grab) is an input of type `Query`: it either answers or raises.
- The screen height from `GetSystemMetrics(1)` is an input too.
- The grabbed screen is an `Image`: rows of RGB pixels, all of the same width.
- `loop` in `run` is driven by a finite sequence of `Tick`s. Each tick holds what the system answers during one pass. It also says whether another thread called `stop` during that pass, and where: before the pass writes the status (its crash then overwrites Stopped), or after the pass's last write.

Two behaviours of the code a reader might not expect:

- An empty crop **overwrites** the stored frame with the empty one before crashing. It does not keep the previous frame (`EmptyCropDiscardsFrame`).
- The window handle and the frame are never cleared. After a crash or a `stop`, both keep their last values. So after `stop()` the frame stays non-null while the status is Stopped.

## Model

| member | source | states |
|---|---|---|
| WindowGeometry.WindowOffset | fishy/engine/common/window_server.py:42 | the offset is half the width difference rounded down (2·off ≤ diff < 2·off+2), and it is non-negative when the outer width is at least the client width |
| WindowGeometry.WindowOffsetExample | fishy/engine/common/window_server.py:42 | outer rectangle (100,100,900,700) with client width 780 gives offset 10 |
| WindowGeometry.TitleOffset | fishy/engine/common/window_server.py:61-62 | fullscreen gives title offset 0; windowed, title offset plus border offset equals outer height minus client height |
| WindowGeometry.TitleOffsetExample | fishy/engine/common/window_server.py:61-62 | a windowed height of 620 with client height 580 and offset 10 gives a title offset of 30 |
| WindowGeometry.IsFullscreen | fishy/engine/common/window_server.py:61 | the window counts as fullscreen exactly when the screen height equals the outer height |
| WindowGeometry.CropBox | fishy/engine/common/window_server.py:64-66 | the box is the outer rectangle shrunk by the offset on the left, right and bottom, and by the title offset on top |
| WindowGeometry.CropBoxMatchesClient | fishy/engine/common/window_server.py:61-66 | for the rectangles measured at discovery, a windowed crop is exactly the client height, and the client width plus the odd pixel of the border difference |
| WindowGeometry.CropBoxFullscreen | fishy/engine/common/window_server.py:61-66 | in fullscreen the crop box height is the screen height less the bottom border |
| WindowGeometry.ClampIndex | fishy/engine/common/window_server.py:68 | a slice index inside the axis is kept, a negative one counts from the end, and one beyond either end is clamped |
| WindowGeometry.SliceSpan | fishy/engine/common/window_server.py:68 | the slice lies inside the axis, starts at the clamped start, and its extent is max(0, clamped stop − clamped start) |
| WindowGeometry.Crop | fishy/engine/common/window_server.py:68 | the crop has the normalised row and column extents, and pixel (i,j) is pixel (row start + i, column start + j) of the grab |
| WindowGeometry.Frame.Size | fishy/engine/common/window_server.py:70 | numpy's size of a frame is zero exactly when it has no rows or no columns |
| WindowGeometry.CropInsideImage | fishy/engine/common/window_server.py:68 | a box inside the grab gives exactly its own pixels, in its own dimensions |
| WindowGeometry.CropEmptyIffDegenerate | fishy/engine/common/window_server.py:68-72 | with every coordinate on screen, the crop is empty exactly when bottom ≤ top or right ≤ left |
| WindowGeometry.CropPastLeftEdgeWraps | fishy/engine/common/window_server.py:68 | a negative left edge starts the crop at screen width + left, not at column 0 |
| WindowCapture.WindowServer.constructor | fishy/engine/common/window_server.py:23-30 | the initial state is Stopped with no frame, no offset and no handle |
| WindowCapture.InitSpec | fishy/engine/common/window_server.py:38-46 | discovery ends Running or Crashed, always with "Running implies known offset and handle", and never touches the frame |
| WindowCapture.WindowServer.Init | fishy/engine/common/window_server.py:33-46 | the fields become InitSpec of the old fields |
| WindowCapture.InitOutcome | fishy/engine/common/window_server.py:38-46 | Running iff all three queries answer, and then the offset is the measured one; otherwise Crashed with the old offset; the frame is never touched |
| WindowCapture.LoopSpec | fishy/engine/common/window_server.py:54-72 | a capture that does not raise always leaves a frame (so the server is ready), keeps offset and handle, and either keeps the status or crashes |
| WindowCapture.WindowServer.Loop | fishy/engine/common/window_server.py:49-72 | raising leaves every field unchanged; otherwise the fields become LoopSpec of the old ones |
| WindowCapture.LoopOutcome | fishy/engine/common/window_server.py:54-72 | raises exactly when a query raises or no offset is known; otherwise it stores the crop of the grab by the crop box, crashes iff the crop is empty (or was already crashed), keeps offset and handle, and leaves the server ready |
| WindowCapture.EmptyCropDiscardsFrame | fishy/engine/common/window_server.py:68-72 | a capture whose crop is empty (size 0) crashes and replaces a previous non-empty frame |
| WindowCapture.StepSpec | fishy/engine/common/window_server.py:83-87 | a pass never changes offset or handle; a pass in which a stop lands never ends Running; a capture that raises (with no stop after the pass) ends Crashed with the frame kept; a pass with no stop and no exception is exactly the capture's state |
| WindowCapture.WindowServer.RunStep | fishy/engine/common/window_server.py:83-87 | one pass of the loop body: the fields become StepSpec of the old ones, where an escaping exception sets Crashed |
| WindowCapture.StepConsistent | fishy/engine/common/window_server.py:83-87 | a pass keeps "Running implies known offset and handle" |
| WindowCapture.RunSpec | fishy/engine/common/window_server.py:80-88 | the loop never changes the offset or handle measured at discovery |
| WindowCapture.WindowServer.Run | fishy/engine/common/window_server.py:80-88 | the fields become RunSpec of the old ones, and the loop reports it exited exactly when the status is no longer Running |
| WindowCapture.RunConsistent | fishy/engine/common/window_server.py:80-88 | the whole loop keeps "Running implies known offset and handle" |
| WindowCapture.RunIdleUnlessRunning | fishy/engine/common/window_server.py:82 | when the status is not Running the loop does nothing, so no pass (and no frame write) follows the pass that stopped or crashed, and none precedes Running |
| WindowCapture.RunKeepsFrame | fishy/engine/common/window_server.py:80-88 | a frame present before the loop is still present after it |
| WindowCapture.StopEndsRun | fishy/engine/common/window_server.py:82-87 | a stop landing anywhere in any pass means the loop ends not Running |
| WindowCapture.FailureEndsRun | fishy/engine/common/window_server.py:82-88 | a first pass without a stop whose capture raises or crops nothing ends the loop, in Crashed, after that one pass |
| WindowCapture.StopAfterFirstPass | fishy/engine/common/window_server.py:82-88 | a stop after the first pass's last write ends the loop in Stopped, not Crashed, after that one pass |
| WindowCapture.StopBeforeFirstPassWrite | fishy/engine/common/window_server.py:68-72 | a stop landing in the first pass before its status write still lets the frame be written; the loop ends Crashed if the pass raised or cropped nothing, Stopped otherwise |
| WindowCapture.StartSpec | fishy/engine/common/window_server.py:91-97 | a launch happens only from a non-Running state and leaves it Running; without a launch the server is not Running or nothing changed; the frame is kept |
| WindowCapture.WindowServer.Start | fishy/engine/common/window_server.py:91-97 | the fields and the launch flag are StartSpec of the old fields |
| WindowCapture.StartWhileRunning | fishy/engine/common/window_server.py:92-93 | start while Running changes nothing and launches nothing |
| WindowCapture.StartOutcome | fishy/engine/common/window_server.py:95-97 | otherwise start launches iff all queries answer, iff the status becomes Running; a failed start crashes and leaves the frame alone |
| WindowCapture.WindowNotFound | fishy/engine/common/window_server.py:38-46 | from the initial state, a window that is not found gives Crashed, no launch and no frame, and the server counts as ready |
| WindowCapture.Ready | fishy/engine/common/window_server.py:100-101 | the server is ready exactly when a frame exists or the status is Crashed |
| WindowCapture.WindowServer.ScreenReady | fishy/engine/common/window_server.py:100-101 | the class's readiness is Ready of its current fields |
| WindowCapture.StopSpec | fishy/engine/common/window_server.py:104-105 | the new status is Stopped and every other field is the old one |
| WindowCapture.WindowServer.Stop | fishy/engine/common/window_server.py:104-105 | only the status changes, to Stopped |
| WindowCapture.StopOutcome | fishy/engine/common/window_server.py:100-105 | stop sets Stopped and nothing else; afterwards the server counts as ready iff a frame exists |
| ConfigStore.Config.constructor | fishy/systems/config.py:10-11 | with no file the store is the empty map, so every get returns its default; with a file it holds the file's map; no save requested yet |
| ConfigStore.Config.Get | fishy/systems/config.py:13-16 | the stored value when the key is present, the default otherwise |
| ConfigStore.Config.Set | fishy/systems/config.py:18-21 | a later get of the key returns the value for every default; other keys keep their entries; the key set grows by exactly the key; one save is requested iff save is true |
| ConfigStore.Config.SaveConfig | fishy/systems/config.py:23-28 | records exactly one more save request and changes nothing else |

## Left out

- The screen grab's bounding box `(0, 0, GetSystemMetrics(0), GetSystemMetrics(1))` is not modelled. The grabbed image is an input, so the screen width never appears.
- Window-system calls and the grab are inputs that answer or raise. Their real behaviour is outside the model. The three calls in `init` (`FindWindow`, `GetWindowRect`, `GetClientRect`) are assumed to raise only `pywintypes.error`, which is what `init` catches; exceptions of any other type escaping `init` are not modelled. In `loop` the type does not matter, because `run` catches every `Exception`.
- WindowGeometry.WindowOffset: the source divides in floating point and then floors. That equals Dafny's integer `/ 2` because Win32 coordinates are 32-bit integers, which a double represents exactly; the float itself is not modelled.
- `loop_end` (a 25 ms `cv2.waitKey` after the loop) is display plumbing with no effect on the state.
- Logging and `traceback.print_exc` are left out.
- WindowCapture.WindowServer.Run: runs over a finite sequence of ticks. The real loop spins for as long as the status is Running, so the model claims nothing about termination. When the ticks run out while Running, the model just stops observing.
- Threads are left out. `start`'s `Thread(target=run).start()` becomes the returned `launched` flag. The save thread becomes the `saveRequests` counter. The only trace of the unsynchronised sharing between threads is a `stop` landing inside a pass, before or after that pass's status write. The double-`start` race is not modelled.
- The numeric values of `Status` (-1, 0, 1) are never read in the source and are not modelled.
- ConfigStore.Config.constructor: the contents of an existing file are an input. Reading the file and JSON decoding are not modelled, and neither is the exception that a malformed file raises.
- ConfigStore.Config.Get: the Python default `default=None` is not modelled; callers pass the default explicitly, so `get(k)` is `Get(k, d)` with `d` standing for None.
- ConfigStore.Config.Set: the Python default `save=True` is not modelled; callers pass `save` explicitly, so `set(k, v)` is `Set(k, v, true)`.
- ConfigStore.Config.SaveConfig: writing the JSON file is not modelled, only the request to write it.
- `fishy/gui/gui.py` is not part of this model. It is tkinter interface code and a queue that hands calls between threads.
