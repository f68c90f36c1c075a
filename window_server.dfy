/**
  The window server: a process-wide capture state (status, last frame, border
  offset, window handle) changed by discovery (`Init`), one capture (`Loop`),
  the capture loop (`Run`), `Start` and `Stop`.

  Every operating-system call is an input: a `Query` that either returns a
  value or raises. Each state change is first written as a function on a
  `ServerState` value; the methods of the `WindowServer` class change the
  class fields and promise the new state that function gives.
 */
module WindowCapture {
  import opened WindowGeometry

  datatype Option<T> = None | Some(value: T)

  /** The outcome of a call into the window system. */
  datatype Query<T> = Ok(value: T) | Raised

  datatype Status = Crashed | Stopped | Running

  /** An opaque window handle. */
  type Handle = nat

  datatype ServerState = ServerState(
    status: Status,
    screen: Option<Image>,
    windowOffset: Option<int>,
    hwnd: Option<Handle>)

  /** Where, within one pass of the capture loop, another thread's `stop` lands:
      not at all; before the pass's own write of the status (the crash on an
      empty crop, or the crash on an escaping exception), which then
      overwrites Stopped; or after the pass's last write. A pass never reads
      the status, so a stop anywhere between the loop's guard reading Running
      and that write has the same effect as one right after the guard. A stop
      that lands before the guard belongs to the previous pass (`AfterPass`)
      or to the state the loop starts from. */
  datatype StopPoint = NoStop | BeforeStatusWrite | AfterPass

  /** What the operating system answers during one pass of the capture loop,
      and where in that pass another thread called `stop`, if it did. */
  datatype Tick = Tick(
    screenHeight: int,
    grabbed: Query<Image>,
    rect: Query<Rect>,
    client: Query<Rect>,
    stop: StopPoint)

  /** The class-level defaults: stopped, no frame, no offset, no handle. */
  const InitialState := ServerState(Stopped, None, None, None)

  /** Running always comes with a known offset and handle. */
  predicate Consistent(s: ServerState) {
    s.status == Running ==> s.windowOffset.Some? && s.hwnd.Some?
  }

  /** Discovery: find the window, read both rectangles, measure the border.
      Any failing query crashes; fields already assigned stay assigned. */
  function InitSpec(s: ServerState, found: Query<Handle>, rect: Query<Rect>, client: Query<Rect>): (r: ServerState)
    ensures Consistent(r)
    ensures r.status == Running || r.status == Crashed
    ensures r.screen == s.screen
  {
    match found
    case Raised => s.(status := Crashed)
    case Ok(h) =>
      if rect.Raised? || client.Raised? then s.(hwnd := Some(h), status := Crashed)
      else s.(hwnd := Some(h), windowOffset := Some(WindowOffset(rect.value, client.value)), status := Running)
  }

  /** One capture: `Raised` when an exception escapes (nothing has been
      assigned by then); otherwise the crop is stored as the frame, and an empty
      crop crashes. */
  function LoopSpec(s: ServerState, screenHeight: int, grabbed: Query<Image>, rect: Query<Rect>, client: Query<Rect>): (r: Query<ServerState>)
    ensures r.Ok? ==> r.value.screen.Some? && Ready(r.value)
    ensures r.Ok? ==> r.value.windowOffset == s.windowOffset && r.value.hwnd == s.hwnd
    ensures r.Ok? ==> r.value.status == s.status || r.value.status == Crashed
  {
    if grabbed.Raised? || rect.Raised? || client.Raised? || s.windowOffset.None? then Raised
    else
      var off := s.windowOffset.value;
      var box := CropBox(rect.value, off, TitleOffset(screenHeight, rect.value, client.value, off));
      var frame := Crop(grabbed.value, box);
      Ok(s.(screen := Some(frame), status := if frame.Size() == 0 then Crashed else s.status))
  }

  function StopSpec(s: ServerState): (r: ServerState)
    ensures r.status == Stopped && r.(status := s.status) == s
  {
    s.(status := Stopped)
  }

  /** The body of the capture loop: a capture whose exception becomes Crashed,
      with the other thread's stop, if any, at the point where it lands. */
  function StepSpec(s: ServerState, t: Tick): (r: ServerState)
    ensures r.windowOffset == s.windowOffset && r.hwnd == s.hwnd
    ensures t.stop != NoStop ==> r.status != Running
    ensures t.stop != AfterPass && LoopSpec(s, t.screenHeight, t.grabbed, t.rect, t.client).Raised? ==>
              r.status == Crashed && r.screen == s.screen
    ensures t.stop == NoStop && LoopSpec(s, t.screenHeight, t.grabbed, t.rect, t.client).Ok? ==>
              r == LoopSpec(s, t.screenHeight, t.grabbed, t.rect, t.client).value
  {
    var before := if t.stop == BeforeStatusWrite then StopSpec(s) else s;
    var captured := LoopSpec(before, t.screenHeight, t.grabbed, t.rect, t.client);
    var after := if captured.Raised? then before.(status := Crashed) else captured.value;
    assert t.stop == BeforeStatusWrite ==> before.status == Stopped;
    if t.stop == AfterPass then StopSpec(after) else after
  }

  /** The capture loop over a finite run of ticks: it goes on while Running. */
  function RunSpec(s: ServerState, ticks: seq<Tick>): (r: ServerState)
    ensures r.windowOffset == s.windowOffset && r.hwnd == s.hwnd
    decreases |ticks|
  {
    if |ticks| == 0 || s.status != Running then s
    else RunSpec(StepSpec(s, ticks[0]), ticks[1..])
  }

  /** `start`: nothing while Running; otherwise discovery, and the loop thread
      is launched (the second component) only if discovery succeeded. */
  function StartSpec(s: ServerState, found: Query<Handle>, rect: Query<Rect>, client: Query<Rect>): (r: (ServerState, bool))
    ensures r.1 ==> s.status != Running && r.0.status == Running
    ensures !r.1 ==> r.0.status != Running || r.0 == s
    ensures r.0.screen == s.screen
  {
    if s.status == Running then (s, false)
    else
      var s' := InitSpec(s, found, rect, client);
      (s', s'.status == Running)
  }

  /** `screen_ready`: a frame exists, or the server has crashed. */
  predicate Ready(s: ServerState) {
    s.screen.Some? || s.status == Crashed
  }

  class WindowServer {
    var status: Status
    var screen: Option<Image>
    var windowOffset: Option<int>
    var hwnd: Option<Handle>

    function State(): ServerState
      reads this
    {
      ServerState(status, screen, windowOffset, hwnd)
    }

    constructor ()
      ensures State() == InitialState
    {
      status, screen, windowOffset, hwnd := Stopped, None, None, None;
    }

    method Init(found: Query<Handle>, rect: Query<Rect>, client: Query<Rect>)
      modifies this
      ensures State() == InitSpec(old(State()), found, rect, client)
    {
      match found {
        case Raised =>
          status := Crashed;
        case Ok(h) =>
          hwnd := Some(h);
          if rect.Raised? || client.Raised? {
            status := Crashed;
          } else {
            windowOffset := Some(WindowOffset(rect.value, client.value));
            status := Running;
          }
      }
    }

    method Loop(screenHeight: int, grabbed: Query<Image>, rect: Query<Rect>, client: Query<Rect>) returns (raised: bool)
      modifies this
      ensures raised <==> LoopSpec(old(State()), screenHeight, grabbed, rect, client).Raised?
      ensures raised ==> unchanged(this)
      ensures !raised ==> State() == LoopSpec(old(State()), screenHeight, grabbed, rect, client).value
    {
      if grabbed.Raised? || rect.Raised? || client.Raised? || windowOffset.None? {
        return true;
      }
      var off := windowOffset.value;
      var titleOffset := TitleOffset(screenHeight, rect.value, client.value, off);
      var crop := CropBox(rect.value, off, titleOffset);
      var frame := Crop(grabbed.value, crop);
      screen := Some(frame);
      if frame.Size() == 0 {
        status := Crashed;
      }
      raised := false;
    }

    /** One pass of the capture loop's body. */
    method RunStep(t: Tick)
      modifies this
      ensures State() == StepSpec(old(State()), t)
    {
      if t.stop == BeforeStatusWrite {
        Stop();
      }
      var raised := Loop(t.screenHeight, t.grabbed, t.rect, t.client);
      if raised {
        status := Crashed;
      }
      if t.stop == AfterPass {
        Stop();
      }
    }

    /** The capture loop, driven by as many ticks as are given. */
    method Run(ticks: seq<Tick>) returns (exited: bool)
      modifies this
      ensures State() == RunSpec(old(State()), ticks)
      ensures exited <==> status != Running
    {
      var i := 0;
      while i < |ticks| && status == Running
        invariant 0 <= i <= |ticks|
        invariant RunSpec(old(State()), ticks) == RunSpec(State(), ticks[i..])
      {
        assert ticks[i..][1..] == ticks[i + 1..];
        RunStep(ticks[i]);
        i := i + 1;
      }
      exited := status != Running;
    }

    method Start(found: Query<Handle>, rect: Query<Rect>, client: Query<Rect>) returns (launched: bool)
      modifies this
      ensures (State(), launched) == StartSpec(old(State()), found, rect, client)
    {
      if status == Running {
        return false;
      }
      Init(found, rect, client);
      launched := status == Running;
    }

    predicate ScreenReady()
      reads this
    {
      Ready(State())
    }

    method Stop()
      modifies this`status
      ensures State() == StopSpec(old(State()))
    {
      status := Stopped;
    }
  }

  /** Discovery succeeds exactly when every query answers; then the offset is
      the measured one. On failure it crashes and keeps the old offset and frame. */
  lemma InitOutcome(s: ServerState, found: Query<Handle>, rect: Query<Rect>, client: Query<Rect>)
    ensures var s' := InitSpec(s, found, rect, client);
            (s'.status == Running <==> found.Ok? && rect.Ok? && client.Ok?) &&
            (s'.status != Running ==> s'.status == Crashed && s'.windowOffset == s.windowOffset) &&
            (s'.status == Running ==> s'.windowOffset == Some(WindowOffset(rect.value, client.value)) && s'.hwnd == Some(found.value)) &&
            s'.screen == s.screen &&
            Consistent(s')
  {
  }

  /** A capture that raises changes nothing; one that does not raises stores
      the crop (even an empty one, which replaces the previous frame), crashes
      exactly when the crop is empty and keeps offset and handle. */
  lemma LoopOutcome(s: ServerState, screenHeight: int, grabbed: Query<Image>, rect: Query<Rect>, client: Query<Rect>)
    ensures LoopSpec(s, screenHeight, grabbed, rect, client).Raised? <==>
            grabbed.Raised? || rect.Raised? || client.Raised? || s.windowOffset.None?
    ensures match LoopSpec(s, screenHeight, grabbed, rect, client)
      case Raised => true
      case Ok(s') =>
        var off := s.windowOffset.value;
        var box := CropBox(rect.value, off, TitleOffset(screenHeight, rect.value, client.value, off));
        s'.screen == Some(Crop(grabbed.value, box)) &&
        (s'.status == Crashed <==> s'.screen.value.Size() == 0 || s.status == Crashed) &&
        (s'.screen.value.Size() != 0 ==> s'.status == s.status) &&
        s'.windowOffset == s.windowOffset && s'.hwnd == s.hwnd &&
        Ready(s')
  {
  }

  /** An empty crop does not preserve the previous frame. */
  lemma EmptyCropDiscardsFrame(s: ServerState, screenHeight: int, grabbed: Image, rect: Rect, client: Rect)
    requires s.windowOffset.Some? && s.screen.Some? && s.screen.value.Size() != 0
    requires Crop(grabbed, CropBox(rect, s.windowOffset.value,
                                   TitleOffset(screenHeight, rect, client, s.windowOffset.value))).Size() == 0
    ensures LoopSpec(s, screenHeight, Ok(grabbed), Ok(rect), Ok(client)).Ok?
    ensures var s' := LoopSpec(s, screenHeight, Ok(grabbed), Ok(rect), Ok(client)).value;
            s'.status == Crashed && s'.screen != s.screen
  {
  }

  /** A pass of the loop keeps `Consistent`. */
  lemma StepConsistent(s: ServerState, t: Tick)
    requires Consistent(s)
    ensures Consistent(StepSpec(s, t))
  {
  }

  /** The capture loop keeps `Consistent` however long it runs. */
  lemma {:induction false} RunConsistent(s: ServerState, ticks: seq<Tick>)
    requires Consistent(s)
    ensures Consistent(RunSpec(s, ticks))
    decreases |ticks|
  {
    if |ticks| > 0 && s.status == Running {
      StepConsistent(s, ticks[0]);
      RunConsistent(StepSpec(s, ticks[0]), ticks[1..]);
    }
  }

  /** Once the loop has left Running it changes nothing more: no pass, and so
      no frame write, follows the pass in which it stopped or crashed, and
      none happens before discovery made it Running. */
  lemma RunIdleUnlessRunning(s: ServerState, ticks: seq<Tick>)
    requires s.status != Running
    ensures RunSpec(s, ticks) == s
  {
  }

  /** A frame held before the loop is still held after it: the loop never
      clears the frame. */
  lemma {:induction false} RunKeepsFrame(s: ServerState, ticks: seq<Tick>)
    requires s.screen.Some?
    ensures RunSpec(s, ticks).screen.Some?
    decreases |ticks|
  {
    if |ticks| > 0 && s.status == Running {
      RunKeepsFrame(StepSpec(s, ticks[0]), ticks[1..]);
    }
  }

  /** A stop landing anywhere in any pass ends the loop: it is never still
      Running afterwards. */
  lemma {:induction false} StopEndsRun(s: ServerState, ticks: seq<Tick>, k: nat)
    requires k < |ticks| && ticks[k].stop != NoStop
    ensures RunSpec(s, ticks).status != Running
    decreases |ticks|
  {
    if s.status == Running {
      if k == 0 {
        RunIdleUnlessRunning(StepSpec(s, ticks[0]), ticks[1..]);
      } else {
        StopEndsRun(StepSpec(s, ticks[0]), ticks[1..], k - 1);
      }
    }
  }

  /** A first pass without a stop whose capture raises or crops nothing ends
      the loop in Crashed after that one pass. */
  lemma FailureEndsRun(s: ServerState, ticks: seq<Tick>)
    requires s.status == Running && |ticks| > 0 && ticks[0].stop == NoStop
    requires var t := ticks[0];
             var l := LoopSpec(s, t.screenHeight, t.grabbed, t.rect, t.client);
             l.Raised? || l.value.screen.value.Size() == 0
    ensures RunSpec(s, ticks) == StepSpec(s, ticks[0])
    ensures RunSpec(s, ticks).status == Crashed
  {
    RunIdleUnlessRunning(StepSpec(s, ticks[0]), ticks[1..]);
  }

  /** A stop after the last write of the first pass ends the loop in Stopped,
      not Crashed, even when that pass crashed, and keeps what it captured. */
  lemma StopAfterFirstPass(s: ServerState, ticks: seq<Tick>)
    requires s.status == Running && |ticks| > 0 && ticks[0].stop == AfterPass
    ensures RunSpec(s, ticks) == StepSpec(s, ticks[0])
    ensures RunSpec(s, ticks).status == Stopped
  {
    RunIdleUnlessRunning(StepSpec(s, ticks[0]), ticks[1..]);
  }

  /** A stop landing in the first pass before its status write ends the loop
      after that pass. The frame is still written; the pass's crash (an
      escaping exception or an empty crop) overwrites Stopped with Crashed,
      and otherwise the loop ends in Stopped. */
  lemma StopBeforeFirstPassWrite(s: ServerState, ticks: seq<Tick>)
    requires s.status == Running && |ticks| > 0 && ticks[0].stop == BeforeStatusWrite
    ensures var t := ticks[0];
            var l := LoopSpec(s, t.screenHeight, t.grabbed, t.rect, t.client);
            var r := RunSpec(s, ticks);
            r == StepSpec(s, t) &&
            (l.Raised? ==> r == s.(status := Crashed)) &&
            (l.Ok? ==> r.screen == l.value.screen &&
                       (r.status == Crashed <==> l.value.screen.value.Size() == 0) &&
                       (r.status == Stopped <==> l.value.screen.value.Size() != 0))
  {
    RunIdleUnlessRunning(StepSpec(s, ticks[0]), ticks[1..]);
  }

  /** `start` while Running does nothing and launches nothing. */
  lemma StartWhileRunning(s: ServerState, found: Query<Handle>, rect: Query<Rect>, client: Query<Rect>)
    requires s.status == Running
    ensures StartSpec(s, found, rect, client) == (s, false)
  {
  }

  /** Otherwise `start` launches the loop exactly when discovery succeeds; a
      failed `start` launches nothing, crashes and leaves the frame alone. */
  lemma StartOutcome(s: ServerState, found: Query<Handle>, rect: Query<Rect>, client: Query<Rect>)
    requires s.status != Running
    ensures var (s', launched) := StartSpec(s, found, rect, client);
            (launched <==> found.Ok? && rect.Ok? && client.Ok?) &&
            (launched <==> s'.status == Running) &&
            (!launched ==> s'.status == Crashed && s'.screen == s.screen) &&
            Consistent(s')
  {
    InitOutcome(s, found, rect, client);
  }

  /** Window not found at first start: Crashed, no loop, no frame, and a
      waiting consumer sees the server as ready (it will never produce one). */
  lemma WindowNotFound(rect: Query<Rect>, client: Query<Rect>)
    ensures StartSpec(InitialState, Raised, rect, client) == (ServerState(Crashed, None, None, None), false)
    ensures Ready(StartSpec(InitialState, Raised, rect, client).0)
  {
  }

  /** `stop` sets Stopped and changes nothing else; it makes the server not
      ready when no frame was ever captured, even after a crash. */
  lemma StopOutcome(s: ServerState)
    ensures StopSpec(s).status == Stopped
    ensures StopSpec(s).(status := s.status) == s
    ensures Ready(StopSpec(s)) <==> s.screen.Some?
  {
  }
}
