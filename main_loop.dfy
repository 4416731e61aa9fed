/** The "do once" tasks the manager puts on the simulator's main-update
    handler, and what running them does. A handler tick runs the tasks queued
    before it, in order; a task queued while a tick runs waits for the next
    tick. The only effect that leaves the handler is a request to the
    pipeline manager. */
module MainLoop {
  import opened Sources

  /** PipelineManager.PauseReason, as far as the manager uses it. */
  datatype PauseReason = IMAGE_ONE_ANALYSIS

  datatype PipelineRequest = Resume | Pause(reason: PauseReason)

  datatype Task =
    | ResumeThenPauseTwoFrames  // requestSetPaused(false), then pauseIfImageTwoFrames()
    | CallPauseIfImage          // pauseIfImage()
    | PauseForImage             // setPaused(true, IMAGE_ONE_ANALYSIS)

  /** What pauseIfImage queues when the active source has the given type:
      one single-shot-analysis pause exactly for images, nothing otherwise. */
  function PauseIfImageTasks(kind: SourceType): (t: seq<Task>)
    ensures |t| <= 1
    ensures t != [] <==> kind == IMAGE
    ensures forall i :: 0 <= i < |t| ==> t[i] == PauseForImage
  {
    if kind == IMAGE then [PauseForImage] else []
  }

  /** The pipeline requests a tick issues and the tasks it queues for the next. */
  datatype TickResult = TickResult(requests: seq<PipelineRequest>, deferred: seq<Task>)

  function Combine(a: TickResult, b: TickResult): TickResult
  {
    TickResult(a.requests + b.requests, a.deferred + b.deferred)
  }

  /** One task run while the active source has type kind: only the
      settle task resumes the pipeline, only the queued image pause pauses
      it, and only the pause check defers a pause, and that only for an
      image. */
  function RunTask(t: Task, kind: SourceType): (r: TickResult)
    ensures |r.requests| <= 1 && |r.deferred| <= 1
    ensures Resume in r.requests <==> t == ResumeThenPauseTwoFrames
    ensures Pause(IMAGE_ONE_ANALYSIS) in r.requests <==> t == PauseForImage
    ensures PauseForImage in r.deferred <==> t == CallPauseIfImage && kind == IMAGE
  {
    match t
    case ResumeThenPauseTwoFrames => TickResult([Resume], [CallPauseIfImage])
    case CallPauseIfImage => TickResult([], PauseIfImageTasks(kind))
    case PauseForImage => TickResult([Pause(IMAGE_ONE_ANALYSIS)], [])
  }

  /** One handler tick over the queued tasks, in order. */
  function RunOnce(queue: seq<Task>, kind: SourceType): TickResult
    decreases |queue|
  {
    if queue == [] then TickResult([], [])
    else Combine(RunTask(queue[0], kind), RunOnce(queue[1..], kind))
  }

  /** The requests of n successive ticks, one entry per tick. */
  function RunTicks(queue: seq<Task>, kind: SourceType, n: nat): seq<seq<PipelineRequest>>
    decreases n
  {
    if n == 0 then []
    else
      var r := RunOnce(queue, kind);
      [r.requests] + RunTicks(r.deferred, kind, n - 1)
  }

  /** A tick over two queues back to back is the two ticks' effects in order,
      so tasks queued earlier always take effect first. */
  lemma {:induction false} RunOnceAppend(q1: seq<Task>, q2: seq<Task>, kind: SourceType)
    ensures RunOnce(q1 + q2, kind) == Combine(RunOnce(q1, kind), RunOnce(q2, kind))
    decreases |q1|
  {
    if q1 == [] {
      assert q1 + q2 == q2;
    } else {
      var head := RunTask(q1[0], kind);
      var rest1, rest2 := RunOnce(q1[1..], kind), RunOnce(q2, kind);
      assert (q1 + q2)[0] == q1[0];
      assert (q1 + q2)[1..] == q1[1..] + q2;
      assert RunOnce(q1 + q2, kind) == Combine(head, RunOnce(q1[1..] + q2, kind));
      RunOnceAppend(q1[1..], q2, kind);
      assert RunOnce(q1, kind) == Combine(head, rest1);
      CombineAssociative(head, rest1, rest2);
    }
  }

  lemma CombineAssociative(a: TickResult, b: TickResult, c: TickResult)
    ensures Combine(a, Combine(b, c)) == Combine(Combine(a, b), c)
  {
  }

  /** With no image pause pending, a tick while the active source is not an
      image neither pauses the pipeline nor leaves a pause for the next tick. */
  lemma {:induction false} PausesOnlyForImages(queue: seq<Task>, kind: SourceType)
    requires forall i :: 0 <= i < |queue| ==> queue[i] != PauseForImage
    ensures kind != IMAGE ==> Pause(IMAGE_ONE_ANALYSIS) !in RunOnce(queue, kind).requests
    ensures kind != IMAGE ==> forall i :: 0 <= i < |RunOnce(queue, kind).deferred| ==>
              RunOnce(queue, kind).deferred[i] != PauseForImage
    decreases |queue|
  {
    if queue != [] {
      PausesOnlyForImages(queue[1..], kind);
    }
  }

  /** A pause queued while an image was active is not re-checked when it
      runs: after a switch to an image and then to any other source, each
      queuing its pause check, the next tick pauses the pipeline whatever the
      active source has become. */
  lemma StalePauseReachesAnySource(queue: seq<Task>, kind: SourceType)
    ensures Pause(IMAGE_ONE_ANALYSIS) in
              RunOnce(queue + PauseIfImageTasks(IMAGE) + PauseIfImageTasks(kind), kind).requests
  {
    var image := PauseIfImageTasks(IMAGE);
    RunOnceAppend(queue + image, PauseIfImageTasks(kind), kind);
    RunOnceAppend(queue, image, kind);
    assert RunOnce(image, kind).requests == [Pause(IMAGE_ONE_ANALYSIS)];
  }

  /** The task pauseIfImageTwoFrames queues requests nothing on the tick that
      runs it; an image pause reaches the pipeline on the tick after, and
      nothing at all does for any other source type. */
  lemma TwoFrameDelay(kind: SourceType)
    ensures RunTicks([CallPauseIfImage], kind, 3) ==
            [[], if kind == IMAGE then [Pause(IMAGE_ONE_ANALYSIS)] else [], []]
  {
    var pauses := PauseIfImageTasks(kind);
    var requests := if kind == IMAGE then [Pause(IMAGE_ONE_ANALYSIS)] else [];
    assert RunOnce([CallPauseIfImage], kind) == TickResult([], pauses);
    assert RunOnce(pauses, kind) == TickResult(requests, []);
    assert RunTicks([], kind, 1) == [[]];
    assert RunTicks(pauses, kind, 2) == [requests] + RunTicks([], kind, 1) == [requests, []];
  }

  /** The task a registration leaves once the source list has settled:
      the pipeline is resumed first, and only an image source is paused
      again, two ticks later. */
  lemma SettleThenPause(kind: SourceType)
    ensures RunTicks([ResumeThenPauseTwoFrames], kind, 4) ==
            [[Resume], [], if kind == IMAGE then [Pause(IMAGE_ONE_ANALYSIS)] else [], []]
  {
    assert RunOnce([ResumeThenPauseTwoFrames], kind) == TickResult([Resume], [CallPauseIfImage]);
    TwoFrameDelay(kind);
  }
}
