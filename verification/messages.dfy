/**
 * The two websocket receive loops of scripts/benchmark_workflows.py: the
 * completion loop inside `benchmark_workflow` and the `track_execution`
 * state machine. The socket is the finite sequence of frames it delivers;
 * when the sequence runs out, `ws.recv()` raises (the connection closed).
 * Clock readings are abstract integers.
 */
module Messages {
  import opened Options

  /** The `node` entry of an `executing` message's data. */
  datatype NodeField = NodeMissing | NodeNull | NodeId(id: string)

  /** The decoded `data` object: `promptId` is `None` when the key is absent. */
  datatype Data = Data(node: NodeField, promptId: Option<string>)

  /** A decoded message: its `type` and its `data` (`None` when the key is absent). */
  datatype Message = Message(kind: string, data: Option<Data>)

  /**
   * What `ws.recv()` returns: a binary payload, a text frame that decodes to
   * a message, or a text frame whose decoding raises (not JSON, or no `type`).
   */
  datatype Frame = Binary | Text(msg: Message) | Undecodable

  /** How one frame affects the completion loop of `benchmark_workflow`. */
  datatype LoopStep = Continue | Finish | ErrorMessage | Raise

  /** `data['prompt_id'] == prompt_id`, raising when the key is absent. */
  function PromptMatches(d: Data, promptId: string): Option<bool>
  {
    match d.promptId
    case None => None
    case Some(p) => Some(p == promptId)
  }

  /** The completion loop's reaction to one frame, following its key accesses in order. */
  function Step(f: Frame, promptId: string): (r: LoopStep)
    ensures r == Finish <==>
      f.Text? && f.msg.kind == "executing" && f.msg.data == Some(Data(NodeNull, Some(promptId)))
    ensures r == ErrorMessage <==>
      f.Text? && f.msg.kind == "execution_error" && f.msg.data.Some? && f.msg.data.value.promptId == Some(promptId)
    ensures r == Raise <==>
      || f.Undecodable?
      || (f.Text? && f.msg.kind == "executing"
          && (f.msg.data.None? || f.msg.data.value.node.NodeMissing?
              || (f.msg.data.value.node.NodeNull? && f.msg.data.value.promptId.None?)))
      || (f.Text? && f.msg.kind == "execution_error"
          && (f.msg.data.None? || f.msg.data.value.promptId.None?))
  {
    match f
    case Binary => Continue
    case Undecodable => Raise
    case Text(m) =>
      if m.kind == "executing" then
        match m.data
        case None => Raise
        case Some(d) =>
          match d.node
          case NodeMissing => Raise
          case NodeId(_) => Continue
          case NodeNull =>
            match PromptMatches(d, promptId)
            case None => Raise
            case Some(b) => if b then Finish else Continue
      else if m.kind == "execution_error" then
        match m.data
        case None => Raise
        case Some(d) =>
          match PromptMatches(d, promptId)
          case None => Raise
          case Some(b) => if b then ErrorMessage else Continue
      else Continue
  }

  /** Where the completion loop stops. */
  datatype LoopEnd =
    | Completed(at: nat)      // the finishing `executing` frame
    | Errored(at: nat)        // a matching `execution_error`, or an exception
    | Disconnected            // the frames ran out: `recv` raised

  /** The `while not execution_complete` loop, from frame `from` on. */
  function ReceiveLoop(frames: seq<Frame>, promptId: string, from: nat): (r: LoopEnd)
    requires from <= |frames|
    ensures r.Completed? ==> from <= r.at < |frames| && Step(frames[r.at], promptId) == Finish
    ensures r.Errored? ==>
      from <= r.at < |frames| && Step(frames[r.at], promptId) in {ErrorMessage, Raise}
    ensures !r.Disconnected? ==> forall j :: from <= j < r.at ==> Step(frames[j], promptId) == Continue
    ensures r.Disconnected? ==> forall j :: from <= j < |frames| ==> Step(frames[j], promptId) == Continue
    decreases |frames| - from
  {
    if from == |frames| then Disconnected
    else match Step(frames[from], promptId)
      case Continue => ReceiveLoop(frames, promptId, from + 1)
      case Finish => Completed(from)
      case ErrorMessage => Errored(from)
      case Raise => Errored(from)
  }

  /**
   * The loop ends successfully exactly at the first frame that is not
   * ignored, when that frame is the finishing `executing` message.
   */
  lemma CompletesIffFirstStopFinishes(frames: seq<Frame>, promptId: string, k: nat)
    requires k < |frames|
    ensures ReceiveLoop(frames, promptId, 0) == Completed(k) <==>
      Step(frames[k], promptId) == Finish
      && forall j :: 0 <= j < k ==> Step(frames[j], promptId) == Continue
  {
  }

  /** Binary frames, other message types and other prompts' messages never end the loop. */
  lemma IgnoredFrames(promptId: string, other: string, node: NodeField)
    requires other != promptId && !node.NodeMissing?
    ensures Step(Binary, promptId) == Continue
    ensures Step(Text(Message("executing", Some(Data(node, Some(other))))), promptId) == Continue
    ensures Step(Text(Message("execution_error", Some(Data(node, Some(other))))), promptId) == Continue
    ensures forall kind, data :: kind != "executing" && kind != "execution_error" ==>
      Step(Text(Message(kind, data)), promptId) == Continue
  {
  }

  /** How the submission went: the part of `benchmark_workflow` before its receive loop. */
  datatype Session =
    | ConnectFailed
    | QueueFailed
    | Submitted(promptId: string, frames: seq<Frame>, wallStart: int, wallEnd: int)

  /**
   * The result of `benchmark_workflow` after the workflow is prepared:
   * `None` when connecting or queueing fails or the loop ends in error,
   * otherwise the wall-clock time from submission to the end of the loop.
   */
  function RunDuration(s: Session): (r: Option<int>)
    ensures r.Some? <==> s.Submitted? && ReceiveLoop(s.frames, s.promptId, 0).Completed?
    ensures r.Some? ==> r.value == s.wallEnd - s.wallStart
  {
    match s
    case ConnectFailed => None
    case QueueFailed => None
    case Submitted(pid, frames, t0, t1) =>
      if ReceiveLoop(frames, pid, 0).Completed? then Some(t1 - t0) else None
  }

  /** A frame as `track_execution` sees it, with the clock reading taken on receipt. */
  datatype Timed = Timed(frame: Frame, time: int)

  /** How one frame affects `track_execution`. */
  datatype TrackStep = Ignore | StartSignal | NodeStarted | End | ErrorReport | Throw

  /** `track_execution`'s reaction to one frame, following its key accesses in order. */
  function TrackStepOf(f: Frame, promptId: string): (r: TrackStep)
    ensures r == End <==>
      f.Text? && f.msg.kind == "executing" && f.msg.data == Some(Data(NodeNull, Some(promptId)))
    ensures r == NodeStarted <==>
      f.Text? && f.msg.kind == "executing" && f.msg.data.Some?
      && f.msg.data.value.node.NodeId? && f.msg.data.value.promptId == Some(promptId)
    ensures r == StartSignal <==>
      f.Text? && f.msg.kind == "execution_start" && f.msg.data.Some? && f.msg.data.value.promptId == Some(promptId)
    ensures r == ErrorReport <==>
      f.Text? && f.msg.kind == "execution_error" && f.msg.data.Some? && f.msg.data.value.promptId == Some(promptId)
    ensures r == Throw <==>
      || f.Undecodable?
      || (f.Text? && f.msg.kind in {"executing", "execution_start", "execution_error"}
          && (f.msg.data.None? || f.msg.data.value.promptId.None?
              || (f.msg.kind == "executing" && f.msg.data.value.node.NodeMissing?)))
  {
    match f
    case Binary => Ignore
    case Undecodable => Throw
    case Text(m) =>
      match m.data
      case None =>
        if m.kind in {"executing", "execution_start", "execution_error"} then Throw else Ignore
      case Some(d) =>
        if m.kind == "executing" then
          if d.node.NodeMissing? then Throw
          else match PromptMatches(d, promptId)
            case None => Throw
            case Some(b) => if !b then Ignore else if d.node.NodeNull? then End else NodeStarted
        else if m.kind == "execution_start" then
          match PromptMatches(d, promptId)
          case None => Throw
          case Some(b) => if b then StartSignal else Ignore
        else if m.kind == "execution_error" then
          match PromptMatches(d, promptId)
          case None => Throw
          case Some(b) => if b then ErrorReport else Ignore
        else Ignore
  }

  /** What `track_execution` does: raise, return `None`, or return a duration. */
  datatype TrackResult = Raised | Failed | Elapsed(seconds: int)

  /** `if start_time and end_time`: a clock reading of 0 counts as unset. */
  function ElapsedOf(start: Option<int>, end: int): int
  {
    if start.Some? && start.value != 0 && end != 0 then end - start.value else 0
  }

  /**
   * The start time after a frame that does not stop the loop: a matching
   * `execution_start` always overwrites it, a matching started node sets it
   * only while it is unset.
   */
  function NextStart(step: TrackStep, t: int, start: Option<int>): Option<int>
  {
    match step
    case StartSignal => Some(t)
    case NodeStarted => if start.None? then Some(t) else start
    case _ => start
  }

  /** The `track_execution` loop from frame `from` on, with the start time so far. */
  function Track(frames: seq<Timed>, promptId: string, from: nat, start: Option<int>): TrackResult
    requires from <= |frames|
    decreases |frames| - from
  {
    if from == |frames| then Raised
    else
      var t := frames[from].time;
      var step := TrackStepOf(frames[from].frame, promptId);
      match step
      case End => Elapsed(ElapsedOf(start, t))
      case ErrorReport => Failed
      case Throw => Raised
      case _ => Track(frames, promptId, from + 1, NextStart(step, t, start))
  }

  /**
   * `track_execution`: with no stopping frame it ends by `recv` raising;
   * otherwise the first stopping frame decides, an end giving the end time
   * minus the start time `StartAt` describes (0 when either is unset).
   */
  function TrackExecution(frames: seq<Timed>, promptId: string): (r: TrackResult)
    ensures FirstStop(frames, promptId, 0).None? ==> r == Raised
    ensures FirstStop(frames, promptId, 0).Some? ==>
      var k := FirstStop(frames, promptId, 0).value;
      && (TrackStepOf(frames[k].frame, promptId) == End ==>
            r == Elapsed(ElapsedOf(StartAt(frames, promptId, 0, k, None), frames[k].time)))
      && (TrackStepOf(frames[k].frame, promptId) == ErrorReport ==> r == Failed)
      && (TrackStepOf(frames[k].frame, promptId) == Throw ==> r == Raised)
  {
    match FirstStop(frames, promptId, 0)
    case None =>
      TrackRaisesWithoutStop(frames, promptId, 0, None);
      Track(frames, promptId, 0, None)
    case Some(k) =>
      TrackCharacterised(frames, promptId, 0, None, k);
      Track(frames, promptId, 0, None)
  }

  /** The index of the first frame from `from` on that stops `track_execution`, if any. */
  function FirstStop(frames: seq<Timed>, promptId: string, from: nat): (r: Option<nat>)
    requires from <= |frames|
    ensures r.Some? ==> from <= r.value < |frames| && Stops(TrackStepOf(frames[r.value].frame, promptId))
    ensures r.Some? ==> forall j :: from <= j < r.value ==> !Stops(TrackStepOf(frames[j].frame, promptId))
    ensures r.None? ==> forall j :: from <= j < |frames| ==> !Stops(TrackStepOf(frames[j].frame, promptId))
    decreases |frames| - from
  {
    if from == |frames| then None
    else if Stops(TrackStepOf(frames[from].frame, promptId)) then Some(from)
    else FirstStop(frames, promptId, from + 1)
  }

  predicate Stops(s: TrackStep)
  {
    s == End || s == ErrorReport || s == Throw
  }

  /** The index of the last `execution_start` for the prompt in `[from, until)`, if any. */
  function LastStart(frames: seq<Timed>, promptId: string, from: nat, until: nat): (r: Option<nat>)
    requires from <= until <= |frames|
    ensures r.Some? ==> from <= r.value < until && TrackStepOf(frames[r.value].frame, promptId) == StartSignal
    ensures r.Some? ==> forall j :: r.value < j < until ==> TrackStepOf(frames[j].frame, promptId) != StartSignal
    ensures r.None? ==> (forall j :: from <= j < until ==> TrackStepOf(frames[j].frame, promptId) != StartSignal)
    decreases until
  {
    if from == until then None
    else if TrackStepOf(frames[until - 1].frame, promptId) == StartSignal then Some(until - 1)
    else LastStart(frames, promptId, from, until - 1)
  }

  /** The index of the first started-node `executing` for the prompt in `[from, until)`, if any. */
  function FirstNode(frames: seq<Timed>, promptId: string, from: nat, until: nat): (r: Option<nat>)
    requires from <= until <= |frames|
    ensures r.Some? ==> from <= r.value < until && TrackStepOf(frames[r.value].frame, promptId) == NodeStarted
    ensures r.Some? ==> forall j :: from <= j < r.value ==> TrackStepOf(frames[j].frame, promptId) != NodeStarted
    ensures r.None? ==> (forall j :: from <= j < until ==> TrackStepOf(frames[j].frame, promptId) != NodeStarted)
    decreases until - from
  {
    if from == until then None
    else if TrackStepOf(frames[from].frame, promptId) == NodeStarted then Some(from)
    else FirstNode(frames, promptId, from + 1, until)
  }

  /**
   * The start time `track_execution` holds when it reaches frame `until`,
   * described without the loop: the last `execution_start` wins; failing
   * that, the start time it began with; failing that, the first started node.
   */
  function StartAt(frames: seq<Timed>, promptId: string, from: nat, until: nat, start: Option<int>): Option<int>
    requires from <= until <= |frames|
  {
    match LastStart(frames, promptId, from, until)
    case Some(j) => Some(frames[j].time)
    case None =>
      if start.Some? then start
      else match FirstNode(frames, promptId, from, until)
        case Some(j) => Some(frames[j].time)
        case None => None
  }

  /**
   * `track_execution` is decided by the first frame that stops it: `None`
   * on a matching error, an exception on a malformed message or a closed
   * socket, and otherwise the end time minus the start time `StartAt`
   * describes (0 when either reading is unset).
   */
  lemma {:induction false} TrackCharacterised(frames: seq<Timed>, promptId: string, from: nat,
                                              start: Option<int>, k: nat)
    requires from <= k < |frames|
    requires Stops(TrackStepOf(frames[k].frame, promptId))
    requires forall j :: from <= j < k ==> !Stops(TrackStepOf(frames[j].frame, promptId))
    ensures TrackStepOf(frames[k].frame, promptId) == End ==>
      Track(frames, promptId, from, start)
        == Elapsed(ElapsedOf(StartAt(frames, promptId, from, k, start), frames[k].time))
    ensures TrackStepOf(frames[k].frame, promptId) == ErrorReport ==>
      Track(frames, promptId, from, start) == Failed
    ensures TrackStepOf(frames[k].frame, promptId) == Throw ==>
      Track(frames, promptId, from, start) == Raised
    decreases k - from
  {
    if from < k {
      var next := NextStart(TrackStepOf(frames[from].frame, promptId), frames[from].time, start);
      TrackCharacterised(frames, promptId, from + 1, next, k);
      StartAtStep(frames, promptId, from, k, start);
    }
  }

  /** Consuming one non-stopping frame moves `StartAt`'s window forward consistently. */
  lemma StartAtStep(frames: seq<Timed>, promptId: string, from: nat, until: nat, start: Option<int>)
    requires from < until <= |frames|
    ensures StartAt(frames, promptId, from, until, start) == StartAt(frames, promptId, from + 1, until,
              NextStart(TrackStepOf(frames[from].frame, promptId), frames[from].time, start))
  {
    var step := TrackStepOf(frames[from].frame, promptId);
    LastStartSplit(frames, promptId, from, until);
    if step == NodeStarted || step != StartSignal {
      assert FirstNode(frames, promptId, from, until) ==
        (if step == NodeStarted then Some(from) else FirstNode(frames, promptId, from + 1, until));
    }
  }

  /** The last start signal in `[from, until)` is the one in `[from + 1, until)` if there is one. */
  lemma {:induction false} LastStartSplit(frames: seq<Timed>, promptId: string, from: nat, until: nat)
    requires from < until <= |frames|
    ensures LastStart(frames, promptId, from, until) ==
      (if LastStart(frames, promptId, from + 1, until).Some? then LastStart(frames, promptId, from + 1, until)
       else if TrackStepOf(frames[from].frame, promptId) == StartSignal then Some(from) else None)
    decreases until - from
  {
    if from + 1 < until && TrackStepOf(frames[until - 1].frame, promptId) != StartSignal {
      LastStartSplit(frames, promptId, from, until - 1);
    }
  }

  /** When no frame stops it, `track_execution` raises once the frames run out. */
  lemma {:induction false} TrackRaisesWithoutStop(frames: seq<Timed>, promptId: string, from: nat, start: Option<int>)
    requires from <= |frames|
    requires forall j :: from <= j < |frames| ==> !Stops(TrackStepOf(frames[j].frame, promptId))
    ensures Track(frames, promptId, from, start) == Raised
    decreases |frames| - from
  {
    if from < |frames| {
      var next := NextStart(TrackStepOf(frames[from].frame, promptId), frames[from].time, start);
      TrackRaisesWithoutStop(frames, promptId, from + 1, next);
    }
  }
}
