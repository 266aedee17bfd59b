/**
 Log streaming as server/logs.go runs it: one goroutine per container scanning
 its log and handing lines over under a mutex, a channel of 256 lines, a done
 channel, and a writer that streams events until the source finishes, a write
 fails or the reader leaves. Every interleaving is a sequence of Steps.
 */
module LogStream {
  import opened Common

  const CHANNEL_CAPACITY := 256

  datatype Line = Line(container: nat, text: string)

  /** What following one container yields: its lines, then a clean end or an error (opening included). */
  datatype Feed = Feed(lines: seq<string>, clean: bool)

  /** What listing the pods answered. */
  datatype Source = Pods(feeds: seq<Feed>) | NoPods | ListFailed

  datatype Error = Nil | NothingRunning | Cancelled | Failed

  /** Where one container's goroutine is; next counts the lines it has handed over. */
  datatype Phase = Scanning | Emitting | Unlocking(gaveUp: bool) | Leaving(err: Error) | Counted(err: Error)
  datatype Worker = Worker(phase: Phase, next: nat)

  datatype Writer = Looping | Draining(err: Error) | Stopped
  datatype Closing = End(lines: nat, nothingRunning: bool) | StreamStopped

  /** emitted and lost record history: every line ever sent, and the line a failed write consumed. */
  datatype State = State(
    workers: seq<Worker>, mu: Option<nat>, opens: nat, fails: nat, first: Error,
    returned: bool, done: Option<Error>, cancelled: bool,
    buffer: seq<Line>, emitted: seq<Line>, lost: seq<Line>,
    writer: Writer, written: seq<Line>, sent: nat, closing: Option<Closing>)

  function Feeds(src: Source): seq<Feed> {
    if src.Pods? then src.feeds else []
  }

  function Start(src: Source): State {
    State(seq(|Feeds(src)|, _ => Worker(Scanning, 0)), None, 0, 0, Nil, false, None, false,
          [], [], [], Looping, [], 0, None)
  }

  datatype Step =
    | Lock(c: nat) | Send(c: nat) | GiveUp(c: nat) | Unlock(c: nat)
    | EndOfFeed(c: nat) | Abort(c: nat) | Count(c: nat)
    | Return(err: Error)
    | Write(ok: bool) | Beat(ok: bool) | SeeDone | SeeCancel | Close(ok: bool)
    | Cancel

  predicate At(s: State, c: nat, phase: Phase) {
    c < |s.workers| && s.workers[c].phase == phase
  }

  predicate AllCounted(s: State) {
    forall c :: 0 <= c < |s.workers| ==> s.workers[c].phase.Counted?
  }

  predicate Enabled(src: Source, s: State, step: Step)
    requires |s.workers| == |Feeds(src)|
  {
    match step
    case Lock(c) => At(s, c, Scanning) && s.workers[c].next < |Feeds(src)[c].lines| && s.mu.None?
    case Send(c) => At(s, c, Emitting) && s.workers[c].next < |Feeds(src)[c].lines| && |s.buffer| < CHANNEL_CAPACITY
    case GiveUp(c) => At(s, c, Emitting) && s.cancelled
    case Unlock(c) => c < |s.workers| && s.workers[c].phase.Unlocking?
    case EndOfFeed(c) => At(s, c, Scanning) && s.workers[c].next == |Feeds(src)[c].lines|
    case Abort(c) => At(s, c, Scanning) && s.cancelled
    case Count(c) => c < |s.workers| && s.workers[c].phase.Leaving? && s.mu.None?
    case Return(err) => !s.returned && AllCounted(s) && May(src, s, err)
    case Write(_) => s.writer != Stopped && s.buffer != []
    case Beat(_) => s.writer == Looping
    case SeeDone => s.writer == Looping && s.done.Some?
    case SeeCancel => s.writer == Looping && s.cancelled
    case Close(_) => s.writer.Draining? && s.buffer == []
    case Cancel => !s.cancelled
  }

  /** What the source may return; a listing that failed may have failed because the reader left. */
  predicate May(src: Source, s: State, err: Error) {
    match src
    case NoPods => err == NothingRunning
    case ListFailed => err == Failed || (err == Cancelled && s.cancelled)
    case Pods(_) => err == if s.opens == 0 && s.fails > 0 then s.first else Nil
  }

  function ClosingEvent(err: Error, sent: nat): Option<Closing> {
    match err
    case Nil => Some(End(sent, false))
    case NothingRunning => Some(End(sent, true))
    case Cancelled => None
    case Failed => Some(StreamStopped)
  }

  function Put(s: State, c: nat, w: Worker): State
    requires c < |s.workers|
  {
    s.(workers := s.workers[c := w])
  }

  function Apply(src: Source, s: State, step: Step): State
    requires |s.workers| == |Feeds(src)| && Enabled(src, s, step)
  {
    match step
    case Lock(c) => Put(s, c, s.workers[c].(phase := Emitting)).(mu := Some(c))
    case Send(c) =>
      var l := Line(c, Feeds(src)[c].lines[s.workers[c].next]);
      Put(s, c, Worker(Unlocking(false), s.workers[c].next + 1)).(buffer := s.buffer + [l], emitted := s.emitted + [l])
    case GiveUp(c) => Put(s, c, s.workers[c].(phase := Unlocking(true)))
    case Unlock(c) =>
      Put(s, c, s.workers[c].(phase := if s.workers[c].phase.gaveUp then Leaving(Cancelled) else Scanning)).(mu := None)
    case EndOfFeed(c) => Put(s, c, s.workers[c].(phase := Leaving(if Feeds(src)[c].clean then Nil else Failed)))
    case Abort(c) => Put(s, c, s.workers[c].(phase := Leaving(Cancelled)))
    case Count(c) =>
      var err := s.workers[c].phase.err;
      var s' := Put(s, c, s.workers[c].(phase := Counted(err)));
      if err == Nil then s'.(opens := s.opens + 1)
      else s'.(fails := s.fails + 1, first := if s.first == Nil then err else s.first)
    case Return(err) => s.(returned := true, done := Some(err))
    case Write(ok) =>
      if ok then s.(buffer := s.buffer[1..], written := s.written + [s.buffer[0]], sent := s.sent + 1)
      else s.(buffer := s.buffer[1..], lost := [s.buffer[0]], writer := Stopped)
    case Beat(ok) => if ok then s else s.(writer := Stopped)
    case SeeDone => s.(done := None, writer := Draining(s.done.value))
    case SeeCancel => s.(writer := Stopped)
    case Close(ok) => s.(writer := Stopped, closing := if ok then ClosingEvent(s.writer.err, s.sent) else None)
    case Cancel => s.(cancelled := true)
  }

  // ---- The invariant ----

  /** The lines of one container, in order. */
  function Of(lines: seq<Line>, c: nat): seq<string> {
    if lines == [] then []
    else Of(Init(lines), c) + if Last(lines).container == c then [Last(lines).text] else []
  }

  predicate Inside(p: Phase) {
    p.Emitting? || p.Unlocking?
  }

  function Tally(ws: seq<Worker>, good: bool): nat {
    if ws == [] then 0
    else Tally(Init(ws), good) + if Last(ws).phase.Counted? && (Last(ws).phase.err == Nil) == good then 1 else 0
  }

  /** One worker against its feed, the lines it sent, the lock and the context. */
  ghost predicate Fits(feed: Feed, c: nat, w: Worker, own: seq<string>, mu: Option<nat>, cancelled: bool) {
    && w.next <= |feed.lines|
    && own == feed.lines[..w.next]
    && (w.phase == Emitting ==> w.next < |feed.lines|)
    && (Inside(w.phase) <==> mu == Some(c))
    && (w.phase == Unlocking(true) ==> cancelled)
    && (w.phase.Leaving? || w.phase.Counted? ==> LeftOk(feed, w.phase.err, w.next, cancelled))
  }

  predicate LeftOk(feed: Feed, err: Error, next: nat, cancelled: bool) {
    match err
    case Nil => feed.clean && next == |feed.lines|
    case Failed => !feed.clean && next == |feed.lines|
    case Cancelled => cancelled
    case NothingRunning => false
  }

  ghost predicate WorkerOk(src: Source, s: State, c: nat)
    requires |s.workers| == |Feeds(src)| && c < |s.workers|
  {
    Fits(Feeds(src)[c], c, s.workers[c], Of(s.emitted, c), s.mu, s.cancelled)
  }

  ghost predicate WorkersOk(src: Source, s: State)
    requires |s.workers| == |Feeds(src)|
  {
    forall c :: 0 <= c < |s.workers| ==> WorkerOk(src, s, c)
  }

  ghost predicate CountsOk(s: State) {
    && s.opens == Tally(s.workers, true) && s.fails == Tally(s.workers, false)
    && (s.first == Nil <==> s.fails == 0)
    && s.first != NothingRunning && (s.first == Cancelled ==> s.cancelled)
  }

  ghost predicate ChannelOk(src: Source, s: State)
  {
    && s.emitted == s.written + s.lost + s.buffer
    && |s.buffer| <= CHANNEL_CAPACITY
    && s.sent == |s.written|
    && (s.lost != [] ==> s.writer == Stopped && s.closing.None?)
    && (forall i :: 0 <= i < |s.emitted| ==> s.emitted[i].container < |Feeds(src)|)
    && (s.mu.Some? ==> s.mu.value < |s.workers|)
  }

  ghost predicate HandoverOk(src: Source, s: State) {
    && (s.returned ==> AllCounted(s))
    && (s.done.Some? ==> s.returned && May(src, s, s.done.value))
    && (s.done.None? && s.returned ==> s.writer != Looping)
    && (s.writer.Draining? ==> s.returned && May(src, s, s.writer.err))
    && (s.closing.Some? ==>
          && s.writer == Stopped && s.returned && s.buffer == [] && s.lost == []
          && exists err :: May(src, s, err) && s.closing == ClosingEvent(err, s.sent))
  }

  ghost predicate Inv(src: Source, s: State) {
    |s.workers| == |Feeds(src)| && WorkersOk(src, s) && CountsOk(s) && ChannelOk(src, s) && HandoverOk(src, s)
  }

  lemma {:induction false} TallyUpdate(ws: seq<Worker>, c: nat, w: Worker, good: bool)
    requires c < |ws|
    ensures Tally(ws[c := w], good)
         == Tally(ws, good)
          - (if ws[c].phase.Counted? && (ws[c].phase.err == Nil) == good then 1 else 0)
          + (if w.phase.Counted? && (w.phase.err == Nil) == good then 1 else 0)
  {
    if c < |ws| - 1 {
      TallyUpdate(Init(ws), c, w, good);
      assert Init(ws[c := w]) == Init(ws)[c := w];
    } else {
      assert Init(ws[c := w]) == Init(ws);
    }
  }

  lemma OfOneMore(lines: seq<Line>, l: Line, c: nat)
    ensures Of(lines + [l], c) == Of(lines, c) + if l.container == c then [l.text] else []
  {
    assert Init(lines + [l]) == lines;
  }

  lemma SendKeepsWorkers(src: Source, s: State, c: nat)
    requires Inv(src, s) && Enabled(src, s, Send(c))
    ensures WorkersOk(src, Apply(src, s, Send(c)))
  {
    var s' := Apply(src, s, Send(c));
    var n := s.workers[c].next;
    var l := Line(c, Feeds(src)[c].lines[n]);
    assert WorkerOk(src, s, c);
    assert Feeds(src)[c].lines[..n + 1] == Feeds(src)[c].lines[..n] + [l.text];
    forall k | 0 <= k < |s'.workers| ensures WorkerOk(src, s', k) {
      OfOneMore(s.emitted, l, k);
      assert WorkerOk(src, s, k);
    }
  }

  /** The steps of one container's goroutine. */
  predicate OfWorker(step: Step) {
    step.Lock? || step.Send? || step.GiveUp? || step.Unlock? || step.EndOfFeed? || step.Abort? || step.Count?
  }

  lemma FitsUnderOthers(feed: Feed, k: nat, w: Worker, own: seq<string>, mu: Option<nat>, cancelled: bool,
                        mu': Option<nat>, cancelled': bool)
    requires Fits(feed, k, w, own, mu, cancelled)
    requires (mu == Some(k) <==> mu' == Some(k)) && (cancelled ==> cancelled')
    ensures Fits(feed, k, w, own, mu', cancelled')
  {}

  /** What a step leaves alone. */
  lemma Untouched(src: Source, s: State, step: Step)
    requires |s.workers| == |Feeds(src)| && Enabled(src, s, step)
    ensures var s' := Apply(src, s, step);
            && |s'.workers| == |s.workers|
            && (forall k :: 0 <= k < |s.workers| && !(OfWorker(step) && step.c == k) ==> s'.workers[k] == s.workers[k])
            && (!OfWorker(step) ==> s'.workers == s.workers)
            && (!step.Send? ==> s'.emitted == s.emitted)
            && (!step.Lock? && !step.Unlock? ==> s'.mu == s.mu)
            && (s.cancelled ==> s'.cancelled)
  {}

  /** A step of another goroutine leaves this one's worker as it was. */
  lemma OtherWorkerStays(src: Source, s: State, step: Step, k: nat)
    requires |s.workers| == |Feeds(src)| && WorkersOk(src, s) && Enabled(src, s, step) && !step.Send? && k < |s.workers|
    requires OfWorker(step) ==> step.c != k
    ensures WorkerOk(src, Apply(src, s, step), k)
  {
    var s' := Apply(src, s, step);
    Untouched(src, s, step);
    assert WorkerOk(src, s, k);
    if step.Lock? || step.Unlock? {
      assert WorkerOk(src, s, step.c);
    }
    FitsUnderOthers(Feeds(src)[k], k, s.workers[k], Of(s.emitted, k), s.mu, s.cancelled, s'.mu, s'.cancelled);
  }

  lemma OwnWorkerStays(src: Source, s: State, step: Step)
    requires |s.workers| == |Feeds(src)| && Enabled(src, s, step) && OfWorker(step) && !step.Send?
    requires WorkerOk(src, s, step.c)
    ensures WorkerOk(src, Apply(src, s, step), step.c)
  {
    match step {
      case Lock(c) =>
      case GiveUp(c) =>
      case Unlock(c) =>
      case EndOfFeed(c) =>
      case Abort(c) =>
      case Count(c) =>
    }
  }

  lemma StepKeepsWorkers(src: Source, s: State, step: Step)
    requires Inv(src, s) && Enabled(src, s, step) && !step.Send?
    ensures WorkersOk(src, Apply(src, s, step))
  {
    var s' := Apply(src, s, step);
    forall k | 0 <= k < |s'.workers| ensures WorkerOk(src, s', k) {
      if OfWorker(step) && step.c == k {
        assert WorkerOk(src, s, k);
        OwnWorkerStays(src, s, step);
      } else {
        OtherWorkerStays(src, s, step, k);
      }
    }
  }

  /** Counts that move only with the worker a step counts. */
  lemma WorkerStepCounts(src: Source, s: State, step: Step)
    requires |s.workers| == |Feeds(src)| && Enabled(src, s, step) && OfWorker(step) && step.c < |s.workers|
    ensures var s' := Apply(src, s, step);
            && !s.workers[step.c].phase.Counted? && s'.workers == s.workers[step.c := s'.workers[step.c]]
            && (!step.Count? ==> !s'.workers[step.c].phase.Counted? && s'.opens == s.opens && s'.fails == s.fails && s'.first == s.first)
  {}

  lemma StepKeepsCounts(src: Source, s: State, step: Step)
    requires Inv(src, s) && Enabled(src, s, step)
    ensures CountsOk(Apply(src, s, step))
  {
    Untouched(src, s, step);
    if step.Count? {
      CountKeepsCounts(src, s, step.c);
    } else if OfWorker(step) {
      WorkerStepCounts(src, s, step);
      TallyBoth(s.workers, step.c, Apply(src, s, step).workers[step.c]);
    }
  }

  lemma CountKeepsCounts(src: Source, s: State, c: nat)
    requires Inv(src, s) && Enabled(src, s, Count(c))
    ensures CountsOk(Apply(src, s, Count(c)))
  {
    assert WorkerOk(src, s, c);
    TallyBoth(s.workers, c, s.workers[c].(phase := Counted(s.workers[c].phase.err)));
  }

  lemma TallyBoth(ws: seq<Worker>, c: nat, w: Worker)
    requires c < |ws| && !ws[c].phase.Counted?
    ensures Tally(ws[c := w], true) == Tally(ws, true) + if w.phase.Counted? && w.phase.err == Nil then 1 else 0
    ensures Tally(ws[c := w], false) == Tally(ws, false) + if w.phase.Counted? && w.phase.err != Nil then 1 else 0
  {
    TallyUpdate(ws, c, w, true);
    TallyUpdate(ws, c, w, false);
  }

  lemma WriteKeepsChannel(src: Source, s: State, ok: bool)
    requires ChannelOk(src, s) && |s.workers| == |Feeds(src)| && Enabled(src, s, Write(ok)) && s.closing.None?
    ensures ChannelOk(src, Apply(src, s, Write(ok)))
  {
    assert s.buffer == [s.buffer[0]] + s.buffer[1..];
    assert s.written + s.lost + s.buffer == s.written + [s.buffer[0]] + s.buffer[1..];
  }

  lemma SendKeepsChannel(src: Source, s: State, c: nat)
    requires ChannelOk(src, s) && |s.workers| == |Feeds(src)| && Enabled(src, s, Send(c))
    ensures ChannelOk(src, Apply(src, s, Send(c)))
  {}

  /** A worker that is not sending touches the lock and nothing else of the stream. */
  lemma WorkerLeavesTheStream(src: Source, s: State, step: Step)
    requires |s.workers| == |Feeds(src)| && Enabled(src, s, step) && OfWorker(step) && !step.Send?
    ensures var s' := Apply(src, s, step);
            && s'.emitted == s.emitted && s'.written == s.written && s'.lost == s.lost && s'.buffer == s.buffer
            && s'.sent == s.sent && s'.writer == s.writer && s'.closing == s.closing && |s'.workers| == |s.workers|
            && (s'.mu == s.mu || s'.mu.None? || s'.mu.value < |s.workers|)
  {}

  lemma WorkerKeepsChannel(src: Source, s: State, step: Step)
    requires ChannelOk(src, s) && |s.workers| == |Feeds(src)| && Enabled(src, s, step) && OfWorker(step) && !step.Send?
    ensures ChannelOk(src, Apply(src, s, step))
  {
    WorkerLeavesTheStream(src, s, step);
  }

  lemma WriterKeepsChannel(src: Source, s: State, step: Step)
    requires ChannelOk(src, s) && |s.workers| == |Feeds(src)| && Enabled(src, s, step) && !OfWorker(step) && !step.Write?
    ensures ChannelOk(src, Apply(src, s, step))
  {}

  lemma StepKeepsChannel(src: Source, s: State, step: Step)
    requires Inv(src, s) && Enabled(src, s, step)
    ensures ChannelOk(src, Apply(src, s, step))
  {
    if step.Write? {
      WriteKeepsChannel(src, s, step.ok);
    } else if step.Send? {
      SendKeepsChannel(src, s, step.c);
    } else if OfWorker(step) {
      WorkerKeepsChannel(src, s, step);
    } else {
      WriterKeepsChannel(src, s, step);
    }
  }

  /** While a worker can step the merge has not returned, and no worker's step makes it. */
  lemma WorkerKeepsHandover(src: Source, s: State, step: Step)
    requires HandoverOk(src, s) && |s.workers| == |Feeds(src)| && Enabled(src, s, step) && OfWorker(step)
    ensures HandoverOk(src, Apply(src, s, step))
  {
    var c := step.c;
    assert !s.workers[c].phase.Counted?;
    assert !AllCounted(s);
    var s' := Apply(src, s, step);
    assert s'.returned == s.returned && s'.done == s.done && s'.writer == s.writer && s'.closing == s.closing;
  }

  lemma StepKeepsHandover(src: Source, s: State, step: Step)
    requires Inv(src, s) && Enabled(src, s, step)
    ensures HandoverOk(src, Apply(src, s, step))
  {
    if OfWorker(step) {
      WorkerKeepsHandover(src, s, step);
    } else {
      OtherKeepsHandover(src, s, step);
    }
  }

  lemma OtherKeepsHandover(src: Source, s: State, step: Step)
    requires ChannelOk(src, s) && HandoverOk(src, s) && |s.workers| == |Feeds(src)| && Enabled(src, s, step) && !OfWorker(step)
    ensures HandoverOk(src, Apply(src, s, step))
  {}

  // ---- Runs ----

  ghost predicate IsRun(src: Source, states: seq<State>, steps: seq<Step>) {
    && |states| == |steps| + 1 && states[0] == Start(src)
    && (forall i :: 0 <= i < |states| ==> |states[i].workers| == |Feeds(src)|)
    && (forall i :: 0 <= i < |steps| ==> Follows(src, states[i], steps[i], states[i + 1]))
  }

  ghost predicate Follows(src: Source, s: State, step: Step, s': State)
    requires |s.workers| == |Feeds(src)|
  {
    Enabled(src, s, step) && s' == Apply(src, s, step)
  }

  lemma {:induction false} TallyOfNone(ws: seq<Worker>, good: bool)
    requires forall c :: 0 <= c < |ws| ==> !ws[c].phase.Counted?
    ensures Tally(ws, good) == 0
  {
    if ws != [] {
      TallyOfNone(Init(ws), good);
    }
  }

  lemma StartInv(src: Source)
    ensures Inv(src, Start(src))
  {
    TallyOfNone(Start(src).workers, true);
    TallyOfNone(Start(src).workers, false);
    forall c | 0 <= c < |Start(src).workers| ensures WorkerOk(src, Start(src), c) {}
  }

  lemma StepKeepsInv(src: Source, s: State, step: Step)
    requires Inv(src, s) && Enabled(src, s, step)
    ensures Inv(src, Apply(src, s, step))
  {
    Untouched(src, s, step);
    if step.Send? {
      SendKeepsWorkers(src, s, step.c);
    } else {
      StepKeepsWorkers(src, s, step);
    }
    StepKeepsCounts(src, s, step);
    StepKeepsChannel(src, s, step);
    StepKeepsHandover(src, s, step);
  }

  lemma {:induction false} RunKeepsInv(src: Source, states: seq<State>, steps: seq<Step>, i: nat)
    requires IsRun(src, states, steps) && i < |states|
    ensures Inv(src, states[i])
  {
    if i == 0 {
      StartInv(src);
    } else {
      RunKeepsInv(src, states, steps, i - 1);
      assert Follows(src, states[i - 1], steps[i - 1], states[i]);
      StepKeepsInv(src, states[i - 1], steps[i - 1]);
    }
  }

  // ---- What the reader may rely on ----

  lemma {:induction false} OfPrefix(a: seq<Line>, b: seq<Line>, c: nat)
    requires a <= b
    ensures Of(a, c) <= Of(b, c)
  {
    if a != b {
      assert a <= Init(b);
      OfPrefix(a, Init(b), c);
    }
  }

  /**
   At every moment of every interleaving the written lines are a prefix of the
   lines handed over, each container's own lines keep their order through the
   merge, and the channel holds at most 256.
   */
  lemma WrittenIsAPrefix(src: Source, states: seq<State>, steps: seq<Step>, i: nat)
    requires IsRun(src, states, steps) && i < |states|
    ensures states[i].written <= states[i].emitted && |states[i].buffer| <= CHANNEL_CAPACITY
    ensures forall c :: 0 <= c < |Feeds(src)| ==> Of(states[i].written, c) <= Feeds(src)[c].lines
  {
    RunKeepsInv(src, states, steps, i);
    var s := states[i];
    forall c | 0 <= c < |Feeds(src)| ensures Of(s.written, c) <= Feeds(src)[c].lines {
      assert WorkerOk(src, s, c);
      OfPrefix(s.written, s.emitted, c);
    }
  }

  /**
   When an end event has been written, everything handed over was written, the
   count in the event is exact, every container that was followed to its end is
   there in full, and unless the reader left, so is every line of every feed.
   */
  lemma EndMeansEverything(src: Source, states: seq<State>, steps: seq<Step>, i: nat)
    requires IsRun(src, states, steps) && i < |states|
    requires states[i].closing.Some? && states[i].closing.value.End?
    ensures states[i].written == states[i].emitted && states[i].closing.value.lines == |states[i].written|
    ensures forall c :: 0 <= c < |Feeds(src)| && (states[i].workers[c].phase == Counted(Nil) || !states[i].cancelled) ==>
                          Of(states[i].written, c) == Feeds(src)[c].lines
    ensures states[i].closing.value.nothingRunning <==> src.NoPods?
    ensures !states[i].closing.value.nothingRunning ==>
              Feeds(src) == [] || exists c :: 0 <= c < |Feeds(src)| && states[i].workers[c].phase == Counted(Nil)
  {
    RunKeepsInv(src, states, steps, i);
    var s := states[i];
    assert s.written == s.written + [] + [] == s.emitted;
    forall c | 0 <= c < |Feeds(src)| && (s.workers[c].phase == Counted(Nil) || !s.cancelled)
      ensures Of(s.written, c) == Feeds(src)[c].lines
    {
      assert WorkerOk(src, s, c) && s.workers[c].phase.Counted?;
      var lines := Feeds(src)[c].lines;
      assert lines[..|lines|] == lines;
    }
    if src.Pods? && Feeds(src) != [] {
      TallyIsWhole(s.workers);
      if Tally(s.workers, true) > 0 {
        var c := TallyHasOne(s.workers);
      }
    }
  }

  /** Where some succeeded, one did. */
  lemma {:induction false} TallyHasOne(ws: seq<Worker>) returns (c: nat)
    requires Tally(ws, true) > 0
    ensures c < |ws| && ws[c].phase == Counted(Nil)
  {
    if Last(ws).phase == Counted(Nil) {
      c := |ws| - 1;
    } else {
      c := TallyHasOne(Init(ws));
    }
  }

  /** Counted workers succeeded or failed. */
  lemma {:induction false} TallyIsWhole(ws: seq<Worker>)
    requires forall c :: 0 <= c < |ws| ==> ws[c].phase.Counted?
    ensures Tally(ws, true) + Tally(ws, false) == |ws|
  {
    if ws != [] {
      assert Last(ws) == ws[|ws| - 1];
      assert forall c :: 0 <= c < |ws| - 1 ==> Init(ws)[c] == ws[c];
      TallyIsWhole(Init(ws));
    }
  }

  // ---- Progress ----

  function WorkerWeight(feed: Feed, w: Worker): int {
    var rest := 4 * (|feed.lines| - w.next);
    match w.phase
    case Scanning => rest + 4
    case Emitting => rest + 3
    case Unlocking(gaveUp) => if gaveUp then rest + 2 else rest + 5
    case Leaving(_) => 1
    case Counted(_) => 0
  }

  function WorkersWeight(feeds: seq<Feed>, ws: seq<Worker>): int
    requires |feeds| == |ws|
  {
    if ws == [] then 0 else WorkersWeight(Init(feeds), Init(ws)) + WorkerWeight(Last(feeds), Last(ws))
  }

  /** What is left to do; only a successful heartbeat leaves it unchanged. */
  function Work(src: Source, s: State): int
    requires |s.workers| == |Feeds(src)|
  {
    WorkersWeight(Feeds(src), s.workers) + Rest(s)
  }

  function Rest(s: State): nat {
    |s.buffer| + (if s.returned then 0 else 1) + (if s.cancelled then 0 else 1)
    + match s.writer case Looping => 2 case Draining(_) => 1 case Stopped => 0
  }

  lemma {:induction false} WeightUpdate(feeds: seq<Feed>, ws: seq<Worker>, c: nat, w: Worker)
    requires |feeds| == |ws| && c < |ws|
    ensures WorkersWeight(feeds, ws[c := w])
         == WorkersWeight(feeds, ws) - WorkerWeight(feeds[c], ws[c]) + WorkerWeight(feeds[c], w)
  {
    if c < |ws| - 1 {
      WeightUpdate(Init(feeds), Init(ws), c, w);
      assert Init(ws[c := w]) == Init(ws)[c := w];
    } else {
      assert Init(ws[c := w]) == Init(ws);
    }
  }

  ghost predicate WithinFeeds(feeds: seq<Feed>, ws: seq<Worker>) {
    |feeds| == |ws| && forall c :: 0 <= c < |ws| ==> ws[c].next <= |feeds[c].lines|
  }

  lemma WithinInit(feeds: seq<Feed>, ws: seq<Worker>)
    requires WithinFeeds(feeds, ws) && ws != []
    ensures WithinFeeds(Init(feeds), Init(ws)) && Last(ws).next <= |Last(feeds).lines|
  {
    assert forall c :: 0 <= c < |ws| - 1 ==> Init(ws)[c] == ws[c] && Init(feeds)[c] == feeds[c];
  }

  lemma {:induction false} WeightNonnegative(feeds: seq<Feed>, ws: seq<Worker>)
    requires WithinFeeds(feeds, ws)
    ensures WorkersWeight(feeds, ws) >= 0
  {
    if ws != [] {
      WithinInit(feeds, ws);
      WeightNonnegative(Init(feeds), Init(ws));
    }
  }

  lemma WorkNonnegative(src: Source, s: State)
    requires Inv(src, s)
    ensures 0 <= Work(src, s)
  {
    forall c | 0 <= c < |s.workers| ensures s.workers[c].next <= |Feeds(src)[c].lines| {
      assert WorkerOk(src, s, c);
    }
    WeightNonnegative(Feeds(src), s.workers);
  }

  lemma WorkerStepIsLighter(src: Source, s: State, step: Step)
    requires Inv(src, s) && Enabled(src, s, step) && OfWorker(step)
    ensures WorkerWeight(Feeds(src)[step.c], Apply(src, s, step).workers[step.c])
          + |Apply(src, s, step).buffer| < WorkerWeight(Feeds(src)[step.c], s.workers[step.c]) + |s.buffer|
  {
    assert WorkerOk(src, s, step.c);
  }

  lemma WorkerStepRest(src: Source, s: State, step: Step)
    requires |s.workers| == |Feeds(src)| && Enabled(src, s, step) && OfWorker(step)
    ensures Rest(Apply(src, s, step)) - |Apply(src, s, step).buffer| == Rest(s) - |s.buffer|
    ensures Apply(src, s, step).workers == s.workers[step.c := Apply(src, s, step).workers[step.c]]
  {}

  lemma WorkerStepSpendsWork(src: Source, s: State, step: Step)
    requires Inv(src, s) && Enabled(src, s, step) && OfWorker(step)
    ensures Work(src, Apply(src, s, step)) < Work(src, s)
  {
    WorkerStepRest(src, s, step);
    WorkerStepIsLighter(src, s, step);
    WeightUpdate(Feeds(src), s.workers, step.c, Apply(src, s, step).workers[step.c]);
  }

  lemma StepSpendsWork(src: Source, s: State, step: Step)
    requires Inv(src, s) && Enabled(src, s, step)
    ensures step != Beat(true) ==> Work(src, Apply(src, s, step)) < Work(src, s)
    ensures step == Beat(true) ==> Work(src, Apply(src, s, step)) == Work(src, s)
  {
    if OfWorker(step) {
      WorkerStepSpendsWork(src, s, step);
    } else {
      OtherStepSpendsWork(src, s, step);
    }
  }

  lemma OtherStepSpendsRest(src: Source, s: State, step: Step)
    requires |s.workers| == |Feeds(src)| && Enabled(src, s, step) && !OfWorker(step)
    ensures step != Beat(true) ==> Rest(Apply(src, s, step)) < Rest(s)
    ensures step == Beat(true) ==> Rest(Apply(src, s, step)) == Rest(s)
  {}

  lemma OtherStepSpendsWork(src: Source, s: State, step: Step)
    requires |s.workers| == |Feeds(src)| && Enabled(src, s, step) && !OfWorker(step)
    ensures step != Beat(true) ==> Work(src, Apply(src, s, step)) < Work(src, s)
    ensures step == Beat(true) ==> Work(src, Apply(src, s, step)) == Work(src, s)
  {
    var s' := Apply(src, s, step);
    Untouched(src, s, step);
    OtherStepSpendsRest(src, s, step);
    SameWeight(src, s, s');
  }

  lemma SameWeight(src: Source, s: State, s': State)
    requires |s.workers| == |Feeds(src)| && s'.workers == s.workers
    ensures Work(src, s') - Rest(s') == Work(src, s) - Rest(s)
  {}

  /** Until the writer has stopped, something other than a heartbeat can always happen. */
  lemma NeverStuck(src: Source, s: State) returns (step: Step)
    requires Inv(src, s) && s.writer != Stopped
    ensures Enabled(src, s, step) && !step.Beat? && step != Cancel
  {
    if s.buffer != [] {
      return Write(true);
    }
    if s.writer.Draining? {
      return Close(true);
    }
    if s.returned {
      return SeeDone;
    }
    if s.mu.Some? {
      var c := s.mu.value;
      assert WorkerOk(src, s, c);
      return if s.workers[c].phase == Emitting then Send(c) else Unlock(c);
    }
    if AllCounted(s) {
      return Return(match src case NoPods => NothingRunning case ListFailed => Failed
                              case Pods(_) => if s.opens == 0 && s.fails > 0 then s.first else Nil);
    }
    var c :| 0 <= c < |s.workers| && !s.workers[c].phase.Counted?;
    assert WorkerOk(src, s, c);
    return if s.workers[c].phase.Leaving? then Count(c)
      else if s.workers[c].next < |Feeds(src)[c].lines| then Lock(c) else EndOfFeed(c);
  }

  function Beats(steps: seq<Step>): nat {
    if steps == [] then 0 else Beats(Init(steps)) + if Last(steps) == Beat(true) then 1 else 0
  }

  /**
   A stream of finite feeds ends: no interleaving takes more than a fixed number
   of steps besides successful heartbeats, and by NeverStuck it can always go on
   until the writer stops.
   */
  lemma {:induction false} StreamsEnd(src: Source, states: seq<State>, steps: seq<Step>)
    requires IsRun(src, states, steps)
    ensures |steps| - Beats(steps) <= Work(src, Start(src)) - Work(src, Last(states))
    ensures 0 <= Work(src, Last(states))
  {
    RunKeepsInv(src, states, steps, |states| - 1);
    WorkNonnegative(src, Last(states));
    if steps != [] {
      RunPrefix(src, states, steps);
      StreamsEnd(src, Init(states), Init(steps));
      RunKeepsInv(src, states, steps, |steps| - 1);
      StepSpendsWork(src, Last(Init(states)), Last(steps));
    }
  }

  lemma RunPrefix(src: Source, states: seq<State>, steps: seq<Step>)
    requires IsRun(src, states, steps) && steps != []
    ensures IsRun(src, Init(states), Init(steps))
    ensures Follows(src, Last(Init(states)), Last(steps), Last(states))
  {
    forall k | 0 <= k < |steps| ensures Follows(src, states[k], steps[k], states[k + 1]) {}
    forall k | 0 <= k < |Init(steps)| ensures Follows(src, Init(states)[k], Init(steps)[k], Init(states)[k + 1]) {
      assert Follows(src, states[k], steps[k], states[k + 1]);
    }
  }
}
