/** The seek protocol between the sender, the worker and the presenter threads of
    one media item (MediaPlayer::Impl in src/media-player.cpp). Every critical
    section under the state or the queue mutex is one step; steps of the three
    threads interleave in any order. What the demuxer, the decoders, the clock
    and the picture conversion do is left open: it comes with each event. */
module SeekProtocol {
  import opened Common
  import opened PlaybackControl

  const QUEUE_FRAMES := 3

  /** A clone waiting for the presenter; a negative position: it carries none. */
  datatype Frame = Frame(id: nat, position: int, epoch: nat)

  /** A clone the worker is handing over: it gets its epoch with its place. */
  datatype Clone = Clone(id: nat, position: int)

  datatype Worker =
    | Opening
    | Top                               // head of the read loop
    | Clearing                          // took a seek, the queue is to be emptied
    | Reading
    | Decoding(final: bool)             // taking frames out; final: at the end of input
    | Entering(final: bool, clone: Clone)   // queueVideoFrame: waiting for room
    | Leaving(final: bool, clone: Clone)    // left the wait, queue mutex held
    | Pushing(final: bool, clone: Clone)    // passed the second check, mutex held
    | Sounding(final: bool, position: int)  // sound that passed shouldDiscard
    | AfterPacket
    | Reopening                         // waits for the presenter to be idle
    | Reopened
    | AtEnd                             // the demuxer reported its end
    | Emptying                          // waits for the presenter to be idle
    | Holding
    | Ending
    | Quitting
    | Joining
    | Done

  datatype Presenter =
    | Idle
    | Took(frame: Frame)                // popped; the epoch is not noted yet
    | Noted(frame: Frame)
    | Emitting(frame: Frame)
    | Judging(frame: Frame)
    | Late(frame: Frame)                // discarded, unless shown as a coarse preview
    | Preparing(frame: Frame, coarse: bool)
    | Waiting(frame: Frame)             // waitForPresentation
    | Showing(frame: Frame, coarse: bool)
    | Freeing(frame: Frame)
    | Finishing
    | Exited

  datatype Pipe = Pipe(
    queue: seq<Frame>,
    epoch: nat,              // advanced with every seek carried out
    presenting: nat,         // epoch of the presenter's frame, as it noted it
    busy: bool,
    quit: bool)

  /** What the proof remembers of the latest seek carried out: its target (or the
      start), and the furthest positions of pictures and sound decoded since. */
  datatype Marks = Marks(base: int, reached: int, heard: int)

  /** Clones made (ids count up from 0) and ids released, with how often. */
  datatype Ledger = Ledger(cloned: nat, freed: multiset<nat>)

  datatype System = System(control: Control, stop: bool, pipe: Pipe, worker: Worker, presenter: Presenter,
                           marks: Marks, ledger: Ledger)

  datatype SenderEvent =
    | Scrubs(position: int, quick: bool)
    | Rates(play: bool)
    | Removes
    | Stops

  /** The worker's read loop. */
  datatype ReadEvent =
    | Opens(hasVideo: bool, duration: nat)
    | FailsToOpen
    | StopsOpening
    | LeavesLoop
    | TakesSeek
    | SeesNoSeek
    | Clears
    | ReadsPacket
    | ReadsEnd
    | NextPacket
    | NeedsReopen
    | Reseeks

  /** The worker taking frames out of the decoders and handing them on. */
  datatype FeedEvent =
    | DecodesVideo(position: int)
    | DecodesSound(position: int, catchUp: Option<int>)
    | Drains
    | FindsRoom
    | GivesUp
    | Confirms
    | Pushes
    | Sounds(due: bool, audible: int)

  /** The worker at the end of the input and of the item. */
  datatype EndEvent =
    | EndsRead(recover: bool)
    | SeesIdle
    | Holds(due: bool)
    | Ends
    | Quits
    | Joins

  datatype ShowEvent =
    | Takes
    | Notes
    | ChecksEpoch
    | Emits
    | Judges(shownFor: int, catchUp: Option<int>)
    | TakesCoarse(due: bool)
    | Prepares(ok: bool)
    | Presents(due: bool)
    | Shows
    | Frees
    | Finishes
    | Exits

  datatype Event = Sends(sender: SenderEvent) | Reads(read: ReadEvent) | Feeds(feed: FeedEvent)
                 | Closes(end: EndEvent) | Displays(show: ShowEvent)

  function Start(start: nat, playing: bool, epoch: nat, presenting: nat): System {
    System(Fresh(start, playing), false, Pipe([], epoch, presenting, false, false), Opening, Exited,
           Marks(start, 0, 0), Ledger(0, multiset{}))
  }

  /** The worker holds the queue mutex between steps. */
  predicate QueueHeld(s: System) {
    s.worker.Leaving? || s.worker.Pushing?
  }

  predicate StopOrSeek(s: System) {
    s.stop || s.control.request.pending
  }

  predicate Stale(s: System) {
    s.pipe.presenting != s.pipe.epoch
  }

  predicate PresenterIdle(s: System) {
    s.pipe.queue == [] && !s.pipe.busy
  }

  function FreeAll(queue: seq<Frame>): multiset<nat> {
    if queue == [] then multiset{} else multiset{queue[0].id} + FreeAll(queue[1..])
  }

  function PushFrame(p: Pipe, clone: Clone): Pipe {
    p.(queue := p.queue + [Frame(clone.id, clone.position, p.epoch)])
  }

  function TakeFrame(p: Pipe): Pipe
    requires p.queue != []
  {
    p.(queue := p.queue[1..], busy := true)
  }

  function NoteFrame(p: Pipe, f: Frame): Pipe {
    p.(presenting := f.epoch)
  }

  function FinishFrame(p: Pipe): Pipe {
    p.(busy := false)
  }

  function ClearFrames(p: Pipe): Pipe {
    p.(queue := [])
  }

  function AdvanceEpoch(p: Pipe): Pipe {
    p.(epoch := p.epoch + 1)
  }

  /** The sections under the queue mutex as the source runs them. */
  class FrameQueue {
    var queue: seq<Frame>
    var epoch: nat
    var presenting: nat
    var busy: bool
    var quit: bool

    function View(): Pipe reads this {
      Pipe(queue, epoch, presenting, busy, quit)
    }

    constructor (epoch: nat, presenting: nat)
      ensures View() == Pipe([], epoch, presenting, false, false)
    {
      queue, busy, quit := [], false, false;
      this.epoch, this.presenting := epoch, presenting;
    }

    method Push(clone: Clone)
      modifies `queue
      ensures View() == PushFrame(old(View()), clone)
    {
      queue := queue + [Frame(clone.id, clone.position, epoch)];
    }

    method Take() returns (f: Frame)
      requires queue != []
      modifies `queue, `busy
      ensures View() == TakeFrame(old(View())) && [f] + queue == old(queue)
    {
      f := queue[0];
      queue := queue[1..];
      busy := true;
    }

    method Note(f: Frame)
      modifies `presenting
      ensures View() == NoteFrame(old(View()), f)
    {
      presenting := f.epoch;
    }

    method Finish()
      modifies `busy
      ensures View() == FinishFrame(old(View()))
    {
      busy := false;
    }

    /** Every queued clone is released, each once. */
    method Clear() returns (freed: multiset<nat>)
      modifies `queue
      ensures View() == ClearFrames(old(View())) && freed == FreeAll(old(queue))
    {
      freed := multiset{};
      for i := 0 to |queue|
        invariant queue == old(queue) && freed + FreeAll(queue[i..]) == FreeAll(queue)
      {
        freed := freed + multiset{queue[i].id};
        assert queue[i..][1..] == queue[i + 1..];
      }
      queue := [];
    }

    method Advance()
      modifies `epoch
      ensures View() == AdvanceEpoch(old(View()))
    {
      epoch := epoch + 1;
    }
  }

  function Free(ledger: Ledger, ids: multiset<nat>): Ledger {
    ledger.(freed := ledger.freed + ids)
  }

  // ------------------------------------------------------------------- sender

  predicate CanSend(s: System, e: SenderEvent) {
    e.Scrubs? ==> !s.control.info.ended   // after the end a scrub opens a new item
  }

  function Send(s: System, e: SenderEvent): System {
    match e
    case Scrubs(position, quick) => s.(control := SeekLocked(s.control, ScrubTarget(s.control, position), quick))
    case Rates(play) => s.(control := SetRate(s.control, play))
    case Removes => s.(control := PauseForRemoval(s.control))
    case Stops => s.(stop := true)
  }

  // ------------------------------------------------------------------- worker

  predicate CanRead(s: System, e: ReadEvent) {
    match e
    case Opens(_, _) => s.worker.Opening?
    case FailsToOpen => s.worker.Opening?
    case StopsOpening => s.worker.Opening? && s.stop
    case LeavesLoop => s.stop && (s.worker.Top? || s.worker.AtEnd?)
    case TakesSeek => s.worker.Top? && s.control.request.pending
    case SeesNoSeek => s.worker.Top? && !s.control.request.pending
    case Clears => s.worker.Clearing?
    case ReadsPacket => s.worker.Reading?
    case ReadsEnd => s.worker.Reading?
    case NextPacket => s.worker.AfterPacket?
    case NeedsReopen => s.worker.AfterPacket?
    case Reseeks => s.worker.Reopened?
  }

  function Read(s: System, e: ReadEvent): System {
    match e
    case Opens(hasVideo, duration) =>
      s.(control := OpenItem(s.control, hasVideo, duration), worker := Top,
         presenter := if hasVideo then Idle else Exited, pipe := s.pipe.(quit := false, busy := false))
    case FailsToOpen => s.(control := MarkFailed(s.control), worker := Done)
    case StopsOpening => s.(worker := Done)
    case LeavesLoop => s.(worker := Quitting)
    case TakesSeek =>
      s.(control := TakeSeek(s.control), pipe := AdvanceEpoch(s.pipe), worker := Clearing,
         marks := Marks(s.control.request.target, 0, 0))
    case SeesNoSeek => s.(worker := Reading)
    case Clears =>
      s.(ledger := Free(s.ledger, FreeAll(s.pipe.queue)), pipe := ClearFrames(s.pipe), worker := Reading)
    case ReadsPacket => s.(worker := Decoding(false))
    case ReadsEnd => s.(worker := AtEnd)
    case NextPacket => s.(worker := Top)
    case NeedsReopen => s.(worker := Reopening)
    case Reseeks => s.(control := ReopenSeek(s.control), worker := Top)
  }

  predicate CanFeed(s: System, e: FeedEvent) {
    match e
    // within an epoch the decoder's positions do not go back
    case DecodesVideo(position) =>
      s.worker.Decoding? && s.control.info.hasVideo && (position < 0 || position >= s.marks.reached)
    case DecodesSound(position, _) => s.worker.Decoding? && position >= 0
    case Drains => s.worker.Decoding?
    case FindsRoom => s.worker.Entering? && (|s.pipe.queue| < QUEUE_FRAMES || StopOrSeek(s))
    case GivesUp => s.worker.Leaving? && StopOrSeek(s)
    case Confirms => s.worker.Leaving? && !StopOrSeek(s)
    case Pushes => s.worker.Pushing?
    case Sounds(_, _) => s.worker.Sounding?
  }

  function Feed(s: System, e: FeedEvent): System
    requires CanFeed(s, e)
  {
    match e
    case DecodesVideo(position) =>
      s.(worker := Entering(s.worker.final, Clone(s.ledger.cloned, position)),
         ledger := s.ledger.(cloned := s.ledger.cloned + 1),
         marks := s.marks.(reached := Max(s.marks.reached, position)))
    case DecodesSound(position, catchUp) =>
      var judged := JudgeAudio(s.control, position, catchUp);
      s.(control := judged.control, worker := if judged.discard then s.worker else Sounding(s.worker.final, position),
         marks := s.marks.(heard := Max(s.marks.heard, position)))
    case Drains => s.(worker := if s.worker.final then Emptying else AfterPacket)
    case FindsRoom => s.(worker := Leaving(s.worker.final, s.worker.clone))
    case GivesUp =>
      s.(ledger := Free(s.ledger, multiset{s.worker.clone.id}), worker := Decoding(s.worker.final))
    case Confirms => s.(worker := Pushing(s.worker.final, s.worker.clone))
    case Pushes =>
      s.(pipe := PushFrame(s.pipe, s.worker.clone),
         worker := Decoding(s.worker.final))
    case Sounds(due, audible) =>
      var waited := Wait(s.control, s.worker.position, false, false, s.stop, due, audible);
      s.(control := waited.control, worker := if waited.turn.Again? then s.worker else Decoding(s.worker.final))
  }

  predicate CanClose(s: System, e: EndEvent) {
    match e
    case EndsRead(_) => s.worker.AtEnd?
    case SeesIdle => (s.worker.Reopening? || s.worker.Emptying?) && (PresenterIdle(s) || s.stop)
    case Holds(_) => s.worker.Holding?
    case Ends => s.worker.Ending?
    case Quits => s.worker.Quitting?
    case Joins => s.worker.Joining? && s.presenter.Exited?
  }

  function Close(s: System, e: EndEvent): System {
    match e
    case EndsRead(recover) =>
      var control := ReadOn(s.control, recover);
      s.(control := control, worker := if control.request.pending then Top else Decoding(true))
    case SeesIdle => s.(worker := if s.worker.Reopening? then Reopened else Holding)
    case Holds(due) =>
      var turn := Hold(s.control, s.stop, due);
      s.(control := turn.control,
         worker := if turn.held.HeldEnd? then Ending else if turn.held.HeldSeek? then Top else s.worker)
    case Ends => s.(control := if s.stop then s.control else MarkEnded(s.control), worker := Quitting)
    case Quits => s.(pipe := s.pipe.(quit := true), worker := Joining)
    case Joins => s.(ledger := Free(s.ledger, FreeAll(s.pipe.queue)), pipe := ClearFrames(s.pipe), worker := Done)
  }

  // ---------------------------------------------------------------- presenter

  predicate CanShow(s: System, e: ShowEvent) {
    match e
    case Takes => s.presenter.Idle? && s.pipe.queue != [] && !s.stop && !QueueHeld(s)
    case Notes => s.presenter.Took?
    case ChecksEpoch => s.presenter.Noted?
    case Emits => s.presenter.Emitting?
    case Judges(_, _) => s.presenter.Judging?
    case TakesCoarse(_) => s.presenter.Late?
    case Prepares(_) => s.presenter.Preparing?
    case Presents(_) => s.presenter.Waiting?
    case Shows => s.presenter.Showing?
    case Frees => s.presenter.Freeing?
    case Finishes => s.presenter.Finishing? && !QueueHeld(s)
    case Exits => s.presenter.Idle? && (s.stop || (s.pipe.quit && s.pipe.queue == [])) && !QueueHeld(s)
  }

  /** What waitForPresentation decides about the frame the presenter waits with. */
  function PresentTurn(s: System, due: bool): Waited
    requires s.presenter.Waiting?
  {
    Wait(s.control, s.presenter.frame.position, true, Stale(s), s.stop, due, 0)
  }

  function Show(s: System, e: ShowEvent): System
    requires CanShow(s, e)
  {
    match e
    case Takes => s.(presenter := Took(s.pipe.queue[0]), pipe := TakeFrame(s.pipe))
    case Notes =>
      s.(pipe := NoteFrame(s.pipe, s.presenter.frame), presenter := Noted(s.presenter.frame))
    case ChecksEpoch =>
      var f := s.presenter.frame;
      s.(presenter := if f.epoch == s.pipe.epoch then Emitting(f) else Freeing(f))
    case Emits =>
      var f := s.presenter.frame;
      s.(presenter := if f.position < 0 || Stale(s) then Freeing(f) else Judging(f))
    case Judges(shownFor, catchUp) =>
      var f := s.presenter.frame;
      var judged := JudgeVideo(s.control, f.position, shownFor, Stale(s), catchUp);
      s.(control := judged.control, presenter := if judged.discard then Late(f) else Preparing(f, false))
    case TakesCoarse(due) =>
      var f := s.presenter.frame;
      var judged := TakeCoarse(s.control, f.position, Stale(s), due);
      s.(control := judged.control, presenter := if judged.discard then Freeing(f) else Preparing(f, true))
    case Prepares(ok) =>
      var f := s.presenter.frame;
      s.(presenter := if !ok then Freeing(f) else if s.presenter.coarse then Showing(f, true) else Waiting(f))
    case Presents(due) =>
      var f := s.presenter.frame;
      var waited := PresentTurn(s, due);
      s.(control := waited.control,
         presenter := match waited.turn
           case Abandoned => Freeing(f)
           case Presented => Showing(f, false)
           case Again => Waiting(f))
    case Shows => s.(presenter := Freeing(s.presenter.frame))
    case Frees => s.(ledger := Free(s.ledger, multiset{s.presenter.frame.id}), presenter := Finishing)
    case Finishes => s.(pipe := FinishFrame(s.pipe), presenter := Idle)
    case Exits => s.(pipe := FinishFrame(s.pipe), presenter := Exited)
  }

  predicate Enabled(s: System, e: Event) {
    match e
    case Sends(sender) => CanSend(s, sender)
    case Reads(read) => CanRead(s, read)
    case Feeds(feed) => CanFeed(s, feed)
    case Closes(end) => CanClose(s, end)
    case Displays(show) => CanShow(s, show)
  }

  function Next(s: System, e: Event): System
    requires Enabled(s, e)
  {
    match e
    case Sends(sender) => Send(s, sender)
    case Reads(read) => Read(s, read)
    case Feeds(feed) => Feed(s, feed)
    case Closes(end) => Close(s, end)
    case Displays(show) => Show(s, show)
  }

  // --------------------------------------------------------------- invariant

  /** The clone the worker holds, if it carries a position. */
  function TimedClone(w: Worker): Option<int> {
    if (w.Entering? || w.Leaving? || w.Pushing?) && w.clone.position >= 0 then Some(w.clone.position) else None
  }

  predicate HasFrame(p: Presenter) {
    p.Took? || p.Noted? || p.Emitting? || p.Judging? || p.Late? || p.Preparing? || p.Waiting? || p.Showing? || p.Freeing?
  }

  /** A frame that can still be shown in `epoch`. */
  predicate Current(epoch: nat, f: Frame) {
    f.epoch == epoch && f.position >= 0
  }

  /** The position of the presenter's frame, if that is current. */
  function TimedFrame(p: Presenter, epoch: nat): Option<int> {
    if HasFrame(p) && Current(epoch, p.frame) then Some(p.frame.position) else None
  }

  /** The presenter is past shouldDiscard with an exact frame. */
  predicate Passed(p: Presenter) {
    (p.Preparing? && !p.coarse) || p.Waiting? || (p.Showing? && !p.coarse)
  }

  predicate Epochs(queue: seq<Frame>, epoch: nat) {
    forall f :: f in queue ==> f.epoch <= epoch
  }

  predicate FrameNoted(p: Presenter, epoch: nat, presenting: nat) {
    && (HasFrame(p) ==> p.frame.epoch <= epoch)
    && (HasFrame(p) && !p.Took? ==> presenting == p.frame.epoch)
    && (p.Judging? ==> p.frame.position >= 0)
  }

  predicate Room(s: System) {
    && |s.pipe.queue| <= QUEUE_FRAMES
    && (s.worker.Leaving? ==> |s.pipe.queue| < QUEUE_FRAMES || StopOrSeek(s))
    && (s.worker.Pushing? ==> |s.pipe.queue| < QUEUE_FRAMES)
  }

  predicate Sorted(queue: seq<Frame>, epoch: nat) {
    forall i, j :: 0 <= i < j < |queue| && Current(epoch, queue[i]) && Current(epoch, queue[j]) ==>
      queue[i].position <= queue[j].position
  }

  predicate NoneAfter(queue: seq<Frame>, epoch: nat, position: int) {
    forall f :: f in queue && Current(epoch, f) ==> f.position <= position
  }

  predicate NoneBefore(queue: seq<Frame>, epoch: nat, position: int) {
    forall f :: f in queue && Current(epoch, f) ==> position <= f.position
  }

  predicate UpTo(a: Option<int>, b: Option<int>) {
    a.Some? && b.Some? ==> a.value <= b.value
  }

  /** Current frames stand in the order the decoder gave them out: presenter,
      queue, worker. */
  predicate Ordered(queue: seq<Frame>, epoch: nat, clone: Option<int>, frame: Option<int>, reached: int) {
    && 0 <= reached
    && Sorted(queue, epoch) && NoneAfter(queue, epoch, reached)
    && (clone.Some? ==> clone.value <= reached && NoneAfter(queue, epoch, clone.value))
    && (frame.Some? ==> frame.value <= reached && NoneBefore(queue, epoch, frame.value))
    && UpTo(frame, clone)
  }

  /** Nothing that can still be shown, now or later in this epoch, lies before `position`. */
  predicate AllFrom(queue: seq<Frame>, epoch: nat, clone: Option<int>, frame: Option<int>, reached: int, position: int) {
    && position <= reached && NoneBefore(queue, epoch, position)
    && (clone.Some? ==> position <= clone.value)
    && (frame.Some? ==> position <= frame.value)
  }

  /** The video threshold is the latest seek's target until a frame reaches it;
      from then on nothing that can be shown lies before it. */
  predicate Threshold(s: System) {
    && 0 <= s.marks.base
    && (!s.control.request.pending ==>
          var before := s.control.request.discardVideo;
          && (before < 0 || before == s.marks.base)
          && (before < 0 ==>
                AllFrom(s.pipe.queue, s.pipe.epoch, TimedClone(s.worker), TimedFrame(s.presenter, s.pipe.epoch),
                        s.marks.reached, s.marks.base - FRAME_TOLERANCE))
          && (Passed(s.presenter) && s.presenter.frame.epoch == s.pipe.epoch ==>
                before < 0 && s.presenter.frame.position >= 0))
  }

  predicate Inv(s: System) {
    && Sound(s.control)
    && Epochs(s.pipe.queue, s.pipe.epoch) && FrameNoted(s.presenter, s.pipe.epoch, s.pipe.presenting)
    && Room(s)
    && Ordered(s.pipe.queue, s.pipe.epoch, TimedClone(s.worker), TimedFrame(s.presenter, s.pipe.epoch), s.marks.reached)
    && Threshold(s)
  }

  lemma StartInv(start: nat, playing: bool, epoch: nat, presenting: nat)
    ensures Inv(Start(start, playing, epoch, presenting))
  {
  }

  lemma SendKeeps(s: System, e: SenderEvent)
    requires Inv(s) && CanSend(s, e)
    ensures Inv(Send(s, e))
  {
  }

  lemma OpensKeeps(s: System, hasVideo: bool, duration: nat)
    requires Inv(s) && s.worker.Opening?
    ensures Inv(Read(s, Opens(hasVideo, duration)))
  {
  }

  /** Carrying out a seek ends the epoch: nothing decoded before it is current. */
  lemma TakesSeekKeeps(s: System)
    requires Inv(s) && CanRead(s, TakesSeek)
    ensures Inv(Read(s, TakesSeek))
  {
  }

  lemma ClearsKeeps(s: System)
    requires Inv(s) && s.worker.Clearing?
    ensures Inv(Read(s, Clears))
  {
  }

  lemma ReadKeeps(s: System, e: ReadEvent)
    requires Inv(s) && CanRead(s, e)
    ensures Inv(Read(s, e))
  {
    match e
    case Opens(hasVideo, duration) => OpensKeeps(s, hasVideo, duration);
    case TakesSeek => TakesSeekKeeps(s);
    case Clears => ClearsKeeps(s);
    case _ =>
  }

  lemma DecodesKeeps(s: System, position: int)
    requires Inv(s) && CanFeed(s, DecodesVideo(position))
    ensures Inv(Feed(s, DecodesVideo(position)))
  {
  }

  lemma PushesKeeps(s: System)
    requires Inv(s) && s.worker.Pushing?
    ensures Inv(Feed(s, Pushes))
  {
  }

  lemma SoundKeeps(s: System, e: FeedEvent)
    requires Inv(s) && CanFeed(s, e) && (e.DecodesSound? || e.Sounds?)
    ensures Inv(Feed(s, e))
  {
  }

  /** Waiting for room, and giving the clone up. */
  lemma WaitsKeep(s: System, e: FeedEvent)
    requires Inv(s) && CanFeed(s, e) && (e.Drains? || e.FindsRoom? || e.GivesUp? || e.Confirms?)
    ensures Inv(Feed(s, e))
  {
  }

  lemma FeedKeeps(s: System, e: FeedEvent)
    requires Inv(s) && CanFeed(s, e)
    ensures Inv(Feed(s, e))
  {
    match e
    case DecodesVideo(position) => DecodesKeeps(s, position);
    case Pushes => PushesKeeps(s);
    case _ => if e.DecodesSound? || e.Sounds? { SoundKeeps(s, e); } else { WaitsKeep(s, e); }
  }

  /** Reading on or holding; both leave the pipe as it is. */
  lemma EndKeeps(s: System, e: EndEvent)
    requires Inv(s) && CanClose(s, e) && (e.EndsRead? || e.Holds?)
    ensures Inv(Close(s, e))
  {
  }

  lemma CloseKeeps(s: System, e: EndEvent)
    requires Inv(s) && CanClose(s, e)
    ensures Inv(Close(s, e))
  {
    if e.EndsRead? || e.Holds? { EndKeeps(s, e); }
  }

  lemma TakesKeeps(s: System)
    requires Inv(s) && CanShow(s, Takes)
    ensures Inv(Show(s, Takes))
  {
  }

  lemma JudgesKeeps(s: System, shownFor: int, catchUp: Option<int>)
    requires Inv(s) && s.presenter.Judging?
    ensures Inv(Show(s, Judges(shownFor, catchUp)))
  {
  }

  lemma PresentsKeeps(s: System, due: bool)
    requires Inv(s) && s.presenter.Waiting?
    ensures Inv(Show(s, Presents(due)))
  {
  }

  /** On the way to being judged and prepared. */
  lemma FrameMovesOn(s: System, e: ShowEvent)
    requires Inv(s) && CanShow(s, e) && (e.Notes? || e.ChecksEpoch? || e.Emits? || e.TakesCoarse? || e.Prepares?)
    ensures Inv(Show(s, e))
  {
  }

  /** From the screen to its release and the next wait. */
  lemma FrameGoes(s: System, e: ShowEvent)
    requires Inv(s) && CanShow(s, e) && (e.Shows? || e.Frees? || e.Finishes? || e.Exits?)
    ensures Inv(Show(s, e))
  {
  }

  lemma ShowKeeps(s: System, e: ShowEvent)
    requires Inv(s) && CanShow(s, e)
    ensures Inv(Show(s, e))
  {
    match e
    case Takes => TakesKeeps(s);
    case Judges(shownFor, catchUp) => JudgesKeeps(s, shownFor, catchUp);
    case Presents(due) => PresentsKeeps(s, due);
    case _ => if e.Shows? || e.Frees? || e.Finishes? || e.Exits? { FrameGoes(s, e); } else { FrameMovesOn(s, e); }
  }

  // --------------------------------------------------------------- ownership

  predicate HasClone(w: Worker) {
    w.Entering? || w.Leaving? || w.Pushing?
  }

  /** How often clone `id` is held by the worker, by the presenter. */
  function WithWorker(w: Worker, id: nat): nat {
    if HasClone(w) && w.clone.id == id then 1 else 0
  }

  function WithPresenter(p: Presenter, id: nat): nat {
    if HasFrame(p) && p.frame.id == id then 1 else 0
  }

  /** Clone `id`, once made, is in exactly one place: handed over, queued, with
      the presenter, or released. */
  predicate Accounted(queued: nat, clone: nat, frame: nat, freed: nat, made: bool) {
    queued + clone + frame + freed == if made then 1 else 0
  }

  /** Nothing is queued and no presenter runs before the item opens and after the worker is done. */
  predicate Quiet(queue: seq<Frame>, w: Worker, p: Presenter) {
    w.Opening? || w.Done? ==> queue == [] && p.Exited?
  }

  predicate Owned(s: System, id: nat) {
    && Accounted(FreeAll(s.pipe.queue)[id], WithWorker(s.worker, id), WithPresenter(s.presenter, id),
                 s.ledger.freed[id], id < s.ledger.cloned)
    && Quiet(s.pipe.queue, s.worker, s.presenter)
  }

  lemma {:induction false} FreeAllAppend(queue: seq<Frame>, f: Frame, longer: seq<Frame>, id: nat)
    requires longer == queue + [f]
    ensures FreeAll(longer)[id] == FreeAll(queue)[id] + if f.id == id then 1 else 0
    decreases |queue|
  {
    if queue != [] {
      FreeAllAppend(queue[1..], f, longer[1..], id);
    }
  }

  lemma DecodesOwned(s: System, position: int, id: nat)
    requires Owned(s, id) && CanFeed(s, DecodesVideo(position))
    ensures Owned(Feed(s, DecodesVideo(position)), id)
  {
  }

  lemma PushesOwned(s: System, id: nat)
    requires Owned(s, id) && s.worker.Pushing?
    ensures Owned(Feed(s, Pushes), id)
  {
    var f := Frame(s.worker.clone.id, s.worker.clone.position, s.pipe.epoch);
    FreeAllAppend(s.pipe.queue, f, s.pipe.queue + [f], id);
  }

  lemma GivesUpOwned(s: System, id: nat)
    requires Owned(s, id) && CanFeed(s, GivesUp)
    ensures Owned(Feed(s, GivesUp), id)
  {
  }

  lemma TakesOwned(s: System, id: nat)
    requires Owned(s, id) && CanShow(s, Takes)
    ensures Owned(Show(s, Takes), id)
  {
  }

  lemma FreesOwned(s: System, id: nat)
    requires Owned(s, id) && s.presenter.Freeing?
    ensures Owned(Show(s, Frees), id)
  {
  }

  /** The whole queue is released after a seek and once the presenter is gone. */
  lemma ClearsOwned(s: System, id: nat)
    requires Owned(s, id) && s.worker.Clearing?
    ensures Owned(Read(s, Clears), id)
  {
  }

  lemma JoinsOwned(s: System, id: nat)
    requires Owned(s, id) && CanClose(s, Joins)
    ensures Owned(Close(s, Joins), id)
  {
  }

  /** A step that neither makes, moves nor releases a clone. */
  predicate KeepsClones(e: Event) {
    match e
    case Sends(_) => true
    case Reads(read) => !read.Clears?
    case Feeds(feed) => !feed.DecodesVideo? && !feed.Pushes? && !feed.GivesUp?
    case Closes(end) => !end.Joins?
    case Displays(show) => !show.Takes? && !show.Frees?
  }

  lemma QuietStep(s: System, e: Event)
    requires KeepsClones(e) && Enabled(s, e) && Quiet(s.pipe.queue, s.worker, s.presenter)
    ensures Quiet(Next(s, e).pipe.queue, Next(s, e).worker, Next(s, e).presenter)
  {
  }

  lemma CloneStays(s: System, e: Event, id: nat)
    requires KeepsClones(e) && Enabled(s, e)
    ensures WithWorker(Next(s, e).worker, id) == WithWorker(s.worker, id)
  {
  }

  lemma FrameStays(s: System, e: Event, id: nat)
    requires KeepsClones(e) && Enabled(s, e) && Quiet(s.pipe.queue, s.worker, s.presenter)
    ensures WithPresenter(Next(s, e).presenter, id) == WithPresenter(s.presenter, id)
  {
  }

  lemma QueueStays(s: System, e: Event)
    requires KeepsClones(e) && Enabled(s, e)
    ensures Next(s, e).pipe.queue == s.pipe.queue && Next(s, e).ledger == s.ledger
  {
  }

  lemma OthersOwned(s: System, e: Event, id: nat)
    requires KeepsClones(e) && Owned(s, id) && Enabled(s, e)
    ensures Owned(Next(s, e), id)
  {
    QuietStep(s, e);
    CloneStays(s, e, id);
    FrameStays(s, e, id);
    QueueStays(s, e);
  }

  lemma StepOwned(s: System, e: Event, id: nat)
    requires Owned(s, id) && Enabled(s, e)
    ensures Owned(Next(s, e), id)
  {
    match e
    case Reads(Clears) => ClearsOwned(s, id);
    case Feeds(DecodesVideo(position)) => DecodesOwned(s, position, id);
    case Feeds(Pushes) => PushesOwned(s, id);
    case Feeds(GivesUp) => GivesUpOwned(s, id);
    case Closes(Joins) => JoinsOwned(s, id);
    case Displays(Takes) => TakesOwned(s, id);
    case Displays(Frees) => FreesOwned(s, id);
    case _ => OthersOwned(s, e, id);
  }

  // -------------------------------------------------------------------- runs

  lemma StepKeeps(s: System, e: Event)
    requires Inv(s) && Enabled(s, e)
    ensures Inv(Next(s, e))
  {
    match e
    case Sends(sender) => SendKeeps(s, sender);
    case Reads(read) => ReadKeeps(s, read);
    case Feeds(feed) => FeedKeeps(s, feed);
    case Closes(end) => CloseKeeps(s, end);
    case Displays(show) => ShowKeeps(s, show);
  }

  predicate Legal(s: System, events: seq<Event>)
    decreases |events|
  {
    events != [] ==> Enabled(s, events[0]) && Legal(Next(s, events[0]), events[1..])
  }

  function After(s: System, events: seq<Event>): System
    requires Legal(s, events)
    decreases |events|
  {
    if events == [] then s else After(Next(s, events[0]), events[1..])
  }

  /** The target of the last seek that the worker took, `base` before the first. */
  function LatestTarget(s: System, events: seq<Event>, base: int): int
    requires Legal(s, events)
    decreases |events|
  {
    if events == [] then base
    else LatestTarget(Next(s, events[0]), events[1..],
                      if events[0] == Reads(TakesSeek) then s.control.request.target else base)
  }

  /** How many seeks the worker took. */
  function SeeksTaken(events: seq<Event>): nat {
    if events == [] then 0 else (if events[0] == Reads(TakesSeek) then 1 else 0) + SeeksTaken(events[1..])
  }

  /** Taking a seek starts an epoch for its target; nothing else does. */
  lemma StepMarks(s: System, e: Event)
    requires Enabled(s, e)
    ensures var t := Next(s, e);
            if e == Reads(TakesSeek)
            then t.pipe.epoch == s.pipe.epoch + 1 && t.marks.base == s.control.request.target
            else t.pipe.epoch == s.pipe.epoch && t.marks.base == s.marks.base
  {
  }

  lemma {:induction false} RunKeeps(s: System, events: seq<Event>)
    requires Inv(s) && Legal(s, events)
    ensures var t := After(s, events);
            && Inv(t)
            && t.marks.base == LatestTarget(s, events, s.marks.base)
            && t.pipe.epoch == s.pipe.epoch + SeeksTaken(events)
    decreases |events|
  {
    if events != [] {
      StepKeeps(s, events[0]);
      StepMarks(s, events[0]);
      RunKeeps(Next(s, events[0]), events[1..]);
    }
  }

  /** The state after any run of the three threads on a new item. */
  ghost predicate Reached(s: System, start: nat, playing: bool, epoch: nat, presenting: nat, events: seq<Event>) {
    var first := Start(start, playing, epoch, presenting);
    Legal(first, events) && s == After(first, events)
  }

  lemma ReachedInv(s: System, start: nat, playing: bool, epoch: nat, presenting: nat, events: seq<Event>)
    requires Reached(s, start, playing, epoch, presenting, events)
    ensures Inv(s)
    ensures s.marks.base == LatestTarget(Start(start, playing, epoch, presenting), events, start)
    ensures s.pipe.epoch == epoch + SeeksTaken(events)
  {
    RunKeeps(Start(start, playing, epoch, presenting), events);
  }

  /** Whatever the interleaving, a picture that waitForPresentation lets through
      belongs to the latest seek carried out, no seek is pending then, and it lies
      at most 20 ms before that seek's target (or the start). */
  lemma PresentedFollowsLatestSeek(s: System, start: nat, playing: bool, epoch: nat, presenting: nat,
                                   events: seq<Event>, due: bool)
    requires Reached(s, start, playing, epoch, presenting, events)
    requires s.presenter.Waiting? && PresentTurn(s, due).turn.Presented?
    ensures var f := s.presenter.frame;
            && !s.control.request.pending && !s.stop
            && f.epoch == s.pipe.epoch == epoch + SeeksTaken(events)
            && f.position >= LatestTarget(Start(start, playing, epoch, presenting), events, start) - 20_000
  {
    ReachedInv(s, start, playing, epoch, presenting, events);
  }

  /** The presenter shows an exact picture only through waitForPresentation. */
  lemma OnlyPresentedIsShown(s: System, e: Event)
    requires Enabled(s, e) && !s.presenter.Showing?
    requires Next(s, e).presenter.Showing? && !Next(s, e).presenter.coarse
    ensures e.Displays? && e.show.Presents? && s.presenter.Waiting?
    ensures PresentTurn(s, e.show.due).turn.Presented?
    ensures Next(s, e).presenter.frame == s.presenter.frame
  {
  }

  /** In every reachable state a pending seek owns both thresholds, and the
      frame queue keeps to its bound. */
  lemma PendingOwnsThresholds(s: System, start: nat, playing: bool, epoch: nat, presenting: nat, events: seq<Event>)
    requires Reached(s, start, playing, epoch, presenting, events)
    ensures s.control.request.pending ==>
      s.control.request.discardVideo == s.control.request.discardAudio == s.control.request.target
    ensures |s.pipe.queue| <= 3
  {
    ReachedInv(s, start, playing, epoch, presenting, events);
  }

  /** No frame of an earlier epoch, and none at all while a seek is pending,
      changes a threshold. */
  lemma StaleFramesLeaveThresholds(s: System, e: Event)
    requires Inv(s) && Enabled(s, e) && e.Displays?
    requires s.control.request.pending || (HasFrame(s.presenter) && s.presenter.frame.epoch != s.pipe.epoch)
    ensures Next(s, e).control.request == s.control.request
  {
  }

  /** While an item plays only the worker clears a pending seek, by taking it. */
  lemma OnlyTakingClearsPending(s: System, e: Event)
    requires Enabled(s, e) && s.control.request.pending && !Next(s, e).control.request.pending
    ensures e == Reads(TakesSeek) && Next(s, e).pipe.epoch == s.pipe.epoch + 1
  {
  }

  lemma {:induction false} RunOwned(s: System, events: seq<Event>, id: nat)
    requires Owned(s, id) && Legal(s, events)
    ensures Owned(After(s, events), id)
    decreases |events|
  {
    if events != [] {
      StepOwned(s, events[0], id);
      RunOwned(Next(s, events[0]), events[1..], id);
    }
  }

  /** No clone is released twice, and once the worker is done each has been
      released exactly once. */
  lemma ClonesReleasedOnce(s: System, start: nat, playing: bool, epoch: nat, presenting: nat, events: seq<Event>, id: nat)
    requires Reached(s, start, playing, epoch, presenting, events)
    ensures s.ledger.freed[id] <= if id < s.ledger.cloned then 1 else 0
    ensures s.worker.Done? ==> s.ledger.freed[id] == if id < s.ledger.cloned then 1 else 0
  {
    RunOwned(Start(start, playing, epoch, presenting), events, id);
  }
}
