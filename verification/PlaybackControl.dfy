/** The critical sections under the player's state mutex (src/media-player.cpp),
    as functions of the state they protect and as the methods that carry them
    out. Positions are whole microseconds; only the sign of the rate matters. */
module PlaybackControl {
  import opened Common
  import ReadRecovery

  const FRAME_TOLERANCE := 20_000
  const PLAYING_SEEK_TOLERANCE := 350_000
  const SAME_POSITION_TOLERANCE := 500
  const WORTHWHILE_GAP := 150_000
  const MAX_POSITION := 10_000_000_000_000

  /** The seek asked for and not carried out yet, and the positions before which
      video and audio are decoded but not presented (negative: none). */
  datatype Request = Request(pending: bool, target: int, discardVideo: int, discardAudio: int)

  /** The sender's scrubber: its last target (negative: none), how often it asked. */
  datatype Scrub = Scrub(lastTarget: int, generation: nat, burst: bool, coarseShown: bool)

  /** What is reported to the sender; `duration` is 0 when unknown. */
  datatype Info = Info(playing: bool, position: int, ended: bool, ready: bool, hasVideo: bool, duration: int)

  /** Each stream still skips to the sender's position. */
  datatype Catching = Catching(video: bool, audio: bool)

  datatype Control = Control(
    request: Request,
    scrub: Scrub,
    info: Info,
    catching: Catching,
    previewPending: bool,   // while paused, the next picture is shown once
    resync: bool,           // resuming re-seeks both streams
    clockRunning: bool)

  /** A new item at `start`. */
  function Fresh(start: int, playing: bool): Control {
    var before := if start > 0 then start else -1;
    Control(Request(false, start, before, before), Scrub(-1, 0, false, false),
            Info(playing, start, false, false, false, 0), Catching(true, true), true, false, false)
  }

  function SeekRequest(target: int): Request {
    Request(true, target, target, target)
  }

  predicate AlreadyThere(c: Control, position: int) {
    || (c.info.playing && c.info.ready && !c.info.ended && !c.request.pending && c.clockRunning
        && Distance(position, c.info.position) < PLAYING_SEEK_TOLERANCE)
    || (!c.info.playing && !c.info.ended && !c.request.pending && !c.previewPending && c.scrub.lastTarget >= 0
        && Distance(position, c.scrub.lastTarget) < SAME_POSITION_TOLERANCE)
  }

  /** Asks for a seek; `quick` when it follows the last one within 200 ms. */
  function SeekLocked(c: Control, position: int, quick: bool): Control {
    if AlreadyThere(c, position) then c
    else
      var target := Max(0, position);
      Control(SeekRequest(target),
              Scrub(target, c.scrub.generation + 1, c.scrub.generation > 0 && quick, false),
              c.info.(position := target), Catching(true, true), true, false, false)
  }

  /** A sender's scrub, limited to the item where its length is known. */
  function ScrubTarget(c: Control, position: int): int {
    var clamped := Min(Max(0, position), MAX_POSITION);
    if c.info.duration > 0 then Min(clamped, c.info.duration) else clamped
  }

  function SetRate(c: Control, play: bool): Control {
    if c.info.ended && play then c
    else if !play then c.(info := c.info.(playing := false))
    else
      Control(if c.resync && !c.request.pending then SeekRequest(c.info.position) else c.request,
              c.scrub, c.info.(playing := true),
              if c.info.playing then c.catching else Catching(true, true), false, false, c.clockRunning)
  }

  function PauseForRemoval(c: Control): Control {
    c.(info := c.info.(playing := false), clockRunning := false)
  }

  /** The worker takes a pending seek; it advances the epoch with it. */
  function TakeSeek(c: Control): Control {
    c.(request := c.request.(pending := false), clockRunning := false)
  }

  datatype Judged = Judged(control: Control, discard: bool)

  /** shouldDiscard for a video frame. `stale`: its epoch is over. `catchUp`:
      where the sender is, while its clock is followed. */
  function JudgeVideo(c: Control, position: int, shownFor: int, stale: bool, catchUp: Option<int>): Judged {
    if c.request.pending || stale then Judged(c, true)
    else if c.catching.video && catchUp.Some? && position + Max(0, shownFor) + FRAME_TOLERANCE < catchUp.value
    then Judged(c, true)
    else
      var caught := c.(catching := c.catching.(video := false));
      var before := c.request.discardVideo;
      if before >= 0 && position + FRAME_TOLERANCE < before then Judged(caught, true)
      else Judged(caught.(request := c.request.(discardVideo := if before < 0 then before else -1)), false)
  }

  /** shouldDiscard for sound. */
  function JudgeAudio(c: Control, position: int, catchUp: Option<int>): Judged {
    if c.request.pending then Judged(c, true)
    else if c.catching.audio && catchUp.Some? && position + FRAME_TOLERANCE < catchUp.value then Judged(c, true)
    else
      var caught := c.(catching := c.catching.(audio := false));
      var before := c.request.discardAudio;
      if before >= 0 && position + FRAME_TOLERANCE < before then Judged(caught, true)
      else Judged(caught.(request := c.request.(discardAudio := if before < 0 then before else -1)), false)
  }

  /** takeCoarsePreview; `due` once the exact frame has had its time. */
  function TakeCoarse(c: Control, position: int, stale: bool, due: bool): (r: Judged) {
    if c.request.pending || stale || c.info.playing || !c.previewPending || !c.scrub.burst || c.scrub.coarseShown
       || c.request.discardVideo < 0 || c.request.discardVideo - position < WORTHWHILE_GAP || !due
    then Judged(c, true)
    else Judged(c.(scrub := c.scrub.(coarseShown := true)), false)
  }

  datatype Turn = Abandoned | Presented | Again
  datatype Waited = Waited(control: Control, turn: Turn)

  /** One turn of waitForPresentation's loop; `due` when the frame's time has
      come, `audible` how far the sound has come (audio-only items). */
  function Wait(c: Control, position: int, video: bool, stale: bool, stop: bool, due: bool, audible: int): Waited {
    if stop || c.request.pending || (video && stale) then Waited(c, Abandoned)
    else if !c.info.playing then
      if !(c.previewPending && c.info.hasVideo) then Waited(c, Again)
      else if !video then Waited(c, Abandoned)
      else Waited(c.(previewPending := false, resync := true, info := c.info.(position := position),
                     clockRunning := false), Presented)
    else
      var r := c.(clockRunning := true);
      if !due then Waited(r, Again)
      else if video then Waited(r.(info := c.info.(position := Max(c.info.position, position))), Presented)
      else if !c.info.hasVideo
      then Waited(r.(info := c.info.(position := Max(c.info.position, Min(audible, position)))), Presented)
      else Waited(r, Presented)
  }

  /** A restart of both streams at the reported position: a response that ended
      early, or a decoder that was reopened. */
  function RestartHere(c: Control): Control {
    c.(request := SeekRequest(c.info.position), clockRunning := false)
  }

  /** readOnAfterEnd; `recover` when the read ended early and attempts are left.
      Reading goes on exactly when a seek is then pending. */
  function ReadOn(c: Control, recover: bool): Control {
    if !c.request.pending && recover && c.info.position < c.info.duration - ReadRecovery.END_TOLERANCE
    then RestartHere(c) else c
  }

  function ReopenSeek(c: Control): Control {
    if c.request.pending then c else RestartHere(c)
  }

  datatype Held = HeldEnd | HeldSeek | HeldAgain
  datatype HoldTurn = HoldTurn(control: Control, held: Held)

  /** One turn of holdUntilEnd's loop. */
  function Hold(c: Control, stop: bool, due: bool): HoldTurn {
    var end := if c.info.duration > 0 then c.info.duration else -1;
    if stop then HoldTurn(c, HeldEnd)
    else if c.request.pending then HoldTurn(c, HeldSeek)
    else if end <= c.info.position || !c.clockRunning then HoldTurn(c, HeldEnd)
    else if !c.info.playing || !due then HoldTurn(c, HeldAgain)
    else HoldTurn(c.(info := c.info.(position := end)), HeldEnd)
  }

  function MarkEnded(c: Control): Control {
    c.(info := c.info.(ended := true, playing := false))
  }

  function MarkFailed(c: Control): Control {
    c.(info := c.info.(ended := true, playing := false, ready := false))
  }

  function OpenItem(c: Control, hasVideo: bool, duration: nat): Control {
    c.(info := c.info.(position := if duration > 0 then Min(c.info.position, duration) else c.info.position,
                       duration := duration, hasVideo := hasVideo, ready := true))
  }

  /** What every critical section keeps: a pending seek owns both discard
      thresholds, so no frame of before can clear them. */
  predicate Sound(c: Control) {
    && 0 <= c.info.position && 0 <= c.info.duration
    && (c.request.pending ==> c.request.target >= 0 && c.request == SeekRequest(c.request.target))
  }

  /** The critical sections as the source runs them, each under the mutex. */
  class Player {
    var request: Request
    var scrub: Scrub
    var info: Info
    var catching: Catching
    var previewPending: bool
    var resync: bool
    var clockRunning: bool

    function View(): Control reads this {
      Control(request, scrub, info, catching, previewPending, resync, clockRunning)
    }

    constructor (start: int, playing: bool)
      ensures View() == Fresh(start, playing)
      ensures 0 <= start ==> Sound(View())
    {
      var before := if start > 0 then start else -1;
      request := Request(false, start, before, before);
      scrub := Scrub(-1, 0, false, false);
      info := Info(playing, start, false, false, false, 0);
      catching := Catching(true, true);
      previewPending, resync, clockRunning := true, false, false;
    }

    method SeekLockedTo(position: int, quick: bool)
      modifies this
      ensures View() == SeekLocked(old(View()), position, quick)
      ensures Sound(old(View())) ==> Sound(View())
    {
      if info.playing && info.ready && !info.ended && !request.pending && clockRunning
         && Distance(position, info.position) < PLAYING_SEEK_TOLERANCE {
        return;
      }
      if !info.playing && !info.ended && !request.pending && !previewPending && scrub.lastTarget >= 0
         && Distance(position, scrub.lastTarget) < SAME_POSITION_TOLERANCE {
        return;
      }
      var target := Max(0, position);
      scrub := Scrub(target, scrub.generation + 1, scrub.generation > 0 && quick, false);
      request := request.(target := target, pending := true);
      info := info.(position := target);
      catching := Catching(true, true);
      request := request.(discardVideo := target, discardAudio := target);
      resync := false;
      previewPending := true;
      clockRunning := false;
    }

    method ChangeRate(play: bool)
      modifies this
      ensures View() == SetRate(old(View()), play)
      ensures Sound(old(View())) ==> Sound(View())
    {
      if info.ended && play { return; }
      var previous := info.playing;
      info := info.(playing := play);
      if info.playing && !previous {
        catching := Catching(true, true);
      }
      if info.playing {
        previewPending := false;
        if resync && !request.pending {
          request := request.(target := info.position, pending := true);
          request := request.(discardVideo := request.target, discardAudio := request.target);
        }
        resync := false;
      }
    }

    method ShouldDiscardVideo(position: int, shownFor: int, stale: bool, catchUp: Option<int>) returns (discard: bool)
      modifies this
      ensures Judged(View(), discard) == JudgeVideo(old(View()), position, shownFor, stale, catchUp)
      ensures Sound(old(View())) ==> Sound(View())
    {
      if request.pending || stale { return true; }
      if catching.video {
        if catchUp.Some? && position + Max(0, shownFor) + FRAME_TOLERANCE < catchUp.value { return true; }
        catching := catching.(video := false);
      }
      if request.discardVideo < 0 { return false; }
      if position + FRAME_TOLERANCE < request.discardVideo { return true; }
      request := request.(discardVideo := -1);
      return false;
    }

    method ShouldDiscardAudio(position: int, catchUp: Option<int>) returns (discard: bool)
      modifies this
      ensures Judged(View(), discard) == JudgeAudio(old(View()), position, catchUp)
      ensures Sound(old(View())) ==> Sound(View())
    {
      if request.pending { return true; }
      if catching.audio {
        if catchUp.Some? && position + FRAME_TOLERANCE < catchUp.value { return true; }
        catching := catching.(audio := false);
      }
      if request.discardAudio < 0 { return false; }
      if position + FRAME_TOLERANCE < request.discardAudio { return true; }
      request := request.(discardAudio := -1);
      return false;
    }

    method TakeCoarsePreview(position: int, stale: bool, due: bool) returns (taken: bool)
      modifies this
      ensures Judged(View(), !taken) == TakeCoarse(old(View()), position, stale, due)
      ensures Sound(old(View())) ==> Sound(View())
    {
      if request.pending || stale || info.playing || !previewPending || !scrub.burst || scrub.coarseShown
         || request.discardVideo < 0 || request.discardVideo - position < WORTHWHILE_GAP || !due {
        return false;
      }
      scrub := scrub.(coarseShown := true);
      return true;
    }

    method HoldUntilEndTurn(stop: bool, due: bool) returns (held: Held)
      modifies this
      ensures HoldTurn(View(), held) == Hold(old(View()), stop, due)
      ensures Sound(old(View())) ==> Sound(View())
    {
      var end := if info.duration > 0 then info.duration else -1;
      if stop { return HeldEnd; }
      if request.pending { return HeldSeek; }
      if end <= info.position || !clockRunning { return HeldEnd; }
      if !info.playing || !due { return HeldAgain; }
      info := info.(position := end);
      return HeldEnd;
    }

    method PauseForPlaylistRemoval()
      modifies this
      ensures View() == PauseForRemoval(old(View()))
      ensures Sound(old(View())) ==> Sound(View())
    {
      info := info.(playing := false);
      clockRunning := false;
    }

    method SeekAfterReopen()
      modifies this
      ensures View() == ReopenSeek(old(View()))
      ensures Sound(old(View())) ==> Sound(View())
    {
      if !request.pending {
        request := request.(target := info.position, pending := true);
        request := request.(discardVideo := request.target, discardAudio := request.target);
        clockRunning := false;
      }
    }

    method MarkItemEnded()
      modifies this
      ensures View() == MarkEnded(old(View()))
      ensures Sound(old(View())) ==> Sound(View())
    {
      info := info.(ended := true, playing := false);
    }

    method WaitTurn(position: int, video: bool, stale: bool, stop: bool, due: bool, audible: int) returns (turn: Turn)
      modifies this
      ensures Waited(View(), turn) == Wait(old(View()), position, video, stale, stop, due, audible)
      ensures Sound(old(View())) && 0 <= position ==> Sound(View())
    {
      if stop || request.pending || (video && stale) { return Abandoned; }
      if !info.playing {
        if previewPending && info.hasVideo {
          if !video { return Abandoned; }
          previewPending := false;
          resync := true;
          info := info.(position := position);
          clockRunning := false;
          return Presented;
        }
        return Again;
      }
      if !clockRunning { clockRunning := true; }
      if !due { return Again; }
      if video {
        info := info.(position := Max(info.position, position));
      } else if !info.hasVideo {
        info := info.(position := Max(info.position, Min(audible, position)));
      }
      return Presented;
    }

    method ReadOnAfterEnd(recover: bool) returns (goOn: bool)
      modifies this
      ensures View() == ReadOn(old(View()), recover) && goOn == request.pending
      ensures Sound(old(View())) ==> Sound(View())
    {
      if request.pending { return true; }
      if recover && info.position < info.duration - ReadRecovery.END_TOLERANCE {
        var resumeAt := info.position;
        request := request.(target := resumeAt, pending := true);
        request := request.(discardVideo := resumeAt, discardAudio := resumeAt);
        clockRunning := false;
        return true;
      }
      return false;
    }
  }
}
