/** What becomes of a seek the sender asks for, over whole runs of the seek
    protocol: exactly when the worker carries it out and to which position, three
    runs that lose it and one that replaces it. */
module SeekFate {
  import opened Common
  import opened PlaybackControl
  import opened SeekProtocol

  /** The worker is past its last look at the pending seek. */
  predicate Over(w: Worker) {
    w.Ending? || w.Quitting? || w.Joining? || w.Done?
  }

  /** The position asked for, kept within the item: it is not negative, at most
      10^13, and at most the duration where that is known. */
  function Within(c: Control, position: int): int {
    var most := if 0 < c.info.duration < 10_000_000_000_000 then c.info.duration else 10_000_000_000_000;
    if position < 0 then 0 else if position > most then most else position
  }

  /** The item plays less than 350 ms from there, or is paused on the picture of
      a scrub to less than 500 us from there. */
  predicate IsNear(c: Control, position: int) {
    && !c.request.pending && !c.info.ended
    && if c.info.playing
       then c.info.ready && c.clockRunning && -350_000 < position - c.info.position < 350_000
       else !c.previewPending && c.scrub.lastTarget >= 0 && -500 < position - c.scrub.lastTarget < 500
  }

  /** A scrub to somewhere else, or playback resumed from a paused picture. */
  predicate AsksForSeek(s: System, e: SenderEvent) {
    match e
    case Scrubs(position, _) => !IsNear(s.control, Within(s.control, position))
    case Rates(play) => play && s.control.resync && !s.control.info.ended && !s.control.request.pending
    case _ => false
  }

  /** Where such a seek is to lead. */
  function AskedTarget(s: System, e: SenderEvent): int {
    if e.Scrubs? then Within(s.control, e.position) else s.control.info.position
  }

  /** A scrub makes a seek to the position asked for pending, with both thresholds
      there, the position reported and the paused picture to come; or, where the
      output already is there, it changes nothing. */
  lemma ScrubSeeks(s: System, position: int, quick: bool)
    requires CanSend(s, Scrubs(position, quick))
    ensures var c, t, asked := s.control, Send(s, Scrubs(position, quick)).control, Within(s.control, position);
            if IsNear(c, asked) then t == c
            else
              && t.request == Request(true, asked, asked, asked) && t.info == c.info.(position := asked)
              && t.scrub == Scrub(asked, c.scrub.generation + 1, c.scrub.generation > 0 && quick, false)
              && t.catching == Catching(true, true) && t.previewPending && !t.resync && !t.clockRunning
  {
  }

  /** A scrub, or a change of rate, asks for a seek exactly then, and otherwise
      leaves the request as it is. */
  lemma AsksExactlyThen(s: System, e: SenderEvent)
    requires CanSend(s, e)
    ensures var t := Send(s, e).control;
            && (!AsksForSeek(s, e) ==> t.request == s.control.request)
            && (!s.control.request.pending ==> (t.request.pending <==> AsksForSeek(s, e)))
  {
  }

  predicate Scrubbed(s: System, e: Event) {
    e.Sends? && e.sender.Scrubs? && AsksForSeek(s, e.sender)
  }

  lemma AskingPends(s: System, e: SenderEvent)
    requires CanSend(s, e) && AsksForSeek(s, e)
    ensures var target := AskedTarget(s, e); Send(s, e).control.request == Request(true, target, target, target)
  {
  }

  /** A scrub that arrives between the end of the hold and the mark of the end
      stays pending for good: the item is over and the worker takes no more seeks. */
  lemma ScrubAtTheEndStaysPending(s: System, position: int, quick: bool)
    requires Inv(s) && s.worker.Ending? && !s.stop && !s.control.info.ended
    requires AsksForSeek(s, Scrubs(position, quick))
    ensures var t := Close(Send(s, Scrubs(position, quick)), Ends);
            t.control.request.pending && t.control.info.ended && t.worker.Quitting?
    ensures forall t: System, e: Event ::
      (t.worker.Quitting? || t.worker.Joining? || t.worker.Done?) && Enabled(t, e) ==>
        e != Reads(TakesSeek) && (Next(t, e).worker.Quitting? || Next(t, e).worker.Joining? || Next(t, e).worker.Done?)
  {
  }

  /** Nothing but a scrub changes a pending request: neither a resumed playback
      nor a reopened decoder nor an early end. */
  lemma RequestStays(s: System, e: Event)
    requires s.control.request.pending && Enabled(s, e) && e != Reads(TakesSeek) && !Scrubbed(s, e)
    ensures Next(s, e).control.request == s.control.request
  {
  }

  /** The target of the first seek that the worker carries out. */
  function FirstTaken(s: System, events: seq<Event>): Option<int>
    requires Legal(s, events)
    decreases |events|
  {
    if events == [] then None
    else if events[0] == Reads(TakesSeek) then Some(Next(s, events[0]).marks.base)
    else FirstTaken(Next(s, events[0]), events[1..])
  }

  /** The target of the last scrub before that, `target` without one. */
  function LastAsked(s: System, events: seq<Event>, target: int): int
    requires Legal(s, events)
    decreases |events|
  {
    if events == [] || events[0] == Reads(TakesSeek) then target
    else LastAsked(Next(s, events[0]), events[1..],
                   if Scrubbed(s, events[0]) then AskedTarget(s, events[0].sender) else target)
  }

  lemma {:induction false} TakesWhatWasAsked(s: System, events: seq<Event>)
    requires s.control.request.pending && Legal(s, events)
    ensures FirstTaken(s, events) ==
            if Reads(TakesSeek) in events then Some(LastAsked(s, events, s.control.request.target)) else None
    decreases |events|
  {
    if events != [] && events[0] != Reads(TakesSeek) {
      var e, rest := events[0], events[1..];
      if Scrubbed(s, e) { AskingPends(s, e.sender); } else { RequestStays(s, e); }
      TakesWhatWasAsked(Next(s, e), rest);
    }
  }

  /** The sender does not scrub before the worker takes a seek. */
  predicate Unreplaced(s: System, events: seq<Event>)
    requires Legal(s, events)
    decreases |events|
  {
    events != [] && events[0] != Reads(TakesSeek) ==>
      !Scrubbed(s, events[0]) && Unreplaced(Next(s, events[0]), events[1..])
  }

  lemma {:induction false} UnreplacedAsksNone(s: System, events: seq<Event>, target: int)
    requires Legal(s, events) && Unreplaced(s, events)
    ensures LastAsked(s, events, target) == target
    decreases |events|
  {
    if events != [] && events[0] != Reads(TakesSeek) {
      UnreplacedAsksNone(Next(s, events[0]), events[1..], target);
    }
  }

  lemma OverStays(s: System, e: Event)
    requires Over(s.worker) && Enabled(s, e)
    ensures Over(Next(s, e).worker) && e != Reads(TakesSeek) && e != Reads(FailsToOpen)
  {
  }

  lemma OpenedStays(s: System, e: Event)
    requires !s.worker.Opening? && Enabled(s, e)
    ensures !Next(s, e).worker.Opening? && e != Reads(FailsToOpen)
  {
  }

  /** While a seek is pending and nothing is stopped, the worker gets past its
      last look only by taking the seek or by failing to open. */
  lemma PendingIsSeen(s: System, e: Event)
    requires s.control.request.pending && !s.stop && Enabled(s, e) && e != Sends(Stops)
    requires !Over(s.worker) && e != Reads(TakesSeek) && e != Reads(FailsToOpen)
    ensures !Over(Next(s, e).worker)
  {
  }

  lemma PendingStays(s: System, e: Event)
    requires s.control.request.pending && !s.stop && Enabled(s, e) && e != Sends(Stops) && e != Reads(TakesSeek)
    ensures Next(s, e).control.request.pending && !Next(s, e).stop
  {
  }

  lemma {:induction false} OpenedNeverFails(s: System, events: seq<Event>)
    requires !s.worker.Opening? && Legal(s, events)
    ensures Reads(FailsToOpen) !in events
    decreases |events|
  {
    if events != [] {
      OpenedStays(s, events[0]);
      OpenedNeverFails(Next(s, events[0]), events[1..]);
    }
  }

  lemma {:induction false} OverTakesNone(s: System, events: seq<Event>)
    requires Over(s.worker) && Legal(s, events)
    ensures Reads(TakesSeek) !in events
    decreases |events|
  {
    if events != [] {
      OverStays(s, events[0]);
      OverTakesNone(Next(s, events[0]), events[1..]);
    }
  }

  lemma {:induction false} PendingUntilTaken(s: System, events: seq<Event>)
    requires s.control.request.pending && !s.stop && Legal(s, events) && Sends(Stops) !in events
    requires Reads(TakesSeek) !in events
    ensures After(s, events).control.request.pending
    decreases |events|
  {
    if events != [] {
      PendingStays(s, events[0]);
      PendingUntilTaken(Next(s, events[0]), events[1..]);
    }
  }

  lemma {:induction false} PendingIsTaken(s: System, events: seq<Event>)
    requires s.control.request.pending && !s.stop
    requires Legal(s, events) && Sends(Stops) !in events && Over(After(s, events).worker)
    ensures Reads(TakesSeek) in events <==> !Over(s.worker) && !(s.worker.Opening? && Reads(FailsToOpen) in events)
    decreases |events|
  {
    if Over(s.worker) {
      OverTakesNone(s, events);
    } else if events != [] {
      var e, rest := events[0], events[1..];
      if e == Reads(TakesSeek) {
        OpenedNeverFails(s, events);
      } else if e == Reads(FailsToOpen) {
        OverTakesNone(Next(s, e), rest);
      } else {
        PendingIsSeen(s, e);
        PendingStays(s, e);
        PendingIsTaken(Next(s, e), rest);
        if !Next(s, e).worker.Opening? {
          OpenedNeverFails(Next(s, e), rest);
        } else if !s.worker.Opening? {
          OpenedStays(s, e);
        }
      }
    }
  }

  /** Over every run to the end of the item that nothing stops, a pending seek
      is carried out if and only if the worker was not past its last look and an
      item still being opened did open; it leads to the pending target, or where
      the last scrub since asked. Without that the request stays pending. */
  lemma PendingSeekFate(s: System, events: seq<Event>)
    requires s.control.request.pending && !s.stop
    requires Legal(s, events) && Sends(Stops) !in events && Over(After(s, events).worker)
    ensures FirstTaken(s, events) ==
            if Over(s.worker) || (s.worker.Opening? && Reads(FailsToOpen) in events) then None
            else Some(LastAsked(s, events, s.control.request.target))
    ensures FirstTaken(s, events) == None ==> After(s, events).control.request.pending
  {
    PendingIsTaken(s, events);
    TakesWhatWasAsked(s, events);
    if Reads(TakesSeek) !in events {
      PendingUntilTaken(s, events);
    }
  }

  /** The same from the sender's side, for a scrub or for resuming from a paused
      picture: the place of the worker decides whether a seek is carried out, and
      unless the sender scrubs again before, it leads where the sender asked. */
  lemma AskedSeekFate(s: System, e: SenderEvent, events: seq<Event>)
    requires CanSend(s, e) && AsksForSeek(s, e) && !s.stop
    requires Legal(Send(s, e), events) && Sends(Stops) !in events && Over(After(Send(s, e), events).worker)
    ensures var t := Send(s, e);
            && FirstTaken(t, events) ==
               (if Over(s.worker) || (s.worker.Opening? && Reads(FailsToOpen) in events) then None
                else Some(LastAsked(t, events, AskedTarget(s, e))))
            && (Unreplaced(t, events) ==> LastAsked(t, events, AskedTarget(s, e)) == AskedTarget(s, e))
            && (FirstTaken(t, events) == None ==> After(t, events).control.request.pending)
  {
    AskingPends(s, e);
    PendingSeekFate(Send(s, e), events);
    if Unreplaced(Send(s, e), events) {
      UnreplacedAsksNone(Send(s, e), events, AskedTarget(s, e));
    }
  }

  // ------------------------------------------------------------- lost seeks

  predicate Leads(s: System, events: seq<Event>, t: System) {
    Legal(s, events) && After(s, events) == t
  }

  lemma LeadsFrom(s: System, e: Event, rest: seq<Event>, t: System, events: seq<Event>)
    requires Enabled(s, e) && Leads(Next(s, e), rest, t) && events == [e] + rest
    ensures Leads(s, events, t)
  {
  }

  lemma {:induction false} LeadsThrough(s: System, first: seq<Event>, middle: System, rest: seq<Event>, t: System,
                                        events: seq<Event>)
    requires Leads(s, first, middle) && Leads(middle, rest, t) && events == first + rest
    ensures Leads(s, events, t)
    decreases |first|
  {
    if first == [] {
      assert events == rest;
    } else {
      LeadsThrough(Next(s, first[0]), first[1..], middle, rest, t, events[1..]);
    }
  }

  lemma InThree(s: System, e: Event, f: Event, g: Event) returns (t: System)
    requires Enabled(s, e) && Enabled(Next(s, e), f) && Enabled(Next(Next(s, e), f), g)
    ensures t == Next(Next(Next(s, e), f), g) && Leads(s, [e, f, g], t)
  {
    var u := Next(s, e);
    var v := Next(u, f);
    t := Next(v, g);
    LeadsFrom(v, g, [], t, [g]);
    LeadsFrom(u, f, [g], t, [f, g]);
    LeadsFrom(s, e, [f, g], t, [e, f, g]);
  }

  lemma InFour(s: System, e: Event, f: Event, g: Event, h: Event) returns (t: System)
    requires Enabled(s, e) && Enabled(Next(s, e), f) && Enabled(Next(Next(s, e), f), g)
    requires Enabled(Next(Next(Next(s, e), f), g), h)
    ensures t == Next(Next(Next(Next(s, e), f), g), h) && Leads(s, [e, f, g, h], t)
  {
    t := InThree(Next(s, e), f, g, h);
    LeadsFrom(s, e, [f, g, h], t, [e, f, g, h]);
  }

  /** The worker's last steps, after its last look at the pending seek. */
  const LAST_STEPS: seq<Event> := [Closes(Ends), Closes(Quits), Closes(Joins)]

  /** With sound alone there is no presenter to be joined. */
  lemma LastSteps(s: System) returns (t: System)
    requires s.worker.Ending? && s.presenter.Exited? && s.pipe.queue == [] && !s.stop
    ensures Leads(s, LAST_STEPS, t) && t.worker.Done? && t.control.request == s.control.request
  {
    t := InThree(s, Closes(Ends), Closes(Quits), Closes(Joins));
  }

  const PRESENTED_LAST_STEPS: seq<Event> := [Closes(Ends), Closes(Quits), Displays(Exits), Closes(Joins)]

  lemma PresentedLastSteps(s: System) returns (t: System)
    requires s.worker.Ending? && s.presenter.Idle? && s.pipe.queue == [] && !s.stop
    ensures Leads(s, PRESENTED_LAST_STEPS, t) && t.worker.Done? && t.control.request == s.control.request
  {
    t := InFour(s, Closes(Ends), Closes(Quits), Displays(Exits), Closes(Joins));
  }

  /** From the demuxer's end to past the hold, for an item of unknown length. */
  const PAST_THE_HOLD: seq<Event> := [Closes(EndsRead(false)), Feeds(Drains), Closes(SeesIdle), Closes(Holds(false))]

  lemma PastTheHold(s: System) returns (t: System)
    requires s.worker.AtEnd? && !s.stop && PresenterIdle(s)
    requires !s.control.request.pending && s.control.info.duration == 0 && s.control.info.position >= 0
    ensures Leads(s, PAST_THE_HOLD, t) && t == s.(worker := Ending)
  {
    t := InFour(s, Closes(EndsRead(false)), Feeds(Drains), Closes(SeesIdle), Closes(Holds(false)));
  }

  /** Sound of unknown length, of which nothing can be read. */
  const SILENCE: seq<Event> := [Reads(Opens(false, 0)), Reads(SeesNoSeek), Reads(ReadsEnd)]

  lemma ReadsSilence(s: System) returns (t: System)
    requires s == Start(0, true, 0, 0)
    ensures Leads(s, SILENCE, t) && t == s.(control := OpenItem(s.control, false, 0), worker := AtEnd)
  {
    t := InThree(s, Reads(Opens(false, 0)), Reads(SeesNoSeek), Reads(ReadsEnd));
  }

  /** A whole run that loses a scrub to 5 s: it comes after the hold and before
      the item is marked as ended. */
  lemma ScrubAtTheEndIsLost() returns (ending: System, t: System)
    ensures var s, scrub := Start(0, true, 0, 0), Scrubs(5_000_000, false);
            && Leads(s, SILENCE + PAST_THE_HOLD, ending) && CanSend(ending, scrub) && AsksForSeek(ending, scrub)
            && Leads(ending, [Sends(scrub)] + LAST_STEPS, t)
            && t.worker.Done? && t.control.request == SeekRequest(5_000_000)
  {
    var s, e := Start(0, true, 0, 0), Sends(Scrubs(5_000_000, false));
    var atEnd := ReadsSilence(s);
    ending := PastTheHold(atEnd);
    LeadsThrough(s, SILENCE, atEnd, PAST_THE_HOLD, ending, SILENCE + PAST_THE_HOLD);
    t := LastSteps(Next(ending, e));
    LeadsFrom(ending, e, LAST_STEPS, t, [e] + LAST_STEPS);
  }

  /** And one that loses a scrub to an item that then cannot be opened. */
  lemma ScrubBeforeFailureIsLost() returns (t: System)
    ensures var s := Start(0, false, 0, 0);
            && AsksForSeek(s, Scrubs(5_000_000, false))
            && Leads(s, [Sends(Scrubs(5_000_000, false)), Reads(FailsToOpen)], t)
            && t.worker.Done? && t.control.request == SeekRequest(5_000_000)
  {
    var s, e := Start(0, false, 0, 0), Sends(Scrubs(5_000_000, false));
    t := Next(Next(s, e), Reads(FailsToOpen));
    LeadsFrom(Next(s, e), Reads(FailsToOpen), [], t, [Reads(FailsToOpen)]);
    LeadsFrom(s, e, [Reads(FailsToOpen)], t, [e, Reads(FailsToOpen)]);
  }

  lemma TakenFrom(s: System, e: Event, rest: seq<Event>, events: seq<Event>)
    requires Enabled(s, e) && Legal(Next(s, e), rest) && events == [e] + rest && e != Reads(TakesSeek)
    ensures Legal(s, events) && FirstTaken(s, events) == FirstTaken(Next(s, e), rest)
  {
  }

  lemma TakenAtOnce(s: System, events: seq<Event>)
    requires CanRead(s, TakesSeek) && events == [Reads(TakesSeek)]
    ensures Legal(s, events) && FirstTaken(s, events) == Some(s.control.request.target)
  {
    assert Legal(Next(s, events[0]), events[1..]);
  }

  /** A run in which a scrub to 9 s replaces one to 5 s: only 9 s is carried out. */
  lemma LaterScrubReplaces()
    ensures var s := Start(0, false, 0, 0);
            var events := [Sends(Scrubs(5_000_000, false)), Sends(Scrubs(9_000_000, false)), Reads(Opens(false, 0)),
                           Reads(TakesSeek)];
            Legal(s, events) && AsksForSeek(s, Scrubs(5_000_000, false)) && FirstTaken(s, events) == Some(9_000_000)
  {
    var s, first, second := Start(0, false, 0, 0), Sends(Scrubs(5_000_000, false)), Sends(Scrubs(9_000_000, false));
    var opens, takes := Reads(Opens(false, 0)), Reads(TakesSeek);
    var asked := Next(s, first);
    var replaced := Next(asked, second);
    var top := Next(replaced, opens);
    assert top.control.request == SeekRequest(9_000_000);
    TakenAtOnce(top, [takes]);
    TakenFrom(replaced, opens, [takes], [opens, takes]);
    TakenFrom(asked, second, [opens, takes], [second, opens, takes]);
    TakenFrom(s, first, [second, opens, takes], [first, second, opens, takes]);
  }

  // ---- resuming a paused item

  const FIRST_PICTURE := Frame(0, 0, 0)

  /** The item opens and its first packet is read, ... */
  const OPENS: seq<Event> := [Reads(Opens(true, 0)), Reads(SeesNoSeek), Reads(ReadsPacket)]

  /** ... decoded and queued, ... */
  const DECODES: seq<Event> := [Feeds(DecodesVideo(0)), Feeds(FindsRoom), Feeds(Confirms), Feeds(Pushes)]

  /** ... taken by the presenter, ... */
  const TAKES: seq<Event> := [Displays(Takes), Displays(Notes), Displays(ChecksEpoch), Displays(Emits)]

  /** ... shown as the paused picture ... */
  const PREVIEWS: seq<Event> := [Displays(Judges(0, None)), Displays(Prepares(true)), Displays(Presents(false))]

  /** ... and released. */
  const RELEASES: seq<Event> := [Displays(Shows), Displays(Frees), Displays(Finishes)]

  /** Nothing comes after it. */
  const READS_NO_MORE: seq<Event> := [Feeds(Drains), Reads(NextPacket), Reads(SeesNoSeek), Reads(ReadsEnd)]

  /** The paused item while the worker takes its first picture out of the decoder. */
  predicate PausedAtFirst(s: System) {
    && s.control.request == Request(false, 0, -1, -1) && s.control.info == Info(false, 0, false, true, true, 0)
    && s.worker == Decoding(false) && !s.stop && s.pipe.epoch == s.pipe.presenting == 0
  }

  lemma OpensFirst(s: System) returns (t: System)
    requires s == Start(0, false, 0, 0)
    ensures Leads(s, OPENS, t) && PausedAtFirst(t)
    ensures t.control.previewPending && t.presenter.Idle? && t.pipe.queue == [] && t.ledger.cloned == t.marks.reached == 0
  {
    t := InThree(s, Reads(Opens(true, 0)), Reads(SeesNoSeek), Reads(ReadsPacket));
  }

  lemma DecodesFirst(s: System) returns (t: System)
    requires PausedAtFirst(s) && s.pipe.queue == [] && s.ledger.cloned == s.marks.reached == 0
    ensures Leads(s, DECODES, t) && PausedAtFirst(t) && t.pipe.queue == [FIRST_PICTURE]
    ensures t.control == s.control && t.presenter == s.presenter
  {
    t := InFour(s, Feeds(DecodesVideo(0)), Feeds(FindsRoom), Feeds(Confirms), Feeds(Pushes));
  }

  lemma TakesFirst(s: System) returns (t: System)
    requires PausedAtFirst(s) && s.presenter.Idle? && s.pipe.queue == [FIRST_PICTURE]
    ensures Leads(s, TAKES, t) && PausedAtFirst(t)
    ensures t.control == s.control && t.presenter == Judging(FIRST_PICTURE) && t.pipe.queue == []
  {
    t := InFour(s, Displays(Takes), Displays(Notes), Displays(ChecksEpoch), Displays(Emits));
  }

  lemma PreviewsFirst(s: System) returns (t: System)
    requires PausedAtFirst(s) && s.control.previewPending && s.presenter == Judging(FIRST_PICTURE)
    ensures Leads(s, PREVIEWS, t) && PausedAtFirst(t)
    ensures t.control.resync && t.presenter == Showing(FIRST_PICTURE, false) && t.pipe == s.pipe
  {
    t := InThree(s, Displays(Judges(0, None)), Displays(Prepares(true)), Displays(Presents(false)));
  }

  lemma ReleasesFirst(s: System) returns (t: System)
    requires PausedAtFirst(s) && s.presenter == Showing(FIRST_PICTURE, false)
    ensures Leads(s, RELEASES, t) && PausedAtFirst(t)
    ensures t.control == s.control && t.presenter.Idle? && !t.pipe.busy && t.pipe.queue == s.pipe.queue
  {
    t := InThree(s, Displays(Shows), Displays(Frees), Displays(Finishes));
  }

  lemma ReadsNoMore(s: System) returns (t: System)
    requires PausedAtFirst(s)
    ensures Leads(s, READS_NO_MORE, t) && t == s.(worker := AtEnd)
  {
    t := InFour(s, Feeds(Drains), Reads(NextPacket), Reads(SeesNoSeek), Reads(ReadsEnd));
  }

  lemma PausedToTheEnd() returns (ending: System)
    ensures Leads(Start(0, false, 0, 0), OPENS + DECODES + TAKES + PREVIEWS + RELEASES + READS_NO_MORE + PAST_THE_HOLD, ending)
    ensures ending.worker.Ending? && ending.presenter.Idle? && ending.pipe.queue == [] && !ending.stop
    ensures ending.control.resync && ending.control.request == Request(false, 0, -1, -1)
    ensures !ending.control.info.ended && ending.control.info.position == 0
  {
    var s := Start(0, false, 0, 0);
    var reading := OpensFirst(s);
    var decoded := DecodesFirst(reading);
    LeadsThrough(s, OPENS, reading, DECODES, decoded, OPENS + DECODES);
    var taken := TakesFirst(decoded);
    LeadsThrough(s, OPENS + DECODES, decoded, TAKES, taken, OPENS + DECODES + TAKES);
    var previewed := PreviewsFirst(taken);
    LeadsThrough(s, OPENS + DECODES + TAKES, taken, PREVIEWS, previewed, OPENS + DECODES + TAKES + PREVIEWS);
    var released := ReleasesFirst(previewed);
    LeadsThrough(s, OPENS + DECODES + TAKES + PREVIEWS, previewed, RELEASES, released,
                 OPENS + DECODES + TAKES + PREVIEWS + RELEASES);
    var atEnd := ReadsNoMore(released);
    LeadsThrough(s, OPENS + DECODES + TAKES + PREVIEWS + RELEASES, released, READS_NO_MORE, atEnd,
                 OPENS + DECODES + TAKES + PREVIEWS + RELEASES + READS_NO_MORE);
    ending := PastTheHold(atEnd);
    LeadsThrough(s, OPENS + DECODES + TAKES + PREVIEWS + RELEASES + READS_NO_MORE, atEnd, PAST_THE_HOLD, ending,
                 OPENS + DECODES + TAKES + PREVIEWS + RELEASES + READS_NO_MORE + PAST_THE_HOLD);
  }

  /** A whole run that loses the seek of a resumed playback in the same place. */
  lemma ResumeAtTheEndIsLost() returns (ending: System, t: System)
    ensures var resume := Rates(true);
            && Leads(Start(0, false, 0, 0),
                     OPENS + DECODES + TAKES + PREVIEWS + RELEASES + READS_NO_MORE + PAST_THE_HOLD, ending)
            && CanSend(ending, resume) && AsksForSeek(ending, resume)
            && Leads(ending, [Sends(resume)] + PRESENTED_LAST_STEPS, t)
            && t.worker.Done? && t.control.request == SeekRequest(0)
  {
    ending := PausedToTheEnd();
    t := PresentedLastSteps(Next(ending, Sends(Rates(true))));
    LeadsFrom(ending, Sends(Rates(true)), PRESENTED_LAST_STEPS, t, [Sends(Rates(true))] + PRESENTED_LAST_STEPS);
  }
}
