# Verified model of the AirPlay receiver plugin for OBS

The plugin receives AirPlay streams and hands their pictures and sound to OBS.
This project models the algorithms of the plugin that carry state or index
arithmetic, and proves what they are for. One module stands for one component;
`dafny verify dfyconfig.toml` checks all of them.

| module | models |
|---|---|
| `PlaybackControl`, `SeekProtocol` | the sections under the state and queue mutexes of the media player, and every interleaving of the sender's, the worker's and the presenter's steps |
| `SeekFate`, `SeekPictures`, `SeekPositions`, `SeekSteps` | over those runs: when a seek that was asked for is carried out and where it leads, which pictures and sound are kept and when they pass, in which order pictures are shown, where the reported position goes, and what each section does to the state |
| `ResilientHttp` | the byte-exact HTTP input that rides over dropped connections |
| `AudioRetimer`, `AudioTimeline`, `SenderClock` | the packet timeline that is kept continuous and on time, and the sender timestamps it is fed with |
| `AnnexB`, `AnnexBytes` | the access-unit splitter and the store of the latest parameter sets; what both do said of the bytes |
| `HlsUrl`, `HlsPlaylist`, `PlaylistLines`, `VariantChoice` | addresses, attribute lists and renditions of HLS playlists |
| `PlaneRotation` | rotating a plane by quarter turns in bands of rows |
| `MirrorQueue` | compressed mirror payloads and the recovery at keyframes |
| `ReadRecovery` | how often reading is asked for again after an early end |
| `NameDebounce` | edits of the receiver's name and the thread that advertises it |
| `AacConfig` | the AAC decoder configuration, written bit by bit |
| `Common`, `Text` | bytes, options, distances and string searches shared by the others |

Code that changes fields step by step is a class (`Player`, `FrameQueue`, `ResilientIo`,
`Retimer`, `ParameterSets`, `Queue`, `Reader`, `Debouncer`, `BitWriter`,
`StreamClock`) or a method with a loop; each method is proved to compute a
function of the old state, and the properties are proved about those functions
over whole runs. Threads are modelled by atomic steps, one for each section
under a mutex, in any order.

What comes from outside is a parameter that the proofs leave open: decoded
positions (`DecodesVideo`, `DecodesSound`), whether a picture is due, the
network's schedule (`ResilientIo.network`), the clock (`now`), whether an
advertisement could be changed. Positions are whole microseconds and
timestamps whole nanoseconds. The model assumes: within one seek epoch the
positions of decoded pictures do not go back, and for what is said about sound
those of decoded sound do not either; `now` does not run backwards; for the
audio retimer, timestamps and `now` below 2^61 ns, packets of at most 2^32 ns
and `now` at least 200 ms.

## What the code does not keep

- A seek that the sender asks for is not always carried out: one that becomes
  pending after the worker's last look at it, and before the item is marked as
  ended, stays pending for good, and so does one for an item that then fails to
  open; a scrub replaces one that the worker has not taken yet.
  `SeekFate.AskedSeekFate` shows that these are all, but for an item that is
  stopped: otherwise the first seek carried out leads where the sender asked.
  `SeekFate.ScrubAtTheEndIsLost`, `SeekFate.ResumeAtTheEndIsLost` and
  `SeekFate.ScrubBeforeFailureIsLost` are whole runs that lose one, and in that of
  `SeekFate.LaterScrubReplaces` a later scrub replaces one.
- A payload of a mirror stream that has ended is decoded after the reset, by the
  flushed decoder, when the decode thread had taken it out of the queue before
  (`MirrorQueue.LeftoverReachesDecoder`). It is the only one, and exactly then
  there is one (`MirrorQueue.ResetLeavesOne`, `MirrorQueue.FlushedDecoderGetsOne`).
- An HEVC access unit can be cut one byte early: a slice whose first header byte
  is zero, directly before a start code, loses that byte to the next unit
  (`AnnexB.HevcUnitWithoutSliceHeader`). `AnnexB.HeadersKept` says for which
  payloads every unit keeps a whole slice, `AnnexB.SplitUnitsHoldSlices` what
  holds for all.
- `normalize_url_path` is not the dot-segment removal of RFC 3986 for every path
  (`HlsUrl.LastDotDiffers`, `HlsUrl.EmptySegmentDiffers`); `HlsUrl.NormalizedIsRfc`
  gives the exact condition. `HlsUrl.ResolvedAsRfc` gives that of a whole
  resolution, which also differs for references without a path
  (`HlsUrl.QueryOnlyDiffers`).
- The two rendition choices, which the source says follow one rule, differ for
  unknown and extreme bandwidths and for a list of one rendition
  (`VariantChoice.UnknownAndOverDiffer`, `VariantChoice.OneRenditionDiffers`);
  `VariantChoice.ChoicesAgree` gives the exact condition.
- The configuration writer truncates object types 31 and above 95, rates of more
  than 24 bits and channel counts of more than 4 bits, and does not write the
  extension of object types 5 and 29 (`AacConfig.Type31IsLost`,
  `AacConfig.SeventeenChannelsReadAsOne`, `AacConfig.ExtendedIsUnreadable`);
  `AacConfig.BytesReadBack` gives the exact condition.
- With exact sender intervals the retimer's gap closes by a 1024th of a packet's
  duration in nanoseconds each time, rounded down, so a packet shorter than
  1024 ns would close nothing (`AudioRetimer.ExactStreamCloses`).

## Model

| member | source | states |
|---|---|---|
| PlaybackControl.Player.constructor | src/media-player.cpp:689-728 | a new item starts with no seek pending and, from a start above zero, with both discard thresholds there |
| PlaybackControl.Player.SeekLockedTo | src/media-player.cpp:799-854 | a scrub to where playback or the paused picture already is changes nothing; any other makes the seek pending with both thresholds at its target |
| PlaybackControl.Player.ChangeRate | src/media-player.cpp:856-906 | a rate change; resuming after a pause re-seeks both streams to the reported position unless a seek is pending |
| PlaybackControl.Player.ShouldDiscardVideo | src/media-player.cpp:1270-1313 | a picture is discarded while a seek is pending, when its epoch is over, when the sender has passed it, or before the threshold, which the first picture at it clears |
| PlaybackControl.Player.ShouldDiscardAudio | src/media-player.cpp:1270-1313 | the same for sound, which has no epoch |
| PlaybackControl.Player.TakeCoarsePreview | src/media-player.cpp:1253-1266 | one inexact picture a scrub is taken, only while paused, due, current and far enough before the target |
| PlaybackControl.Player.WaitTurn | src/media-player.cpp:1319-1410 | one turn of the wait: abandoned, presented with the reported position moved on, or again |
| PlaybackControl.Player.HoldUntilEndTurn | src/media-player.cpp:1126-1148 | one turn of holding the last picture: over, interrupted by a seek, or again |
| PlaybackControl.Player.ReadOnAfterEnd | src/media-player.cpp:2092-2116 | reading goes on exactly when a seek is pending afterwards |
| PlaybackControl.Player.PauseForPlaylistRemoval | src/media-player.cpp:908-916 | playback pauses and its clock stops, nothing else changes |
| PlaybackControl.Player.SeekAfterReopen | src/media-player.cpp:2201-2207 | a reopened decoder restarts at the reported position unless a seek is pending |
| PlaybackControl.Player.MarkItemEnded | src/media-player.cpp:2226-2238 | the item is over and paused; a pending seek stays |
| SeekProtocol.FrameQueue.constructor | src/media-player.cpp:1073-1083 | a new queue is empty and the presenter idle |
| SeekProtocol.FrameQueue.Push | src/media-player.cpp:1096-1110 | a clone joins at the end with the epoch of that moment |
| SeekProtocol.FrameQueue.Take | src/media-player.cpp:1173-1176 | the oldest clone leaves and the presenter is busy |
| SeekProtocol.FrameQueue.Note | src/media-player.cpp:1178 | the presenter notes its frame's epoch |
| SeekProtocol.FrameQueue.Finish | src/media-player.cpp:1183-1185 | the presenter is idle again |
| SeekProtocol.FrameQueue.Clear | src/media-player.cpp:1085-1091 | every queued clone is released once and the queue is empty |
| SeekProtocol.FrameQueue.Advance | src/media-player.cpp:1444 | a seek carried out begins an epoch |
| SeekProtocol.StartInv | src/media-player.cpp:689-728 | a new item satisfies the invariant |
| SeekProtocol.SendKeeps | src/media-player.cpp:771-916 | every step of the sender keeps the invariant |
| SeekProtocol.ReadKeeps | src/media-player.cpp:1428-1464 | every step of the worker's read loop keeps the invariant, carrying out a seek and clearing the queue among them |
| SeekProtocol.FeedKeeps | src/media-player.cpp:1066-1117 | every step of the worker that hands on pictures and sound keeps the invariant, the bound of the queue included |
| SeekProtocol.CloseKeeps | src/media-player.cpp:2271-2302 | every step of the worker at the end of the input keeps the invariant |
| SeekProtocol.ShowKeeps | src/media-player.cpp:1150-1190 | every step of the presenter keeps the invariant |
| SeekProtocol.PresentedFollowsLatestSeek | src/media-player.cpp:1270-1357 | in every interleaving a picture that passes waitForPresentation carries the epoch of the latest seek carried out, no seek is pending, and it lies at most 20 ms before that seek's target |
| SeekProtocol.OnlyPresentedIsShown | src/media-player.cpp:1564-1672 | an exact picture reaches the screen only through waitForPresentation |
| SeekProtocol.PendingOwnsThresholds | src/media-player.cpp:799-854 | in every reachable state a pending seek owns both thresholds and at most three frames are queued |
| SeekProtocol.StaleFramesLeaveThresholds | src/media-player.cpp:1270-1281 | no frame of an ended epoch, and none while a seek is pending, changes a threshold |
| SeekProtocol.OnlyTakingClearsPending | src/media-player.cpp:1428-1446 | only the worker, carrying the seek out in a new epoch, clears a pending seek |
| SeekProtocol.StepOwned | src/media-player.cpp:1085-1190 | every step keeps each clone in exactly one place |
| SeekProtocol.ClonesReleasedOnce | src/media-player.cpp:1085-1190 | no clone of a picture is released twice, and after the item every one has been released |
| SeekFate.ScrubAtTheEndStaysPending | src/media-player.cpp:2297-2301 | in every state past the hold a scrub to elsewhere stays pending through the mark of the end, and no later step takes it |
| SeekFate.PendingSeekFate | src/media-player.cpp:2272-2301 | over every run that nothing stops and that ends the item, a pending seek is carried out if and only if the worker was not past its last look at it and an item still being opened did open; it leads to the pending target, or where the last scrub since asked, and otherwise the request stays pending |
| SeekFate.AskedSeekFate | src/media-player.cpp:771-906 | so the worker's place when the sender asks decides whether a scrub, or the seek of a resumed playback, is carried out, where a scrub asks unless the item plays less than 350 ms from there or is paused on a scrub less than 500 us from there; unless the sender scrubs again before, the first seek taken leads to the position scrubbed to, kept within the item, or to the one reported |
| SeekFate.ScrubSeeks | src/media-player.cpp:771-854 | after every scrub either a seek to the position asked for, kept within the item, is pending with both thresholds, the position and the picture to come, or the output is that near already and nothing changes |
| SeekFate.AsksExactlyThen | src/media-player.cpp:771-906 | without a pending seek a scrub or a change of rate leaves one pending exactly when it asks for one |
| SeekFate.AskingPends | src/media-player.cpp:799-906 | what asks for a seek makes the request one to its target with both thresholds |
| SeekFate.PendingIsSeen | src/media-player.cpp:2272-2301 | while a seek is pending the worker gets past its last look only by taking it or by failing to open the item |
| SeekFate.RequestStays | src/media-player.cpp:2092-2207 | no step but a scrub, or the worker taking it, changes a pending request: not a resumed playback, an early end or a reopened decoder |
| SeekFate.TakesWhatWasAsked | src/media-player.cpp:1428-1446 | in every run the first seek taken leads where the last scrub before it asked, or to the pending target |
| SeekFate.ScrubAtTheEndIsLost | src/media-player.cpp:2292-2301 | a whole run in which a scrub to 5 s comes between the end of the hold and the mark of the end and is never carried out |
| SeekFate.ResumeAtTheEndIsLost | src/media-player.cpp:884-906 | a whole run in which the seek of a resumed playback is lost in the same place |
| SeekFate.ScrubBeforeFailureIsLost | src/media-player.cpp:2363-2373 | a whole run in which a scrub is lost to an item that fails to open |
| SeekFate.LaterScrubReplaces | src/media-player.cpp:799-854 | a run in which only the later of two scrubs is carried out |
| SeekPictures.PictureKept | src/media-player.cpp:1270-1313 | in every interleaving the presenter keeps a picture if and only if no seek is pending, it belongs to the latest seek carried out, the sender has not passed it, and it lies at most 20 ms before that seek's target |
| SeekPictures.PictureGoesOn | src/media-player.cpp:1564-1640 | apart from that it gives up a picture of the latest seek only for a new seek, a stop or a failed conversion |
| SeekPictures.PicturesInOrder | src/media-player.cpp:1150-1357 | in every interleaving the pictures shown follow the seeks in order, and within one seek their positions do not go back |
| SeekPictures.PicturePasses | src/media-player.cpp:1319-1357 | a picture passes if and only if it is due while playing, or is the one still to be shown while paused; it is given up for a stop, a pending seek or a new epoch and waits otherwise |
| SeekPictures.PassingMoves | src/media-player.cpp:1340-1390 | what passing does to the reported position, the clock and the picture still to be shown |
| SeekPictures.StepKeepsPreview | src/media-player.cpp:1340-1357 | no step but a scrub, or a change of rate to playing, lets another paused picture through |
| SeekPictures.OnePausedPicture | src/media-player.cpp:1340-1357 | in every run without a scrub or a change of rate to playing at most one exact picture is shown while paused, and none when that of the last scrub has been |
| SeekPositions.SoundFollowsLatestSeek | src/media-player.cpp:1270-1410 | in every interleaving in which sound is decoded in order, sound that passes waitForPresentation is played while no seek is pending, at most 20 ms before the target of the latest seek carried out |
| SeekPositions.SoundKept | src/media-player.cpp:1270-1313 | decoded sound is kept if and only if no seek is pending, the sender has not passed it, and it lies at most 20 ms before that target |
| SeekPositions.SoundPasses | src/media-player.cpp:1319-1410 | sound passes if and only if it is due while playing and nothing is pending or stopped, so never while paused |
| SeekPositions.SoundMoves | src/media-player.cpp:1363-1390 | it moves the reported position only where there are no pictures, to what is audible and not past its own |
| SeekPositions.PlacedStep | src/media-player.cpp:1066-1410 | every step keeps the invariant behind the reported position: no picture that can still be shown lies more than 20 ms before it, and none is left past the end of the input |
| SeekPositions.StepPaysBack | src/media-player.cpp:1319-1357 | but for a scrub and the opening, only the paused picture takes the reported position back, by at most 20 ms and once |
| SeekPositions.EndPositionsGoOn | src/media-player.cpp:1319-1357 | in every run between two scrubs the positions at which the input ends go back by at most 20 ms in all |
| SeekPositions.RequestsBoundedInRun | src/media-player.cpp:2070-2116 | so in every such run, each end being judged by readOnAfterEnd from what the worker has read, the item of D seconds is asked for again fewer than 6 D times |
| SeekSteps.ItemStarts | src/media-player.cpp:689-728 | what a new item begins with: its start, both thresholds there, one picture to be shown and no seek |
| SeekSteps.RateChanges | src/media-player.cpp:856-906 | pausing does nothing else; playing ends the paused picture, lets both streams catch up, and seeks to the reported position only where a paused picture was shown and no seek is pending |
| SeekSteps.OpeningClamps | src/media-player.cpp:2006-2024 | an item that opens begins at the position asked for, or at its end where that is before |
| SeekSteps.TakingSeeks | src/media-player.cpp:1428-1446 | taking a seek leaves its thresholds, begins its epoch and stops the clock |
| SeekSteps.ReopeningSeeks | src/media-player.cpp:2201-2207 | a reopened decoder goes on by a seek to the reported position, unless one is pending |
| SeekSteps.HandingOver | src/media-player.cpp:1093-1117 | a picture is queued last once there is room among three, unless a seek or a stop came, which gives it up; meanwhile the queue is the worker's |
| SeekSteps.WaitsForTheOther | src/media-player.cpp:1150-1176 | the worker waits until everything queued has been shown before it reopens a decoder and at the end, and the presenter leaves only for a stop, or when told to with nothing queued |
| SeekSteps.EndSeeks | src/media-player.cpp:2092-2116 | an early end seeks to the reported position where that is more than a second before the end, and reading goes on exactly when a seek is pending |
| SeekSteps.HoldingLasts | src/media-player.cpp:1126-1148 | the last picture is held until the end on the running clock, a seek or a stop |
| SeekSteps.EndingMarks | src/media-player.cpp:2226-2238 | the end marks the item ended and paused and changes nothing else |
| SeekSteps.OldPicturesGo | src/media-player.cpp:1178-1182 | a picture of an ended epoch is released unjudged |
| SeekSteps.ConvertedAreShown | src/media-player.cpp:1564-1672 | a picture that cannot be converted is released unshown, an exact one waits for its time and an inexact one does not |
| SeekSteps.JudgingPictures | src/media-player.cpp:1270-1313 | what a picture that is kept or given up does to the threshold and to the catching up, in microseconds |
| SeekSteps.JudgingSound | src/media-player.cpp:1270-1313 | the same for sound |
| SeekSteps.CoarsePreview | src/media-player.cpp:1253-1266 | an inexact picture is taken exactly while paused in a burst of scrubs, due, of this seek, at least 150 ms before the target and the first of its scrub |
| SeekSteps.OneCoarsePicture | src/media-player.cpp:1253-1266 | in every run between two scrubs at most one inexact picture is taken |
| SeekSteps.StoppedItemEnds | src/media-player.cpp:1093-1190 | no wait of the two threads for each other can last once the item is stopped: from every state steps of theirs alone, 17 at most, lead to the end of the item |
| ResilientHttp.ResilientIo.Open | src/media-player.cpp:391-408 | opening succeeds exactly when the request is opened and the server states a positive size, and then stands at the start |
| ResilientHttp.ResilientIo.BackOff | src/media-player.cpp:439-446 | the wait ends well exactly when none of its polls finds an interruption |
| ResilientHttp.ResilientIo.Reopen | src/media-player.cpp:451-481 | only a successful request moves the position, and a known size never changes |
| ResilientHttp.ResilientIo.Continue | src/media-player.cpp:500-505 | a dropped response is continued at the same position, or given up as refused exactly when the new request was forbidden and as stopped when the wait was interrupted |
| ResilientHttp.ResilientIo.Read | src/media-player.cpp:483-508 | a successful read returns exactly the file's bytes at the position, as many as the schedule supplies; the end is reported at the known size only; below it a read returns bytes, is refused, is stopped or fails exactly when the schedule leads to bytes, to a forbidden request, to an interruption or through five attempts, and the last event is the one it blames |
| ResilientHttp.ResilientIo.SkipForward | src/media-player.cpp:522-531 | a short forward skip ends between the old position and the target, and at the target exactly for the schedules whose reads get there |
| ResilientHttp.ResilientIo.Seek | src/media-player.cpp:510-546 | a successful seek lands exactly on the offset, behind the position or behind the size, and only a target before the start, or an unknown end, is invalid; one to the current position of an open response succeeds at once, a skip of at most 262144 bytes when its reads get there, and any other ends as a request opened there does: there, refused, stopped or failed; a failed one moves the position only by a short skip |
| ResilientHttp.ResilientIo.OpenAt | src/media-player.cpp:538-545 | a new request is opened, refused, stopped or given up exactly for the schedules that lead there within five attempts, and the last event is the one a failure blames |
| ResilientHttp.ResilientIo.ReadBegins | src/media-player.cpp:488-495 | an interruption when a read or a new request begins ends it, and bytes or a response that are there then are taken |
| ResilientHttp.ResilientIo.ReadEndsForAReason | src/media-player.cpp:483-508 | whatever the schedule, a read that ends got bytes right after a poll without an interruption, or met an interruption, or a forbidden request, or made all its attempts |
| ResilientHttp.ResilientIo.OpenEndsForAReason | src/media-player.cpp:538-545 | the same for a new request |
| ResilientHttp.ResilientIo.FiveAttempts | src/media-player.cpp:538-545 | a new request is tried five times, with 6, 11, 16, 21 and 26 polls of waiting behind those that fail: five failures are the end, and one opened before is taken |
| ResilientHttp.ResilientIo.ReadOn | src/media-player.cpp:483-508 | sequential reads concatenate to the file from where they began, and to all of it when they end at its end |
| AudioRetimer.Retimer.constructor | src/audio-retimer.hpp:190-192 | a fresh retimer |
| AudioRetimer.Retimer.Reset | src/audio-retimer.hpp:127 | a reset retimer is a fresh one |
| AudioRetimer.Retimer.Process64 | src/audio-retimer.hpp:62-124 | the 64-bit code, wrapping differences included, computes what the same rules give on whole numbers |
| AudioRetimer.Retimer.StartAt | src/audio-retimer.hpp:167-178 | a timeline starts at the packet, at least 40 ms ahead |
| AudioRetimer.Retimer.DropLate | src/audio-retimer.hpp:180-188 | a late packet is dropped and the worst lateness kept |
| AudioRetimer.SignedDifference | src/audio-retimer.hpp:147-164 | the unsigned differences read as signed ones are the true differences |
| AudioRetimer.ProcessFits | src/audio-retimer.hpp:62-124 | a packet within the range keeps all state within it |
| AudioRetimer.StreamFits | src/audio-retimer.hpp:62-124 | so does a stream of any length, so no subtraction ever wraps |
| AudioRetimer.StepEmitsOnTime | src/audio-retimer.hpp:87-112 | no emitted time is more than 20 ms behind the clock |
| AudioRetimer.StepOverlaps | src/audio-retimer.hpp:87-124 | a packet starts before the previous one's end by more than its slew only as the sender's own on-time value, which is followed from then on |
| AudioRetimer.StreamIsSafe | src/audio-retimer.hpp:62-124 | both, and that an emission ends where the next packet is expected, hold at every step of every run |
| AudioRetimer.StreamAccounts | src/audio-retimer.hpp:113-124 | over every run each packet is emitted, dropped or trimmed, and counted once |
| AudioRetimer.EmissionBounded | src/audio-retimer.hpp:113-123 | on an anchored timeline an emission ends at most 150 ms and its own length ahead of now |
| AudioRetimer.BurstBounded | src/audio-retimer.hpp:113-123 | a burst of any length at one instant adds no lead beyond that |
| AudioRetimer.TrimmedSuccessorTakesItsPlace | src/audio-retimer.hpp:113-120 | after a trim the regular successor is expected exactly at the end of the timeline |
| AudioRetimer.RegularStreamStaysOnTimeline | src/audio-retimer.hpp:79-112 | past the startup window a regular stream stays within 70 ms of the timeline for any arrival times, and no step is counted |
| AudioRetimer.PlainStepSlews | src/audio-retimer.hpp:156-164 | an emission without ride-over, restart or trim closes the gap by the slew |
| AudioRetimer.ExactStreamCloses | src/audio-retimer.hpp:156-164 | over a run of such emissions with exact intervals the gap shrinks by the slew each time, to nothing |
| AudioTimeline.FirstPacket | src/audio-retimer.hpp:66-86 | the first packet starts the timeline at its time, 40 ms ahead at least, unless it is late in the first two seconds |
| AudioTimeline.NearIsPlaced | src/audio-retimer.hpp:87-124 | a packet within 70 ms of the timeline goes to its end, moved by at most a 1024th of its length towards the sender |
| AudioTimeline.StepForwardIsFollowed | src/audio-retimer.hpp:87-96 | a packet that is not late and more than 70 ms off the timeline comes out at exactly its own time; the offset is 0, the anchor dropped, and the timeline goes on from there |
| AudioTimeline.StepBackIsRiddenOver | src/audio-retimer.hpp:97-124 | a packet that would come late while the timeline is in time goes to the timeline's end, which is anchored; the sender's later times continue from there |
| AudioTimeline.LateTimelineRestarts | src/audio-retimer.hpp:97-112 | with the timeline late too it is restarted, but for packets more than 70 ms late in the first two seconds, which are left out and counted |
| AudioTimeline.RunningAheadIsTrimmed | src/audio-retimer.hpp:113-120 | on an anchored timeline a packet more than 150 ms ahead is left out and the next takes its place |
| AudioTimeline.FollowedStreamKeepsItsTimes | src/audio-retimer.hpp:87-124 | over every run, once the sender is followed a regular stream that comes in time comes out at its own times |
| AudioTimeline.StepForwardKeepsItsTimes | src/audio-retimer.hpp:87-124 | over every run so does a stream that begins with a step forward of any size |
| SenderClock.StreamClock.NormalizeTimestamp | src/airplay-server.cpp:214-253 | the 64-bit code maps by the anchor where that lies within 5 s of now and anchors anew otherwise, without overflow |
| SenderClock.StreamClock.Reset | src/airplay-server.cpp:206-212 | a reset clock has no anchor |
| SenderClock.TimesNearNow | src/airplay-server.cpp:244-253 | in every run every normalized time is within 5 s of the local clock at its call |
| SenderClock.IntervalsKept | src/airplay-server.cpp:229-252 | while one anchor serves, the sender's intervals come through unchanged |
| SenderClock.RetimerTakes | src/airplay-server.cpp:214-253 | a normalized time is in the range the retimer needs |
| SenderClock.MapsOrAnchors | src/airplay-server.cpp:214-253 | a sender time is mapped by the anchor where that gives a 64-bit time within 5 s of the clock; any other, and the first, becomes the anchor, and a missing one is the clock's |
| SenderClock.StaysAnchored | src/airplay-server.cpp:214-253 | in every run with a sender time the clock is anchored afterwards, at that time or at one the anchor did not serve |
| AnnexB.SplitAccessUnits | src/h264-decoder.cpp:56-84 | the scan loop computes the split |
| AnnexB.SplitPartitions | src/h264-decoder.cpp:56-84 | the units are non-empty and their concatenation is the payload |
| AnnexB.SplitAtStartCodes | src/h264-decoder.cpp:64-77 | every unit after the first begins with a start code |
| AnnexB.SplitUnitsHoldSlices | src/h264-decoder.cpp:70-79 | every unit but the last holds a slice; with its header unless that header byte is zero |
| AnnexB.UnitLacksHeader | src/h264-decoder.cpp:64-79 | a unit before the last lacks a slice with its header if and only if its only slice begins in its last three bytes |
| AnnexB.HeadersKept | src/h264-decoder.cpp:64-79 | every unit before the last holds a slice with its header if and only if no slice of the payload has a zero header byte, a NAL that opens a unit right behind it, and every slice before it cut off by such a NAL |
| AnnexB.HevcUnitWithoutSliceHeader | src/h264-decoder.cpp:65-77 | a payload whose first unit loses its slice's header byte |
| AnnexB.SplitUnitsHoldOnePicture | src/h264-decoder.cpp:70-79 | within one unit no picture-starting slice follows another slice |
| AnnexB.SplitIsIdempotent | src/h264-decoder.cpp:56-84 | splitting any unit again gives just that unit |
| AnnexB.ParameterSets.constructor | src/h264-decoder.cpp:308-313 | a new store is empty and so is its serialisation |
| AnnexB.ParameterSets.Flush | src/h264-decoder.cpp:308-313 | a flush empties the store and its serialisation |
| AnnexB.ParameterSets.NextStartCode | src/h264-decoder.cpp:341-355 | the first start code from a place on, with its length, or the end |
| AnnexB.ParameterSets.Keep | src/h264-decoder.cpp:371-376 | the set replaces the one of its type; it says false only when nothing changed |
| AnnexB.ParameterSets.RememberParameterSets | src/h264-decoder.cpp:337-392 | a payload's sets before its first slice are stored by type, and the serialisation follows the store |
| AnnexB.ParameterSets.Rebuild | src/h264-decoder.cpp:381-391 | the serialisation holds the sets in ascending type behind four-byte start codes |
| AnnexB.SliceWellFormed | src/h264-decoder.cpp:368-374 | a stored set is non-empty, of its type, and holds no start code |
| AnnexB.StoreHoldsLastSets | src/h264-decoder.cpp:357-380 | since a flush the store holds exactly the last set of each type |
| AnnexB.UnitEndsAtNextCode | src/h264-decoder.cpp:341-355 | a stored set ends exactly at the next serialised start code, also when it ends in zeros |
| AnnexB.ReplayRebuildsStore | src/h264-decoder.cpp:337-392 | parsing a serialised store from nothing rebuilds it |
| AnnexB.ReplayAfterAnyStream | src/h264-decoder.cpp:334-392 | so a decoder opened late gets exactly what the stream last sent, whatever it was |
| AnnexBytes.ReadIsVisited | src/h264-decoder.cpp:63-81 | which start codes the splitter reads, for all bytes: those with a header and a payload byte behind, and not within the header of one that is read |
| AnnexBytes.PicturesAreApart | src/h264-decoder.cpp:69-79 | behind a slice that is read, a slice whose first payload byte has the top bit, and a NAL of type 6 to 9 (32 to 40), lies in a later unit |
| AnnexBytes.NoUnitHoldsBoth | src/h264-decoder.cpp:69-79 | so no unit holds both |
| AnnexBytes.UnitsBeginPictures | src/h264-decoder.cpp:65-79 | conversely every unit behind the first begins at such a NAL, or at the zero before its code, and the unit before it holds a slice |
| AnnexBytes.SetsAreFound | src/h264-decoder.cpp:337-380 | of any NALs behind start codes of three or four bytes exactly the parameter sets before the first slice are collected, each exactly: types 7 and 8, or 32 to 34 |
| AnnexBytes.SetsAscend | src/h264-decoder.cpp:381-391 | the serialisation holds every stored set, in strictly ascending type and each behind 00 00 00 01 |
| HlsUrl.PathParts | src/hls-playlist.cpp:90-102 | the loop over the path computes the kept segments |
| HlsUrl.PrintParts | src/hls-playlist.cpp:104-111 | the kept segments are joined, with a slash behind when the path had one |
| HlsUrl.NormalizeUrlPath | src/hls-playlist.cpp:73-114 | origin, query and fragment stay, the path is normalized |
| HlsUrl.RewritingClimbs | src/hls-playlist.cpp:88-102 | the string rewriting of section 5.2.4 of RFC 3986 is a pass over the segments |
| HlsUrl.NormalizedIsRfc | src/hls-playlist.cpp:73-114 | for every absolute path the result is that of RFC 3986 if and only if no inner empty segment follows the path's last stand at the root and a last dot segment leads to the root |
| HlsUrl.LastDotDiffers | src/hls-playlist.cpp:104-112 | a path on which the two differ by the slash after a last dot segment |
| HlsUrl.EmptySegmentDiffers | src/hls-playlist.cpp:95-99 | a path on which they differ by an empty segment |
| HlsUrl.NormalizedUpToSlash | src/hls-playlist.cpp:104-112 | without inner empty segments only the slash after a last dot segment can be missing |
| HlsUrl.NormalizedAgain | src/hls-playlist.cpp:73-114 | normalizing is idempotent on every input |
| HlsUrl.ResolvedKeepsOrigin | src/hls-playlist.cpp:119-143 | a reference without an authority keeps the playlist's scheme and authority; it fails exactly when it is relative and the base has no path before its query |
| HlsUrl.AddressStays | src/hls-playlist.cpp:20-30 | a reference that begins with http:// or https://, in letters of either case, stays as it is |
| HlsUrl.AuthorityStays | src/hls-playlist.cpp:119-127 | one that begins with // gets the base's scheme; a base without a scheme resolves nothing else |
| HlsUrl.ResolvedPath | src/hls-playlist.cpp:128-142 | the reference is put behind the base's directory, its query and fragment stay |
| HlsUrl.ResolvedAsRfc | src/hls-playlist.cpp:128-142 | every reference without an authority, on a base with a path, resolves as section 5.2.2 of RFC 3986 says if and only if both agree on the joined path, or, for a reference that is empty, a query or a fragment, the base's path is one that stays as it is |
| HlsUrl.EmptyPathAsRfc | src/hls-playlist.cpp:137-142 | a reference without a path, which the RFC resolves to the base's own path, is put behind its directory; that is the same exactly when the base's path is a directory that normalizing leaves alone and no query is lost |
| HlsUrl.LastSegmentIsLost | src/hls-playlist.cpp:137-142 | for every reference that is only a query and every base without one whose path does not end in a slash the two differ by the base's last segment |
| HlsUrl.QueryOnlyDiffers | src/hls-playlist.cpp:137-142 | a base and a reference for which they do |
| HlsPlaylist.HlsAttribute | src/hls-playlist.cpp:43-71 | the loop finds the value of the first attribute of that name |
| HlsPlaylist.ReadValue | src/hls-playlist.cpp:52-64 | a value ends at its closing quote or at the next comma |
| HlsPlaylist.AttributeRoundTrip | src/hls-playlist.cpp:40-71 | looking a name up in any printed list, of quoted and bare values, texts behind a quote and a last text that is no attribute or never closed, gives the first value with exactly that name, or nothing |
| HlsPlaylist.EveryTextIsAList | src/hls-playlist.cpp:40-71 | every text is such a list, so that holds for every lookup |
| HlsPlaylist.StrtollDecimal | src/hls-playlist.cpp:157-159 | a printed bandwidth is read back, up to the largest 64-bit number |
| HlsPlaylist.ParseLine | src/hls-playlist.cpp:153-170 | one line adds a rendition, keeps attributes for the next one, or changes nothing |
| HlsPlaylist.ParseVariants | src/hls-playlist.cpp:145-175 | the loop over the lines computes the scan |
| HlsPlaylist.PlaylistRoundTrip | src/hls-playlist.cpp:145-175 | parsing any printed playlist gives its renditions in order with their own bandwidth and codecs, for either line end and with comments and blank lines anywhere, also between a rendition's attributes and its address |
| PlaylistLines.RenditionsAreAddresses | src/hls-playlist.cpp:145-175 | for the lines of any text whatever: the renditions are exactly the lines with an address that follow attributes with only comments and blank lines between, in order, each with that address and the bandwidth and codecs of those attributes |
| PlaylistLines.EveryTextHasLines | src/hls-playlist.cpp:150-153 | every text has such lines, the last one without a line feed |
| PlaylistLines.TrimsEnds | src/hls-playlist.cpp:32-38 | trimming takes spaces and tabs at the start, these and line ends at the end, and nothing else |
| PlaylistLines.NumeralReads | src/hls-playlist.cpp:157-159 | a bandwidth is read as the signed number its text begins with, whatever follows, and out of the range of 64 bits as the end of that range |
| PlaylistLines.EveryTextIsANumeral | src/hls-playlist.cpp:157-159 | every text is such a numeral |
| PlaylistLines.PlayableCodecs | src/hls-playlist.cpp:160-165 | a rendition is playable if and only if it names no codecs or one of avc1, avc3, hvc1 and hev1 |
| VariantChoice.ChooseVariant | src/hls-playlist.cpp:177-194 | the first of greatest bandwidth in range, else the first unknown one, else the first of least bandwidth over the target |
| VariantChoice.SelectProgram | src/media-player.cpp:182-221 | the first of greatest bitrate in range, else the first of least over the target, else the first candidate; none of one or no programs |
| VariantChoice.ChosenOnce | src/hls-playlist.cpp:177-194 | the first rule fixes its answer |
| VariantChoice.SelectedOnce | src/media-player.cpp:195-221 | the second rule fixes its answer |
| VariantChoice.ChosenFits | src/hls-playlist.cpp:177-194 | the first rule in numbers: one of at most 1.5 Mbit/s and the greatest bandwidth where there is one, else the first unknown, else the least above, else none |
| VariantChoice.SelectedFits | src/media-player.cpp:195-221 | the second rule in numbers |
| VariantChoice.ChoicesAgree | src/media-player.cpp:193-221 | both choices fall on the same rendition, or on none, if and only if a list of one rendition or none holds no playable one, or in a longer list one is in range, or none is a candidate, or none is unknown and one is over the target, or the first candidate is left to both |
| VariantChoice.UsableBandwidthsAgree | src/media-player.cpp:193-221 | where every candidate states a positive bandwidth below the largest number they agree, but for a list of one playable rendition |
| VariantChoice.BothChoices | src/media-player.cpp:182-225 | what the two choices return for one list is the same exactly under that condition |
| VariantChoice.UnknownAndOverDiffer | src/media-player.cpp:193-221 | a list of an unknown and a large bandwidth for which they differ |
| VariantChoice.OneRenditionDiffers | src/media-player.cpp:188-190 | a list of one rendition for which they differ |
| PlaneRotation.RotatePlane | src/media-player.cpp:324-361 | every destination sample is the source sample the turns bring there, each of its bytes written exactly once and no other byte at all, for all sizes, both widths and strides of either sign |
| PlaneRotation.RotateHalf | src/media-player.cpp:327-338 | the same for the half turn, which walks the source backwards |
| PlaneRotation.RotateQuarter | src/media-player.cpp:346-360 | the same for one and three turns, band by band |
| PlaneRotation.RotateBandColumn | src/media-player.cpp:349-358 | one destination column within one band is carried over, each byte of it written once more and no other |
| PlaneRotation.TurnsAdd | src/media-player.cpp:321-345 | one rotation after another is the rotation by all their turns |
| PlaneRotation.FullTurn | src/media-player.cpp:321-345 | one turn undoes three |
| PlaneRotation.HalfTurn | src/media-player.cpp:321-345 | one turn twice is the half turn |
| PlaneRotation.SampleGoes | src/media-player.cpp:321-361 | one turn is clockwise: the sample at column x and row y of a plane of that height goes to column height - 1 - y and row x, and likewise for two and three turns |
| PlaneRotation.RowStartIs | src/media-player.cpp:350-355 | a row starts at its number times the stride from the first one, up or down |
| MirrorQueue.StartsDecodableStream | src/airplay-server.cpp:70-88 | the scan loop decides by the first header that decides |
| MirrorQueue.StartsIfDecided | src/airplay-server.cpp:70-88 | decoding can start exactly when some header says so and none before it decides |
| MirrorQueue.DecodableByTypes | src/airplay-server.cpp:70-88 | on the bytes: decoding can start at a payload if and only if a NAL that is read has type 5 or 7 (16 to 21 or 33) and no picture before it needs others |
| MirrorQueue.Queue.IngestVideoBitstream | src/airplay-server.cpp:111-148 | a payload is queued, refused while a keyframe is waited for, or finds the queue full and drops it |
| MirrorQueue.Queue.TakePayload | src/airplay-server.cpp:96-97 | the oldest payload is taken |
| MirrorQueue.Queue.GiveBackBuffer | src/airplay-server.cpp:102-106 | a buffer is kept unless four are |
| MirrorQueue.Queue.ResetQueue | src/airplay-server.cpp:165-172 | the queue is emptied and no keyframe is waited for |
| MirrorQueue.IngestQueues | src/airplay-server.cpp:111-148 | a payload is queued behind the others unless a decodable start is waited for and it is none; a full queue of 60 is dropped and begins such a wait, and a payload that is queued ends it |
| MirrorQueue.IngestRecycles | src/airplay-server.cpp:119-137 | buffers of dropped payloads are kept, four at most, and one is used for each payload queued |
| MirrorQueue.QuittingStops | src/airplay-server.cpp:90-116 | in every run after the thread was told to quit nothing comes in and only the payload in hand is decoded |
| MirrorQueue.FlushesFollowResets | src/airplay-server.cpp:165-178 | in every run the decoder is flushed at most once for each reset |
| MirrorQueue.StepKeeps | src/airplay-server.cpp:90-178 | every step keeps the invariant |
| MirrorQueue.DecodedInOrder | src/airplay-server.cpp:90-178 | in every interleaving the decoder gets payloads in order of arrival, each a decodable start, the first of a stream or right behind its received predecessor; at most 60 are queued, none while a keyframe is waited for |
| MirrorQueue.ResetLeavesOne | src/airplay-server.cpp:165-172 | in every interleaving a payload of a stream that ended is decoded after the reset if and only if it was in hand then |
| MirrorQueue.FlushedDecoderGetsOne | src/airplay-server.cpp:165-178 | the flushed decoder gets at most one such payload, the one still in hand at the flush |
| MirrorQueue.LeftoverReachesDecoder | src/airplay-server.cpp:96-100 | a run in which it gets one |
| MirrorQueue.NothingLost | src/airplay-server.cpp:111-148 | while the decoder keeps up every payload is decoded, in hand or queued, once and in order |
| ReadRecovery.Reader.MeetEnd | src/media-player.cpp:2070-2128 | one early or real end: attempts are refreshed by progress or a seek, and the item is asked for again while attempts are left |
| ReadRecovery.Reader.NotePacket | src/media-player.cpp:2141-2158 | how far packets reach, begun anew for a new seek |
| ReadRecovery.AsksExactlyThen | src/media-player.cpp:2070-2116 | an early end is asked about again if and only if attempts are left, fewer than three since the last half second of progress or seek, no seek is pending, and the known end is more than a second off and not reached by packets to within 100 ms |
| ReadRecovery.PacketsReach | src/media-player.cpp:2141-2158 | packets count for the seek they follow, and the furthest is kept |
| ReadRecovery.StepPaid | src/media-player.cpp:2092-2114 | every step keeps three requests paid for by half a second of progress |
| ReadRecovery.RequestsBounded | src/media-player.cpp:2070-2116 | between two seeks an item of D seconds is asked for again fewer than 6 D times, as long as the reported position goes back by at most half a second in all |
| ReadRecovery.CoveredEndsForGood | src/media-player.cpp:2104-2108 | once packets reach the stated duration no end is taken for an early one |
| NameDebounce.Debouncer.UpdateServerName | src/plugin-main.cpp:270-289 | an edit is accepted unless its name is the pending one, or the advertised one with nothing pending |
| NameDebounce.Debouncer.ApplyServerName | src/plugin-main.cpp:198-223 | a new name is taken for advertised when, and only when, the change succeeded |
| NameDebounce.Debouncer.SettleGeneration | src/plugin-main.cpp:259-263 | a change is settled unless a newer one came |
| NameDebounce.EditSchedules | src/plugin-main.cpp:270-289 | an edit schedules a change unless it repeats the pending name, or without one the server's; an empty name stands for OBS AirPlay |
| NameDebounce.ApplyingRecords | src/plugin-main.cpp:198-223 | a name passed on becomes the server's exactly when the change succeeded |
| NameDebounce.SettlingEnds | src/plugin-main.cpp:259-263 | settling ends the change unless a newer one came |
| NameDebounce.ServerNameIsAdvertised | src/plugin-main.cpp:198-223 | in every run the server's name is the last one that advertising worked for |
| NameDebounce.QuittingStops | src/plugin-main.cpp:227-268 | in every run after the thread was asked to quit it passes on no name but the one being applied |
| NameDebounce.ThreadLeaves | src/plugin-main.cpp:227-268 | and it can always leave, after settling |
| NameDebounce.StepKeeps | src/plugin-main.cpp:227-289 | every step keeps the invariant |
| NameDebounce.NoEditLost | src/plugin-main.cpp:227-289 | in every interleaving, with nothing in flight the last name passed on is the last accepted one, and otherwise that one is pending |
| NameDebounce.LastEditCounts | src/plugin-main.cpp:227-289 | the name typed last is pending or advertised, unless advertising that very name failed |
| NameDebounce.OnlyQuietNamesApply | src/plugin-main.cpp:244-253 | a name is passed on only from a wait during which none was accepted |
| NameDebounce.ThreadGetsThere | src/plugin-main.cpp:227-265 | left alone, the thread always has a step and each leads nearer to having applied what is pending |
| AacConfig.BitWriter.constructor | src/audio-decoder.cpp:29-42 | a new writer holds nothing |
| AacConfig.BitWriter.Put | src/audio-decoder.cpp:32-39 | the low bits of a value are appended, the highest first |
| AacConfig.FieldHolds | src/audio-decoder.cpp:32-39 | a field holds its number if and only if it fits |
| AacConfig.AacFrequencyIndex | src/audio-decoder.cpp:17-25 | the rate's place in the table, or the escape |
| AacConfig.FrequencyIndex | src/audio-decoder.cpp:17-25 | the index names the rate, and is the escape only for a rate that is not in the table |
| AacConfig.RateAtIndex | src/audio-decoder.cpp:19-23 | the table is that of section 1.6.3.4 of ISO/IEC 14496-3 |
| AacConfig.MaskIsShifted | src/audio-decoder.cpp:35-36 | the bits of a byte are used from the highest on |
| AacConfig.AacAudioSpecificConfig | src/audio-decoder.cpp:96-125 | the bytes hold exactly the configuration's bits, in as few bytes as can be, the rest zero |
| AacConfig.PackedUnpacks | src/audio-decoder.cpp:32-40 | packed bits come back, followed by fewer than eight zeros |
| AacConfig.ConfigReadsBack | src/audio-decoder.cpp:96-125 | the bits read back, by section 1.6.2.1 of ISO/IEC 14496-3, as the object type, rate and channel count with the specific part behind, if and only if these fit and the type asks for no extension |
| AacConfig.BytesReadBack | src/audio-decoder.cpp:96-125 | and so do the bytes, as the object type, rate and channel count |
| AacConfig.FrameLengthReadsBack | src/audio-decoder.cpp:109-123 | the specific part names the frame length: 480 or 512 for object type 39, otherwise 960 or 1024 |
| AacConfig.ExtendedIsUnreadable | src/audio-decoder.cpp:96-125 | the bytes of object types 5 and 29 end before the extension that the syntax asks for |
| AacConfig.Type31IsLost | src/audio-decoder.cpp:96-104 | no configuration of object type 31 reads back as that type |
| AacConfig.SeventeenChannelsReadAsOne | src/audio-decoder.cpp:96-113 | seventeen channels read back as one |

## Left out

- FFmpeg, VideoToolbox, UxPlay and OBS calls, codec contexts, pixel buffers: foreign code; their outcomes come with the events.
- Real clocks, timeouts and condition variables: a wake-up is possible at any time, and `now` is a number that does not go back.
- Memory order and locks: each section under a mutex is one step; where the player takes the state mutex inside the queue mutex, both belong to one step or the queue is held between steps.
- The threads' own loops (playItem, presenterLoop, the waits in queueVideoFrame): step relations over the sections that `PlaybackControl.Player` and `SeekProtocol.FrameQueue` carry out.
- PlaybackControl.Player.SeekLockedTo: the deadline of the coarse preview and the anchor of the sender's clock, set in the same section, are not modelled; whether they have passed is an argument where they are read.
- PlaybackControl.Player.ChangeRate: rates other than playing and paused, and the clocks anchored anew for them, are not modelled.
- PlaybackControl.Player.WaitTurn: when a picture is due is an argument; the wall-clock arithmetic that decides it, and playback rates other than playing and paused, are not modelled.
- PlaybackControl.Player.ReadOnAfterEnd: whether an early end may be asked for again is an argument here; `ReadRecovery` models that decision.
- SeekProtocol.PresentedFollowsLatestSeek: coarse previews, which are meant to lie before the target, are shown without it.
- SeekProtocol.ClonesReleasedOnce: one item at a time; a failing clone is not modelled.
- Counters are unbounded: the seek epoch, the seek generation, the debounce generation and the retimer's tallies do not wrap.
- ResilientHttp.ResilientIo.Open: FFmpeg's buffer and the flag that reports a refused address are not modelled.
- ResilientHttp.ResilientIo.Read: the error of the last attempt is one value, whatever FFmpeg called it.
- AudioRetimer.ProcessFits: outside the stated range nothing is claimed.
- HlsUrl.ResolvedAsRfc: references that name a scheme other than http and https are treated as paths, as in the source.
- HlsPlaylist.PlaylistRoundTrip: characters are compared one by one; no encoding is modelled.
- VariantChoice.SelectProgram: which programs hold video and their bitrates come from FFmpeg's metadata as an argument; that all other streams are discarded is not modelled.
- MirrorQueue.Queue.IngestVideoBitstream: spare buffers are counted, their contents and moves are not modelled.
- NameDebounce.NoEditLost: what happens to a pending name when the plugin is unloaded is not modelled.
- AacConfig.ConfigReadsBack: the specific part is compared as bits; what a channel count of 0 would have in it is not read.
- Colour formats, HDR, telemetry, logging, settings, the updater, the Bluetooth helper and the media URL policy: easy branches, or code that is not part of this model.
