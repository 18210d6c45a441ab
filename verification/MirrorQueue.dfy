/** Compressed mirror payloads on their way to the decoder (ingestVideoBitstream,
    videoDecodeLoop and resetDecoders in src/airplay-server.cpp). Every section
    under the queue or the decoder mutex is one step; the steps of the threads
    interleave in any order. */
module MirrorQueue {
  import opened Common

  const MAX_QUEUED := 60
  const MAX_SPARE := 4

  datatype Payload = Payload(data: seq<byte>, pts: nat, isH265: bool)

  // ------------------------------------------------------ decodable starts

  predicate StartCode(data: seq<byte>, i: nat) {
    i + 3 < |data| && data[i] == 0 && data[i + 1] == 0 && data[i + 2] == 1
  }

  /** The headers behind the start codes that the scan meets: it goes on behind each header. */
  function Headers(data: seq<byte>, i: nat): seq<byte>
    decreases |data| - i
  {
    if i + 3 >= |data| then []
    else if StartCode(data, i) then [data[i + 3]] + Headers(data, i + 4)
    else Headers(data, i + 1)
  }

  datatype Verdict = Starts | Depends | Open

  /** What one header says: a parameter set or a random access picture, a
      picture that needs others, or neither. */
  function Judge(header: byte, isH265: bool): Verdict {
    if isH265 then
      var kind := header as int / 2 % 64;
      if kind == 33 || 16 <= kind <= 21 then Starts else if kind < 32 then Depends else Open
    else
      var kind := header as int % 32;
      if kind == 7 || kind == 5 then Starts else if 1 <= kind <= 4 then Depends else Open
  }

  /** The first header that decides says that decoding can start. */
  predicate Decides(headers: seq<byte>, isH265: bool, k: int) {
    && 0 <= k < |headers| && Judge(headers[k], isH265).Starts?
    && forall j :: 0 <= j < k ==> Judge(headers[j], isH265).Open?
  }

  function StartsFrom(headers: seq<byte>, isH265: bool): bool {
    headers != [] &&
    match Judge(headers[0], isH265)
    case Starts => true
    case Depends => false
    case Open => StartsFrom(headers[1..], isH265)
  }

  lemma {:induction false} StartsIfDecided(headers: seq<byte>, isH265: bool)
    ensures StartsFrom(headers, isH265) <==> exists k :: Decides(headers, isH265, k)
    decreases |headers|
  {
    if headers != [] {
      StartsIfDecided(headers[1..], isH265);
      if k :| Decides(headers[1..], isH265, k) && Judge(headers[0], isH265).Open? {
        assert forall j :: 1 <= j < k + 1 ==> headers[j] == headers[1..][j - 1];
        assert Decides(headers, isH265, k + 1);
      }
      if k :| Decides(headers, isH265, k) {
        if k > 0 {
          assert Judge(headers[0], isH265).Open?;
          assert Decides(headers[1..], isH265, k - 1);
        }
      }
      if Judge(headers[0], isH265).Starts? { assert Decides(headers, isH265, 0); }
    }
  }

  function Decodable(p: Payload): bool {
    StartsFrom(Headers(p.data, 0), p.isH265)
  }

  method StartsDecodableStream(data: seq<byte>, isH265: bool) returns (r: bool)
    ensures r == StartsFrom(Headers(data, 0), isH265)
  {
    var i := 0;
    while i + 3 < |data|
      invariant StartsFrom(Headers(data, i), isH265) == StartsFrom(Headers(data, 0), isH265)
    {
      if data[i] != 0 || data[i + 1] != 0 || data[i + 2] != 1 {
        i := i + 1;
        continue;
      }
      var header := data[i + 3];
      HeaderFirst(data, i);
      if isH265 {
        var kind := header as int / 2 % 64;
        if kind == 33 || (kind >= 16 && kind <= 21) { return true; }
        if kind < 32 { return false; }
      } else {
        var kind := header as int % 32;
        if kind == 7 || kind == 5 { return true; }
        if kind >= 1 && kind <= 4 { return false; }
      }
      i := i + 3;
      i := i + 1;
    }
    return false;
  }

  lemma HeaderFirst(data: seq<byte>, i: nat)
    requires StartCode(data, i)
    ensures Headers(data, i) != [] && Headers(data, i)[0] == data[i + 3] && Headers(data, i)[1..] == Headers(data, i + 4)
  {
  }

  /** The NAL behind 00 00 01 at `p` is read: its header is there, and the code does
      not begin with the header of a NAL that is read itself. */
  predicate IsRead(data: seq<byte>, p: nat)
    decreases p
  {
    p + 3 < |data| && data[p] == 0 && data[p + 1] == 0 && data[p + 2] == 1 && (p >= 3 ==> !IsRead(data, p - 3))
  }

  /** A sequence parameter set or a picture that needs no other, by nal_unit_type. */
  predicate BeginsStream(header: byte, isH265: bool) {
    if isH265 then header as int / 2 % 64 == 33 || 16 <= header as int / 2 % 64 <= 21
    else header as int % 32 == 7 || header as int % 32 == 5
  }

  /** A picture that needs others. */
  predicate NeedsOthers(header: byte, isH265: bool) {
    if isH265 then header as int / 2 % 64 <= 31 && !BeginsStream(header, isH265)
    else 1 <= header as int % 32 <= 4
  }

  /** A NAL that is read begins a stream, and no picture before it needs others. */
  predicate BeginsAt(data: seq<byte>, isH265: bool, from: nat, p: nat) {
    && from <= p && IsRead(data, p) && BeginsStream(data[p + 3], isH265)
    && forall q: nat :: from <= q < p && IsRead(data, q) ==> !NeedsOthers(data[q + 3], isH265)
  }

  lemma OneIsRead(data: seq<byte>, i: nat)
    requires StartCode(data, i) && (i >= 3 ==> !IsRead(data, i - 3))
    ensures IsRead(data, i) && !IsRead(data, i + 1) && !IsRead(data, i + 2) && !IsRead(data, i + 3)
  {
    assert IsRead(data, i + 3 - 3);
  }

  lemma {:induction false} DecidedByReading(data: seq<byte>, isH265: bool, i: nat)
    requires forall q: nat :: i <= q + 3 && q < i ==> !IsRead(data, q)
    ensures StartsFrom(Headers(data, i), isH265) <==> exists p: nat :: BeginsAt(data, isH265, i, p)
    decreases |data| - i
  {
    if i + 3 < |data| {
      if StartCode(data, i) {
        OneIsRead(data, i);
        HeaderFirst(data, i);
        DecidedByReading(data, isH265, i + 4);
        BeginsBehind(data, isH265, i, i + 4);
      } else {
        DecidedByReading(data, isH265, i + 1);
        BeginsBehind(data, isH265, i, i + 1);
      }
    }
  }

  /** Where the first NAL, if any, leaves it open, a later one decides. */
  lemma BeginsBehind(data: seq<byte>, isH265: bool, i: nat, next: nat)
    requires i < next && forall q: nat :: i < q < next ==> !IsRead(data, q)
    ensures (exists p: nat :: BeginsAt(data, isH265, i, p)) <==>
            (IsRead(data, i) && BeginsStream(data[i + 3], isH265))
            || (!(IsRead(data, i) && NeedsOthers(data[i + 3], isH265)) && exists p: nat :: BeginsAt(data, isH265, next, p))
  {
    if p: nat :| BeginsAt(data, isH265, i, p) {
      if p > i { assert BeginsAt(data, isH265, next, p); }
    }
    if IsRead(data, i) && BeginsStream(data[i + 3], isH265) { assert BeginsAt(data, isH265, i, i); }
    if p: nat :| BeginsAt(data, isH265, next, p) {
      if !(IsRead(data, i) && NeedsOthers(data[i + 3], isH265)) { assert BeginsAt(data, isH265, i, p); }
    }
  }

  /** Decoding can start at a payload exactly when one of its NALs says so by its
      type and no picture before that needs others. */
  lemma DecodableByTypes(p: Payload)
    ensures Decodable(p) <==> exists at: nat :: BeginsAt(p.data, p.isH265, 0, at)
  {
    DecidedByReading(p.data, p.isH265, 0);
  }

  // ------------------------------------------------------------- the queue

  /** A payload with its number among those that came in. */
  datatype Pending = Pending(payload: Payload, arrival: nat)

  datatype Mirror = Mirror(queue: seq<Pending>, waiting: bool, quit: bool, spare: nat, arrivals: nat)

  /** The spare buffers after `n` more were given back. */
  function Recycled(spare: nat, n: nat): nat {
    if n == 0 then spare else var r := Recycled(spare, n - 1); if r < MAX_SPARE then r + 1 else r
  }

  /** A full queue is dropped, once per wait for a keyframe. */
  function DropIfBehind(m: Mirror): Mirror {
    if |m.queue| >= MAX_QUEUED && !m.waiting
    then m.(queue := [], waiting := true, spare := Recycled(m.spare, |m.queue|)) else m
  }

  function Enqueue(m: Mirror, p: Payload, keyframe: bool): Mirror {
    if m.waiting && !keyframe then m.(arrivals := m.arrivals + 1)
    else
      Mirror(m.queue + [Pending(p, m.arrivals)], false, m.quit, if m.spare > 0 then m.spare - 1 else 0, m.arrivals + 1)
  }

  function Ingest(m: Mirror, p: Payload): Mirror {
    if p.data == [] || m.quit then m else Enqueue(DropIfBehind(m), p, Decodable(p))
  }

  function Take(m: Mirror): Mirror
    requires m.queue != []
  {
    m.(queue := m.queue[1..])
  }

  function GiveBack(m: Mirror): Mirror {
    m.(spare := if m.spare < MAX_SPARE then m.spare + 1 else m.spare)
  }

  function Reset(m: Mirror): Mirror {
    m.(queue := [], waiting := false)
  }

  /** A payload that comes in is queued behind the others, unless the queue waits
      for one to start from and this is none; a full queue of 60 is dropped and
      begins such a wait, and whatever is queued ends it. */
  lemma IngestQueues(m: Mirror, p: Payload)
    requires p.data != [] && !m.quit
    ensures var t, full := Ingest(m, p), |m.queue| >= 60 && !m.waiting;
            var kept := if full then [] else m.queue;
            && t.arrivals == m.arrivals + 1 && !t.quit
            && (t.waiting <==> (m.waiting || full) && !Decodable(p))
            && t.queue == if t.waiting then kept else kept + [Pending(p, m.arrivals)]
  {
  }

  /** An empty payload, and any once the thread is to end, changes nothing. */
  lemma NothingComesIn(m: Mirror, p: Payload)
    requires p.data == [] || m.quit
    ensures Ingest(m, p) == m
  {
  }

  lemma {:induction false} RecycledIs(spare: nat, n: nat)
    requires spare <= 4
    ensures Recycled(spare, n) == if spare + n > 4 then 4 else spare + n
  {
    if n > 0 { RecycledIs(spare, n - 1); }
  }

  /** Buffers of dropped payloads are kept, four at most; one is used for each queued. */
  lemma IngestRecycles(m: Mirror, p: Payload)
    requires p.data != [] && !m.quit && m.spare <= 4
    ensures var t, full := Ingest(m, p), |m.queue| >= 60 && !m.waiting;
            var had := if !full then m.spare else if m.spare + |m.queue| > 4 then 4 else m.spare + |m.queue|;
            t.spare == if t.waiting || had == 0 then had else had - 1
  {
    RecycledIs(m.spare, |m.queue|);
  }

  /** A reset leaves nothing queued and nothing waited for; a buffer that is given
      back is kept unless four are; what is taken is the oldest. */
  lemma OthersChange(m: Mirror)
    ensures Reset(m) == m.(queue := [], waiting := false)
    ensures GiveBack(m) == m.(spare := if m.spare < 4 then m.spare + 1 else m.spare)
    ensures m.queue != [] ==> Take(m) == m.(queue := m.queue[1..])
  {
  }

  // ------------------------------------------------------------------ runs

  /** What came in, where a stream ended (by the number that came in until
      then; the first one starts at 0), and what was decoded. */
  datatype History = History(received: seq<Payload>, boundaries: set<nat>, decoded: seq<Pending>)

  /** The decode thread between the queue, the decoder and the queue again. */
  datatype Thread = Idle | Holding(pending: Pending) | Returning

  /** `unflushed`: resets that have emptied the queue but not yet the decoder. */
  datatype System = System(mirror: Mirror, thread: Thread, unflushed: nat, history: History)

  datatype Event = Ingests(payload: Payload) | Takes | Decodes | GivesBack | Resets | Flushes | Quits

  const START := System(Mirror([], false, false, 0, 0), Idle, 0, History([], {0}, []))

  predicate Enabled(s: System, e: Event) {
    match e
    case Ingests(payload) => payload.data != [] && !s.mirror.quit   // the others change nothing
    case Takes => s.thread.Idle? && s.mirror.queue != [] && !s.mirror.quit
    case Decodes => s.thread.Holding?
    case GivesBack => s.thread.Returning?
    case Resets => true
    case Flushes => s.unflushed > 0
    case Quits => true
  }

  function Next(s: System, e: Event): System
    requires Enabled(s, e)
  {
    match e
    case Ingests(payload) =>
      s.(mirror := Ingest(s.mirror, payload), history := s.history.(received := s.history.received + [payload]))
    case Takes => s.(mirror := Take(s.mirror), thread := Holding(s.mirror.queue[0]))
    case Decodes => s.(thread := Returning, history := s.history.(decoded := s.history.decoded + [s.thread.pending]))
    case GivesBack => s.(mirror := GiveBack(s.mirror), thread := Idle)
    case Resets =>
      s.(mirror := Reset(s.mirror), unflushed := s.unflushed + 1,
         history := s.history.(boundaries := s.history.boundaries + {s.mirror.arrivals}))
    case Flushes => s.(unflushed := s.unflushed - 1)
    case Quits => s.(mirror := s.mirror.(quit := true))
  }

  /** In order of arrival, each as it came in. */
  predicate Ordered(pending: seq<Pending>, received: seq<Payload>) {
    && (forall k :: 0 <= k < |pending| ==>
          pending[k].arrival < |received| && pending[k].payload == received[pending[k].arrival])
    && forall j, k :: 0 <= j < k < |pending| ==> pending[j].arrival < pending[k].arrival
  }

  /** It can be decoded where it stands: it is a decodable start, or the first
      of a stream, or it follows the one that came in right before it. */
  predicate FollowsAt(pending: seq<Pending>, k: nat, boundaries: set<nat>)
    requires k < |pending|
  {
    || Decodable(pending[k].payload)
    || pending[k].arrival in boundaries
    || (k > 0 && pending[k - 1].arrival + 1 == pending[k].arrival)
  }

  predicate Follows(pending: seq<Pending>, boundaries: set<nat>) {
    forall k :: 0 <= k < |pending| ==> FollowsAt(pending, k, boundaries)
  }

  /** The next one in may be any, unless a keyframe is waited for. */
  predicate UpToDate(all: seq<Pending>, m: Mirror, boundaries: set<nat>) {
    m.waiting || m.arrivals in boundaries || (all != [] && all[|all| - 1].arrival + 1 == m.arrivals)
  }

  predicate Bounded(m: Mirror) {
    |m.queue| <= 60 && m.spare <= 4 && (m.waiting ==> m.queue == [])
  }

  function Held(thread: Thread): seq<Pending> {
    if thread.Holding? then [thread.pending] else []
  }

  /** What has left the queue. */
  function Gone(s: System): seq<Pending> {
    s.history.decoded + Held(s.thread)
  }

  function All(s: System): seq<Pending> {
    Gone(s) + s.mirror.queue
  }

  /** What left the queue, then what is in it. */
  predicate InOrder(gone: seq<Pending>, m: Mirror, received: seq<Payload>, boundaries: set<nat>) {
    var all := gone + m.queue;
    && Bounded(m) && m.arrivals == |received|
    && Ordered(all, received) && Follows(all, boundaries) && UpToDate(all, m, boundaries)
  }

  predicate Inv(s: System) {
    InOrder(Gone(s), s.mirror, s.history.received, s.history.boundaries)
  }

  lemma {:induction false} RecycledBounded(spare: nat, n: nat)
    requires spare <= MAX_SPARE
    ensures Recycled(spare, n) <= MAX_SPARE
  {
    if n > 0 { RecycledBounded(spare, n - 1); }
  }

  /** Dropping what is queued keeps the rest in order. */
  lemma DropKeeps(gone: seq<Pending>, queue: seq<Pending>, received: seq<Payload>,
                  boundaries: set<nat>)
    requires Ordered(gone + queue, received) && Follows(gone + queue, boundaries)
    ensures gone + [] == gone && Ordered(gone, received) && Follows(gone, boundaries)
  {
    var all := gone + queue;
    forall k | 0 <= k < |gone|
      ensures gone[k] == all[k] && gone[k].arrival < |received| && gone[k].payload == received[gone[k].arrival]
    {
      assert gone[k] == all[k];
    }
    forall j, k | 0 <= j < k < |gone| ensures gone[j].arrival < gone[k].arrival {
      assert all[j].arrival < all[k].arrival;
    }
    forall k | 0 <= k < |gone|
      ensures FollowsAt(gone, k, boundaries)
    {
      assert FollowsAt(all, k, boundaries);
    }
  }

  lemma ReceiveKeeps(all: seq<Pending>, received: seq<Payload>, p: Payload)
    requires Ordered(all, received)
    ensures Ordered(all, received + [p])
  {
    forall k | 0 <= k < |all|
      ensures all[k].arrival < |received + [p]| && all[k].payload == (received + [p])[all[k].arrival]
    {
      assert all[k].payload == received[all[k].arrival];
    }
  }

  lemma AppendOrdered(all: seq<Pending>, received: seq<Payload>, p: Payload)
    requires Ordered(all, received)
    ensures Ordered(all + [Pending(p, |received|)], received + [p])
  {
    ReceiveKeeps(all, received, p);
    var longer := all + [Pending(p, |received|)];
    forall j, k | 0 <= j < k < |longer| ensures longer[j].arrival < longer[k].arrival {
      assert all[j].arrival < |received|;
    }
  }

  lemma AppendFollows(all: seq<Pending>, boundaries: set<nat>, one: Pending)
    requires Follows(all, boundaries)
    requires Decodable(one.payload) || one.arrival in boundaries || (all != [] && all[|all| - 1].arrival + 1 == one.arrival)
    ensures Follows(all + [one], boundaries)
  {
    forall k | 0 <= k < |all + [one]| ensures FollowsAt(all + [one], k, boundaries) {
      if k < |all| { assert FollowsAt(all, k, boundaries); }
    }
  }

  lemma BoundaryKeeps(all: seq<Pending>, boundaries: set<nat>, arrivals: nat)
    requires Follows(all, boundaries)
    ensures Follows(all, boundaries + {arrivals})
  {
    forall k | 0 <= k < |all| ensures FollowsAt(all, k, boundaries + {arrivals}) {
      assert FollowsAt(all, k, boundaries);
    }
  }

  lemma DropIfBehindKeeps(gone: seq<Pending>, m: Mirror, received: seq<Payload>, boundaries: set<nat>)
    requires InOrder(gone, m, received, boundaries)
    ensures var n := DropIfBehind(m); InOrder(gone, n, received, boundaries) && (n.waiting || |n.queue| < MAX_QUEUED)
  {
    RecycledBounded(m.spare, |m.queue|);
    DropKeeps(gone, m.queue, received, boundaries);
  }

  lemma EnqueueKeeps(gone: seq<Pending>, m: Mirror, received: seq<Payload>, boundaries: set<nat>, p: Payload)
    requires InOrder(gone, m, received, boundaries) && (m.waiting || |m.queue| < MAX_QUEUED)
    ensures InOrder(gone, Enqueue(m, p, Decodable(p)), received + [p], boundaries)
  {
    var all, one := gone + m.queue, Pending(p, m.arrivals);
    if m.waiting && !Decodable(p) {
      ReceiveKeeps(all, received, p);
    } else {
      AppendOrdered(all, received, p);
      AppendFollows(all, boundaries, one);
      assert gone + (m.queue + [one]) == all + [one];
    }
  }

  lemma ResetKeeps(gone: seq<Pending>, m: Mirror, received: seq<Payload>, boundaries: set<nat>)
    requires InOrder(gone, m, received, boundaries)
    ensures InOrder(gone, Reset(m), received, boundaries + {m.arrivals})
  {
    DropKeeps(gone, m.queue, received, boundaries);
    BoundaryKeeps(gone, boundaries, m.arrivals);
  }

  lemma StepKeeps(s: System, e: Event)
    requires Inv(s) && Enabled(s, e)
    ensures Inv(Next(s, e))
  {
    match e
    case Ingests(p) =>
      DropIfBehindKeeps(Gone(s), s.mirror, s.history.received, s.history.boundaries);
      EnqueueKeeps(Gone(s), DropIfBehind(s.mirror), s.history.received, s.history.boundaries, p);
    case Takes => assert All(Next(s, e)) == All(s);
    case Decodes => assert Gone(Next(s, e)) == Gone(s);
    case Resets => ResetKeeps(Gone(s), s.mirror, s.history.received, s.history.boundaries);
    case _ =>
  }

  predicate Legal(s: System, events: seq<Event>)
    decreases |events|
  {
    events != [] ==> Enabled(s, events[0]) && Legal(Next(s, events[0]), events[1..])
  }

  function After(s: System, events: seq<Event>): System
    requires Legal(s, events)
    decreases |events|
  {
    if events == [] then s else After(Next(s, events[0]), events[1..])
  }

  /** After the queue was told to quit nothing more comes in, and only the payload
      in hand is still decoded. */
  lemma QuittingStops(s: System, events: seq<Event>)
    requires Legal(s, [Quits] + events)
    ensures var t := After(s, [Quits] + events);
            && t.history.received == s.history.received
            && |t.history.decoded| <= |s.history.decoded| + (if s.thread.Holding? then 1 else 0)
  {
    var all := [Quits] + events;
    assert all[0] == Quits && all[1..] == events;
    StopsOnceQuit(Next(s, Quits), events);
  }

  lemma {:induction false} StopsOnceQuit(s: System, events: seq<Event>)
    requires s.mirror.quit && Legal(s, events)
    ensures var t := After(s, events);
            && t.history.received == s.history.received
            && |t.history.decoded| <= |s.history.decoded| + (if s.thread.Holding? then 1 else 0)
    decreases |events|
  {
    if events != [] { StopsOnceQuit(Next(s, events[0]), events[1..]); }
  }

  function Times(e: Event, events: seq<Event>): nat {
    if events == [] then 0 else (if events[0] == e then 1 else 0) + Times(e, events[1..])
  }

  /** The decoder is flushed once for every reset, and never before it. */
  lemma {:induction false} FlushesFollowResets(s: System, events: seq<Event>)
    requires Legal(s, events)
    ensures s.unflushed + Times(Resets, events) == After(s, events).unflushed + Times(Flushes, events)
    decreases |events|
  {
    if events != [] { FlushesFollowResets(Next(s, events[0]), events[1..]); }
  }

  lemma {:induction false} RunKeeps(s: System, events: seq<Event>)
    requires Inv(s) && Legal(s, events)
    ensures Inv(After(s, events))
    decreases |events|
  {
    if events != [] {
      StepKeeps(s, events[0]);
      RunKeeps(Next(s, events[0]), events[1..]);
    }
  }

  lemma DecodedKeeps(decoded: seq<Pending>, held: seq<Pending>, queue: seq<Pending>, received: seq<Payload>,
                     boundaries: set<nat>)
    requires Ordered(decoded + held + queue, received) && Follows(decoded + held + queue, boundaries)
    ensures Ordered(decoded, received) && Follows(decoded, boundaries)
  {
    assert decoded + (held + queue) == decoded + held + queue;
    DropKeeps(decoded, held + queue, received, boundaries);
  }

  /** In every interleaving the decoder gets payloads in the order in which they
      came in, each of them a decodable start, the first of a stream, or right
      behind the one that came in before it; while a keyframe is waited for
      nothing is queued, and no more than 60 ever are. */
  lemma DecodedInOrder(events: seq<Event>)
    requires Legal(START, events)
    ensures var s := After(START, events);
            && Ordered(s.history.decoded, s.history.received)
            && Follows(s.history.decoded, s.history.boundaries)
            && Bounded(s.mirror)
  {
    RunKeeps(START, events);
    var s := After(START, events);
    DecodedKeeps(s.history.decoded, Held(s.thread), s.mirror.queue, s.history.received, s.history.boundaries);
  }

  // ---- what a reset leaves

  predicate AllSince(pending: seq<Pending>, from: nat, boundary: nat) {
    forall k :: from <= k < |pending| ==> pending[k].arrival >= boundary
  }

  /** Since a reset with `before` decoded and `held` in hand: no payload of the
      stream that ended is queued, in hand or decoded, but for `held`. */
  predicate Since(before: seq<Pending>, held: seq<Pending>, boundary: nat, s: System) {
    && boundary <= s.mirror.arrivals && AllSince(s.mirror.queue, 0, boundary)
    && before + held <= Gone(s) && before <= s.history.decoded
    && AllSince(Gone(s), |before + held|, boundary)
  }

  lemma SinceStep(before: seq<Pending>, held: seq<Pending>, boundary: nat, s: System, e: Event)
    requires Since(before, held, boundary, s) && Enabled(s, e)
    ensures Since(before, held, boundary, Next(s, e))
  {
    match e
    case Takes => assert Gone(Next(s, e)) == Gone(s) + [s.mirror.queue[0]];
    case Decodes => assert Gone(Next(s, e)) == Gone(s);
    case _ =>
  }

  lemma {:induction false} SinceRun(before: seq<Pending>, held: seq<Pending>, boundary: nat, s: System, events: seq<Event>)
    requires Since(before, held, boundary, s) && Legal(s, events)
    ensures Since(before, held, boundary, After(s, events))
    decreases |events|
  {
    if events != [] {
      SinceStep(before, held, boundary, s, events[0]);
      SinceRun(before, held, boundary, Next(s, events[0]), events[1..]);
    }
  }

  /** What `Since` means for what is decoded later. */
  lemma SinceDecoded(before: seq<Pending>, held: seq<Pending>, boundary: nat, t: System, k: nat)
    requires Since(before, held, boundary, t) && |before| <= k < |t.history.decoded|
    requires |held| <= 1 && (held != [] ==> held[0].arrival < boundary)
    ensures t.history.decoded[k].arrival < boundary <==> k == |before| && held != []
    ensures k == |before| && held != [] ==> t.history.decoded[k] == held[0]
  {
    assert Gone(t)[k] == t.history.decoded[k];
    if k == |before| && held != [] {
      assert (before + held)[k] == held[0];
    }
  }

  lemma ResetSince(first: seq<Event>, later: seq<Event>)
    requires Legal(START, first) && Legal(Next(After(START, first), Resets), later)
    ensures var s := After(START, first);
            && (s.thread.Holding? ==> s.thread.pending.arrival < s.mirror.arrivals)
            && Since(s.history.decoded, Held(s.thread), s.mirror.arrivals, After(Next(s, Resets), later))
  {
    var s := After(START, first);
    RunKeeps(START, first);
    if s.thread.Holding? {
      assert All(s)[|s.history.decoded|] == s.thread.pending;
    }
    SinceRun(s.history.decoded, Held(s.thread), s.mirror.arrivals, Next(s, Resets), later);
  }

  /** In every interleaving a reset leaves at most one payload of the stream
      that ended to be decoded: the one in hand, if there is one. */
  lemma ResetLeavesOne(first: seq<Event>, later: seq<Event>, k: nat)
    requires Legal(START, first) && Legal(Next(After(START, first), Resets), later)
    requires |After(START, first).history.decoded| <= k < |After(Next(After(START, first), Resets), later).history.decoded|
    ensures var s := After(START, first);
            After(Next(s, Resets), later).history.decoded[k].arrival < s.mirror.arrivals <==>
              k == |s.history.decoded| && s.thread.Holding?
  {
    var s := After(START, first);
    ResetSince(first, later);
    SinceDecoded(s.history.decoded, Held(s.thread), s.mirror.arrivals, After(Next(s, Resets), later), k);
  }

  /** So the decoder, once flushed, gets at most one: the one still in hand then. */
  lemma FlushedDecoderGetsOne(first: seq<Event>, between: seq<Event>, later: seq<Event>, s: System, u: System, k: nat)
    requires Legal(START, first) && s == After(START, first)
    requires Legal(Next(s, Resets), between) && u == After(Next(s, Resets), between)
    requires Enabled(u, Flushes) && Legal(Next(u, Flushes), later)
    requires |u.history.decoded| <= k < |After(Next(u, Flushes), later).history.decoded|
    ensures After(Next(u, Flushes), later).history.decoded[k].arrival < s.mirror.arrivals <==>
              k == |u.history.decoded| && u.thread.Holding? && u.thread.pending.arrival < s.mirror.arrivals
  {
    var before, held, boundary := s.history.decoded, Held(s.thread), s.mirror.arrivals;
    var t := After(Next(u, Flushes), later);
    ResetSince(first, between);
    SinceStep(before, held, boundary, u, Flushes);
    SinceRun(before, held, boundary, Next(u, Flushes), later);
    SinceDecoded(before, held, boundary, t, k);
    if u.thread.Holding? {
      assert Gone(u)[|u.history.decoded|] == u.thread.pending;
    }
    if held != [] {
      var kept := before + held;
      assert kept[|before|] == held[0] && Gone(u)[|before|] == kept[|before|];
    }
  }

  lemma StartsWith(s: System, e: Event, rest: seq<Event>, events: seq<Event>)
    requires Enabled(s, e) && Legal(Next(s, e), rest) && events == [e] + rest
    ensures Legal(s, events) && After(s, events) == After(Next(s, e), rest)
  {
  }

  /** And it can get that one: a payload taken just before the reset. */
  lemma LeftoverReachesDecoder(p: Payload)
    requires p.data != []
    ensures var events := [Ingests(p), Takes, Resets, Flushes, Decodes];
            && Legal(START, events)
            && var s := After(START, events); s.history.decoded == [Pending(p, 0)] && 1 in s.history.boundaries
  {
    var ingested := Next(START, Ingests(p));
    var taken := Next(ingested, Takes);
    var reset := Next(taken, Resets);
    var flushed := Next(reset, Flushes);
    StartsWith(flushed, Decodes, [], [Decodes]);
    StartsWith(reset, Flushes, [Decodes], [Flushes, Decodes]);
    StartsWith(taken, Resets, [Flushes, Decodes], [Resets, Flushes, Decodes]);
    StartsWith(ingested, Takes, [Resets, Flushes, Decodes], [Takes, Resets, Flushes, Decodes]);
    StartsWith(START, Ingests(p), [Takes, Resets, Flushes, Decodes], [Ingests(p), Takes, Resets, Flushes, Decodes]);
  }

  function Payloads(pending: seq<Pending>): seq<Payload> {
    if pending == [] then [] else Payloads(pending[..|pending| - 1]) + [pending[|pending| - 1].payload]
  }

  function PayloadOf(e: Event): seq<Payload> {
    if e.Ingests? then [e.payload] else []
  }

  function Ingested(events: seq<Event>): seq<Payload> {
    if events == [] then []
    else PayloadOf(events[0]) + Ingested(events[1..])
  }

  /** The decoder keeps up and the stream goes on: no payload finds the queue full. */
  predicate KeepsUp(s: System, events: seq<Event>)
    requires Legal(s, events)
    decreases |events|
  {
    events != [] ==>
      && (events[0].Ingests? ==> |s.mirror.queue| < 60) && !events[0].Resets?
      && KeepsUp(Next(s, events[0]), events[1..])
  }

  lemma StepLosesNothing(s: System, e: Event)
    requires Enabled(s, e) && !s.mirror.waiting && !e.Resets? && (e.Ingests? ==> |s.mirror.queue| < 60)
    ensures !Next(s, e).mirror.waiting && Payloads(All(Next(s, e))) == Payloads(All(s)) + PayloadOf(e)
  {
    match e
    case Ingests(p) =>
      var one := Pending(p, s.mirror.arrivals);
      assert All(Next(s, e)) == All(s) + [one];
      assert (All(s) + [one])[..|All(s)|] == All(s);
    case Takes => assert All(Next(s, e)) == All(s);
    case Decodes => assert Gone(Next(s, e)) == Gone(s);
    case _ =>
  }

  lemma Regroup(a: seq<Payload>, b: seq<Payload>, c: seq<Payload>)
    ensures a + b + c == a + (b + c)
  {
  }

  /** Then every payload is decoded, in hand or queued, each once and in order. */
  lemma {:induction false} NothingLost(s: System, events: seq<Event>)
    requires Legal(s, events) && KeepsUp(s, events) && !s.mirror.waiting
    ensures Payloads(All(After(s, events))) == Payloads(All(s)) + Ingested(events)
    decreases |events|
  {
    if events == [] {
      assert Payloads(All(s)) + [] == Payloads(All(s));
    } else {
      StepLosesNothing(s, events[0]);
      NothingLost(Next(s, events[0]), events[1..]);
      Regroup(Payloads(All(s)), PayloadOf(events[0]), Ingested(events[1..]));
    }
  }

  class Queue {
    var queue: seq<Pending>
    var waiting: bool
    var quit: bool
    var spare: nat
    var arrivals: nat   // how many came in, to tell them apart

    function View(): Mirror reads this {
      Mirror(queue, waiting, quit, spare, arrivals)
    }

    constructor ()
      ensures View() == Mirror([], false, false, 0, 0)
    {
      queue, waiting, quit, spare, arrivals := [], false, false, 0, 0;
    }

    method IngestVideoBitstream(p: Payload)
      modifies this
      ensures View() == Ingest(old(View()), p)
    {
      if p.data == [] { return; }
      var keyframe := StartsDecodableStream(p.data, p.isH265);
      if quit { return; }
      if |queue| >= MAX_QUEUED && !waiting {
        ghost var had := spare;
        for i := 0 to |queue|
          invariant queue == old(queue) && !waiting && !quit && arrivals == old(arrivals)
          invariant spare == Recycled(had, i)
        {
          if spare < MAX_SPARE { spare := spare + 1; }
        }
        queue := [];
        waiting := true;
      }
      if waiting {
        if !keyframe {
          arrivals := arrivals + 1;
          return;
        }
        waiting := false;
      }
      if spare > 0 { spare := spare - 1; }
      queue := queue + [Pending(p, arrivals)];
      arrivals := arrivals + 1;
    }

    method TakePayload() returns (p: Pending)
      requires queue != []
      modifies this
      ensures View() == Take(old(View())) && p == old(queue)[0]
    {
      p := queue[0];
      queue := queue[1..];
    }

    method GiveBackBuffer()
      modifies this
      ensures View() == GiveBack(old(View()))
    {
      if spare < MAX_SPARE { spare := spare + 1; }
    }

    method ResetQueue()
      modifies this
      ensures View() == Reset(old(View()))
    {
      queue := [];
      waiting := false;
    }
  }
}
