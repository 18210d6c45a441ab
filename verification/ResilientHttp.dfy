/** Byte-exact input over a connection that may stop short, fail to reopen, be
    refused or be interrupted at any point (ResilientHttpIo in
    src/media-player.cpp). The server's file is fixed; everything else about
    the network is an arbitrary schedule of events. */
module ResilientHttp {
  import opened Common

  const MAX_ATTEMPTS := 5
  const FORWARD_SKIP := 256 * 1024
  const SCRATCH := 16384

  datatype Reopened = Opened | NotOpened | Forbidden

  /** What the network and the user do at one moment: whether playback is being
      stopped, how a new request ends, and how many bytes a read of the current
      response supplies (none at its end, negative for an error). */
  datatype Event = Event(interrupted: bool, request: Reopened, supply: int)

  datatype ReadResult = Data(bytes: seq<byte>) | EndOfFile | Exit | Refused | ReadError

  datatype Whence = Set | Current | End | Size | Other

  datatype SeekResult = At(position: int) | SizeIs(size: int) | NoSize | Invalid | SeekExit | SeekRefused | SeekError

  /** How an attempt to get somewhere ends: there, at the moment after the event
      that brought it there; or it is stopped, refused for good, or given up. */
  datatype Fate = Reached(next: nat) | Stopped | Denied | GivenUp

  class ResilientIo {
    const file: seq<byte>           // what the server holds
    const sized: bool               // whether it reports its size
    const network: nat -> Event
    var moment: nat
    var inner: Option<nat>          // the open response: where it continues in the file
    var position: nat
    var size: int
    var reopens: nat

    predicate Valid() reads this {
      && (inner.Some? ==> inner.value == position)
      && (size == -1 || (sized && size == |file| && size > 0))
    }

    constructor (file: seq<byte>, sized: bool, network: nat -> Event)
      ensures Valid() && this.file == file && this.sized == sized && this.network == network
      ensures position == 0 && inner == None && size == -1
    {
      this.file, this.sized, this.network := file, sized, network;
      moment, inner, position, size, reopens := 0, None, 0, -1, 0;
    }

    method Interrupted() returns (stop: bool)
      modifies `moment
      ensures stop == network(old(moment)).interrupted && moment == old(moment) + 1
    {
      stop := network(moment).interrupted;
      moment := moment + 1;
    }

    /** No interruption in the wait before another attempt: 5 polls more each time. */
    ghost predicate Undisturbed(from: nat, polls: nat) {
      forall i :: from <= i < from + polls ==> !network(i).interrupted
    }

    function Polls(attempt: nat): nat { 5 * (attempt + 1) + 1 }

    /** True when the wait was not interrupted. */
    method BackOff(attempt: nat) returns (goOn: bool)
      modifies `moment
      ensures goOn <==> Undisturbed(old(moment), 5 * (attempt + 1) + 1)
      ensures goOn ==> moment == old(moment) + 5 * (attempt + 1) + 1
      ensures moment > old(moment) && goOn == !network(moment - 1).interrupted
    {
      var waited := 0;
      while waited < 50 * (attempt + 1)
        invariant waited == 10 * (moment - old(moment)) <= 50 * (attempt + 1)
        invariant Undisturbed(old(moment), moment - old(moment))
      {
        var stop := Interrupted();
        if stop { return false; }
        waited := waited + 10;
      }
      var stop := Interrupted();
      return !stop;
    }

    /** How a read ends that stands at moment `t` before attempt `attempt` of five
        and goes on with fresh requests until bytes are supplied. */
    ghost function ReadFate(t: nat, open: bool, attempt: nat): Fate
      decreases 5 - attempt, 1, t
    {
      if attempt >= 5 then GivenUp
      else if network(t).interrupted then Stopped
      else if open && network(t + 1).supply > 0 then Reached(t + 2)
      else RetryFate(if open then t + 2 else t + 1, attempt)
    }

    /** The same, from the fresh request of that attempt on. */
    ghost function RetryFate(t: nat, attempt: nat): Fate
      requires attempt < 5
      decreases 5 - attempt, 0, t
    {
      var request := network(t).request;
      if request.Forbidden? then Denied
      else if request.NotOpened? && !Undisturbed(t + 1, Polls(attempt)) then Stopped
      else ReadFate(if request.Opened? then t + 1 else t + 1 + Polls(attempt), request.Opened?, attempt + 1)
    }

    /** An interruption when a read begins ends it, and bytes that an open response
        supplies then are taken. */
    lemma ReadBegins(t: nat, open: bool)
      ensures network(t).interrupted ==> ReadFate(t, open, 0) == Stopped && OpenFate(t, 0) == Stopped
      ensures !network(t).interrupted && open && network(t + 1).supply > 0 ==> ReadFate(t, open, 0) == Reached(t + 2)
      ensures !network(t).interrupted && network(t + 1).request.Opened? ==> OpenFate(t, 0) == Reached(t + 2)
    {
    }

    /** A reason for such an end, from moment `t` on: bytes at the last moment and no
        interruption at the poll before them, an interruption, or a refusal. */
    ghost predicate HasReason(fate: Fate, t: nat) {
      match fate
      case Reached(next) => next >= t + 2 && network(next - 1).supply > 0 && !network(next - 2).interrupted
      case Stopped => exists at: nat :: at >= t && network(at).interrupted
      case Denied => exists at: nat :: at >= t && network(at).request.Forbidden?
      case GivenUp => true
    }

    lemma ReasonFromBefore(fate: Fate, t: nat, before: nat)
      requires HasReason(fate, t) && before <= t
      ensures HasReason(fate, before)
    {
    }

    /** Each end of a read has its reason. */
    lemma {:induction false} ReadEndsForAReason(t: nat, open: bool, attempt: nat)
      ensures HasReason(ReadFate(t, open, attempt), t)
      decreases 5 - attempt, 1
    {
      if attempt < 5 && !network(t).interrupted && !(open && network(t + 1).supply > 0) {
        var from := if open then t + 2 else t + 1;
        RetryEndsForAReason(from, attempt);
        ReasonFromBefore(RetryFate(from, attempt), from, t);
      }
    }

    lemma {:induction false} RetryEndsForAReason(t: nat, attempt: nat)
      requires attempt < 5
      ensures HasReason(RetryFate(t, attempt), t)
      decreases 5 - attempt, 0
    {
      var rested := t + 1 + Polls(attempt);
      if network(t).request.Opened? {
        RetriesOpened(t, attempt);
        ReadEndsForAReason(t + 1, true, attempt + 1);
        ReasonFromBefore(RetryFate(t, attempt), t + 1, t);
      } else if network(t).request.Forbidden? {
        RetriesDenied(t, attempt);
      } else if Undisturbed(t + 1, Polls(attempt)) {
        RetriesRested(t, attempt, rested);
        ReadEndsForAReason(rested, false, attempt + 1);
        ReasonFromBefore(RetryFate(t, attempt), rested, t);
      } else {
        RetriesStopped(t, attempt);
      }
    }

    /** The branches of `RetryFate`, one by one. */
    lemma RetriesOpened(t: nat, attempt: nat)
      requires attempt < 5 && network(t).request.Opened?
      ensures RetryFate(t, attempt) == ReadFate(t + 1, true, attempt + 1)
    {
    }

    lemma RetriesRested(t: nat, attempt: nat, rested: nat)
      requires attempt < 5 && network(t).request.NotOpened?
      requires Undisturbed(t + 1, Polls(attempt)) && rested == t + 1 + Polls(attempt)
      ensures RetryFate(t, attempt) == ReadFate(rested, false, attempt + 1)
    {
    }

    lemma RetriesStopped(t: nat, attempt: nat)
      requires attempt < 5 && network(t).request.NotOpened? && !Undisturbed(t + 1, Polls(attempt))
      ensures RetryFate(t, attempt) == Stopped
    {
    }

    lemma RetriesDenied(t: nat, attempt: nat)
      requires attempt < 5 && network(t).request.Forbidden?
      ensures RetryFate(t, attempt) == Denied
    {
    }

    /** How much of `wanted` a delivery brings at `at`. */
    ghost function Portion(moment: nat, at: nat, wanted: nat): int {
      Min(network(moment).supply, Min(wanted, |file| - at))
    }

    /** Whether a read that ends so and supplies a portion gets from `at` to `target` by more of them. */
    ghost predicate SkipsOn(fate: Fate, at: nat, target: nat)
      requires at < target
      decreases target - at, 0
    {
      && fate.Reached? && fate.next > 0
      && var next := at + Portion(fate.next - 1, at, Min(16384, target - at));
         at < next && WillSkip(fate.next, next, target)
    }

    /** The schedule from moment `t` on lets reads of at most 16384 bytes get from `at` to `target`. */
    ghost predicate WillSkip(t: nat, at: nat, target: nat)
      decreases target - at, 1
    {
      at == target || (at < target && at < |file| && SkipsOn(ReadFate(t, true, 0), at, target))
    }

    lemma SkipsOnWhenSupplied(fate: Fate, at: nat, target: nat, next: nat)
      requires at < target && fate.Reached? && fate.next > 0
      requires next == at + Portion(fate.next - 1, at, Min(16384, target - at)) && at < next
      ensures SkipsOn(fate, at, target) == WillSkip(fate.next, next, target)
    {
    }

    lemma SkipStarts(t: nat, at: nat, target: nat, fate: Fate)
      requires at < target && fate == ReadFate(t, true, 0)
      ensures WillSkip(t, at, target) <==> at < |file| && SkipsOn(fate, at, target)
    {
    }

    /** How a new request is opened, in five attempts. */
    ghost function OpenFate(t: nat, attempt: nat): Fate
      decreases 5 - attempt, t
    {
      if attempt >= 5 then GivenUp
      else if network(t).interrupted then Stopped
      else if network(t + 1).request.Opened? then Reached(t + 2)
      else if network(t + 1).request.Forbidden? then Denied
      else if !Undisturbed(t + 2, Polls(attempt)) then Stopped
      else OpenFate(t + 2 + Polls(attempt), attempt + 1)
    }

    /** A reason for the end of such attempts: a request that was opened right after
        a poll without an interruption, an interruption, or a refusal. */
    ghost predicate HasOpenReason(fate: Fate, t: nat) {
      match fate
      case Reached(next) => next >= t + 2 && network(next - 1).request.Opened? && !network(next - 2).interrupted
      case _ => HasReason(fate, t)
    }

    lemma OpensAgain(t: nat, attempt: nat, rested: nat)
      requires attempt < 5 && !network(t).interrupted && network(t + 1).request.NotOpened?
      requires Undisturbed(t + 2, Polls(attempt)) && rested == t + 2 + Polls(attempt)
      ensures OpenFate(t, attempt) == OpenFate(rested, attempt + 1)
    {
    }

    lemma {:induction false} OpenEndsForAReason(t: nat, attempt: nat) returns (fate: Fate)
      ensures fate == OpenFate(t, attempt) && HasOpenReason(fate, t)
      decreases 5 - attempt
    {
      if attempt < 5 && !network(t).interrupted && network(t + 1).request.NotOpened? && Undisturbed(t + 2, Polls(attempt)) {
        var rested := t + 2 + Polls(attempt);
        OpensAgain(t, attempt, rested);
        fate := OpenEndsForAReason(rested, attempt + 1);
        OpenReasonFromBefore(fate, rested, t);
      } else {
        OpenEndsHere(t, attempt);
        fate := OpenFate(t, attempt);
      }
    }

    lemma OpenReasonFromBefore(fate: Fate, t: nat, before: nat)
      requires HasOpenReason(fate, t) && before <= t
      ensures HasOpenReason(fate, before)
    {
    }

    lemma OpenEndsHere(t: nat, attempt: nat)
      requires attempt < 5 && !network(t).interrupted && network(t + 1).request.NotOpened? ==>
        !Undisturbed(t + 2, Polls(attempt))
      ensures HasOpenReason(OpenFate(t, attempt), t)
    {
    }

    /** When the attempts to open a request begin, each but the first after a poll, a
        request and 6, 11, 16, 21 or 26 polls of waiting. */
    function AttemptAt(t: nat, k: nat): nat {
      if k == 0 then t else AttemptAt(t, k - 1) + 2 + 5 * k + 1
    }

    /** The request of attempt `k` is not opened, and nothing interrupts it or the wait behind it. */
    predicate FailsQuietly(from: nat, k: nat) {
      && !network(from).interrupted && network(from + 1).request.NotOpened?
      && forall i :: from + 2 <= i < from + 2 + 5 * (k + 1) + 1 ==> !network(i).interrupted
    }

    lemma {:induction false} OpensAfter(t: nat, k: nat)
      requires k <= 5 && forall j: nat :: j < k ==> FailsQuietly(AttemptAt(t, j), j)
      ensures OpenFate(t, 0) == OpenFate(AttemptAt(t, k), k)
    {
      if k > 0 {
        OpensAfter(t, k - 1);
        assert FailsQuietly(AttemptAt(t, k - 1), k - 1);
        OpensAgain(AttemptAt(t, k - 1), k - 1, AttemptAt(t, k));
      }
    }

    /** Five requests that are not opened are the end of it; any of them that is
        opened before is taken. */
    lemma FiveAttempts(t: nat, k: nat)
      requires k <= 5 && forall j: nat :: j < k ==> FailsQuietly(AttemptAt(t, j), j)
      ensures var at := AttemptAt(t, k);
        && (k == 5 ==> OpenFate(t, 0) == GivenUp)
        && (k < 5 && !network(at).interrupted && network(at + 1).request.Opened? ==> OpenFate(t, 0) == Reached(at + 2))
    {
      OpensAfter(t, k);
    }

    /** A fresh request at `offset`; only a successful one moves the position. */
    method Reopen(offset: nat) returns (r: Reopened)
      requires Valid()
      modifies `moment, `inner, `size, `position
      ensures Valid()
      ensures old(size) > 0 ==> size == old(size)
      ensures r == network(old(moment)).request && moment == old(moment) + 1
      ensures if r.Opened? then position == offset && inner == Some(offset) && (sized && file != [] ==> size == |file|)
              else position == old(position) && inner == None && size == old(size)
    {
      r := network(moment).request;
      moment := moment + 1;
      inner := None;
      if !r.Opened? { return; }
      if size <= 0 {
        var reported := if sized then |file| else -1;
        size := if reported > 0 then reported else -1;
      }
      position := offset;
      inner := Some(offset);
    }

    /** True exactly when the server can be read with a known size. */
    method Open() returns (ok: bool)
      requires Valid()
      modifies this
      ensures Valid()
      ensures ok <==> network(old(moment)).request.Opened? && sized && file != []
      ensures ok ==> inner == Some(0) && position == 0 && size == |file|
      ensures ok ==> reopens == 0
    {
      var request := Reopen(0);
      if !request.Opened? || size <= 0 { return false; }
      reopens := 0;
      ok := true;
    }

    /** One read of the open response: some of the bytes that follow, or not. */
    method ReadPartial(wanted: nat) returns (got: int, bytes: seq<byte>)
      requires inner.Some? && wanted > 0
      modifies `moment, `inner
      ensures inner.Some? && moment == old(moment) + 1
      ensures old(inner.value) < |file| ==> (got > 0 <==> network(old(moment)).supply > 0)
      ensures got <= 0 ==> (got < 0 <==> network(old(moment)).supply < 0)
      ensures if got > 0
              then old(inner.value) + got <= |file| && got <= wanted && inner.value == old(inner.value) + got
                   && bytes == file[old(inner.value)..inner.value]
                   && got == Portion(old(moment), old(inner.value), wanted)
              else inner == old(inner)
    {
      var supply := network(moment).supply;
      moment := moment + 1;
      var start := inner.value;
      if supply <= 0 || start >= |file| { return Min(supply, 0), []; }
      got := Min(supply, Min(wanted, |file| - start));
      bytes := file[start..start + got];
      inner := Some(start + got);
    }

    /** The last event is the one that a failure blames. */
    predicate Blamed(failure: ReadResult)
      reads this
    {
      && moment > 0
      && ((failure.Exit? && network(moment - 1).interrupted)
          || (failure.Refused? && network(moment - 1).request.Forbidden?))
    }

    /** Goes on at the same position with a fresh request, or gives up. */
    method Continue(attempt: nat) returns (goOn: bool, failure: ReadResult)
      requires Valid() && attempt < 5
      modifies this
      ensures Valid() && position == old(position) && reopens == old(reopens) + 1 && moment > old(moment)
      ensures old(size) > 0 ==> size == old(size)
      ensures goOn ==> ReadFate(moment, inner.Some?, attempt + 1) == old(RetryFate(moment, attempt))
      ensures !goOn ==>
        old(RetryFate(moment, attempt)) == (if failure.Refused? then Denied else Stopped) && Blamed(failure)
    {
      ghost var start := moment;
      reopens := reopens + 1;
      var reopened := Reopen(position);
      if reopened.Forbidden? {
        RetriesDenied(start, attempt);
        return false, Refused;
      }
      if reopened.NotOpened? {
        var undisturbed := BackOff(attempt);
        if !undisturbed {
          RetriesStopped(start, attempt);
          return false, Exit;
        }
        RetriesRested(start, attempt, moment);
      } else {
        RetriesOpened(start, attempt);
      }
      return true, Exit;
    }

    /** One attempt of a read, after `last`; `again` when another is due. */
    method TryRead(wanted: nat, attempt: nat, last: ReadResult) returns (again: bool, r: ReadResult)
      requires Valid() && wanted > 0 && attempt < 5 && (last.EndOfFile? || last.ReadError?)
      modifies this
      ensures Valid() && (old(size) > 0 ==> size == old(size))
      ensures old(reopens) <= reopens <= old(reopens) + 1
      ensures again ==>
        && (r.EndOfFile? || r.ReadError?) && position == old(position) && reopens == old(reopens) + 1
        && size > 0 && position < size
        && ReadFate(moment, inner.Some?, attempt + 1) == old(ReadFate(moment, inner.Some?, attempt))
      ensures !again && old(size) > 0 && old(position) < size ==>
        match old(ReadFate(moment, inner.Some?, attempt))
        case Reached(next) =>
          r.Data? && moment == next > 0 && |r.bytes| == Portion(next - 1, old(position), wanted)
        case Stopped => r == Exit
        case Denied => r == Refused
        case GivenUp => false
      ensures !again && (r.Exit? || r.Refused?) ==> Blamed(r)
      ensures !again && old(size) <= 0 && size <= 0 ==>
        var start := old(moment);
        if network(start).interrupted then r == Exit
        else if old(inner) == None then r == last
        else if old(position) < |file| && network(start + 1).supply > 0 then r.Data?
        else r == if network(start + 1).supply < 0 then ReadError else EndOfFile
      ensures match r
        case Data(bytes) =>
          0 < |bytes| <= wanted && position == old(position) + |bytes| <= |file|
          && bytes == file[old(position)..position] && inner == Some(position)
        case _ => position == old(position)
    {
      r := last;
      var stop := Interrupted();
      if stop { return false, Exit; }
      if inner.Some? {
        var got, bytes := ReadPartial(wanted);
        if got > 0 {
          position := position + got;
          return false, Data(bytes);
        }
        r := if got < 0 then ReadError else EndOfFile;
      }
      if size <= 0 || position >= size { return false, r; }
      var goOn, failure := Continue(attempt);
      if !goOn { return false, failure; }
      again := true;
    }

    /** A successful read returns exactly the file's bytes at the position; the
        end is reported at the known size and nowhere below it, and each failure
        for its own reason. */
    method Read(wanted: nat) returns (r: ReadResult)
      requires Valid() && wanted > 0
      modifies this
      ensures Valid()
      ensures old(size) > 0 ==> size == old(size)
      ensures match r
        case Data(bytes) =>
          0 < |bytes| <= wanted && position == old(position) + |bytes| <= |file|
          && bytes == file[old(position)..position] && inner == Some(position)
        case _ => position == old(position)
      ensures old(size) > 0 ==> (r.EndOfFile? <==> old(position) >= size)
      ensures old(size) > 0 && old(position) >= size ==> moment == old(moment)
      ensures old(size) > 0 && old(position) < size ==>
        match old(ReadFate(moment, inner.Some?, 0))
        case Reached(next) =>
          r.Data? && moment == next > 0 && |r.bytes| == Portion(next - 1, old(position), wanted)
        case Stopped => r == Exit
        case Denied => r == Refused
        case GivenUp => r == ReadError && reopens == old(reopens) + 5
      ensures r.Exit? || r.Refused? ==> Blamed(r)
      ensures old(reopens) <= reopens <= old(reopens) + 5
    {
      if size > 0 && position >= size { return EndOfFile; }
      var last := EndOfFile;
      var attempt := 0;
      ghost var fate := ReadFate(moment, inner.Some?, 0);
      while attempt < MAX_ATTEMPTS
        invariant Valid() && attempt <= MAX_ATTEMPTS
        invariant last.EndOfFile? || last.ReadError?
        invariant position == old(position) && (old(size) > 0 ==> size == old(size) && position < size)
        invariant reopens == old(reopens) + attempt
        invariant ReadFate(moment, inner.Some?, attempt) == fate
      {
        var again;
        again, last := TryRead(wanted, attempt, last);
        if !again { return last; }
        attempt := attempt + 1;
      }
      return ReadError;
    }

    /** One read of a skip. */
    method TrySkip(target: nat) returns (read: bool)
      requires Valid() && inner.Some? && position < target
      modifies this
      ensures Valid() && (old(size) > 0 ==> size == old(size))
      ensures if read then old(position) < position <= target && inner == Some(position) else position == old(position)
      ensures old(size) > 0 ==>
        old(WillSkip(moment, position, target)) == (read && WillSkip(moment, position, target))
    {
      ghost var at, known, fate := position, size > 0, ReadFate(moment, true, 0);
      SkipStarts(moment, at, target, fate);
      var r := Read(Min(SCRATCH, target - position));
      read := r.Data?;
      if read && known { SkipsOnWhenSupplied(fate, at, target, position); }
    }

    /** Reads through the open response up to `target`; it may stop short. */
    method SkipForward(target: nat)
      requires Valid() && inner.Some? && position < target
      modifies this
      ensures Valid() && old(position) <= position <= target
      ensures old(size) > 0 ==> size == old(size)
      ensures position == target ==> inner == Some(target)
      ensures old(size) > 0 ==> (position == target <==> old(WillSkip(moment, position, target)))
    {
      ghost var skips := WillSkip(moment, position, target);
      while position < target
        invariant Valid() && old(position) <= position <= target
        invariant old(size) > 0 ==> size == old(size)
        invariant inner == Some(position)
        invariant old(size) > 0 ==> WillSkip(moment, position, target) == skips
        decreases target - position
      {
        var read := TrySkip(target);
        if !read { break; }
      }
    }

    /** Where a seek is to lead; negative: nowhere. */
    function Target(offset: int, whence: Whence): int
      reads this
    {
      match whence
      case Set => offset
      case Current => position + offset
      case End => if size > 0 then size + offset else -1
      case _ => -1
    }

    /** A target within 262144 bytes behind the position of an open response. */
    predicate IsShort(target: int)
      reads this
    {
      inner.Some? && position < target <= position + 262_144
    }

    /** `from`: when it turned to a new request, at once or after a short skip
        that failed. */
    method Seek(offset: int, whence: Whence) returns (r: SeekResult, ghost from: nat)
      requires Valid()
      modifies this
      ensures Valid()
      ensures old(size) > 0 ==> size == old(size)
      ensures match whence
        case Set => (r.At? ==> r.position == offset) && (r.Invalid? <==> offset < 0)
        case Current => (r.At? ==> r.position == old(position) + offset) && (r.Invalid? <==> old(position) + offset < 0)
        case End =>
          (r.At? ==> r.position == old(size) + offset) && (r.Invalid? <==> old(size) <= 0 || old(size) + offset < 0)
        case Size => !r.At? && !r.Invalid?
        case Other => r.Invalid?
      ensures whence.Size? ==> position == old(position) && r == if size > 0 then SizeIs(size) else NoSize
      ensures !whence.Size? ==>
        var target := old(Target(offset, whence));
        && (r.Invalid? <==> target < 0)
        && (r.At? ==> r.position == position == target)
        && (r.At? && (size <= 0 || position < size) ==> inner == Some(position))
        && (old(inner).Some? && target == old(position) >= 0 ==> r.At? && inner == old(inner) && moment == old(moment))
        && (r.At? || r.Invalid? || SeekBlamed(r))
        && (!r.At? ==> position == old(position) || (old(IsShort(target)) && old(position) < position < target))
      ensures !whence.Size? && old(size) > 0 ==>
        var target := old(Target(offset, whence));
        && (!(old(inner).Some? && old(position) < target <= old(position) + 262_144) ==> from == old(moment))
        && (target < 0 || (old(inner).Some? && target == old(position)) ||
            if old(IsShort(target) && WillSkip(moment, position, target))
            then r == At(target) && inner == Some(target)
            else r == if target >= size then At(target) else SeekOf(OpenFate(from, 0), target))
      ensures !whence.Size? && old(size) <= 0 ==>
        var target := old(Target(offset, whence));
        target < 0 || (old(inner).Some? && target == old(position)) || old(IsShort(target))
        || r == SeekOf(old(OpenFate(moment, 0)), target)
    {
      from := moment;
      if whence.Size? { return if size > 0 then SizeIs(size) else NoSize, from; }
      var target := -1;
      if whence.Set? { target := offset; }
      else if whence.Current? { target := position + offset; }
      else if whence.End? && size > 0 { target := size + offset; }
      if target < 0 { return Invalid, from; }
      if target == position && inner.Some? { return At(target), from; }
      if inner.Some? && target > position && target - position <= FORWARD_SKIP {
        SkipForward(target);
        if position == target { return At(target), from; }
        from := moment;
      }
      if target >= size && size > 0 {
        inner := None;
        position := target;
        return At(target), from;
      }
      r := OpenAt(target);
    }

    /** What a seek answers that ends with a new request. */
    ghost function SeekOf(fate: Fate, target: int): SeekResult {
      match fate
      case Reached(_) => At(target)
      case Stopped => SeekExit
      case Denied => SeekRefused
      case GivenUp => SeekError
    }

    /** The last event is the one that a failed seek blames. */
    predicate SeekBlamed(r: SeekResult)
      reads this
    {
      && moment > 0
      && ((r.SeekExit? && network(moment - 1).interrupted)
          || (r.SeekRefused? && network(moment - 1).request.Forbidden?)
          || (r.SeekError? && !network(moment - 1).interrupted))
    }

    /** One attempt to open a new request; `again` when another is due. */
    method TryOpen(target: nat, attempt: nat) returns (again: bool, r: SeekResult)
      requires Valid() && attempt < 5
      modifies this
      ensures Valid() && (old(size) > 0 ==> size == old(size))
      ensures if again then OpenFate(moment, attempt + 1) == old(OpenFate(moment, attempt))
              else var fate := old(OpenFate(moment, attempt)); r == SeekOf(fate, target)
      ensures moment > 0 && (again ==> !network(moment - 1).interrupted) && (!again ==> r.At? || SeekBlamed(r))
      ensures if !again && r.At? then position == target && inner == Some(position) else position == old(position)
    {
      r := SeekError;
      var stop := Interrupted();
      if stop { return false, SeekExit; }
      var reopened := Reopen(target);
      if reopened.Opened? { return false, At(target); }
      if reopened.Forbidden? { return false, SeekRefused; }
      var goOn := BackOff(attempt);
      if !goOn { return false, SeekExit; }
      again := true;
    }

    method OpenAt(target: nat) returns (r: SeekResult)
      requires Valid()
      modifies this
      ensures Valid()
      ensures old(size) > 0 ==> size == old(size)
      ensures var fate := old(OpenFate(moment, 0)); r == SeekOf(fate, target)
      ensures r.At? || SeekBlamed(r)
      ensures if r.At? then position == target && inner == Some(position) else position == old(position)
    {
      var attempt := 0;
      ghost var fate := OpenFate(moment, 0);
      while attempt < MAX_ATTEMPTS
        invariant Valid() && position == old(position) && attempt <= MAX_ATTEMPTS
        invariant old(size) > 0 ==> size == old(size)
        invariant OpenFate(moment, attempt) == fate
        invariant attempt > 0 ==> moment > 0 && !network(moment - 1).interrupted
      {
        var again;
        again, r := TryOpen(target, attempt);
        if !again { return r; }
        attempt := attempt + 1;
      }
      return SeekError;
    }

    /** Sequential reads: whatever the network did, what they returned is the
        file from where they started, and up to the end when they ended there. */
    method ReadOn(wanted: nat) returns (all: seq<byte>, last: ReadResult)
      requires Valid() && wanted > 0 && position <= |file|
      modifies this
      ensures Valid() && position <= |file|
      ensures old(position) <= position && all == file[old(position)..position] && !last.Data?
      ensures old(size) > 0 && last.EndOfFile? ==> all == file[old(position)..]
      ensures last.Exit? || last.Refused? ==> Blamed(last)
      ensures old(size) > 0 && last.ReadError? ==> reopens >= old(reopens) + 5
    {
      all := [];
      last := Data([]);
      while last.Data?
        invariant Valid() && old(position) <= position <= |file|
        invariant old(size) > 0 ==> size == old(size)
        invariant all == file[old(position)..position] && reopens >= old(reopens)
        invariant last.Exit? || last.Refused? ==> Blamed(last)
        invariant old(size) > 0 && last.ReadError? ==> reopens >= old(reopens) + 5
        invariant old(size) > 0 && last.EndOfFile? ==> position == |file|
        decreases |file| - position, if last.Data? then 1 else 0
      {
        ghost var from := position;
        last := Read(wanted);
        if last.Data? {
          assert file[old(position)..from] + file[from..position] == file[old(position)..position];
          all := all + last.bytes;
        }
      }
    }
  }
}
