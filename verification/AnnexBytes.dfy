/** What the splitter and the parameter set store do with a payload, said of its
    bytes: NAL types are numbers of the two standards (table 7-1 of ITU-T H.264
    and of H.265). */
module AnnexBytes {
  import opened Common
  import opened AnnexB

  /** nal_unit_type. */
  function TypeOf(codec: Codec, header: byte): nat {
    if codec.Hevc? then header as int / 2 % 64 else header as int % 32
  }

  predicate IsPicturePart(codec: Codec, header: byte) {
    var t := TypeOf(codec, header);
    if codec.Hevc? then t <= 31 else t == 1 || t == 2 || t == 3 || t == 4 || t == 5
  }

  /** VPS, SPS and PPS. */
  predicate IsSetHeader(codec: Codec, header: byte) {
    var t := TypeOf(codec, header);
    if codec.Hevc? then t == 32 || t == 33 || t == 34 else t == 7 || t == 8
  }

  // ---------------------------------------------------------------- splitting

  /** The NAL behind 00 00 01 at `p` is read: its header and the first byte behind
      that are there, and the code does not begin with the header of a NAL that is
      read itself. */
  predicate IsRead(codec: Codec, d: seq<byte>, p: nat)
    decreases p
  {
    && p + (if codec.Hevc? then 5 else 4) < |d| && d[p] == 0 && d[p + 1] == 0 && d[p + 2] == 1
    && (p >= 3 ==> !IsRead(codec, d, p - 3))
  }

  lemma {:induction false} ReadIsVisited(codec: Codec, d: seq<byte>, i: nat, p: nat)
    requires forall q: nat :: i <= q + 3 && q < i ==> !IsRead(codec, d, q)
    ensures Visited(codec, d, i, p) <==> i <= p && IsRead(codec, d, p)
    decreases |d| - i
  {
    if i + 3 < |d| {
      if !CodeAt(d, i) {
        ReadIsVisited(codec, d, i + 1, p);
      } else if Readable(codec, d, i) {
        assert IsRead(codec, d, i);
        assert !IsRead(codec, d, i + 1) && !IsRead(codec, d, i + 2) && !IsRead(codec, d, i + 3);
        ReadIsVisited(codec, d, i + 4, p);
      }
    }
  }

  lemma ReadFromStart(codec: Codec, d: seq<byte>, p: nat)
    ensures Visited(codec, d, 0, p) <==> IsRead(codec, d, p)
  {
    ReadIsVisited(codec, d, 0, p);
  }

  /** A NAL that is read and is part of a picture. */
  predicate PicturePartAt(codec: Codec, d: seq<byte>, p: nat) {
    IsRead(codec, d, p) && IsPicturePart(codec, d[p + 3])
  }

  /** A NAL that is read and begins a picture: its first part, by the top bit of
      the byte behind its header, or a set, a delimiter or information before it. */
  predicate PictureBeginsAt(codec: Codec, d: seq<byte>, p: nat) {
    && IsRead(codec, d, p)
    && if codec.Hevc?
       then (TypeOf(codec, d[p + 3]) <= 31 && d[p + 5] >= 128) || 32 <= TypeOf(codec, d[p + 3]) <= 40
       else (1 <= TypeOf(codec, d[p + 3]) <= 5 && d[p + 4] >= 128) || 6 <= TypeOf(codec, d[p + 3]) <= 9
  }

  lemma SameParts(codec: Codec, d: seq<byte>, p: nat)
    ensures VisitedSlice(codec, d, 0, p) <==> PicturePartAt(codec, d, p)
    ensures VisitedOpening(codec, d, 0, p) <==> PictureBeginsAt(codec, d, p)
  {
    ReadFromStart(codec, d, p);
    if Visited(codec, d, 0, p) { VisitedIsReadable(codec, d, 0, p); }
  }

  /** Behind a part of a picture a NAL that begins one lies in a later unit: a unit
      begins between the two. */
  lemma PicturesAreApart(codec: Codec, d: seq<byte>, p: nat, q: nat) returns (k: nat)
    requires PicturePartAt(codec, d, p) && PictureBeginsAt(codec, d, q) && p < q
    ensures 0 < k < |Split(codec, d)| && p < Split(codec, d)[k].offset <= q
  {
    SameParts(codec, d, p);
    SameParts(codec, d, q);
    k := UnitStartsBetween(codec, d, 0, 0, false, p, q);
  }

  /** So no unit holds both start codes. */
  lemma NoUnitHoldsBoth(codec: Codec, d: seq<byte>, p: nat, q: nat, u: Unit)
    requires PicturePartAt(codec, d, p) && PictureBeginsAt(codec, d, q) && p < q && u in Split(codec, d)
    ensures !(u.offset <= p && q < u.offset + u.length)
  {
    var k := PicturesAreApart(codec, d, p, q);
    var units := Split(codec, d);
    var j :| 0 <= j < |units| && units[j] == u;
    ScanTiles(codec, d, 0, 0, false);
    if j < k { TilesOrdered(units, |d|, j, k); }
    if k < j { TilesOrdered(units, |d|, k, j); }
  }

  /** Conversely every unit behind the first begins with such a NAL, at its code or
      at the zero before that, and the unit before it holds a part of a picture. */
  lemma UnitsBeginPictures(codec: Codec, d: seq<byte>, k: nat) returns (p: nat, q: nat)
    requires d != [] && 0 < k < |Split(codec, d)|
    ensures PictureBeginsAt(codec, d, q)
    ensures Split(codec, d)[k].offset == if q > 0 && d[q - 1] == 0 then q - 1 else q
    ensures PicturePartAt(codec, d, p) && Split(codec, d)[k - 1].offset <= p < q
  {
    q := UnitStartsAtOpening(codec, d, 0, 0, false, k);
    p := ScanHoldsSlice(codec, d, 0, 0, false, 0, k - 1);
    SameParts(codec, d, q);
    SameParts(codec, d, p);
    ScanTiles(codec, d, 0, 0, false);
    UnitsMeet(Split(codec, d), |d|, k);
  }

  lemma UnitsMeet(units: seq<Unit>, to: nat, k: nat)
    requires Tiles(units, 0, to) && 0 < k < |units|
    ensures units[k - 1].offset + units[k - 1].length <= units[k].offset
  {
    TilesOrdered(units, to, k - 1, k);
  }

  // ----------------------------------------------------------- parameter sets

  /** The NALs of a payload, header and all, each behind a start code of three or
      of four bytes. */
  datatype Nals = NoNal | Nal(long: bool, bytes: seq<byte>, rest: Nals)

  /** 00 00 01 stands nowhere in it, which emulation prevention sees to. */
  predicate IsFreeOfCodes(bytes: seq<byte>) {
    forall j :: 0 <= j && j + 2 < |bytes| ==> bytes[j] != 0 || bytes[j + 1] != 0 || bytes[j + 2] != 1
  }

  /** None is empty, and none that a short code follows ends in a zero byte, as no
      NAL does: that byte would be taken for the code's. */
  predicate IsPayload(nals: Nals) {
    nals.Nal? ==>
      && nals.bytes != [] && IsFreeOfCodes(nals.bytes)
      && (nals.rest.Nal? && !nals.rest.long ==> nals.bytes[|nals.bytes| - 1] != 0)
      && IsPayload(nals.rest)
  }

  function CodeOf(long: bool): seq<byte> {
    if long then [0, 0, 0, 1] else [0, 0, 1]
  }

  function PrintNals(nals: Nals): seq<byte> {
    match nals
    case NoNal => []
    case Nal(long, bytes, rest) => CodeOf(long) + bytes + PrintNals(rest)
  }

  /** The sets before the first part of a picture. */
  function SetsBefore(codec: Codec, nals: Nals): Sets {
    match nals
    case NoNal => Nil
    case Nal(_, bytes, rest) =>
      if bytes == [] || IsPicturePart(codec, bytes[0]) then Nil
      else if IsSetHeader(codec, bytes[0]) then Cons(bytes, SetsBefore(codec, rest))
      else SetsBefore(codec, rest)
  }

  predicate StartsWithCode(s: seq<byte>, long: bool) {
    |s| >= |CodeOf(long)| && s[..|CodeOf(long)|] == CodeOf(long)
  }

  lemma PrintedStart(nals: Nals)
    requires nals.Nal?
    ensures StartsWithCode(PrintNals(nals), nals.long)
  {
  }

  /** No code begins inside it, be it followed by nothing or by another. */
  lemma NoCodeInside(d: seq<byte>, bytes: seq<byte>, start: nat, rest: seq<byte>, long: bool, i: nat)
    requires bytes != [] && IsFreeOfCodes(bytes) && start + |bytes| + |rest| == |d|
    requires d[start..start + |bytes|] == bytes && d[start + |bytes|..] == rest
    requires rest == [] || (StartsWithCode(rest, long) && (!long ==> bytes[|bytes| - 1] != 0))
    requires start <= i < start + |bytes|
    ensures CodeLength(d, i) == 0
  {
    var end, n := start + |bytes|, i - start;
    assert forall j :: 0 <= j < |bytes| ==> d[start + j] == bytes[j];
    assert forall j :: 0 <= j < |rest| ==> d[end + j] == rest[j];
    assert forall j :: 0 <= j < |CodeOf(long)| && rest != [] ==> rest[j] == rest[..|CodeOf(long)|][j];
    if n + 2 < |bytes| { assert bytes[n] != 0 || bytes[n + 1] != 0 || bytes[n + 2] != 1; }
    if n + 3 < |bytes| { assert bytes[n + 1] != 0 || bytes[n + 2] != 0 || bytes[n + 3] != 1; }
  }

  lemma {:induction false} NextIsEnd(d: seq<byte>, start: nat, end: nat, from: nat)
    requires start <= from <= end <= |d|
    requires forall i :: start <= i < end ==> CodeLength(d, i) == 0
    requires end == |d| || CodeLength(d, end) > 0
    ensures NextStart(d, from) == end
    decreases end - from
  {
    if from < end { NextIsEnd(d, start, end, from + 1); }
  }

  lemma ThreeParts(d: seq<byte>, position: nat, a: seq<byte>, b: seq<byte>, c: seq<byte>, start: nat, next: nat)
    requires position <= |d| && d[position..] == a + b + c && start == position + |a| && next == start + |b|
    ensures next <= |d| && d[position..start] == a && d[start..next] == b && d[next..] == c
  {
    var tail := a + b + c;
    assert |d| == position + |tail| && forall j :: position <= j < |d| ==> d[j] == d[position..][j - position];
    assert tail[|a|..|a| + |b|] == b && tail[|a| + |b|..] == c;
    assert forall j :: start <= j < next ==> d[j] == tail[j - position];
    assert forall j :: next <= j < |d| ==> d[j] == tail[j - position];
  }

  /** A NAL ends where the next code begins, or the payload. */
  lemma NalEnds(d: seq<byte>, start: nat, next: nat, bytes: seq<byte>, rest: seq<byte>, nals: Nals)
    requires start <= next <= |d| && d[start..next] == bytes != [] && d[next..] == rest && IsFreeOfCodes(bytes)
    requires rest == PrintNals(nals) && (nals.Nal? && !nals.long ==> bytes[|bytes| - 1] != 0)
    ensures NextStart(d, start) == next
  {
    if nals.Nal? {
      PrintedStart(nals);
      CodeStands(d, next, rest, nals.long);
    }
    forall i | start <= i < next ensures CodeLength(d, i) == 0 {
      NoCodeInside(d, bytes, start, rest, nals.Nal? && nals.long, i);
    }
    NextIsEnd(d, start, next, start);
  }

  /** Where one printed NAL stands. */
  lemma OneNal(d: seq<byte>, position: nat, nals: Nals) returns (start: nat, next: nat)
    requires nals.Nal? && IsPayload(nals) && position <= |d| && d[position..] == PrintNals(nals)
    ensures start == position + CodeLength(d, position) > position && start < next <= |d|
    ensures d[start..next] == nals.bytes && NextStart(d, start) == next
    ensures d[next..] == PrintNals(nals.rest)
  {
    var code := CodeOf(nals.long);
    start := position + |code|;
    next := start + |nals.bytes|;
    PrintedStart(nals);
    CodeStands(d, position, d[position..], nals.long);
    ThreeParts(d, position, code, nals.bytes, PrintNals(nals.rest), start, next);
    NalEnds(d, start, next, nals.bytes, PrintNals(nals.rest), nals.rest);
  }

  lemma CollectsOne(codec: Codec, d: seq<byte>, position: nat, start: nat, next: nat, bytes: seq<byte>)
    requires position < start == position + CodeLength(d, position) < next <= |d|
    requires d[start..next] == bytes && NextStart(d, start) == next
    ensures Collect(codec, d, position) ==
      if IsPicturePart(codec, bytes[0]) then Nil
      else if IsSetHeader(codec, bytes[0]) then Cons(bytes, Collect(codec, d, next)) else Collect(codec, d, next)
  {
    assert d[start] == d[start..next][0];
  }

  lemma CodeStands(d: seq<byte>, at: nat, rest: seq<byte>, long: bool)
    requires at <= |d| && d[at..] == rest && StartsWithCode(rest, long)
    ensures CodeLength(d, at) == |CodeOf(long)|
  {
    var code := CodeOf(long);
    assert forall j :: 0 <= j < |code| ==> d[at + j] == rest[j] == rest[..|code|][j];
  }

  lemma {:induction false} CollectsBefore(codec: Codec, nals: Nals, d: seq<byte>, position: nat)
    requires IsPayload(nals) && position <= |d| && d[position..] == PrintNals(nals)
    ensures Collect(codec, d, position) == SetsBefore(codec, nals)
    decreases nals
  {
    if nals.NoNal? {
      assert |d[position..]| == 0;
    } else {
      var start, next := OneNal(d, position, nals);
      CollectsOne(codec, d, position, start, next, nals.bytes);
      CollectsBefore(codec, nals.rest, d, next);
    }
  }

  /** A payload's parameter sets before its first picture are found, each exactly,
      whatever else stands between them; nothing behind it is looked at. */
  lemma SetsAreFound(codec: Codec, nals: Nals)
    requires IsPayload(nals)
    ensures SetsOf(codec, PrintNals(nals)) == SetsBefore(codec, nals)
  {
    var d := PrintNals(nals);
    assert d[0..] == d;
    if nals.Nal? {
      PrintedStart(nals);
      CodeStands(d, 0, d, nals.long);
    }
    CollectsBefore(codec, nals, d, 0);
  }

  predicate AscendFrom(codec: Codec, sets: Sets, low: int) {
    sets.Cons? ==>
      sets.first != [] && TypeOf(codec, sets.first[0]) > low
      && AscendFrom(codec, sets.rest, TypeOf(codec, sets.first[0]))
  }

  predicate IsAmong(sets: Sets, unit: seq<byte>) {
    sets.Cons? && (sets.first == unit || IsAmong(sets.rest, unit))
  }

  lemma {:induction false} AscendsFrom(codec: Codec, store: Store, low: int)
    requires AllWellFormed(codec, store) && forall t :: t in store ==> t > low
    ensures AscendFrom(codec, InOrder(store), low)
    ensures forall t :: t in store ==> IsAmong(InOrder(store), store[t])
    decreases |store|
  {
    if store != map[] {
      var t := Least(store);
      var rest: Store := store - {t};
      SmallerWithout(store, t);
      assert forall u :: u in rest ==> u in store && rest[u] == store[u];
      AscendsFrom(codec, rest, t);
      assert InOrder(store) == Cons(store[t], InOrder(rest));
      assert forall u :: u in store && u != t ==> u in rest;
    }
  }

  /** The sets as NALs, each behind a code of four bytes. */
  function AsNals(sets: Sets): Nals {
    match sets
    case Nil => NoNal
    case Cons(unit, rest) => Nal(true, unit, AsNals(rest))
  }

  lemma {:induction false} SerialisedAsNals(sets: Sets)
    ensures SerialiseSets(sets) == PrintNals(AsNals(sets))
  {
    if sets.Cons? { SerialisedAsNals(sets.rest); }
  }

  /** A new decoder is given the sets in ascending type, each type once and none
      left out: VPS, SPS and PPS come in the order in which they are needed. */
  lemma SetsAscend(codec: Codec, store: Store) returns (sets: Sets)
    requires AllWellFormed(codec, store)
    ensures Serialise(store) == PrintNals(AsNals(sets)) && AscendFrom(codec, sets, -1)
    ensures forall t :: t in store ==> IsAmong(sets, store[t])
  {
    sets := InOrder(store);
    SerialisedAsNals(sets);
    AscendsFrom(codec, store, -1);
  }
}
