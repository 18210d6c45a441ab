/** Annex B byte streams: NAL classification, the access-unit splitter and the
    store of the stream's latest parameter sets (src/h264-decoder.cpp). */
module AnnexB {

  import opened Common

  datatype Codec = H264 | Hevc

  /** `header & 0x1f` for H.264, `(header >> 1) & 0x3f` for HEVC. */
  function NalType(codec: Codec, header: byte): nat {
    if codec.Hevc? then (header as int / 2) % 64 else header as int % 32
  }

  predicate IsSlice(codec: Codec, header: byte) {
    var t := NalType(codec, header);
    if codec.Hevc? then t < 32 else 1 <= t <= 5
  }

  predicate IsParameterSet(codec: Codec, header: byte) {
    var t := NalType(codec, header);
    if codec.Hevc? then 32 <= t <= 34 else t == 7 || t == 8
  }

  // ---------------------------------------------------------------- splitter

  datatype Unit = Unit(offset: nat, length: nat)

  /** The three-byte start code 00 00 01 at `i`. */
  predicate CodeAt(d: seq<byte>, i: nat) {
    i + 2 < |d| && d[i] == 0 && d[i + 1] == 0 && d[i + 2] == 1
  }

  /** A start code of either length begins at `i`. */
  predicate StartCodeAt(d: seq<byte>, i: nat) {
    CodeAt(d, i) || (i < |d| && d[i] == 0 && CodeAt(d, i + 1))
  }

  function HeaderBytes(codec: Codec): nat {
    if codec.Hevc? then 2 else 1
  }

  /** The splitter reads the NAL at start code `i`: its first payload byte exists. */
  predicate Readable(codec: Codec, d: seq<byte>, i: nat) {
    CodeAt(d, i) && i + 3 + HeaderBytes(codec) < |d|
  }

  predicate SliceAt(codec: Codec, d: seq<byte>, i: nat)
    requires Readable(codec, d, i)
  {
    IsSlice(codec, d[i + 3])
  }

  /** A slice whose first payload bit is set: the first one of a picture. */
  predicate FirstSliceAt(codec: Codec, d: seq<byte>, i: nat)
    requires Readable(codec, d, i)
  {
    SliceAt(codec, d, i) && d[i + 3 + HeaderBytes(codec)] >= 128
  }

  /** A NAL that opens a new unit once the current one has a slice. */
  predicate OpensUnit(codec: Codec, d: seq<byte>, i: nat)
    requires Readable(codec, d, i)
  {
    var t := NalType(codec, d[i + 3]);
    FirstSliceAt(codec, d, i) || (if codec.Hevc? then 32 <= t <= 40 else 6 <= t <= 9)
  }

  /** Where the start code of the NAL at `i` begins, with its leading zero byte. */
  function CodeStart(d: seq<byte>, i: nat): nat
    requires i < |d|
  {
    if i > 0 && d[i - 1] == 0 then i - 1 else i
  }

  /** The rest of the split: scanning from `i`, the current unit begins at `start`. */
  function ScanUnits(codec: Codec, d: seq<byte>, i: nat, start: nat, hasSlice: bool): (units: seq<Unit>)
    requires start <= i && (hasSlice ==> start + 4 <= i)
    requires start < |d|
    ensures units != []
    decreases |d| - i
  {
    if i + 3 >= |d| then [Unit(start, |d| - start)]
    else if !CodeAt(d, i) then ScanUnits(codec, d, i + 1, start, hasSlice)
    else if !Readable(codec, d, i) then [Unit(start, |d| - start)]
    else if hasSlice && OpensUnit(codec, d, i) then
      var code := CodeStart(d, i);
      [Unit(start, code - start)] + ScanUnits(codec, d, i + 4, code, SliceAt(codec, d, i))
    else ScanUnits(codec, d, i + 4, start, hasSlice || SliceAt(codec, d, i))
  }

  function Split(codec: Codec, d: seq<byte>): (units: seq<Unit>)
    requires d != []
    ensures units != []
  {
    ScanUnits(codec, d, 0, 0, false)
  }

  method SplitAccessUnits(codec: Codec, d: seq<byte>) returns (units: seq<Unit>)
    requires d != []
    ensures units == Split(codec, d)
  {
    units := [];
    var start, hasSlice, i := 0, false, 0;
    while i + 3 < |d|
      invariant 0 <= start <= i && start < |d| && (hasSlice ==> start + 4 <= i)
      invariant units + ScanUnits(codec, d, i, start, hasSlice) == Split(codec, d)
    {
      if d[i] != 0 || d[i + 1] != 0 || d[i + 2] != 1 {
        i := i + 1;
        continue;
      }
      var code := if i > 0 && d[i - 1] == 0 then i - 1 else i;
      var header := i + 3;
      var firstPayload := header + if codec.Hevc? then 2 else 1;
      if firstPayload >= |d| { break; }
      var t := NalType(codec, d[header]);
      var slice := if codec.Hevc? then t < 32 else 1 <= t <= 5;
      var firstSlice := slice && d[firstPayload] >= 128;
      var startsUnit := if codec.Hevc? then 32 <= t <= 40 else 6 <= t <= 9;
      if hasSlice && (firstSlice || startsUnit) {
        ghost var rest := ScanUnits(codec, d, i + 4, code, slice);
        assert (units + [Unit(start, code - start)]) + rest == units + ([Unit(start, code - start)] + rest);
        units := units + [Unit(start, code - start)];
        start := code;
        hasSlice := false;
      }
      hasSlice := hasSlice || slice;
      i := header + 1;
    }
    units := units + [Unit(start, |d| - start)];
  }

  /** Non-empty adjacent units that cover exactly [from, to). */
  predicate Tiles(units: seq<Unit>, from: nat, to: nat) {
    && units != []
    && units[0].offset == from
    && units[0].length > 0
    && if |units| == 1 then from + units[0].length == to
       else Tiles(units[1..], from + units[0].length, to)
  }

  lemma TilesCons(u: Unit, rest: seq<Unit>, to: nat)
    requires u.length > 0 && Tiles(rest, u.offset + u.length, to)
    ensures Tiles([u] + rest, u.offset, to)
  {
    assert ([u] + rest)[1..] == rest;
  }

  lemma {:induction false} ScanTiles(codec: Codec, d: seq<byte>, i: nat, start: nat, hasSlice: bool)
    requires start <= i && (hasSlice ==> start + 4 <= i)
    requires start < |d|
    ensures Tiles(ScanUnits(codec, d, i, start, hasSlice), start, |d|)
    decreases |d| - i
  {
    if i + 3 >= |d| {
    } else if !CodeAt(d, i) {
      ScanTiles(codec, d, i + 1, start, hasSlice);
    } else if !Readable(codec, d, i) {
    } else if hasSlice && OpensUnit(codec, d, i) {
      var code := CodeStart(d, i);
      ScanTiles(codec, d, i + 4, code, SliceAt(codec, d, i));
      TilesCons(Unit(start, code - start), ScanUnits(codec, d, i + 4, code, SliceAt(codec, d, i)), |d|);
    } else {
      ScanTiles(codec, d, i + 4, start, hasSlice || SliceAt(codec, d, i));
    }
  }

  function UnitBytes(d: seq<byte>, u: Unit): seq<byte>
    requires u.offset + u.length <= |d|
  {
    d[u.offset..u.offset + u.length]
  }

  function Concat(parts: seq<seq<byte>>): seq<byte> {
    if parts == [] then [] else parts[0] + Concat(parts[1..])
  }

  lemma {:induction false} TilesInside(units: seq<Unit>, from: nat, to: nat, k: nat)
    requires Tiles(units, from, to) && k < |units|
    ensures from <= units[k].offset && units[k].offset + units[k].length <= to && units[k].length > 0
    ensures k > 0 ==> units[k].offset == units[k - 1].offset + units[k - 1].length
    ensures k > 0 ==> units[k].offset >= from + units[0].length
    ensures from <= to
    decreases |units|
  {
    if |units| > 1 {
      TilesInside(units[1..], from + units[0].length, to, if k == 0 then 0 else k - 1);
    }
  }

  lemma {:induction false} TilesConcat(d: seq<byte>, units: seq<Unit>, from: nat, parts: seq<seq<byte>>)
    requires Tiles(units, from, |d|) && |parts| == |units|
    requires forall k :: 0 <= k < |units| ==>
      units[k].offset + units[k].length <= |d| && parts[k] == UnitBytes(d, units[k])
    ensures Concat(parts) == d[from..]
    decreases |units|
  {
    if |units| > 1 {
      TilesInside(units[1..], from + units[0].length, |d|, 0);
      TilesConcat(d, units[1..], from + units[0].length, parts[1..]);
    } else {
      assert parts[1..] == [];
    }
  }

  /** The split loses, adds and reorders nothing, and every piece is non-empty. */
  lemma SplitPartitions(codec: Codec, d: seq<byte>, parts: seq<seq<byte>>)
    requires d != [] && |parts| == |Split(codec, d)|
    requires forall k :: 0 <= k < |parts| ==>
      var u := Split(codec, d)[k];
      u.offset + u.length <= |d| ==> parts[k] == UnitBytes(d, u)
    ensures forall k :: 0 <= k < |parts| ==> parts[k] != []
    ensures Concat(parts) == d
  {
    ScanTiles(codec, d, 0, 0, false);
    var units := Split(codec, d);
    forall k | 0 <= k < |units|
      ensures units[k].offset + units[k].length <= |d| && units[k].length > 0
    {
      TilesInside(units, 0, |d|, k);
    }
    TilesConcat(d, units, 0, parts);
  }

  predicate BeginAtStartCodes(d: seq<byte>, units: seq<Unit>) {
    forall u :: u in units ==> StartCodeAt(d, u.offset)
  }

  lemma BeginCons(d: seq<byte>, u: Unit, rest: seq<Unit>)
    requires rest != [] && StartCodeAt(d, rest[0].offset) && BeginAtStartCodes(d, rest[1..])
    ensures BeginAtStartCodes(d, ([u] + rest)[1..])
  {
    assert ([u] + rest)[1..] == rest == [rest[0]] + rest[1..];
  }

  lemma {:induction false} ScanStarts(codec: Codec, d: seq<byte>, i: nat, start: nat, hasSlice: bool)
    requires start <= i && (hasSlice ==> start + 4 <= i)
    requires start < |d|
    ensures BeginAtStartCodes(d, ScanUnits(codec, d, i, start, hasSlice)[1..])
    decreases |d| - i
  {
    if i + 3 >= |d| {
    } else if !CodeAt(d, i) {
      ScanStarts(codec, d, i + 1, start, hasSlice);
    } else if !Readable(codec, d, i) {
    } else if hasSlice && OpensUnit(codec, d, i) {
      var code := CodeStart(d, i);
      var rest := ScanUnits(codec, d, i + 4, code, SliceAt(codec, d, i));
      ScanStarts(codec, d, i + 4, code, SliceAt(codec, d, i));
      ScanTiles(codec, d, i + 4, code, SliceAt(codec, d, i));
      assert StartCodeAt(d, code);
      BeginCons(d, Unit(start, code - start), rest);
    } else {
      ScanStarts(codec, d, i + 4, start, hasSlice || SliceAt(codec, d, i));
    }
  }

  /** Every unit after the first begins with a start code. */
  lemma SplitAtStartCodes(codec: Codec, d: seq<byte>)
    requires d != []
    ensures BeginAtStartCodes(d, Split(codec, d)[1..])
  {
    ScanStarts(codec, d, 0, 0, false);
  }

  /** The NAL at start code `p` is one a left-to-right scan from `i` reads: a
      start code is not looked for inside the four bytes of the previous one
      and its header. */
  predicate Visited(codec: Codec, d: seq<byte>, i: nat, p: nat)
    decreases |d| - i
  {
    if i + 3 >= |d| then false
    else if !CodeAt(d, i) then Visited(codec, d, i + 1, p)
    else Readable(codec, d, i) && (p == i || Visited(codec, d, i + 4, p))
  }

  lemma {:induction false} VisitedIsReadable(codec: Codec, d: seq<byte>, i: nat, p: nat)
    requires Visited(codec, d, i, p)
    ensures i <= p && Readable(codec, d, p)
    decreases |d| - i
  {
    if !CodeAt(d, i) {
      VisitedIsReadable(codec, d, i + 1, p);
    } else if p != i {
      VisitedIsReadable(codec, d, i + 4, p);
    }
  }

  /** Slice `p` begins in unit `u`. Its header lies there too, except that a
      zero header byte can be taken for the leading zero of the next start code. */
  predicate HoldsSlice(codec: Codec, d: seq<byte>, u: Unit, p: nat) {
    && Readable(codec, d, p) && SliceAt(codec, d, p)
    && u.offset <= p
    && (p + 3 < u.offset + u.length || (p + 3 == u.offset + u.length && d[p + 3] == 0))
  }

  lemma {:induction false} ScanHoldsSlice(codec: Codec, d: seq<byte>, i: nat, start: nat, hasSlice: bool,
                                          p: nat, k: nat)
    returns (q: nat)
    requires start <= i && (hasSlice ==> start + 4 <= i)
    requires start < |d|
    requires hasSlice ==> start <= p && p + 4 <= i && Readable(codec, d, p) && SliceAt(codec, d, p)
    requires k + 1 < |ScanUnits(codec, d, i, start, hasSlice)|
    ensures HoldsSlice(codec, d, ScanUnits(codec, d, i, start, hasSlice)[k], q)
    ensures Visited(codec, d, i, q) || (hasSlice && q == p)
    decreases |d| - i
  {
    if !CodeAt(d, i) {
      q := ScanHoldsSlice(codec, d, i + 1, start, hasSlice, p, k);
    } else if hasSlice && OpensUnit(codec, d, i) {
      if k == 0 {
        q := p;
      } else {
        q := ScanHoldsSlice(codec, d, i + 4, CodeStart(d, i), SliceAt(codec, d, i), i, k - 1);
      }
    } else {
      q := ScanHoldsSlice(codec, d, i + 4, start, hasSlice || SliceAt(codec, d, i),
                          if hasSlice then p else i, k);
    }
  }

  /** Slice `p` lies in unit `u`, header included. */
  predicate HoldsWholeSlice(codec: Codec, d: seq<byte>, u: Unit, p: nat) {
    HoldsSlice(codec, d, u, p) && p + 3 < u.offset + u.length
  }

  /** Every unit but the last holds a slice that the scan read; always with its
      header in H.264, where a zero header byte is no slice. */
  lemma SplitUnitsHoldSlices(codec: Codec, d: seq<byte>, k: nat)
    requires d != [] && k + 1 < |Split(codec, d)|
    ensures exists p :: Visited(codec, d, 0, p) && HoldsSlice(codec, d, Split(codec, d)[k], p)
    ensures codec.H264? ==>
      exists p :: Visited(codec, d, 0, p) && HoldsWholeSlice(codec, d, Split(codec, d)[k], p)
    ensures (forall p :: Visited(codec, d, 0, p) && Readable(codec, d, p) ==> d[p + 3] != 0) ==>
      exists p :: Visited(codec, d, 0, p) && HoldsWholeSlice(codec, d, Split(codec, d)[k], p)
  {
    var p := ScanHoldsSlice(codec, d, 0, 0, false, 0, k);
    assert Visited(codec, d, 0, p) && HoldsSlice(codec, d, Split(codec, d)[k], p);
    assert d[p + 3] != 0 ==> HoldsWholeSlice(codec, d, Split(codec, d)[k], p);
  }

  /** The start code in the last three bytes of the unit is that of a slice, and
      no slice lies before it. */
  ghost predicate OnlySliceAtTheEnd(codec: Codec, d: seq<byte>, u: Unit) {
    && u.length >= 3 && Visited(codec, d, 0, u.offset + u.length - 3)
    && Readable(codec, d, u.offset + u.length - 3) && SliceAt(codec, d, u.offset + u.length - 3)
    && forall p: nat :: Visited(codec, d, 0, p) && u.offset <= p < u.offset + u.length - 3 && Readable(codec, d, p) ==>
         !SliceAt(codec, d, p)
  }

  /** A unit before the last lacks a slice with its header exactly when its only
      slice begins in its last three bytes; the header then begins the next unit. */
  lemma UnitLacksHeader(codec: Codec, d: seq<byte>, k: nat)
    requires d != [] && k + 1 < |Split(codec, d)|
    ensures var u := Split(codec, d)[k];
            (forall p: nat :: Visited(codec, d, 0, p) ==> !HoldsWholeSlice(codec, d, u, p)) <==> OnlySliceAtTheEnd(codec, d, u)
  {
    var u := Split(codec, d)[k];
    var q := ScanHoldsSlice(codec, d, 0, 0, false, 0, k);
    var end := u.offset + u.length;
    if !OnlySliceAtTheEnd(codec, d, u) && !HoldsWholeSlice(codec, d, u, q) {
      assert q == end - 3;
      var p: nat :| Visited(codec, d, 0, p) && u.offset <= p < end - 3 && Readable(codec, d, p) && SliceAt(codec, d, p);
      assert HoldsWholeSlice(codec, d, u, p);
    }
  }

  /** Start codes that the scan reads do not overlap. */
  lemma {:induction false} VisitedApart(codec: Codec, d: seq<byte>, i: nat, p: nat, c: nat)
    requires Visited(codec, d, i, p) && Visited(codec, d, i, c) && p < c
    ensures p + 4 <= c
    decreases |d| - i
  {
    if !CodeAt(d, i) {
      VisitedApart(codec, d, i + 1, p, c);
    } else if p == i {
      VisitedIsReadable(codec, d, i + 4, c);
    } else {
      VisitedIsReadable(codec, d, i + 4, p);
      VisitedApart(codec, d, i + 4, p, c);
    }
  }

  predicate VisitedSlice(codec: Codec, d: seq<byte>, i: nat, p: nat) {
    Visited(codec, d, i, p) && Readable(codec, d, p) && SliceAt(codec, d, p)
  }

  predicate VisitedOpening(codec: Codec, d: seq<byte>, i: nat, c: nat) {
    Visited(codec, d, i, c) && Readable(codec, d, c) && OpensUnit(codec, d, c)
  }

  /** Every unit after the first begins at the code of a NAL that opens one. */
  lemma {:induction false} UnitStartsAtOpening(codec: Codec, d: seq<byte>, i: nat, start: nat, hasSlice: bool, k: nat)
    returns (c: nat)
    requires start <= i && (hasSlice ==> start + 4 <= i) && start < |d|
    requires 0 < k < |ScanUnits(codec, d, i, start, hasSlice)|
    ensures VisitedOpening(codec, d, i, c) && ScanUnits(codec, d, i, start, hasSlice)[k].offset == CodeStart(d, c)
    decreases |d| - i
  {
    if !CodeAt(d, i) {
      c := UnitStartsAtOpening(codec, d, i + 1, start, hasSlice, k);
    } else if hasSlice && OpensUnit(codec, d, i) {
      var code := CodeStart(d, i);
      ScanTiles(codec, d, i + 4, code, SliceAt(codec, d, i));
      if k == 1 { c := i; } else { c := UnitStartsAtOpening(codec, d, i + 4, code, SliceAt(codec, d, i), k - 1); }
    } else {
      c := UnitStartsAtOpening(codec, d, i + 4, start, hasSlice || SliceAt(codec, d, i), k);
    }
  }

  /** Between a slice and a later NAL that opens a unit a unit begins. */
  lemma {:induction false} UnitStartsBetween(codec: Codec, d: seq<byte>, i: nat, start: nat, hasSlice: bool, r: nat, c: nat)
    returns (k: nat)
    requires start <= i && (hasSlice ==> start + 4 <= i) && start < |d|
    requires VisitedSlice(codec, d, i, r) || (hasSlice && r + 4 <= i)
    requires VisitedOpening(codec, d, i, c) && r < c
    ensures 0 < k < |ScanUnits(codec, d, i, start, hasSlice)|
    ensures r < ScanUnits(codec, d, i, start, hasSlice)[k].offset <= c
    decreases |d| - i
  {
    VisitedIsReadable(codec, d, i, c);
    if VisitedSlice(codec, d, i, r) { VisitedIsReadable(codec, d, i, r); }
    if !CodeAt(d, i) {
      k := UnitStartsBetween(codec, d, i + 1, start, hasSlice, r, c);
      return;
    }
    var slice, code := SliceAt(codec, d, i), CodeStart(d, i);
    if hasSlice && OpensUnit(codec, d, i) {
      ScanTiles(codec, d, i + 4, code, slice);
      if r + 4 <= i {
        k := 1;
      } else {
        k := UnitStartsBetween(codec, d, i + 4, code, slice, r, c);
        k := k + 1;
      }
    } else {
      k := UnitStartsBetween(codec, d, i + 4, start, hasSlice || slice, r, c);
    }
  }

  /** A slice that loses its header byte, in terms of the payload alone: the byte
      is zero, the next NAL follows at once and opens a unit, and every slice
      before it is cut off by a NAL that opens one. */
  ghost predicate LosesHeader(codec: Codec, d: seq<byte>, p: nat) {
    && VisitedSlice(codec, d, 0, p) && d[p + 3] == 0 && VisitedOpening(codec, d, 0, p + 4)
    && forall r: nat :: r < p && VisitedSlice(codec, d, 0, r) ==> CutOff(codec, d, r, p)
  }

  ghost predicate CutOff(codec: Codec, d: seq<byte>, r: nat, p: nat) {
    exists c: nat :: r < c <= p && VisitedOpening(codec, d, 0, c)
  }

  ghost predicate UnitHoldsWholeSlice(codec: Codec, d: seq<byte>, u: Unit) {
    exists p: nat :: Visited(codec, d, 0, p) && HoldsWholeSlice(codec, d, u, p)
  }

  lemma {:induction false} TilesOrdered(units: seq<Unit>, to: nat, j: nat, k: nat)
    requires Tiles(units, 0, to) && j < k < |units|
    ensures units[j].offset + units[j].length <= units[k].offset
    decreases k
  {
    TilesInside(units, 0, to, k);
    if j + 1 < k {
      TilesInside(units, 0, to, k - 1);
      TilesOrdered(units, to, j, k - 1);
    }
  }

  /** A unit without its slice's header comes from a slice that loses it. */
  lemma LackingComesFromLoss(codec: Codec, d: seq<byte>, k: nat) returns (p: nat)
    requires d != [] && k + 1 < |Split(codec, d)| && !UnitHoldsWholeSlice(codec, d, Split(codec, d)[k])
    ensures LosesHeader(codec, d, p)
  {
    var units := Split(codec, d);
    var u := units[k];
    UnitLacksHeader(codec, d, k);
    ScanTiles(codec, d, 0, 0, false);
    TilesInside(units, 0, |d|, k + 1);
    p := u.offset + u.length - 3;
    var c := UnitStartsAtOpening(codec, d, 0, 0, false, k + 1);
    VisitedApart(codec, d, 0, p, c);
    forall r: nat | r < p && VisitedSlice(codec, d, 0, r) ensures CutOff(codec, d, r, p) {
      assert r < u.offset;
      TilesInside(units, 0, |d|, k);
      var c' := UnitStartsAtOpening(codec, d, 0, 0, false, k);
      if c' > p { VisitedApart(codec, d, 0, p, c'); }
      assert r < c' <= p;
    }
  }

  /** A slice that loses its header leaves a unit without one. */
  lemma LossLeavesLacking(codec: Codec, d: seq<byte>, p: nat) returns (k: nat)
    requires d != [] && LosesHeader(codec, d, p)
    ensures k + 1 < |Split(codec, d)| && !UnitHoldsWholeSlice(codec, d, Split(codec, d)[k])
  {
    var units := Split(codec, d);
    ScanTiles(codec, d, 0, 0, false);
    var next := UnitStartsBetween(codec, d, 0, 0, false, p, p + 4);
    var c := UnitStartsAtOpening(codec, d, 0, 0, false, next);
    VisitedApart(codec, d, 0, p, c);
    if p + 4 < c { VisitedApart(codec, d, 0, p + 4, c); }
    assert units[next].offset == p + 3;
    k := next - 1;
    var u := units[k];
    TilesInside(units, 0, |d|, next);
    TilesInside(units, 0, |d|, k);
    if k > 0 {
      var c' := UnitStartsAtOpening(codec, d, 0, 0, false, k);
      if c' > p { VisitedApart(codec, d, 0, p, c'); }
    }
    assert u.offset <= p;
    forall r: nat | Visited(codec, d, 0, r) && u.offset <= r < p && Readable(codec, d, r)
      ensures !SliceAt(codec, d, r)
    {
      NoSliceInside(codec, d, p, k, r);
    }
    UnitLacksHeader(codec, d, k);
  }

  lemma NoSliceInside(codec: Codec, d: seq<byte>, p: nat, k: nat, r: nat)
    requires d != [] && k + 1 < |Split(codec, d)| && Split(codec, d)[k + 1].offset == p + 3
    requires LosesHeader(codec, d, p) && Split(codec, d)[k].offset <= r < p
    ensures !VisitedSlice(codec, d, 0, r)
  {
    if VisitedSlice(codec, d, 0, r) {
      var units := Split(codec, d);
      var c: nat :| r < c <= p && VisitedOpening(codec, d, 0, c);
      var j := UnitStartsBetween(codec, d, 0, 0, false, r, c);
      ScanTiles(codec, d, 0, 0, false);
      if j < k {
        TilesOrdered(units, |d|, j, k);
      } else if k + 1 < j {
        TilesOrdered(units, |d|, k + 1, j);
      }
    }
  }

  /** Every unit before the last holds a slice with its header if and only if no
      slice of the payload loses its header byte. */
  lemma HeadersKept(codec: Codec, d: seq<byte>)
    requires d != []
    ensures (forall k :: 0 <= k < |Split(codec, d)| - 1 ==> UnitHoldsWholeSlice(codec, d, Split(codec, d)[k])) <==>
            (forall p: nat :: !LosesHeader(codec, d, p))
  {
    if k :| 0 <= k < |Split(codec, d)| - 1 && !UnitHoldsWholeSlice(codec, d, Split(codec, d)[k]) {
      var p := LackingComesFromLoss(codec, d, k);
    }
    if p: nat :| LosesHeader(codec, d, p) {
      var k := LossLeavesLacking(codec, d, p);
    }
  }

  /** HEVC needs that condition: the zero header byte of a slice is taken for
      the leading zero of the next start code and goes to the next unit. */
  lemma HevcUnitWithoutSliceHeader()
    ensures var d: seq<byte> := [0, 0, 1, 0, 0, 0, 1, 0x40, 1, 1];
            && Split(Hevc, d) == [Unit(0, 3), Unit(3, 7)]
            && forall p :: !HoldsWholeSlice(Hevc, d, Unit(0, 3), p)
  {
    var d: seq<byte> := [0, 0, 1, 0, 0, 0, 1, 0x40, 1, 1];
    assert ScanUnits(Hevc, d, 8, 3, false) == [Unit(3, 7)];
    assert CodeAt(d, 4) && OpensUnit(Hevc, d, 4) && CodeStart(d, 4) == 3;
    assert ScanUnits(Hevc, d, 4, 0, true) == [Unit(0, 3), Unit(3, 7)];
    assert CodeAt(d, 0) && SliceAt(Hevc, d, 0);
  }

  predicate InUnit(u: Unit, p: nat) {
    u.offset <= p < u.offset + u.length
  }

  /** A cut never falls before the last byte already scanned. */
  lemma {:induction false} FirstUnitReaches(codec: Codec, d: seq<byte>, i: nat, start: nat, hasSlice: bool)
    requires start <= i && (hasSlice ==> start + 4 <= i)
    requires start < |d|
    ensures var u := ScanUnits(codec, d, i, start, hasSlice)[0];
            u.offset + u.length == |d| || i <= u.offset + u.length + 1
    decreases |d| - i
  {
    if i + 3 >= |d| {
    } else if !CodeAt(d, i) {
      FirstUnitReaches(codec, d, i + 1, start, hasSlice);
    } else if !Readable(codec, d, i) {
    } else if hasSlice && OpensUnit(codec, d, i) {
    } else {
      FirstUnitReaches(codec, d, i + 4, start, hasSlice || SliceAt(codec, d, i));
    }
  }

  /** The unit that a scan resumed at `i + 4` leaves `i` in is its first. */
  lemma InFirstUnit(codec: Codec, d: seq<byte>, i: nat, start: nat, hasSlice: bool, k: nat)
    requires start <= i + 4 && (hasSlice ==> start <= i) && start < |d|
    requires i < |d| && k < |ScanUnits(codec, d, i + 4, start, hasSlice)|
    requires InUnit(ScanUnits(codec, d, i + 4, start, hasSlice)[k], i)
    ensures k == 0
  {
    FirstUnitReaches(codec, d, i + 4, start, hasSlice);
    ScanTiles(codec, d, i + 4, start, hasSlice);
    TilesInside(ScanUnits(codec, d, i + 4, start, hasSlice), start, |d|, k);
  }

  /** No unit that a scan produces has a picture-starting slice `q` after a
      slice `p`; `hasSlice` stands for a `p` that the scan has passed. */
  lemma {:induction false} ScanOnePicture(codec: Codec, d: seq<byte>, i: nat, start: nat, hasSlice: bool,
                                          k: nat, p: nat, q: nat)
    requires start <= i && (hasSlice ==> start + 4 <= i)
    requires start < |d|
    requires k < |ScanUnits(codec, d, i, start, hasSlice)|
    requires Visited(codec, d, i, q) && Readable(codec, d, q) && FirstSliceAt(codec, d, q)
    requires InUnit(ScanUnits(codec, d, i, start, hasSlice)[k], q)
    requires if Visited(codec, d, i, p)
             then p < q && Readable(codec, d, p) && SliceAt(codec, d, p)
                  && InUnit(ScanUnits(codec, d, i, start, hasSlice)[k], p)
             else hasSlice && k == 0
    ensures false
    decreases |d| - i
  {
    VisitedIsReadable(codec, d, i, q);
    if Visited(codec, d, i, p) { VisitedIsReadable(codec, d, i, p); }
    if !CodeAt(d, i) {
      ScanOnePicture(codec, d, i + 1, start, hasSlice, k, p, q);
      return;
    }
    var slice := SliceAt(codec, d, i);
    if Visited(codec, d, i + 4, p) { VisitedIsReadable(codec, d, i + 4, p); }
    if hasSlice && OpensUnit(codec, d, i) {
      var code := CodeStart(d, i);
      if k > 0 && q != i {
        if p == i { InFirstUnit(codec, d, i, code, slice, k - 1); }
        ScanOnePicture(codec, d, i + 4, code, slice, k - 1, p, q);
      }
    } else if q != i {
      if p == i { InFirstUnit(codec, d, i, start, hasSlice || slice, k); }
      ScanOnePicture(codec, d, i + 4, start, hasSlice || slice, k, p, q);
    }
  }

  /** Within one unit a picture-starting slice follows no other slice. */
  lemma SplitUnitsHoldOnePicture(codec: Codec, d: seq<byte>, u: Unit, p: nat, q: nat)
    requires d != [] && u in Split(codec, d)
    requires Visited(codec, d, 0, p) && Readable(codec, d, p) && SliceAt(codec, d, p) && InUnit(u, p)
    requires Visited(codec, d, 0, q) && Readable(codec, d, q) && FirstSliceAt(codec, d, q) && InUnit(u, q)
    ensures q <= p
  {
    if p < q {
      var k :| 0 <= k < |Split(codec, d)| && Split(codec, d)[k] == u;
      ScanOnePicture(codec, d, 0, 0, false, k, p, q);
    }
  }

  /** The scan's first unit, split alone from the same state, stays whole. */
  lemma {:induction false} FirstUnitStaysWhole(codec: Codec, d: seq<byte>, i: nat, start: nat, hasSlice: bool)
    requires start <= i && (hasSlice ==> start + 4 <= i)
    requires start < |d|
    ensures var u := ScanUnits(codec, d, i, start, hasSlice)[0];
            && u.offset == start && 0 < u.length && start + u.length <= |d|
            && ScanUnits(codec, UnitBytes(d, u), i - start, 0, hasSlice) == [Unit(0, u.length)]
    decreases |d| - i
  {
    var u := ScanUnits(codec, d, i, start, hasSlice)[0];
    ScanTiles(codec, d, i, start, hasSlice);
    TilesInside(ScanUnits(codec, d, i, start, hasSlice), start, |d|, 0);
    var own := UnitBytes(d, u);
    if i + 3 >= |d| {
    } else if !CodeAt(d, i) {
      FirstUnitStaysWhole(codec, d, i + 1, start, hasSlice);
    } else if !Readable(codec, d, i) {
    } else if hasSlice && OpensUnit(codec, d, i) {
    } else {
      FirstUnitStaysWhole(codec, d, i + 4, start, hasSlice || SliceAt(codec, d, i));
      if Readable(codec, own, i - start) {
        assert own[i - start + 3] == d[i + 3];
        assert own[i - start + 3 + HeaderBytes(codec)] == d[i + 3 + HeaderBytes(codec)];
      }
    }
  }

  /** The unit that a cut at the NAL `i` begins, split alone, stays whole. */
  lemma CutUnitStaysWhole(codec: Codec, d: seq<byte>, i: nat)
    requires Readable(codec, d, i)
    ensures var code := CodeStart(d, i);
            var u := ScanUnits(codec, d, i + 4, code, SliceAt(codec, d, i))[0];
            && 0 < u.length && u.offset + u.length <= |d|
            && Split(codec, UnitBytes(d, u)) == [Unit(0, u.length)]
  {
    var code, slice := CodeStart(d, i), SliceAt(codec, d, i);
    FirstUnitStaysWhole(codec, d, i + 4, code, slice);
    var own := UnitBytes(d, ScanUnits(codec, d, i + 4, code, slice)[0]);
    if Readable(codec, own, i - code) {
      assert own[i - code + 3] == d[i + 3];
    }
    assert Readable(codec, own, i - code) ==> SliceAt(codec, own, i - code) == slice;
    assert ScanUnits(codec, own, i - code, 0, false) == [Unit(0, |own|)];
    if code < i && |own| > 3 {
      assert own[2] == d[code + 2] == 0;
    }
  }

  lemma {:induction false} LaterUnitsStayWhole(codec: Codec, d: seq<byte>, i: nat, start: nat, hasSlice: bool, k: nat)
    requires start <= i && (hasSlice ==> start + 4 <= i)
    requires start < |d|
    requires 0 < k < |ScanUnits(codec, d, i, start, hasSlice)|
    ensures var u := ScanUnits(codec, d, i, start, hasSlice)[k];
            && 0 < u.length && u.offset + u.length <= |d|
            && Split(codec, UnitBytes(d, u)) == [Unit(0, u.length)]
    decreases |d| - i
  {
    if !CodeAt(d, i) {
      LaterUnitsStayWhole(codec, d, i + 1, start, hasSlice, k);
    } else if hasSlice && OpensUnit(codec, d, i) {
      var code := CodeStart(d, i);
      var slice := SliceAt(codec, d, i);
      if k > 1 {
        LaterUnitsStayWhole(codec, d, i + 4, code, slice, k - 1);
      } else {
        CutUnitStaysWhole(codec, d, i);
      }
    } else {
      LaterUnitsStayWhole(codec, d, i + 4, start, hasSlice || SliceAt(codec, d, i), k);
    }
  }

  /** Splitting any unit of a split again gives back just that unit. */
  lemma SplitIsIdempotent(codec: Codec, d: seq<byte>, k: nat)
    requires d != [] && k < |Split(codec, d)|
    ensures var u := Split(codec, d)[k];
            && 0 < u.length && u.offset + u.length <= |d|
            && Split(codec, UnitBytes(d, u)) == [Unit(0, u.length)]
  {
    if k == 0 {
      FirstUnitStaysWhole(codec, d, 0, 0, false);
    } else {
      LaterUnitsStayWhole(codec, d, 0, 0, false, k);
    }
  }

  // ------------------------------------------------------- parameter sets

  /** Length of the start code at `i`, 0 when there is none; the search for
      parameter sets takes the four-byte form where it can. */
  function CodeLength(d: seq<byte>, i: nat): nat {
    if i + 3 <= |d| && d[i] == 0 && d[i + 1] == 0 then
      if d[i + 2] == 1 then 3
      else if i + 4 <= |d| && d[i + 2] == 0 && d[i + 3] == 1 then 4
      else 0
    else 0
  }

  /** The first start code at or after `from`, or the end of the payload. */
  function NextStart(d: seq<byte>, from: nat): (i: nat)
    requires from <= |d|
    ensures from <= i <= |d|
    decreases |d| - from
  {
    if from == |d| || CodeLength(d, from) > 0 then from else NextStart(d, from + 1)
  }

  lemma {:induction false} NextStartIsFirst(d: seq<byte>, from: nat)
    requires from <= |d|
    ensures var i := NextStart(d, from);
            && (forall j :: from <= j < i ==> CodeLength(d, j) == 0)
            && (i < |d| ==> CodeLength(d, i) > 0)
    decreases |d| - from
  {
    if from < |d| && CodeLength(d, from) == 0 { NextStartIsFirst(d, from + 1); }
  }

  /** The kind of a parameter set unit (its bytes from the header on). */
  function KindOf(codec: Codec, unit: seq<byte>): nat {
    if unit == [] then 0 else NalType(codec, unit[0])
  }

  datatype Sets = Nil | Cons(first: seq<byte>, rest: Sets)

  /** The parameter sets of a payload before its first slice, from the start
      code at `position`. */
  function Collect(codec: Codec, d: seq<byte>, position: nat): (sets: Sets)
    requires position <= |d|
    decreases |d| - position
  {
    var start := position + CodeLength(d, position);
    if CodeLength(d, position) == 0 || start >= |d| || IsSlice(codec, d[start]) then Nil
    else
      var end := NextStart(d, start);
      if IsParameterSet(codec, d[start]) then Cons(d[start..end], Collect(codec, d, end))
      else Collect(codec, d, end)
  }

  function SetsOf(codec: Codec, d: seq<byte>): Sets {
    Collect(codec, d, NextStart(d, 0))
  }

  type Store = map<nat, seq<byte>>

  function Remember(codec: Codec, store: Store, sets: Sets): Store
    decreases sets
  {
    match sets
    case Nil => store
    case Cons(unit, rest) => Remember(codec, store[KindOf(codec, unit) := unit], rest)
  }

  /** A parameter set as a start-code search delivers it. */
  predicate WellFormed(codec: Codec, unit: seq<byte>) {
    && unit != [] && IsParameterSet(codec, unit[0])
    && forall j :: 0 <= j < |unit| ==> CodeLength(unit, j) == 0
  }

  predicate AllWellFormed(codec: Codec, store: Store) {
    forall t :: t in store ==> WellFormed(codec, store[t]) && KindOf(codec, store[t]) == t
  }

  const START_CODE: seq<byte> := [0, 0, 0, 1]

  predicate IsLeast(store: Store, t: nat) {
    t in store && forall u :: u in store ==> t <= u
  }

  /** Every non-empty store has a least type. */
  lemma LeastExists(store: Store, some: nat) returns (t: nat)
    requires some in store
    ensures IsLeast(store, t)
    decreases some
  {
    if u :| u in store && u < some {
      t := LeastExists(store, u);
    } else {
      t := some;
    }
  }

  lemma HasLeast(store: Store, some: nat)
    requires some in store
    ensures exists t :: IsLeast(store, t)
  {
    var t := LeastExists(store, some);
  }

  lemma SmallerWithout(store: Store, t: nat)
    requires t in store
    ensures |store - {t}| < |store|
  {
    assert (store - {t}).Keys == store.Keys - {t};
    assert |store.Keys| == |store| && |(store - {t}).Keys| == |store - {t}|;
  }

  ghost function Least(store: Store): (t: nat)
    requires store != map[]
    ensures IsLeast(store, t)
  {
    var some :| some in store;
    HasLeast(store, some);
    var t :| IsLeast(store, t);
    t
  }

  /** The sets of a store in ascending type. */
  ghost function InOrder(store: Store): Sets
    decreases |store|
  {
    if store == map[] then Nil
    else
      var t := Least(store);
      SmallerWithout(store, t);
      Cons(store[t], InOrder(store - {t}))
  }

  /** Each set after a four-byte start code. */
  function SerialiseSets(sets: Sets): seq<byte> {
    match sets
    case Nil => []
    case Cons(unit, rest) => START_CODE + unit + SerialiseSets(rest)
  }

  ghost function Serialise(store: Store): seq<byte> {
    SerialiseSets(InOrder(store))
  }

  class ParameterSets {
    const codec: Codec
    var units: Store            // by NAL type
    var annexB: seq<byte>       // what a freshly opened decoder is given

    ghost predicate Valid() reads this {
      AllWellFormed(codec, units) && annexB == Serialise(units)
    }

    constructor (codec: Codec)
      ensures Valid() && this.codec == codec && units == map[]
    {
      this.codec, units, annexB := codec, map[], [];
    }

    method Flush()
      modifies this
      ensures Valid() && units == map[]
    {
      units, annexB := map[], [];
    }

    method NextStartCode(d: seq<byte>, from: nat) returns (i: nat, codeLength: nat)
      requires from <= |d|
      ensures i == NextStart(d, from)
      ensures codeLength == CodeLength(d, i) && (i < |d| ==> codeLength > 0)
    {
      i := from;
      while i + 3 <= |d|
        invariant from <= i <= |d|
        invariant NextStart(d, i) == NextStart(d, from)
      {
        if d[i] == 0 && d[i + 1] == 0 {
          if d[i + 2] == 1 { return i, 3; }
          if i + 4 <= |d| && d[i + 2] == 0 && d[i + 3] == 1 { return i, 4; }
        }
        i := i + 1;
      }
      NoCodeAtEnd(d, i);
      i, codeLength := |d|, 0;
    }

    method Keep(kind: nat, unit: seq<byte>) returns (replaced: bool)
      modifies `units
      ensures units == old(units)[kind := unit]
      ensures !replaced ==> units == old(units)
    {
      replaced := kind !in units || units[kind] != unit;
      if replaced {
        units := units[kind := unit];
      } else {
        assert units[kind := unit] == units;
      }
    }

    method RememberParameterSets(d: seq<byte>)
      requires Valid()
      modifies this
      ensures Valid() && units == Remember(codec, old(units), SetsOf(codec, d))
    {
      var changed := false;
      var position, codeLength := NextStartCode(d, 0);
      while position < |d|
        invariant position <= |d| && codeLength == CodeLength(d, position)
        invariant position < |d| ==> codeLength > 0
        invariant AllWellFormed(codec, units)
        invariant !changed ==> units == old(units) && annexB == old(annexB)
        invariant Remember(codec, units, Collect(codec, d, position)) == Remember(codec, old(units), SetsOf(codec, d))
        decreases |d| - position
      {
        var start := position + codeLength;
        if start >= |d| { break; }
        var header := d[start];
        if IsSlice(codec, header) { break; }
        var end, nextLength := NextStartCode(d, start);
        CollectStep(codec, d, position, units);
        if IsParameterSet(codec, header) {
          var replaced := Keep(NalType(codec, header), d[start..end]);
          changed := changed || replaced;
        }
        position, codeLength := end, nextLength;
      }
      assert Collect(codec, d, position) == Nil;
      if changed { Rebuild(); }
    }

    method Rebuild()
      modifies `annexB
      ensures annexB == Serialise(units)
    {
      annexB := [];
      var rest: Store := units;
      ghost var behind := Serialise(units);
      while rest != map[]
        invariant behind == SerialiseSets(InOrder(rest)) && annexB + behind == Serialise(units)
        decreases |rest|
      {
        ghost var least := Least(rest);
        var t: nat :| IsLeast(rest, t);
        behind := LeastFirst(rest, t);
        Regroup(annexB, START_CODE, rest[t], behind);
        annexB := annexB + START_CODE + rest[t];
        rest := rest - {t};
      }
    }
  }

  lemma Regroup(a: seq<byte>, b: seq<byte>, c: seq<byte>, d: seq<byte>)
    ensures a + (b + c + d) == a + b + c + d
  {
  }

  /** A non-empty store's serialisation begins with its least type, and the rest follows. */
  lemma LeastFirst(store: Store, t: nat) returns (behind: seq<byte>)
    requires IsLeast(store, t)
    ensures |store - {t}| < |store| && InOrder(store) == Cons(store[t], InOrder(store - {t}))
    ensures behind == SerialiseSets(InOrder(store - {t}))
    ensures SerialiseSets(InOrder(store)) == START_CODE + store[t] + behind
  {
    assert t == Least(store);
    SmallerWithout(store, t);
    behind := SerialiseSets(InOrder(store - {t}));
  }

  /** One turn of the loop: the store after the NAL at `position`. */
  function StoreStep(codec: Codec, d: seq<byte>, position: nat, store: Store): Store
    requires position + CodeLength(d, position) < |d|
  {
    var start := position + CodeLength(d, position);
    if IsParameterSet(codec, d[start])
    then store[NalType(codec, d[start]) := d[start..NextStart(d, start)]] else store
  }

  lemma CollectStep(codec: Codec, d: seq<byte>, position: nat, store: Store)
    requires CodeLength(d, position) > 0 && position + CodeLength(d, position) < |d|
    requires !IsSlice(codec, d[position + CodeLength(d, position)])
    ensures var next := StoreStep(codec, d, position, store);
            && (AllWellFormed(codec, store) ==> AllWellFormed(codec, next))
            && Remember(codec, store, Collect(codec, d, position))
               == Remember(codec, next, Collect(codec, d, NextStart(d, position + CodeLength(d, position))))
  {
    var start := position + CodeLength(d, position);
    var end := NextStart(d, start);
    if IsParameterSet(codec, d[start]) {
      SliceWellFormed(codec, d, start, end);
    }
  }

  lemma {:induction false} NoCodeAtEnd(d: seq<byte>, i: nat)
    requires i <= |d| < i + 3
    ensures NextStart(d, i) == |d|
    decreases |d| - i
  {
    if i < |d| { NoCodeAtEnd(d, i + 1); }
  }

  /** What lies between two start codes is well formed: its header is not zero,
      so it is never empty, and it contains no start code. */
  lemma SliceWellFormed(codec: Codec, d: seq<byte>, start: nat, end: nat)
    requires start < |d| && IsParameterSet(codec, d[start]) && end == NextStart(d, start)
    ensures WellFormed(codec, d[start..end]) && KindOf(codec, d[start..end]) == NalType(codec, d[start])
  {
    assert CodeLength(d, start) == 0;
    NextStartIsFirst(d, start);
    var unit := d[start..end];
    forall j | 0 <= j < |unit|
      ensures CodeLength(unit, j) == 0
    {
      assert CodeLength(d, start + j) == 0;
    }
  }

  // ---- the stored set is the last one

  predicate HasKind(codec: Codec, sets: Sets, kind: nat) {
    sets.Cons? && (KindOf(codec, sets.first) == kind || HasKind(codec, sets.rest, kind))
  }

  function Append(a: Sets, b: Sets): Sets {
    match a
    case Nil => b
    case Cons(unit, rest) => Cons(unit, Append(rest, b))
  }

  lemma {:induction false} RememberOther(codec: Codec, store: Store, sets: Sets, kind: nat)
    requires !HasKind(codec, sets, kind)
    ensures kind in Remember(codec, store, sets) <==> kind in store
    ensures kind in store ==> Remember(codec, store, sets)[kind] == store[kind]
    decreases sets
  {
    if sets.Cons? {
      RememberOther(codec, store[KindOf(codec, sets.first) := sets.first], sets.rest, kind);
    }
  }

  lemma {:induction false} RememberAppend(codec: Codec, store: Store, a: Sets, b: Sets)
    ensures Remember(codec, store, Append(a, b)) == Remember(codec, Remember(codec, store, a), b)
    decreases a
  {
    if a.Cons? {
      RememberAppend(codec, store[KindOf(codec, a.first) := a.first], a.rest, b);
    }
  }

  /** The sets of all payloads since a flush, in stream order. */
  function SetsOfAll(codec: Codec, payloads: seq<seq<byte>>): Sets
    decreases |payloads|
  {
    if payloads == [] then Nil
    else Append(SetsOfAll(codec, payloads[..|payloads| - 1]), SetsOf(codec, payloads[|payloads| - 1]))
  }

  /** The store after those payloads, one call a payload. */
  function StoreAfter(codec: Codec, payloads: seq<seq<byte>>): Store
    decreases |payloads|
  {
    if payloads == [] then map[]
    else Remember(codec, StoreAfter(codec, payloads[..|payloads| - 1]), SetsOf(codec, payloads[|payloads| - 1]))
  }

  lemma {:induction false} StoreIsOneFold(codec: Codec, payloads: seq<seq<byte>>)
    ensures StoreAfter(codec, payloads) == Remember(codec, map[], SetsOfAll(codec, payloads))
    decreases |payloads|
  {
    if payloads != [] {
      var before := payloads[..|payloads| - 1];
      StoreIsOneFold(codec, before);
      RememberAppend(codec, map[], SetsOfAll(codec, before), SetsOf(codec, payloads[|payloads| - 1]));
    }
  }

  /** `unit` is the last set of its kind received. */
  ghost predicate IsLast(codec: Codec, sets: Sets, kind: nat, unit: seq<byte>) {
    exists before: Sets, after: Sets ::
      sets == Append(before, Cons(unit, after)) && KindOf(codec, unit) == kind && !HasKind(codec, after, kind)
  }

  lemma {:induction false} LastExists(codec: Codec, sets: Sets, kind: nat) returns (unit: seq<byte>, before: Sets, after: Sets)
    requires HasKind(codec, sets, kind)
    ensures sets == Append(before, Cons(unit, after)) && KindOf(codec, unit) == kind && !HasKind(codec, after, kind)
  {
    if HasKind(codec, sets.rest, kind) {
      unit, before, after := LastExists(codec, sets.rest, kind);
      before := Cons(sets.first, before);
    } else {
      unit, before, after := sets.first, Nil, sets.rest;
    }
  }

  /** Since a flush the store holds, per type, exactly the last set received. */
  lemma StoreHoldsLastSets(codec: Codec, payloads: seq<seq<byte>>, kind: nat)
    ensures kind in StoreAfter(codec, payloads) <==> HasKind(codec, SetsOfAll(codec, payloads), kind)
    ensures kind in StoreAfter(codec, payloads) ==>
      IsLast(codec, SetsOfAll(codec, payloads), kind, StoreAfter(codec, payloads)[kind])
  {
    StoreIsOneFold(codec, payloads);
    var sets := SetsOfAll(codec, payloads);
    if HasKind(codec, sets, kind) {
      var unit, before, after := LastExists(codec, sets, kind);
      RememberAppend(codec, map[], before, Cons(unit, after));
      RememberOther(codec, Remember(codec, map[], before)[kind := unit], after, kind);
    } else {
      RememberOther(codec, map[], sets, kind);
    }
  }

  // ---- replaying the stored sets

  /** A well-formed unit ends, within a longer stream, where the next four-byte
      start code begins, also when the unit ends in zero bytes. */
  lemma {:induction false} UnitEndsAtNextCode(d: seq<byte>, unit: seq<byte>, start: nat, rest: seq<byte>, from: nat)
    requires forall j :: 0 <= j < |unit| ==> CodeLength(unit, j) == 0
    requires start + |unit| + |rest| == |d|
    requires d[start..start + |unit|] == unit && d[start + |unit|..] == rest
    requires rest == [] || START_CODE <= rest
    requires start <= from <= start + |unit|
    ensures NextStart(d, from) == start + |unit|
    decreases start + |unit| - from
  {
    var end := start + |unit|;
    assert forall j :: 0 <= j < |unit| ==> d[start + j] == unit[j];
    assert forall j :: 0 <= j < |rest| ==> d[end + j] == rest[j];
    if from < end {
      assert CodeLength(unit, from - start) == 0;
      assert CodeLength(d, from) == 0;
      UnitEndsAtNextCode(d, unit, start, rest, from + 1);
    }
  }

  predicate SetsWellFormed(codec: Codec, sets: Sets) {
    sets.Cons? ==> WellFormed(codec, sets.first) && SetsWellFormed(codec, sets.rest)
  }

  lemma SerialisedStart(sets: Sets)
    ensures var s := SerialiseSets(sets); s == [] || START_CODE <= s
  {
  }

  lemma CollectUnfold(codec: Codec, d: seq<byte>, position: nat, unit: seq<byte>, start: nat, next: nat)
    requires start == position + 4 && next == start + |unit| <= |d| && CodeLength(d, position) == 4
    requires unit != [] && IsParameterSet(codec, unit[0])
    requires d[start..next] == unit && NextStart(d, start) == next
    ensures Collect(codec, d, position) == Cons(unit, Collect(codec, d, next))
  {
    assert d[start] == d[start..next][0];
  }

  /** Reading one serialised set: its extent is found exactly. */
  lemma CollectOne(codec: Codec, d: seq<byte>, position: nat, unit: seq<byte>, rest: seq<byte>) returns (next: nat)
    requires WellFormed(codec, unit) && (rest == [] || START_CODE <= rest)
    requires position <= |d| && d[position..] == START_CODE + unit + rest
    ensures next <= |d| && d[next..] == rest
    ensures Collect(codec, d, position) == Cons(unit, Collect(codec, d, next))
  {
    var start := position + 4;
    next := start + |unit|;
    var tail := d[position..];
    assert forall j :: 0 <= j < 4 ==> d[position + j] == tail[j] == START_CODE[j];
    assert CodeLength(d, position) == 4;
    assert d[start..next] == tail[4..4 + |unit|] == unit;
    assert d[next..] == tail[4 + |unit|..] == rest;
    UnitEndsAtNextCode(d, unit, start, rest, start);
    CollectUnfold(codec, d, position, unit, start, next);
  }

  lemma {:induction false} CollectSerialised(codec: Codec, sets: Sets, d: seq<byte>, position: nat)
    requires SetsWellFormed(codec, sets)
    requires position <= |d| && d[position..] == SerialiseSets(sets)
    ensures Collect(codec, d, position) == sets
    decreases sets
  {
    match sets
    case Nil =>
      assert |d[position..]| == 0;
    case Cons(unit, rest) =>
      SerialisedStart(rest);
      var next := CollectOne(codec, d, position, unit, SerialiseSets(rest));
      CollectSerialised(codec, rest, d, next);
  }

  lemma {:induction false} InOrderWellFormed(codec: Codec, store: Store)
    requires AllWellFormed(codec, store)
    ensures SetsWellFormed(codec, InOrder(store))
    decreases |store|
  {
    if store != map[] {
      var t := Least(store);
      var behind := LeastFirst(store, t);
      InOrderWellFormed(codec, store - {t});
    }
  }

  lemma PutBack(have: Store, store: Store, t: nat, rest: Store, more: Store)
    requires t in store && rest == store - {t} && more == have[t := store[t]]
    ensures more + rest == have + store
  {
  }

  lemma {:induction false} RememberInOrder(codec: Codec, store: Store, have: Store)
    requires AllWellFormed(codec, store)
    ensures Remember(codec, have, InOrder(store)) == have + store
    decreases |store|
  {
    if store == map[] {
      assert have + store == have;
    } else {
      var t := Least(store);
      var behind := LeastFirst(store, t);
      var rest, more := store - {t}, have[t := store[t]];
      PutBack(have, store, t, rest, more);
      RememberInOrder(codec, rest, more);
      RememberFirst(codec, store[t], InOrder(rest), have, t);
    }
  }

  lemma RememberFirst(codec: Codec, unit: seq<byte>, rest: Sets, have: Store, t: nat)
    requires KindOf(codec, unit) == t
    ensures Remember(codec, have, Cons(unit, rest)) == Remember(codec, have[t := unit], rest)
  {
  }

  /** Parsing the serialised sets from an empty store rebuilds the same store. */
  lemma ReplayRebuildsStore(codec: Codec, store: Store)
    requires AllWellFormed(codec, store)
    ensures Remember(codec, map[], SetsOf(codec, Serialise(store))) == store
  {
    var d, sets := Serialise(store), InOrder(store);
    SerialisedStart(sets);
    if d != [] { assert forall j :: 0 <= j < 4 ==> d[j] == START_CODE[j]; }
    assert NextStart(d, 0) == 0;
    assert d[0..] == d;
    InOrderWellFormed(codec, store);
    CollectSerialised(codec, sets, d, 0);
    RememberInOrder(codec, store, map[]);
    assert map[] + store == store;
  }

  lemma {:induction false} CollectWellFormed(codec: Codec, d: seq<byte>, position: nat)
    requires position <= |d|
    ensures SetsWellFormed(codec, Collect(codec, d, position))
    decreases |d| - position
  {
    var start := position + CodeLength(d, position);
    if CodeLength(d, position) > 0 && start < |d| && !IsSlice(codec, d[start]) {
      var end := NextStart(d, start);
      CollectWellFormed(codec, d, end);
      if IsParameterSet(codec, d[start]) { SliceWellFormed(codec, d, start, end); }
    }
  }

  lemma {:induction false} RememberWellFormed(codec: Codec, store: Store, sets: Sets)
    requires AllWellFormed(codec, store) && SetsWellFormed(codec, sets)
    ensures AllWellFormed(codec, Remember(codec, store, sets))
    decreases sets
  {
    if sets.Cons? {
      RememberWellFormed(codec, store[KindOf(codec, sets.first) := sets.first], sets.rest);
    }
  }

  lemma {:induction false} StoreWellFormed(codec: Codec, payloads: seq<seq<byte>>)
    ensures AllWellFormed(codec, StoreAfter(codec, payloads))
    decreases |payloads|
  {
    if payloads != [] {
      var before, last := payloads[..|payloads| - 1], payloads[|payloads| - 1];
      StoreWellFormed(codec, before);
      CollectWellFormed(codec, last, NextStart(last, 0));
      RememberWellFormed(codec, StoreAfter(codec, before), SetsOf(codec, last));
    }
  }

  /** Whatever was received since a flush, a decoder that is given the
      serialised sets ends up with exactly the sets the stream last sent. */
  lemma ReplayAfterAnyStream(codec: Codec, payloads: seq<seq<byte>>)
    ensures Remember(codec, map[], SetsOf(codec, Serialise(StoreAfter(codec, payloads)))) == StoreAfter(codec, payloads)
  {
    StoreWellFormed(codec, payloads);
    ReplayRebuildsStore(codec, StoreAfter(codec, payloads));
  }
}
