/** Rotating one plane of a picture by clockwise quarter turns (rotate_plane in
    src/media-player.cpp). */
module PlaneRotation {
  import opened Common

  const BAND := 16

  /** Where a plane lies in its buffer: the first byte of its first row, the
      distance from row to row, which is negative when the picture is stored
      bottom up, and sample groups of `pixel` bytes. */
  datatype Layout = Layout(base: int, stride: int, width: nat, height: nat, pixel: nat)

  /** Where row `y` starts. */
  function RowStart(base: int, stride: int, y: nat): int {
    if y == 0 then base else RowStart(base, stride, y - 1) + stride
  }

  lemma {:induction false} RowStartIs(base: int, stride: int, y: nat)
    ensures RowStart(base, stride, y) == base + y * stride
  {
    if y > 0 { RowStartIs(base, stride, y - 1); }
  }

  function RowBytes(width: nat, pixel: nat): nat {
    if pixel == 2 then 2 * width else width
  }

  /** Where byte `c` of group (x, y) is. */
  function At(l: Layout, x: nat, y: nat, c: nat): int {
    RowStart(l.base, l.stride, y) + RowBytes(x, l.pixel) + c
  }

  predicate InPlane(l: Layout, x: nat, y: nat, c: nat) {
    x < l.width && y < l.height && c < l.pixel
  }

  /** First and last row, if any, lie within `length` bytes. */
  predicate Fits(length: nat, l: Layout) {
    && (l.pixel == 1 || l.pixel == 2)
    && (l.width > 0 && l.height > 0 ==>
          && 0 <= l.base && l.base + RowBytes(l.width, l.pixel) <= length
          && 0 <= RowStart(l.base, l.stride, l.height - 1)
          && RowStart(l.base, l.stride, l.height - 1) + RowBytes(l.width, l.pixel) <= length)
  }

  /** Rows do not overlap: what a plane that is written needs. */
  predicate Separate(l: Layout) {
    l.height <= 1 || RowBytes(l.width, l.pixel) <= Distance(l.stride, 0)
  }

  lemma {:induction false} RowsOrdered(base: int, stride: int, y: nat, z: nat)
    requires y <= z
    ensures stride >= 0 ==> RowStart(base, stride, y) <= RowStart(base, stride, z)
    ensures stride < 0 ==> RowStart(base, stride, z) <= RowStart(base, stride, y)
    decreases z
  {
    if y < z { RowsOrdered(base, stride, y, z - 1); }
  }

  lemma InBounds(length: nat, l: Layout, x: nat, y: nat, c: nat)
    requires Fits(length, l) && InPlane(l, x, y, c)
    ensures 0 <= At(l, x, y, c) < length
  {
    RowsOrdered(l.base, l.stride, 0, y);
    RowsOrdered(l.base, l.stride, y, l.height - 1);
  }

  lemma RowsApart(base: int, stride: int, y: nat, z: nat)
    requires y < z
    ensures Distance(stride, 0) <= Distance(RowStart(base, stride, y), RowStart(base, stride, z))
  {
    RowsOrdered(base, stride, y, z - 1);
  }

  /** Different samples are in different places. */
  lemma Apart(l: Layout, x: nat, y: nat, c: nat, u: nat, v: nat, e: nat)
    requires (l.pixel == 1 || l.pixel == 2) && Separate(l) && InPlane(l, x, y, c) && InPlane(l, u, v, e)
    requires At(l, x, y, c) == At(l, u, v, e)
    ensures x == u && y == v && c == e
  {
    if y < v { RowsApart(l.base, l.stride, y, v); }
    if v < y { RowsApart(l.base, l.stride, v, y); }
  }

  /** Byte `c` of group (x, y) stands in row `y`, at `x` groups of `pixel` bytes. */
  lemma PlaceIs(l: Layout, x: nat, y: nat, c: nat)
    requires l.pixel == 1 || l.pixel == 2
    ensures At(l, x, y, c) == l.base + y * l.stride + x * l.pixel + c
  {
    RowStartIs(l.base, l.stride, y);
  }

  datatype Plane = Plane(bytes: seq<byte>, at: Layout)

  predicate Valid(p: Plane) {
    Fits(|p.bytes|, p.at)
  }

  function Sample(p: Plane, x: nat, y: nat, c: nat): byte
    requires Valid(p) && InPlane(p.at, x, y, c)
  {
    InBounds(|p.bytes|, p.at, x, y, c);
    p.bytes[At(p.at, x, y, c)]
  }

  // ---------------------------------------------------------------- rotation

  /** Column and row, in a plane of `width` and `height`, that `turns` quarter turns bring to (x, y). */
  function SourceColumn(turns: nat, width: nat, x: nat, y: nat): int {
    if turns == 1 then y else if turns == 2 then width - 1 - x else if turns == 3 then width - 1 - y else x
  }

  function SourceRow(turns: nat, height: nat, x: nat, y: nat): int {
    if turns == 1 then height - 1 - x else if turns == 2 then height - 1 - y else if turns == 3 then x else y
  }

  predicate Odd(turns: nat) {
    turns == 1 || turns == 3
  }

  predicate Sizes(p: Layout, turns: nat, q: Layout) {
    && p.pixel == q.pixel
    && q.width == (if Odd(turns) then p.height else p.width)
    && q.height == (if Odd(turns) then p.width else p.height)
  }

  /** Byte `c` of group (x, y) of the rotated plane, taken from the source. */
  function Turned(p: Plane, turns: nat, q: Layout, x: nat, y: nat, c: nat): byte
    requires Valid(p) && turns < 4 && Sizes(p.at, turns, q) && InPlane(q, x, y, c)
  {
    Sample(p, SourceColumn(turns, p.at.width, x, y), SourceRow(turns, p.at.height, x, y), c)
  }

  /** Every sample of `q` is that of `p` which the turns bring there. */
  ghost predicate Rotated(p: Plane, turns: nat, q: Plane)
    requires Valid(p) && Valid(q) && turns < 4
  {
    && Sizes(p.at, turns, q.at)
    && forall x: nat, y: nat, c: nat :: InPlane(q.at, x, y, c) ==>
         Sample(q, x, y, c) == Turned(p, turns, q.at, x, y, c)
  }

  /** Column and row to which clockwise quarter turns bring (x, y): after one, the
      top row is the right column; two and three go on from there. */
  function TargetColumn(turns: nat, width: nat, height: nat, x: nat, y: nat): int {
    match turns
    case 1 => height - 1 - y
    case 2 => width - 1 - x
    case 3 => y
    case _ => x
  }

  function TargetRow(turns: nat, width: nat, height: nat, x: nat, y: nat): int {
    match turns
    case 1 => x
    case 2 => height - 1 - y
    case 3 => width - 1 - x
    case _ => y
  }

  /** Every sample goes where the turns bring it. */
  lemma SampleGoes(p: Plane, turns: nat, q: Plane, x: nat, y: nat, c: nat, column: nat, row: nat)
    requires Valid(p) && Valid(q) && turns < 4 && Rotated(p, turns, q) && InPlane(p.at, x, y, c)
    requires column == TargetColumn(turns, p.at.width, p.at.height, x, y)
    requires row == TargetRow(turns, p.at.width, p.at.height, x, y)
    ensures InPlane(q.at, column, row, c) && Sample(q, column, row, c) == Sample(p, x, y, c)
  {
    assert InPlane(q.at, column, row, c);
    assert SourceColumn(turns, p.at.width, column, row) == x && SourceRow(turns, p.at.height, column, row) == y;
  }

  /** Byte `i` belongs to no sample. */
  ghost predicate Padding(l: Layout, i: nat) {
    forall x: nat, y: nat, c: nat :: InPlane(l, x, y, c) ==> At(l, x, y, c) != i
  }

  /** Where the sample at (x, y) came from, by the second turning and by both. */
  lemma SourceAdds(first: nat, second: nat, both: nat, width: nat, height: nat, x: nat, y: nat)
    returns (midX: nat, midY: nat)
    requires first < 4 && second < 4 && both == (first + second) % 4
    requires x < (if Odd(both) then height else width) && y < (if Odd(both) then width else height)
    ensures midX < (if Odd(first) then height else width) && midY < (if Odd(first) then width else height)
    ensures midX == SourceColumn(second, if Odd(first) then height else width, x, y)
    ensures midY == SourceRow(second, if Odd(first) then width else height, x, y)
    ensures SourceColumn(first, width, midX, midY) == SourceColumn(both, width, x, y)
    ensures SourceRow(first, height, midX, midY) == SourceRow(both, height, x, y)
  {
    midX := SourceColumn(second, if Odd(first) then height else width, x, y);
    midY := SourceRow(second, if Odd(first) then width else height, x, y);
  }

  /** One rotation after another is the rotation by all their turns. */
  lemma TurnsAdd(p: Plane, first: nat, q: Plane, second: nat, r: Plane)
    requires Valid(p) && Valid(q) && Valid(r) && first < 4 && second < 4
    requires Rotated(p, first, q) && Rotated(q, second, r)
    ensures Rotated(p, (first + second) % 4, r)
  {
    var both := (first + second) % 4;
    assert Sizes(p.at, both, r.at);
    forall x: nat, y: nat, c: nat | InPlane(r.at, x, y, c)
      ensures Sample(r, x, y, c) == Turned(p, both, r.at, x, y, c)
    {
      var midX, midY := SourceAdds(first, second, both, p.at.width, p.at.height, x, y);
      assert InPlane(q.at, midX, midY, c);
    }
  }

  ghost predicate SamePicture(p: Plane, r: Plane)
    requires Valid(p) && Valid(r)
  {
    && r.at.width == p.at.width && r.at.height == p.at.height && r.at.pixel == p.at.pixel
    && forall x: nat, y: nat, c: nat :: InPlane(p.at, x, y, c) ==> Sample(r, x, y, c) == Sample(p, x, y, c)
  }

  lemma NoTurn(p: Plane, turns: nat, r: Plane)
    requires Valid(p) && Valid(r) && turns == 0
    ensures Rotated(p, turns, r) <==> SamePicture(p, r)
  {
  }

  /** One turn undoes three, however the planes are laid out. */
  lemma FullTurn(p: Plane, three: nat, q: Plane, r: Plane)
    requires Valid(p) && Valid(q) && Valid(r) && three == 3
    requires Rotated(p, three, q) && Rotated(q, 1, r)
    ensures SamePicture(p, r)
  {
    TurnsAdd(p, three, q, 1, r);
    NoTurn(p, (three + 1) % 4, r);
  }

  lemma HalfTurn(p: Plane, q: Plane, r: Plane)
    requires Valid(p) && Valid(q) && Valid(r)
    requires Rotated(p, 1, q) && Rotated(q, 1, r)
    ensures Rotated(p, 2, r)
  {
    TurnsAdd(p, 1, q, 1, r);
  }

  // -------------------------------------------------------------- the copying

  datatype Spot = Spot(x: nat, y: nat)

  /** The destination, and how often each of its bytes was written. */
  datatype Target = Target(plane: Plane, writes: seq<nat>)

  predicate ValidTarget(t: Target) {
    Valid(t.plane) && Separate(t.plane.at) && |t.writes| == |t.plane.bytes|
  }

  function Writes(t: Target, x: nat, y: nat, c: nat): nat
    requires ValidTarget(t) && InPlane(t.plane.at, x, y, c)
  {
    InBounds(|t.plane.bytes|, t.plane.at, x, y, c);
    t.writes[At(t.plane.at, x, y, c)]
  }

  /** Group (x, y) holds its bytes, each written once; or is not written yet. */
  ghost predicate Done(p: Plane, turns: nat, t: Target, x: nat, y: nat)
    requires Valid(p) && ValidTarget(t) && turns < 4 && Sizes(p.at, turns, t.plane.at)
    requires x < t.plane.at.width && y < t.plane.at.height
  {
    forall c: nat :: c < t.plane.at.pixel ==>
      Writes(t, x, y, c) == 1 && Sample(t.plane, x, y, c) == Turned(p, turns, t.plane.at, x, y, c)
  }

  ghost predicate Untouched(t: Target, x: nat, y: nat)
    requires ValidTarget(t) && x < t.plane.at.width && y < t.plane.at.height
  {
    forall c: nat :: c < t.plane.at.pixel ==> Writes(t, x, y, c) == 0
  }

  /** Bytes of no sample are what they were, and were not written. */
  ghost predicate PaddingKept(t: Target, before: seq<byte>)
    requires ValidTarget(t) && |before| == |t.writes|
  {
    forall i: nat :: i < |before| && Padding(t.plane.at, i) ==> t.plane.bytes[i] == before[i] && t.writes[i] == 0
  }

  ghost predicate Progress(p: Plane, turns: nat, t: Target, before: seq<byte>, done: set<Spot>) {
    && Valid(p) && ValidTarget(t) && 0 < turns < 4 && Sizes(p.at, turns, t.plane.at) && |before| == |t.writes|
    && PaddingKept(t, before)
    && forall x: nat, y: nat :: x < t.plane.at.width && y < t.plane.at.height ==>
         if Spot(x, y) in done then Done(p, turns, t, x, y) else Untouched(t, x, y)
  }

  /** `r` is `t` with the bytes of group (x, y) written once more. */
  predicate OneGroup(t: Target, r: Target, x: nat, y: nat) {
    && r.plane.at == t.plane.at && |r.plane.bytes| == |t.plane.bytes| && |r.writes| == |t.writes| == |t.plane.bytes|
    && var first := At(t.plane.at, x, y, 0);
       forall i :: 0 <= i < |r.writes| ==>
         if first <= i < first + t.plane.at.pixel then r.writes[i] == t.writes[i] + 1
         else r.writes[i] == t.writes[i] && r.plane.bytes[i] == t.plane.bytes[i]
  }

  lemma OthersStay(t: Target, r: Target, x: nat, y: nat, u: nat, v: nat, c: nat)
    requires ValidTarget(t) && OneGroup(t, r, x, y) && x < t.plane.at.width && y < t.plane.at.height
    requires InPlane(t.plane.at, u, v, c) && (u != x || v != y)
    ensures ValidTarget(r) && Writes(r, u, v, c) == Writes(t, u, v, c) && Sample(r.plane, u, v, c) == Sample(t.plane, u, v, c)
  {
    var i, first := At(t.plane.at, u, v, c), At(t.plane.at, x, y, 0);
    InBounds(|t.writes|, t.plane.at, u, v, c);
    if first <= i < first + t.plane.at.pixel { Apart(t.plane.at, x, y, i - first, u, v, c); }
  }

  lemma PaddingStays(t: Target, r: Target, before: seq<byte>, x: nat, y: nat)
    requires ValidTarget(t) && OneGroup(t, r, x, y) && x < t.plane.at.width && y < t.plane.at.height
    requires |before| == |t.writes| && PaddingKept(t, before)
    ensures ValidTarget(r) && PaddingKept(r, before)
  {
    var first := At(t.plane.at, x, y, 0);
    InBounds(|t.writes|, t.plane.at, x, y, 0);
    forall i: nat | first <= i < first + t.plane.at.pixel ensures !Padding(t.plane.at, i) {
      assert InPlane(t.plane.at, x, y, i - first) && At(t.plane.at, x, y, i - first) == i;
    }
    forall i: nat | i < |before| && Padding(r.plane.at, i)
      ensures r.plane.bytes[i] == before[i] && r.writes[i] == 0
    {
      assert Padding(t.plane.at, i);
    }
  }

  /** The bytes that (x, y) is to hold. */
  ghost predicate GroupFilled(p: Plane, turns: nat, r: Plane, x: nat, y: nat)
    requires Valid(p) && Valid(r) && turns < 4 && Sizes(p.at, turns, r.at) && x < r.at.width && y < r.at.height
  {
    forall c: nat :: c < r.at.pixel ==> Sample(r, x, y, c) == Turned(p, turns, r.at, x, y, c)
  }

  lemma GroupDone(p: Plane, turns: nat, t: Target, r: Target, before: seq<byte>, done: set<Spot>, x: nat, y: nat)
    requires Progress(p, turns, t, before, done) && Spot(x, y) !in done
    requires x < t.plane.at.width && y < t.plane.at.height && OneGroup(t, r, x, y)
    requires Valid(r.plane) && GroupFilled(p, turns, r.plane, x, y)
    ensures Progress(p, turns, r, before, done + {Spot(x, y)})
  {
    PaddingStays(t, r, before, x, y);
    forall u: nat, v: nat | u < t.plane.at.width && v < t.plane.at.height
      ensures if Spot(u, v) in done + {Spot(x, y)} then Done(p, turns, r, u, v) else Untouched(r, u, v)
    {
      if u == x && v == y {
        assert Untouched(t, x, y);
        forall c: nat | c < r.plane.at.pixel ensures Writes(r, x, y, c) == Writes(t, x, y, c) + 1 {
          InBounds(|t.writes|, t.plane.at, x, y, c);
        }
      } else {
        forall c: nat | c < r.plane.at.pixel
          ensures Writes(r, u, v, c) == Writes(t, u, v, c) && Sample(r.plane, u, v, c) == Sample(t.plane, u, v, c)
        {
          OthersStay(t, r, x, y, u, v, c);
        }
        if Spot(u, v) in done { assert Done(p, turns, t, u, v); } else { assert Untouched(t, u, v); }
      }
    }
  }

  method CopyGroup(src: array<byte>, input: nat, dst: array<byte>, output: nat, pixel: nat, ghost writes: seq<nat>)
    returns (ghost after: seq<nat>)
    requires src != dst && (pixel == 1 || pixel == 2) && |writes| == dst.Length
    requires input + pixel <= src.Length && output + pixel <= dst.Length
    modifies dst
    ensures |after| == dst.Length
    ensures forall i :: 0 <= i < dst.Length ==>
      if output <= i < output + pixel then dst[i] == src[input + (i - output)] && after[i] == writes[i] + 1
      else dst[i] == old(dst[i]) && after[i] == writes[i]
  {
    after := writes;
    dst[output] := src[input];
    after := after[output := after[output] + 1];
    if pixel == 2 {
      dst[output + 1] := src[input + 1];
      after := after[output + 1 := after[output + 1] + 1];
    }
  }

  /** One group is carried to its place and written once; all else stays. */
  method CarryGroup(src: array<byte>, dst: array<byte>, pixel: nat, input: int, output: int, ghost p: Plane,
                    ghost turns: nat, ghost t: Target, ghost x: nat, ghost y: nat, ghost before: seq<byte>,
                    ghost done: set<Spot>)
    returns (ghost r: Target)
    requires src != dst && p.bytes == src[..] && t.plane.bytes == dst[..] && pixel == p.at.pixel
    requires Progress(p, turns, t, before, done) && Spot(x, y) !in done
    requires x < t.plane.at.width && y < t.plane.at.height && output == At(t.plane.at, x, y, 0)
    requires input == At(p.at, SourceColumn(turns, p.at.width, x, y), SourceRow(turns, p.at.height, x, y), 0)
    modifies dst
    ensures r.plane == t.plane.(bytes := dst[..]) && Progress(p, turns, r, before, done + {Spot(x, y)})
  {
    ghost var column, row := SourceColumn(turns, p.at.width, x, y), SourceRow(turns, p.at.height, x, y);
    GroupInBounds(src.Length, p.at, column, row);
    GroupInBounds(dst.Length, t.plane.at, x, y);
    ghost var after := CopyGroup(src, input, dst, output, pixel, t.writes);
    r := Target(t.plane.(bytes := dst[..]), after);
    assert OneGroup(t, r, x, y);
    FillsGroup(p, turns, r.plane, x, y, input, output);
    GroupDone(p, turns, t, r, before, done, x, y);
  }

  lemma GroupInBounds(length: nat, l: Layout, x: nat, y: nat)
    requires Fits(length, l) && x < l.width && y < l.height
    ensures 0 <= At(l, x, y, 0) && At(l, x, y, 0) + l.pixel <= length
  {
    InBounds(length, l, x, y, 0);
    InBounds(length, l, x, y, l.pixel - 1);
  }

  lemma FillsGroup(p: Plane, turns: nat, r: Plane, x: nat, y: nat, input: nat, output: nat)
    requires Valid(p) && Valid(r) && turns < 4 && Sizes(p.at, turns, r.at) && x < r.at.width && y < r.at.height
    requires input == At(p.at, SourceColumn(turns, p.at.width, x, y), SourceRow(turns, p.at.height, x, y), 0)
    requires output == At(r.at, x, y, 0) && input + p.at.pixel <= |p.bytes| && output + p.at.pixel <= |r.bytes|
    requires forall i :: output <= i < output + p.at.pixel ==> r.bytes[i] == p.bytes[input + (i - output)]
    ensures GroupFilled(p, turns, r, x, y)
  {
    forall c: nat | c < r.at.pixel ensures Sample(r, x, y, c) == Turned(p, turns, r.at, x, y, c) {
      assert r.bytes[output + c] == p.bytes[input + c];
    }
  }

  /** Every sample written once, no byte of the padding at all. */
  ghost predicate WrittenOnce(l: Layout, writes: seq<nat>) {
    forall i: nat :: i < |writes| ==> writes[i] == if Padding(l, i) then 0 else 1
  }

  lemma AllDone(p: Plane, turns: nat, t: Target, before: seq<byte>, done: set<Spot>)
    requires Progress(p, turns, t, before, done)
    requires forall x: nat, y: nat :: x < t.plane.at.width && y < t.plane.at.height ==> Spot(x, y) in done
    ensures Rotated(p, turns, t.plane) && WrittenOnce(t.plane.at, t.writes)
  {
    forall x: nat, y: nat, c: nat | InPlane(t.plane.at, x, y, c)
      ensures Sample(t.plane, x, y, c) == Turned(p, turns, t.plane.at, x, y, c) && Writes(t, x, y, c) == 1
    {
      assert Spot(x, y) in done;
      assert Done(p, turns, t, x, y);
    }
    forall i: nat | i < |t.writes| ensures t.writes[i] == if Padding(t.plane.at, i) then 0 else 1 {
      if !Padding(t.plane.at, i) {
        var x: nat, y: nat, c: nat :| InPlane(t.plane.at, x, y, c) && At(t.plane.at, x, y, c) == i;
        assert Writes(t, x, y, c) == 1;
      }
    }
  }

  ghost function Begun(dst: seq<byte>, l: Layout): Target {
    Target(Plane(dst, l), seq(|dst|, _ => 0))
  }

  lemma BegunProgress(p: Plane, turns: nat, bytes: seq<byte>, l: Layout)
    requires Valid(p) && Fits(|bytes|, l) && Separate(l) && 0 < turns < 4 && Sizes(p.at, turns, l)
    ensures Progress(p, turns, Begun(bytes, l), bytes, {})
  {
    var t := Begun(bytes, l);
    forall x: nat, y: nat | x < l.width && y < l.height ensures Untouched(t, x, y) {
      forall c: nat | c < l.pixel ensures Writes(t, x, y, c) == 0 {
        InBounds(|bytes|, l, x, y, c);
      }
    }
  }

  method RotateHalf(src: array<byte>, from: Layout, dst: array<byte>, to: Layout) returns (ghost writes: seq<nat>)
    requires src != dst && Fits(src.Length, from) && Fits(dst.Length, to) && Separate(to) && Sizes(from, 2, to)
    modifies dst
    ensures Rotated(Plane(src[..], from), 2, Plane(dst[..], to)) && |writes| == dst.Length && WrittenOnce(to, writes)
    ensures forall i: nat :: i < dst.Length && Padding(to, i) ==> dst[i] == old(dst[i])
  {
    ghost var p, before := Plane(src[..], from), dst[..];
    ghost var t := Begun(before, to);
    ghost var done: set<Spot> := {};
    BegunProgress(p, 2, before, to);
    for y := 0 to to.height
      invariant t.plane == Plane(dst[..], to) && Progress(p, 2, t, before, done)
      invariant forall u: nat, v: nat :: u < to.width && v < to.height ==> (Spot(u, v) in done <==> v < y)
    {
      var input := RowStart(from.base, from.stride, from.height - 1 - y) + RowBytes(from.width, from.pixel) - from.pixel;
      var output := RowStart(to.base, to.stride, y);
      for x := 0 to to.width
        invariant t.plane == Plane(dst[..], to) && Progress(p, 2, t, before, done)
        invariant input == RowStart(from.base, from.stride, from.height - 1 - y)
                           + RowBytes(from.width - x, from.pixel) - from.pixel
        invariant output == At(to, x, y, 0)
        invariant forall u: nat, v: nat :: u < to.width && v < to.height ==>
          (Spot(u, v) in done <==> v < y || (v == y && u < x))
      {
        t := CarryGroup(src, dst, from.pixel, input, output, p, 2, t, x, y, before, done);
        done := done + {Spot(x, y)};
        input := input - from.pixel;
        output := output + from.pixel;
      }
    }
    AllDone(p, 2, t, before, done);
    writes := t.writes;
  }

  /** The part of destination column `x` that lies in one band of rows. */
  method RotateBandColumn(src: array<byte>, from: Layout, turns: nat, dst: array<byte>, to: Layout, x: nat, band: nat,
                          bandEnd: nat, ghost p: Plane, ghost t: Target, ghost before: seq<byte>, ghost done: set<Spot>)
    returns (ghost r: Target, ghost more: set<Spot>)
    requires src != dst && Odd(turns) && p == Plane(src[..], from) && t.plane == Plane(dst[..], to)
    requires Progress(p, turns, t, before, done) && x < to.width && band <= bandEnd <= to.height
    requires forall v: nat :: band <= v < bandEnd ==> Spot(x, v) !in done
    modifies dst
    ensures r.plane == Plane(dst[..], to) && Progress(p, turns, r, before, more)
    ensures forall u: nat, v: nat :: Spot(u, v) in more <==> Spot(u, v) in done || (u == x && band <= v < bandEnd)
  {
    r, more := t, done;
    var row := if turns == 1 then from.height - 1 - x else x;
    for y := band to bandEnd
      invariant r.plane == Plane(dst[..], to) && Progress(p, turns, r, before, more)
      invariant forall u: nat, v: nat :: Spot(u, v) in more <==> Spot(u, v) in done || (u == x && band <= v < y)
    {
      var column := if turns == 1 then y else from.width - 1 - y;
      var input := RowStart(from.base, from.stride, row) + RowBytes(column, from.pixel);
      var output := RowStart(to.base, to.stride, y) + RowBytes(x, to.pixel);
      r := CarryGroup(src, dst, from.pixel, input, output, p, turns, r, x, y, before, more);
      more := more + {Spot(x, y)};
    }
  }

  method RotateQuarter(src: array<byte>, from: Layout, turns: nat, dst: array<byte>, to: Layout)
    returns (ghost writes: seq<nat>)
    requires src != dst && Odd(turns) && Fits(src.Length, from) && Fits(dst.Length, to) && Separate(to)
    requires Sizes(from, turns, to)
    modifies dst
    ensures Rotated(Plane(src[..], from), turns, Plane(dst[..], to)) && |writes| == dst.Length && WrittenOnce(to, writes)
    ensures forall i: nat :: i < dst.Length && Padding(to, i) ==> dst[i] == old(dst[i])
  {
    ghost var p, before := Plane(src[..], from), dst[..];
    ghost var t := Begun(before, to);
    ghost var done: set<Spot> := {};
    BegunProgress(p, turns, before, to);
    var band := 0;
    while band < from.width
      invariant t.plane == Plane(dst[..], to) && Progress(p, turns, t, before, done)
      invariant forall u: nat, v: nat :: u < to.width && v < to.height ==> (Spot(u, v) in done <==> v < band)
    {
      var bandEnd := Min(from.width, band + BAND);
      for x := 0 to from.height
        invariant t.plane == Plane(dst[..], to) && Progress(p, turns, t, before, done)
        invariant forall u: nat, v: nat :: u < to.width && v < to.height ==>
          (Spot(u, v) in done <==> v < band || (v < bandEnd && u < x))
      {
        t, done := RotateBandColumn(src, from, turns, dst, to, x, band, bandEnd, p, t, before, done);
      }
      band := band + BAND;
    }
    AllDone(p, turns, t, before, done);
    writes := t.writes;
  }

  /** Every sample of the rotated plane is written exactly once, with the one the
      turns bring there, whatever the two planes' strides and directions; no other
      byte is written. Only the rows that are written must not overlap. */
  method RotatePlane(src: array<byte>, from: Layout, turns: nat, dst: array<byte>, to: Layout)
    returns (ghost writes: seq<nat>)
    requires src != dst && 1 <= turns <= 3 && Fits(src.Length, from) && Fits(dst.Length, to) && Separate(to)
    requires Sizes(from, turns, to)
    modifies dst
    ensures Rotated(Plane(src[..], from), turns, Plane(dst[..], to)) && |writes| == dst.Length && WrittenOnce(to, writes)
    ensures forall i: nat :: i < dst.Length && Padding(to, i) ==> dst[i] == old(dst[i])
  {
    if turns == 2 {
      writes := RotateHalf(src, from, dst, to);
    } else {
      writes := RotateQuarter(src, from, turns, dst, to);
    }
  }
}
