/** The renditions of a multivariant playlist (hls_attribute and parseVariants in
    src/hls-playlist.cpp). */
module HlsPlaylist {
  import opened Text

  const INT64_MAX := 0x7FFF_FFFF_FFFF_FFFF
  const TARGET_BITRATE := 1_500_000

  // --------------------------------------------------------- attribute lists

  datatype Value = Unclosed | Value(text: string, end: nat)

  /** The value behind the '=' at `equals`. */
  function ValueAt(s: string, equals: nat): (v: Value)
    requires equals < |s|
    ensures v.Value? ==> equals < v.end <= |s|
  {
    if equals + 1 < |s| && s[equals + 1] == '"' then
      var close := Find(s, '"', equals + 2);
      if close == |s| then Unclosed else Value(s[equals + 2..close], close + 1)
    else
      var end := Find(s, ',', equals + 1);
      Value(s[equals + 1..end], end)
  }

  function SkipSpaces(s: string, start: nat): (i: nat)
    requires start <= |s|
    ensures start <= i <= |s|
    decreases |s| - start
  {
    if start < |s| && s[start] == ' ' then SkipSpaces(s, start + 1) else start
  }

  /** The value of the first attribute called `name` from `start` on. */
  function AttributeFrom(s: string, name: string, start: nat): string
    requires start <= |s|
    decreases |s| - start, 1
  {
    var equals := Find(s, '=', start);
    if equals == |s| then ""
    else
      var value := ValueAt(s, equals);
      if value.Unclosed? then ""
      else if s[start..equals] == name then value.text
      else
        AttributesAfter(s, name, Find(s, ',', value.end))
  }

  function AttributesAfter(s: string, name: string, comma: nat): string
    requires comma <= |s|
    decreases |s| - comma, 0
  {
    if comma == |s| then "" else AttributeFrom(s, name, SkipSpaces(s, comma + 1))
  }

  /** The turn of one attribute, called `own`. */
  lemma AttributeStep(s: string, name: string, start: nat, equals: nat, value: Value, own: string)
    requires start <= |s| && equals == Find(s, '=', start) < |s| && value == ValueAt(s, equals)
    requires own == s[start..equals]
    ensures AttributeFrom(s, name, start) ==
      if value.Unclosed? then "" else if own == name then value.text else AttributesAfter(s, name, Find(s, ',', value.end))
  {
  }

  method HlsAttribute(attributes: string, name: string) returns (r: string)
    ensures r == AttributeFrom(attributes, name, 0)
  {
    var start := 0;
    ghost var all := AttributeFrom(attributes, name, 0);
    while start < |attributes|
      invariant start <= |attributes|
      invariant AttributeFrom(attributes, name, start) == all
    {
      var done, value, comma := ReadAttribute(attributes, name, start);
      if done { return value; }
      if comma == |attributes| { return ""; }
      start := SkipFrom(attributes, comma + 1);
    }
    return "";
  }

  method ReadAttribute(s: string, name: string, start: nat) returns (done: bool, r: string, comma: nat)
    requires start <= |s|
    ensures start <= comma <= |s|
    ensures AttributeFrom(s, name, start) == if done then r else AttributesAfter(s, name, comma)
  {
    var equals := Find(s, '=', start);
    if equals == |s| { return true, "", |s|; }
    var own := s[start..equals];
    var value := ReadValue(s, equals);
    AttributeStep(s, name, start, equals, value, own);
    if value.Unclosed? { return true, "", |s|; }
    if own == name { return true, value.text, |s|; }
    return false, "", Find(s, ',', value.end);
  }

  method ReadValue(s: string, equals: nat) returns (v: Value)
    requires equals < |s|
    ensures v == ValueAt(s, equals)
  {
    if equals + 1 < |s| && s[equals + 1] == '"' {
      var close := Find(s, '"', equals + 2);
      if close == |s| { return Unclosed; }
      v := Value(s[equals + 2..close], close + 1);
    } else {
      var end := Find(s, ',', equals + 1);
      v := Value(s[equals + 1..end], end);
    }
  }

  method SkipFrom(s: string, start: nat) returns (i: nat)
    requires start <= |s|
    ensures i == SkipSpaces(s, start)
  {
    i := start;
    while i < |s| && s[i] == ' '
      invariant start <= i <= |s|
      invariant SkipSpaces(s, i) == SkipSpaces(s, start)
    {
      i := i + 1;
    }
  }

  datatype Attribute = Attribute(name: string, quoted: bool, value: string, behind: string)

  /** Attributes, each but the last followed by a comma and `gap` spaces, and
      possibly a text at the end that is no attribute. */
  datatype Attributes =
    | Broken(text: string)
    | Last(attribute: Attribute)
    | More(attribute: Attribute, gap: nat, rest: Attributes)

  /** A name without '='; a value in quotes and what stands between it and the
      comma, or a bare value. */
  predicate WellFormed(a: Attribute) {
    && Free(a.name, '=')
    && if a.quoted then Free(a.value, '"') && Free(a.behind, ',')
       else Free(a.value, ',') && !StartsWith(a.value, "\"") && a.behind == ""
  }

  /** A text without '=', or a name and a value whose quote is never closed. */
  predicate IsBroken(text: string) {
    || Free(text, '=')
    || exists e :: 0 <= e < |text| - 1 && text[e] == '=' && text[e + 1] == '"' && Free(text[..e], '=')
                   && Free(text[e + 2..], '"')
  }

  predicate AllWellFormed(l: Attributes) {
    match l
    case Broken(text) => IsBroken(text)
    case Last(a) => WellFormed(a)
    case More(a, _, rest) => WellFormed(a) && AllWellFormed(rest) && !StartsWith(PrintAttributes(rest), " ")
  }

  function Spaces(n: nat): string {
    seq(n, _ => ' ')
  }

  function PrintValue(a: Attribute): string {
    if a.quoted then "\"" + a.value + "\"" + a.behind else a.value
  }

  function PrintAttribute(a: Attribute): string {
    a.name + "=" + PrintValue(a)
  }

  function PrintAttributes(l: Attributes): string {
    match l
    case Broken(text) => text
    case Last(a) => PrintAttribute(a)
    case More(a, gap, rest) => PrintAttribute(a) + ("," + (Spaces(gap) + PrintAttributes(rest)))
  }

  function Lookup(l: Attributes, name: string): string {
    match l
    case Broken(_) => ""
    case Last(a) => if a.name == name then a.value else ""
    case More(a, _, rest) => if a.name == name then a.value else Lookup(rest, name)
  }

  lemma TextSplit(s: string, a: string, b: string, i: nat)
    requires TextAt(s, a + b, i)
    ensures TextAt(s, a, i) && TextAt(s, b, i + |a|)
  {
    var t := a + b;
    assert forall k :: 0 <= k < |a| ==> t[k] == a[k];
    assert forall k :: 0 <= k < |b| ==> t[|a| + k] == b[k];
  }

  lemma TextSlice(s: string, t: string, i: nat, end: nat)
    requires TextAt(s, t, i) && end == i + |t|
    ensures s[i..end] == t
  {
  }

  /** Reading back one printed attribute. */
  lemma ReadsAttribute(s: string, a: Attribute, start: nat, end: nat) returns (equals: nat, until: nat)
    requires WellFormed(a) && TextAt(s, PrintAttribute(a), start)
    requires end == start + |PrintAttribute(a)| && (end == |s| || s[end] == ',')
    ensures equals == start + |a.name| < until <= end <= |s|
    ensures Find(s, '=', start) == equals && s[start..equals] == a.name
    ensures ValueAt(s, equals) == Value(a.value, until) && Find(s, ',', until) == end
  {
    equals := start + |a.name|;
    TextSplit(s, a.name + "=", PrintValue(a), start);
    TextSplit(s, a.name, "=", start);
    TextSlice(s, a.name, start, equals);
    assert s[equals] == "="[0];
    assert forall k :: start <= k < equals ==> s[k] == a.name[k - start];
    FindIs(s, '=', start, equals);
    until := ReadsValue(s, a, equals, end);
  }

  lemma ReadsValue(s: string, a: Attribute, equals: nat, end: nat) returns (until: nat)
    requires WellFormed(a) && TextAt(s, PrintValue(a), equals + 1)
    requires end == equals + 1 + |PrintValue(a)| && (end == |s| || s[end] == ',')
    ensures equals < until <= end <= |s|
    ensures ValueAt(s, equals) == Value(a.value, until) && Find(s, ',', until) == end
  {
    if a.quoted {
      var closed := "\"" + a.value + "\"";
      until := equals + 1 + |closed|;
      TextSplit(s, closed, a.behind, equals + 1);
      ReadsQuoted(s, a.value, equals + 2, until);
      Passes(s, a.behind, until, end);
    } else {
      until := end;
      ReadsBare(s, a.value, equals + 1, end);
      FindIs(s, ',', end, end);
    }
  }

  /** The comma behind a text without one. */
  lemma Passes(s: string, text: string, start: nat, end: nat)
    requires Free(text, ',') && TextAt(s, text, start) && end == start + |text| && (end == |s| || s[end] == ',')
    ensures Find(s, ',', start) == end
  {
    assert forall k :: start <= k < end ==> s[k] == text[k - start];
    FindIs(s, ',', start, end);
  }

  lemma ReadsQuoted(s: string, value: string, start: nat, end: nat)
    requires Free(value, '"') && start > 0 && TextAt(s, "\"" + value + "\"", start - 1) && end == start + |value| + 1
    ensures s[start - 1] == '"' && Find(s, '"', start) == end - 1 && s[start..end - 1] == value
  {
    var t := "\"" + value + "\"";
    assert t[0] == '"' && t[|value| + 1] == '"';
    assert forall k :: 0 <= k < |value| ==> t[k + 1] == value[k];
    assert forall k :: start <= k < end - 1 ==> s[k] == t[k - start + 1];
    FindIs(s, '"', start, end - 1);
  }

  lemma ReadsBare(s: string, value: string, start: nat, end: nat)
    requires Free(value, ',') && !StartsWith(value, "\"")
    requires TextAt(s, value, start) && end == start + |value| && (end == |s| || s[end] == ',')
    ensures start < |s| ==> s[start] != '"'
    ensures Find(s, ',', start) == end && s[start..end] == value
  {
    Passes(s, value, start, end);
    assert value != "" ==> value[..1] == [value[0]] && value[0] != '"';
  }

  lemma {:induction false} SkipsSpaces(s: string, start: nat, gap: nat)
    requires start + gap <= |s| && forall k :: start <= k < start + gap ==> s[k] == ' '
    requires start + gap < |s| ==> s[start + gap] != ' '
    ensures SkipSpaces(s, start) == start + gap
    decreases gap
  {
    if gap > 0 { SkipsSpaces(s, start + 1, gap - 1); }
  }

  /** What stands behind a printed attribute and before the next one. */
  lemma ReadsGap(s: string, gap: nat, rest: string, end: nat) returns (next: nat)
    requires !StartsWith(rest, " ")
    requires TextAt(s, "," + (Spaces(gap) + rest), end) && end + |"," + (Spaces(gap) + rest)| == |s|
    ensures s[end] == ',' && next <= |s|
    ensures SkipSpaces(s, end + 1) == next && TextAt(s, rest, next) && next + |rest| == |s|
  {
    next := end + 1 + gap;
    TextSplit(s, ",", Spaces(gap) + rest, end);
    assert s[end] == ","[0];
    TextSplit(s, Spaces(gap), rest, end + 1);
    assert forall k :: end + 1 <= k < end + 1 + gap ==> s[k] == Spaces(gap)[k - end - 1];
    if rest != "" {
      assert s[next] == rest[0] && rest[..1] == [rest[0]] && rest[0] != ' ';
    }
    SkipsSpaces(s, end + 1, gap);
  }

  lemma ReadsOne(s: string, a: Attribute, name: string, start: nat, end: nat)
    requires WellFormed(a) && TextAt(s, PrintAttribute(a), start)
    requires end == start + |PrintAttribute(a)| && (end == |s| || s[end] == ',')
    ensures AttributeFrom(s, name, start) == if a.name == name then a.value else AttributesAfter(s, name, end)
  {
    var equals, until := ReadsAttribute(s, a, start, end);
    AttributeStep(s, name, start, equals, Value(a.value, until), a.name);
  }

  /** A text that is no attribute has no value, whatever the name. */
  lemma ReadsBroken(s: string, text: string, name: string, start: nat)
    requires IsBroken(text) && start + |text| == |s| && s[start..] == text
    ensures AttributeFrom(s, name, start) == ""
  {
    if Free(text, '=') {
      assert forall k :: start <= k < |s| ==> s[k] == text[k - start];
      FindIs(s, '=', start, |s|);
    } else {
      var e :| 0 <= e < |text| - 1 && text[e] == '=' && text[e + 1] == '"' && Free(text[..e], '=')
               && Free(text[e + 2..], '"');
      StaysOpen(s, text, e, start);
    }
  }

  lemma StaysOpen(s: string, text: string, e: nat, start: nat)
    requires start + |text| == |s| && s[start..] == text && e + 1 < |text|
    requires text[e] == '=' && text[e + 1] == '"' && Free(text[..e], '=') && Free(text[e + 2..], '"')
    ensures Find(s, '=', start) == start + e && ValueAt(s, start + e).Unclosed?
  {
    assert forall k :: start <= k < start + e ==> s[k] == text[..e][k - start];
    FindIs(s, '=', start, start + e);
    assert forall k :: start + e + 2 <= k < |s| ==> s[k] == text[e + 2..][k - start - e - 2];
    FindIs(s, '"', start + e + 2, |s|);
  }

  lemma {:induction false} LooksUp(s: string, l: Attributes, name: string, start: nat)
    requires AllWellFormed(l) && TextAt(s, PrintAttributes(l), start) && start + |PrintAttributes(l)| == |s|
    ensures AttributeFrom(s, name, start) == Lookup(l, name)
    decreases l
  {
    match l
    case Broken(text) =>
      ReadsBroken(s, text, name, start);
    case Last(a) =>
      ReadsOne(s, a, name, start, |s|);
    case More(a, gap, rest) =>
      var next := ReadsInner(s, a, gap, PrintAttributes(rest), name, start);
      LooksUp(s, rest, name, next);
  }

  lemma ReadsInner(s: string, a: Attribute, gap: nat, rest: string, name: string, start: nat) returns (next: nat)
    requires WellFormed(a) && !StartsWith(rest, " ")
    requires TextAt(s, PrintAttribute(a) + ("," + (Spaces(gap) + rest)), start)
    requires start + |PrintAttribute(a) + ("," + (Spaces(gap) + rest))| == |s|
    ensures next <= |s| && TextAt(s, rest, next) && next + |rest| == |s|
    ensures AttributeFrom(s, name, start) == if a.name == name then a.value else AttributeFrom(s, name, next)
  {
    var behind := "," + (Spaces(gap) + rest);
    TextSplit(s, PrintAttribute(a), behind, start);
    var end := start + |PrintAttribute(a)|;
    next := ReadsGap(s, gap, rest, end);
    ReadsOne(s, a, name, start, end);
  }

  /** Looking a name up in a printed list gives the value of the first attribute
      with exactly that name, and nothing when there is none. */
  lemma AttributeRoundTrip(l: Attributes, name: string)
    requires AllWellFormed(l)
    ensures AttributeFrom(PrintAttributes(l), name, 0) == Lookup(l, name)
  {
    LooksUp(PrintAttributes(l), l, name, 0);
  }

  /** Every text is such a list, so the round trip speaks of every lookup. */
  lemma {:induction false} EveryTextIsAList(s: string) returns (l: Attributes)
    ensures AllWellFormed(l) && PrintAttributes(l) == s
    decreases |s|
  {
    var equals := Find(s, '=', 0);
    NoneBefore(s, '=', 0);
    if equals == |s| { return Broken(s); }
    var value := ValueAt(s, equals);
    if value.Unclosed? {
      NoneBefore(s, '"', equals + 2);
      assert Free(s[..equals], '=') && Free(s[equals + 2..], '"');
      return Broken(s);
    }
    var a, end := FirstAttribute(s, equals);
    if end == |s| {
      assert s[..end] == s;
      return Last(a);
    }
    var gap, rest := GapBehind(s, end);
    var others := EveryTextIsAList(rest);
    l := More(a, gap, others);
  }

  lemma FirstAttribute(s: string, equals: nat) returns (a: Attribute, end: nat)
    requires equals == Find(s, '=', 0) < |s| && ValueAt(s, equals).Value?
    ensures WellFormed(a) && equals < end <= |s| && PrintAttribute(a) == s[..end] && (end < |s| ==> s[end] == ',')
  {
    var value := ValueAt(s, equals);
    end := Find(s, ',', value.end);
    FreeUpTo(s, '=', 0);
    FreeUpTo(s, ',', value.end);
    var quoted := equals + 1 < |s| && s[equals + 1] == '"';
    a := Attribute(s[..equals], quoted, value.text, s[value.end..end]);
    if quoted {
      FreeUpTo(s, '"', equals + 2);
      InQuotes(s, equals + 1, value.end - 1);
    } else {
      BareValue(s, equals);
    }
    Joined(s, equals, value.end, end);
  }

  lemma InQuotes(s: string, i: nat, j: nat)
    requires i < j < |s| && s[i] == '"' == s[j]
    ensures s[i..j + 1] == "\"" + s[i + 1..j] + "\""
  {
  }

  lemma BareValue(s: string, equals: nat)
    requires equals < |s| && !(equals + 1 < |s| && s[equals + 1] == '"')
    ensures var value := ValueAt(s, equals);
      && value.Value? && value.text == s[equals + 1..value.end] && Free(value.text, ',')
      && !StartsWith(value.text, "\"") && Find(s, ',', value.end) == value.end
  {
    var end := Find(s, ',', equals + 1);
    FreeUpTo(s, ',', equals + 1);
    FindIs(s, ',', end, end);
    var text := s[equals + 1..end];
    assert text != "" ==> text[0] == s[equals + 1];
  }

  lemma Joined(s: string, equals: nat, until: nat, end: nat)
    requires equals < until <= end <= |s| && s[equals] == '='
    ensures s[..equals] + "=" + (s[equals + 1..until] + s[until..end]) == s[..end]
  {
    assert s[equals + 1..until] + s[until..end] == s[equals + 1..end];
  }

  lemma GapBehind(s: string, end: nat) returns (gap: nat, rest: string)
    requires end < |s| && s[end] == ','
    ensures |rest| < |s| && s == s[..end] + ("," + (Spaces(gap) + rest)) && !StartsWith(rest, " ")
  {
    var next := SkipSpaces(s, end + 1);
    OnlySpaces(s, end + 1);
    gap, rest := next - end - 1, s[next..];
    assert s[end + 1..next] == Spaces(gap);
    assert s == s[..end] + ([s[end]] + (s[end + 1..next] + s[next..]));
  }

  lemma {:induction false} OnlySpaces(s: string, start: nat)
    requires start <= |s|
    ensures forall k :: start <= k < SkipSpaces(s, start) ==> s[k] == ' '
    ensures SkipSpaces(s, start) < |s| ==> s[SkipSpaces(s, start)] != ' '
    decreases |s| - start
  {
    if start < |s| && s[start] == ' ' { OnlySpaces(s, start + 1); }
  }

  // ------------------------------------------------------------ renditions

  const STREAM_INF := "#EXT-X-STREAM-INF:"

  datatype Variant = Variant(uri: string, bandwidth: int, supportedVideo: bool)

  predicate IsDigit(c: char) {
    '0' <= c <= '9'
  }

  function DigitValue(c: char): nat
    requires IsDigit(c)
  {
    c as int - 48
  }

  predicate IsSpace(c: char) {
    c == ' ' || '\t' <= c <= '\r'
  }

  function DigitsFrom(s: string, i: nat, value: nat): nat
    requires i <= |s|
    decreases |s| - i
  {
    if i < |s| && IsDigit(s[i]) then DigitsFrom(s, i + 1, 10 * value + DigitValue(s[i])) else value
  }

  function SpacesFrom(s: string, i: nat): (j: nat)
    requires i <= |s|
    ensures i <= j <= |s|
    decreases |s| - i
  {
    if i < |s| && IsSpace(s[i]) then SpacesFrom(s, i + 1) else i
  }

  /** strtoll: leading space, a sign, digits; out of range saturates. */
  function Strtoll(s: string): int {
    var start := SpacesFrom(s, 0);
    if start < |s| && s[start] == '-' then
      var n: int := DigitsFrom(s, start + 1, 0);
      if n > INT64_MAX then -INT64_MAX - 1 else -n
    else
      var n: int := DigitsFrom(s, if start < |s| && s[start] == '+' then start + 1 else start, 0);
      if n > INT64_MAX then INT64_MAX else n
  }

  function BandwidthOf(text: string): int {
    if text == "" then 0 else Strtoll(text)
  }

  /** The stated codecs, if any, name a video format that can be decoded. */
  predicate SupportedCodecs(codecs: string) {
    codecs == "" || Contains(codecs, "avc1") || Contains(codecs, "avc3") || Contains(codecs, "hvc1")
    || Contains(codecs, "hev1")
  }

  function VariantOf(attributes: string, uri: string): Variant {
    Variant(uri, BandwidthOf(AttributeFrom(attributes, "BANDWIDTH", 0)),
            SupportedCodecs(AttributeFrom(attributes, "CODECS", 0)))
  }

  predicate IsBlank(c: char) {
    c == ' ' || c == '\t'
  }

  function TrimEnd(s: string): string {
    if s != "" && (IsBlank(s[|s| - 1]) || s[|s| - 1] == '\r' || s[|s| - 1] == '\n')
    then TrimEnd(s[..|s| - 1]) else s
  }

  function TrimStart(s: string): string {
    if s != "" && IsBlank(s[0]) then TrimStart(s[1..]) else s
  }

  function TrimLine(line: string): string {
    TrimStart(TrimEnd(line))
  }

  /** The attributes still waiting for their address, and the renditions so far. */
  datatype Scan = Scan(pending: string, variants: seq<Variant>)

  function TakeLine(scan: Scan, line: string): Scan {
    if StartsWith(line, STREAM_INF) then scan.(pending := line[|STREAM_INF|..])
    else if scan.pending != "" && line != "" && line[0] != '#'
    then Scan("", scan.variants + [VariantOf(scan.pending, line)])
    else scan
  }

  function ScanFrom(s: string, cursor: nat, scan: Scan): Scan
    requires cursor <= |s|
    decreases |s| - cursor
  {
    var end := Find(s, '\n', cursor);
    var next := TakeLine(scan, TrimLine(s[cursor..end]));
    if end == |s| then next else ScanFrom(s, end + 1, next)
  }

  method ParseLine(pending: string, variants: seq<Variant>, line: string)
    returns (stillPending: string, more: seq<Variant>)
    ensures Scan(stillPending, more) == TakeLine(Scan(pending, variants), line)
  {
    stillPending, more := pending, variants;
    if StartsWith(line, STREAM_INF) {
      stillPending := line[|STREAM_INF|..];
    } else if pending != "" && line != "" && line[0] != '#' {
      var bandwidth := HlsAttribute(pending, "BANDWIDTH");
      var codecs := HlsAttribute(pending, "CODECS");
      more := variants + [Variant(line, BandwidthOf(bandwidth), SupportedCodecs(codecs))];
      stillPending := "";
    }
  }

  method ParseVariants(playlist: string) returns (variants: seq<Variant>)
    ensures variants == ScanFrom(playlist, 0, Scan("", [])).variants
  {
    variants := [];
    var pending := "";
    var cursor := 0;
    ghost var all := ScanFrom(playlist, 0, Scan("", []));
    while cursor <= |playlist|
      invariant cursor <= |playlist|
      invariant ScanFrom(playlist, cursor, Scan(pending, variants)) == all
      decreases |playlist| - cursor
    {
      var end := Find(playlist, '\n', cursor);
      ScanStep(playlist, cursor, Scan(pending, variants), end);
      pending, variants := ParseLine(pending, variants, TrimLine(playlist[cursor..end]));
      if end == |playlist| { break; }
      cursor := end + 1;
    }
  }

  lemma ScanStep(s: string, cursor: nat, scan: Scan, end: nat)
    requires cursor <= |s| && end == Find(s, '\n', cursor)
    ensures ScanFrom(s, cursor, scan) ==
      var next := TakeLine(scan, TrimLine(s[cursor..end]));
      if end == |s| then next else ScanFrom(s, end + 1, next)
  {
  }

  // ----------------------------------------------------- printed playlists

  function Decimal(n: nat): string {
    (if n < 10 then "" else Decimal(n / 10)) + [(48 + n % 10) as char]
  }

  lemma {:induction false} DigitsAppend(s: string, i: nat, value: nat, d: char)
    requires i <= |s| && IsDigit(d) && forall k :: i <= k < |s| ==> IsDigit(s[k])
    ensures DigitsFrom(s + [d], i, value) == 10 * DigitsFrom(s, i, value) + DigitValue(d)
    decreases |s| - i
  {
    var t := s + [d];
    if i < |s| {
      assert t[i] == s[i];
      DigitsAppend(s, i + 1, 10 * value + DigitValue(s[i]), d);
    } else {
      assert t[i] == d;
    }
  }

  lemma {:induction false} DecimalDigits(n: nat)
    ensures Decimal(n) != "" && DigitsFrom(Decimal(n), 0, 0) == n
    ensures forall k :: 0 <= k < |Decimal(n)| ==> IsDigit(Decimal(n)[k])
  {
    var d := (48 + n % 10) as char;
    if n < 10 {
      DigitsAppend("", 0, 0, d);
    } else {
      DecimalDigits(n / 10);
      DigitsAppend(Decimal(n / 10), 0, 0, d);
    }
  }

  /** A printed number is read back, up to the largest 64-bit one. */
  lemma StrtollDecimal(n: nat)
    ensures BandwidthOf(Decimal(n)) == if n > INT64_MAX then INT64_MAX else n
  {
    DecimalDigits(n);
    var first := Decimal(n)[0];
    assert IsDigit(first) && first != '-' && first != '+' && !IsSpace(first);
  }

  /** A line without line feed that trimming leaves as it is. */
  predicate Clean(line: string) {
    && Free(line, '\n')
    && (line != "" ==> !IsBlank(line[0]) && !IsBlank(line[|line| - 1]) && line[|line| - 1] != '\r')
  }

  datatype Comments = NoComment | Comment(text: string, rest: Comments)

  datatype Items =
    | End
    | Remark(comment: string, rest: Items)
    | Rendition(attributes: Attributes, between: Comments, uri: string, rest: Items)

  /** A blank line, or a comment that is not itself an attribute line. */
  predicate IsComment(text: string) {
    Clean(text) && (text != "" ==> text[0] == '#') && !StartsWith(text, STREAM_INF)
  }

  predicate AllComments(c: Comments) {
    c.Comment? ==> IsComment(c.text) && AllComments(c.rest)
  }

  predicate IsAddress(uri: string) {
    uri != "" && uri[0] != '#' && Clean(uri)
  }

  predicate IsAttributes(attributes: Attributes) {
    AllWellFormed(attributes) && PrintAttributes(attributes) != "" && Clean(STREAM_INF + PrintAttributes(attributes))
  }

  /** Comments and blank lines; renditions with well-formed attributes and an
      address, comments and blank lines between the two. */
  predicate ValidItems(items: Items) {
    match items
    case End => true
    case Remark(comment, rest) => IsComment(comment) && ValidItems(rest)
    case Rendition(attributes, between, uri, rest) =>
      IsAttributes(attributes) && AllComments(between) && IsAddress(uri) && ValidItems(rest)
  }

  /** The comments, and what follows them. */
  function PrintComments(c: Comments, cr: string, behind: string): string {
    match c
    case NoComment => behind
    case Comment(text, rest) => text + cr + "\n" + PrintComments(rest, cr, behind)
  }

  /** Each line ends in a line feed, `cr` before it. */
  function PrintItems(items: Items, cr: string): string {
    match items
    case End => ""
    case Remark(comment, rest) => comment + cr + "\n" + PrintItems(rest, cr)
    case Rendition(attributes, between, uri, rest) =>
      STREAM_INF + PrintAttributes(attributes) + cr + "\n"
      + PrintComments(between, cr, uri + cr + "\n" + PrintItems(rest, cr))
  }

  function DescribedOne(attributes: Attributes, uri: string): Variant {
    Variant(uri, BandwidthOf(Lookup(attributes, "BANDWIDTH")), SupportedCodecs(Lookup(attributes, "CODECS")))
  }

  function Described(items: Items): seq<Variant> {
    match items
    case End => []
    case Remark(_, rest) => Described(rest)
    case Rendition(attributes, _, uri, rest) => [DescribedOne(attributes, uri)] + Described(rest)
  }

  predicate LineEnd(cr: string) {
    cr == "" || cr == "\r"
  }

  lemma TrimsClean(line: string, cr: string)
    requires Clean(line) && LineEnd(cr)
    ensures TrimLine(line + cr) == line
  {
    var t := line + cr;
    if cr == "" {
      assert t == line;
    } else {
      assert t[|line|] == cr[0] == '\r' && t[..|line|] == line;
    }
    assert TrimEnd(t) == TrimEnd(line) == line;
  }

  /** Reading one printed line. */
  lemma ScansLine(s: string, line: string, cr: string, rest: string, cursor: nat, scan: Scan) returns (next: nat)
    requires Clean(line) && LineEnd(cr) && TextAt(s, line + cr + "\n" + rest, cursor)
    requires cursor + |line + cr + "\n" + rest| == |s|
    ensures next <= |s| && TextAt(s, rest, next) && next + |rest| == |s|
    ensures ScanFrom(s, cursor, scan) == ScanFrom(s, next, TakeLine(scan, line))
  {
    var end := cursor + |line + cr|;
    next := end + 1;
    TextSplit(s, line + cr + "\n", rest, cursor);
    TextSplit(s, line + cr, "\n", cursor);
    TextSlice(s, line + cr, cursor, end);
    assert s[end] == "\n"[0];
    assert forall k :: cursor <= k < end ==> s[k] == (line + cr)[k - cursor] != '\n';
    FindIs(s, '\n', cursor, end);
    ScanStep(s, cursor, scan, end);
    TrimsClean(line, cr);
  }

  lemma TakesRendition(attributes: Attributes, uri: string, before: seq<Variant>)
    requires AllWellFormed(attributes) && PrintAttributes(attributes) != "" && uri != "" && uri[0] != '#'
    ensures TakeLine(TakeLine(Scan("", before), STREAM_INF + PrintAttributes(attributes)), uri) ==
      Scan("", before + [DescribedOne(attributes, uri)])
  {
    var printed := PrintAttributes(attributes);
    AttributeRoundTrip(attributes, "BANDWIDTH");
    AttributeRoundTrip(attributes, "CODECS");
    assert (STREAM_INF + printed)[|STREAM_INF|..] == printed;
    assert STREAM_INF[0] == '#';
  }

  /** Comments change nothing, whether attributes wait for their address or not. */
  lemma {:induction false} ScansComments(s: string, c: Comments, cr: string, behind: string, cursor: nat, scan: Scan)
    returns (next: nat)
    requires AllComments(c) && LineEnd(cr)
    requires TextAt(s, PrintComments(c, cr, behind), cursor) && cursor + |PrintComments(c, cr, behind)| == |s|
    ensures next <= |s| && TextAt(s, behind, next) && next + |behind| == |s|
    ensures ScanFrom(s, cursor, scan) == ScanFrom(s, next, scan)
    decreases c
  {
    match c
    case NoComment => next := cursor;
    case Comment(text, rest) =>
      next := ScansLine(s, text, cr, PrintComments(rest, cr, behind), cursor, scan);
      next := ScansComments(s, rest, cr, behind, next, scan);
  }

  lemma ScansRendition(s: string, attributes: Attributes, between: Comments, uri: string, cr: string, rest: string,
                       cursor: nat, before: seq<Variant>)
    returns (next: nat)
    requires IsAttributes(attributes) && AllComments(between) && IsAddress(uri) && LineEnd(cr)
    requires var behind := PrintComments(between, cr, uri + cr + "\n" + rest);
             var printed := STREAM_INF + PrintAttributes(attributes) + cr + "\n" + behind;
             TextAt(s, printed, cursor) && cursor + |printed| == |s|
    ensures next <= |s| && TextAt(s, rest, next) && next + |rest| == |s|
    ensures ScanFrom(s, cursor, Scan("", before)) == ScanFrom(s, next, Scan("", before + [DescribedOne(attributes, uri)]))
  {
    var line := STREAM_INF + PrintAttributes(attributes);
    var address := uri + cr + "\n" + rest;
    var waiting := TakeLine(Scan("", before), line);
    next := ScansLine(s, line, cr, PrintComments(between, cr, address), cursor, Scan("", before));
    next := ScansComments(s, between, cr, address, next, waiting);
    next := ScansLine(s, uri, cr, rest, next, waiting);
    TakesRendition(attributes, uri, before);
  }

  lemma {:induction false} ScansItems(s: string, items: Items, cr: string, cursor: nat, before: seq<Variant>)
    requires ValidItems(items) && LineEnd(cr)
    requires TextAt(s, PrintItems(items, cr), cursor) && cursor + |PrintItems(items, cr)| == |s|
    ensures ScanFrom(s, cursor, Scan("", before)) == Scan("", before + Described(items))
    decreases items
  {
    match items
    case End =>
      ScansNothing(s, before);
    case Remark(comment, rest) =>
      var next := ScansLine(s, comment, cr, PrintItems(rest, cr), cursor, Scan("", before));
      ScansItems(s, rest, cr, next, before);
    case Rendition(attributes, between, uri, rest) =>
      var next := ScansRendition(s, attributes, between, uri, cr, PrintItems(rest, cr), cursor, before);
      ScansItems(s, rest, cr, next, before + [DescribedOne(attributes, uri)]);
      OneMore(before, DescribedOne(attributes, uri), Described(rest));
  }

  lemma OneMore(before: seq<Variant>, one: Variant, rest: seq<Variant>)
    ensures before + [one] + rest == before + ([one] + rest)
  {
  }

  lemma ScansNothing(s: string, before: seq<Variant>)
    ensures ScanFrom(s, |s|, Scan("", before)) == Scan("", before) && before + [] == before
  {
    assert s[|s|..|s|] == "";
  }

  lemma PlaylistScans(s: string, items: Items, cr: string, none: seq<Variant>)
    requires ValidItems(items) && LineEnd(cr) && s == PrintItems(items, cr) && none == []
    ensures ScanFrom(s, 0, Scan("", none)).variants == Described(items)
  {
    ScansItems(s, items, cr, 0, none);
    assert none + Described(items) == Described(items);
  }

  /** Parsing a printed playlist gives its renditions in order, each with the
      bandwidth and codecs of its own attributes, whatever comments and blank lines
      stand between the lines and whichever line ends are used. */
  lemma PlaylistRoundTrip(items: Items, cr: string)
    requires ValidItems(items) && LineEnd(cr)
    ensures ScanFrom(PrintItems(items, cr), 0, Scan("", [])).variants == Described(items)
  {
    PlaylistScans(PrintItems(items, cr), items, cr, []);
  }
}
