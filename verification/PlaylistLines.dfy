/** The parsing of src/hls-playlist.cpp on every text, in terms of its lines:
    which lines are renditions, what their numbers and codecs mean, and what
    trimming takes away. */
module PlaylistLines {
  import opened Text
  import opened HlsPlaylist

  // ------------------------------------------------------------- renditions

  predicate Ignored(line: string) {
    line == "" || (line[0] == '#' && !StartsWith(line, "#EXT-X-STREAM-INF:"))
  }

  predicate HasAttributes(line: string) {
    StartsWith(line, "#EXT-X-STREAM-INF:")
  }

  predicate HasAddress(line: string) {
    line != "" && line[0] != '#'
  }

  /** Line `k` is the address of a rendition and line `j` holds its attributes:
      nothing but comments and blank lines between the two. */
  predicate Renders(lines: seq<string>, j: nat, k: nat) {
    && j < k < |lines| && HasAttributes(lines[j]) && lines[j] != "#EXT-X-STREAM-INF:" && HasAddress(lines[k])
    && forall m :: j < m < k ==> Ignored(lines[m])
  }

  datatype Place = Place(attributes: nat, address: nat)

  predicate IsRendition(lines: seq<string>, place: Place, v: Variant) {
    && Renders(lines, place.attributes, place.address)
    && v.uri == lines[place.address]
    && var attributes := lines[place.attributes][18..];
       && v.bandwidth == BandwidthOf(AttributeFrom(attributes, "BANDWIDTH", 0))
       && v.supportedVideo == SupportedCodecs(AttributeFrom(attributes, "CODECS", 0))
  }

  function Taken(lines: seq<string>): Scan {
    if lines == [] then Scan("", []) else TakeLine(Taken(lines[..|lines| - 1]), lines[|lines| - 1])
  }

  /** The attributes waiting after `lines` are those of line `j`. */
  predicate Waits(lines: seq<string>, j: nat) {
    && j < |lines| && HasAttributes(lines[j]) && lines[j] != "#EXT-X-STREAM-INF:"
    && forall m :: j < m < |lines| ==> Ignored(lines[m])
  }

  /** What a scan of `lines` has come to: `places` names the lines of each rendition
      so far, and `j` the line of the attributes still waiting. */
  ghost predicate Explains(lines: seq<string>, scan: Scan, places: seq<Place>, j: int) {
    && |places| == |scan.variants|
    && (forall i :: 0 <= i < |places| ==> IsRendition(lines, places[i], scan.variants[i]))
    && (forall i, m :: 0 <= i < m < |places| ==> places[i].address < places[m].address)
    && (forall p: Place :: Renders(lines, p.attributes, p.address) ==> p in places)
    && (if scan.pending == "" then j == -1 && forall m: nat :: !Waits(lines, m)
        else j >= 0 && Waits(lines, j) && scan.pending == lines[j][18..])
  }

  lemma Earlier(before: seq<string>, line: string, p: Place)
    requires p.address < |before|
    ensures Renders(before + [line], p.attributes, p.address) <==> Renders(before, p.attributes, p.address)
  {
    var lines := before + [line];
    assert forall m :: 0 <= m < |before| ==> lines[m] == before[m];
  }

  lemma AddressLine(before: seq<string>, line: string, j: nat)
    ensures Renders(before + [line], j, |before|) <==> Waits(before, j) && HasAddress(line)
  {
    var lines := before + [line];
    assert forall m :: 0 <= m < |before| ==> lines[m] == before[m];
  }

  lemma WaitsBehind(before: seq<string>, line: string, j: nat)
    ensures Waits(before + [line], j) <==>
      if j == |before| then HasAttributes(line) && line != "#EXT-X-STREAM-INF:" else Waits(before, j) && Ignored(line)
  {
    var lines := before + [line];
    assert forall m :: 0 <= m < |before| ==> lines[m] == before[m];
    assert lines[|before|] == line;
  }

  lemma OneWaits(lines: seq<string>, j: nat, m: nat)
    requires Waits(lines, j) && Waits(lines, m)
    ensures j == m
  {
  }

  lemma RenditionStays(before: seq<string>, line: string, place: Place, v: Variant)
    requires IsRendition(before, place, v)
    ensures IsRendition(before + [line], place, v)
  {
    Earlier(before, line, place);
  }

  /** One more line that is not the address of a rendition. */
  lemma NoRendition(before: seq<string>, line: string, scan: Scan, places: seq<Place>, j: int)
    requires Explains(before, scan, places, j) && (!HasAddress(line) || scan.pending == "")
    ensures forall i :: 0 <= i < |places| ==> IsRendition(before + [line], places[i], scan.variants[i])
    ensures forall p: Place :: Renders(before + [line], p.attributes, p.address) ==> p in places
  {
    forall i | 0 <= i < |places| ensures IsRendition(before + [line], places[i], scan.variants[i]) {
      RenditionStays(before, line, places[i], scan.variants[i]);
    }
    forall p: Place | Renders(before + [line], p.attributes, p.address) ensures p in places {
      if p.address == |before| {
        AddressLine(before, line, p.attributes);
      } else {
        Earlier(before, line, p);
      }
    }
  }

  lemma StepExplained(before: seq<string>, line: string, scan: Scan, places: seq<Place>, j: int)
    returns (more: seq<Place>, waiting: int)
    requires Explains(before, scan, places, j)
    ensures Explains(before + [line], TakeLine(scan, line), more, waiting)
  {
    var lines, next := before + [line], TakeLine(scan, line);
    forall m: nat
      ensures Waits(lines, m) <==>
        if m == |before| then HasAttributes(line) && line != "#EXT-X-STREAM-INF:" else Waits(before, m) && Ignored(line)
    {
      WaitsBehind(before, line, m);
    }
    if HasAddress(line) && scan.pending != "" {
      more, waiting := AddressTaken(before, line, scan, places, j);
    } else {
      NoRendition(before, line, scan, places, j);
      more := places;
      waiting := if HasAttributes(line) then (if line == "#EXT-X-STREAM-INF:" then -1 else |before|) else j;
    }
  }

  lemma AddressTaken(before: seq<string>, line: string, scan: Scan, places: seq<Place>, j: int)
    returns (more: seq<Place>, waiting: int)
    requires Explains(before, scan, places, j) && HasAddress(line) && scan.pending != ""
    ensures Explains(before + [line], TakeLine(scan, line), more, waiting)
  {
    var lines, next := before + [line], TakeLine(scan, line);
    more, waiting := places + [Place(j, |before|)], -1;
    forall i | 0 <= i < |more| ensures IsRendition(lines, more[i], next.variants[i]) {
      if i < |places| {
        RenditionStays(before, line, places[i], scan.variants[i]);
      } else {
        NewRendition(before, line, scan, j);
      }
    }
    forall p: Place | Renders(lines, p.attributes, p.address) ensures p in more {
      if p.address == |before| {
        AddressLine(before, line, p.attributes);
        OneWaits(before, j, p.attributes);
      } else {
        Earlier(before, line, p);
      }
    }
    forall m: nat ensures !Waits(lines, m) {
      WaitsBehind(before, line, m);
    }
  }

  lemma NewRendition(before: seq<string>, line: string, scan: Scan, j: nat)
    requires Waits(before, j) && scan.pending == before[j][18..] != "" && HasAddress(line)
    ensures var next := TakeLine(scan, line);
      && next.pending == "" && |next.variants| == |scan.variants| + 1 && next.variants[..|scan.variants|] == scan.variants
      && IsRendition(before + [line], Place(j, |before|), next.variants[|scan.variants|])
  {
    AddressLine(before, line, j);
    assert (before + [line])[j] == before[j];
  }

  lemma {:induction false} ScanExplained(lines: seq<string>) returns (places: seq<Place>, waiting: int)
    ensures Explains(lines, Taken(lines), places, waiting)
  {
    if lines == [] {
      places, waiting := [], -1;
    } else {
      var before := lines[..|lines| - 1];
      places, waiting := ScanExplained(before);
      assert before + [lines[|lines| - 1]] == lines;
      places, waiting := StepExplained(before, lines[|lines| - 1], Taken(before), places, waiting);
    }
  }

  // ------------------------------------------------------- lines of a text

  function Trimmed(lines: seq<string>): (r: seq<string>)
    ensures |r| == |lines| && forall k :: 0 <= k < |lines| ==> r[k] == TrimLine(lines[k])
  {
    seq(|lines|, k requires 0 <= k < |lines| => TrimLine(lines[k]))
  }

  /** The lines, a line feed between each two. */
  function Joined(lines: seq<string>): string
    requires lines != []
  {
    if |lines| == 1 then lines[0] else lines[0] + ("\n" + Joined(lines[1..]))
  }

  predicate AreLines(lines: seq<string>) {
    lines != [] && forall k :: 0 <= k < |lines| ==> Free(lines[k], '\n')
  }

  lemma {:induction false} EveryTextHasLines(s: string) returns (lines: seq<string>)
    ensures AreLines(lines) && Joined(lines) == s
    decreases |s|
  {
    var end := Find(s, '\n', 0);
    FreeUpTo(s, '\n', 0);
    if end == |s| {
      assert s[..end] == s;
      return [s];
    }
    var rest := EveryTextHasLines(s[end + 1..]);
    lines := [s[..end]] + rest;
    assert lines[1..] == rest;
    assert s == s[..end] + ([s[end]] + s[end + 1..]);
  }

  /** One line of the text. */
  lemma ReadsLine(s: string, line: string, behind: string, cursor: nat, scan: Scan)
    requires Free(line, '\n') && TextAt(s, line + behind, cursor) && cursor + |line + behind| == |s|
    requires behind == "" || behind[0] == '\n'
    ensures var next := TakeLine(scan, TrimLine(line));
            ScanFrom(s, cursor, scan) == if behind == "" then next else ScanFrom(s, cursor + |line| + 1, next)
  {
    var end := cursor + |line|;
    TextSplit(s, line, behind, cursor);
    TextSlice(s, line, cursor, end);
    assert forall k :: cursor <= k < end ==> s[k] == line[k - cursor];
    assert behind != "" ==> s[end] == behind[0];
    FindIs(s, '\n', cursor, end);
    ScanStep(s, cursor, scan, end);
  }

  function TakenFrom(scan: Scan, lines: seq<string>): Scan
    decreases |lines|
  {
    if lines == [] then scan else TakenFrom(TakeLine(scan, lines[0]), lines[1..])
  }

  lemma {:induction false} TakenInOrder(before: seq<string>, lines: seq<string>)
    ensures TakenFrom(Taken(before), lines) == Taken(before + lines)
    decreases |lines|
  {
    if lines == [] {
      assert before + lines == before;
    } else {
      var more := before + [lines[0]];
      assert more[..|more| - 1] == before && more + lines[1..] == before + lines;
      TakenInOrder(more, lines[1..]);
    }
  }

  /** A line with others behind it. */
  lemma ReadsHead(s: string, line: string, rest: string, cursor: nat, scan: Scan) returns (after: nat)
    requires Free(line, '\n') && TextAt(s, line + ("\n" + rest), cursor) && cursor + |line + ("\n" + rest)| == |s|
    ensures after <= |s| && TextAt(s, rest, after) && after + |rest| == |s|
    ensures ScanFrom(s, cursor, scan) == ScanFrom(s, after, TakeLine(scan, TrimLine(line)))
  {
    var behind := "\n" + rest;
    after := cursor + |line| + 1;
    ReadsLine(s, line, behind, cursor, scan);
    TextSplit(s, line, behind, cursor);
    TextSplit(s, "\n", rest, after - 1);
  }

  lemma {:induction false} ReadsLines(s: string, lines: seq<string>, cursor: nat, scan: Scan)
    requires AreLines(lines) && TextAt(s, Joined(lines), cursor) && cursor + |Joined(lines)| == |s|
    ensures ScanFrom(s, cursor, scan) == TakenFrom(scan, Trimmed(lines))
    decreases |lines|
  {
    var next := TakeLine(scan, TrimLine(lines[0]));
    if |lines| == 1 {
      assert lines[0] + "" == lines[0];
      ReadsLine(s, lines[0], "", cursor, scan);
      assert Trimmed(lines)[1..] == [];
    } else {
      var after := ReadsHead(s, lines[0], Joined(lines[1..]), cursor, scan);
      ReadsLines(s, lines[1..], after, next);
      assert Trimmed(lines)[1..] == Trimmed(lines[1..]);
    }
    TakenOne(scan, Trimmed(lines), next);
  }

  lemma TakenOne(scan: Scan, lines: seq<string>, next: Scan)
    requires lines != [] && next == TakeLine(scan, lines[0])
    ensures TakenFrom(scan, lines) == TakenFrom(next, lines[1..])
  {
  }

  /** The renditions of any playlist are its lines with an address that follow
      attributes, only comments and blank lines between the two; each has that
      address and the values of those attributes, and they come in order. */
  lemma RenditionsAreAddresses(lines: seq<string>) returns (places: seq<Place>)
    requires AreLines(lines)
    ensures var variants, trimmed := ScanFrom(Joined(lines), 0, Scan("", [])).variants, Trimmed(lines);
      && |places| == |variants|
      && (forall i :: 0 <= i < |places| ==> IsRendition(trimmed, places[i], variants[i]))
      && (forall i, m :: 0 <= i < m < |places| ==> places[i].address < places[m].address)
      && (forall p: Place :: Renders(trimmed, p.attributes, p.address) ==> p in places)
  {
    var none: seq<string> := [];
    ReadsLines(Joined(lines), lines, 0, Scan("", []));
    TakenInOrder(none, Trimmed(lines));
    assert none + Trimmed(lines) == Trimmed(lines);
    var waiting;
    places, waiting := ScanExplained(Trimmed(lines));
  }

  // --------------------------------------------------------------- trimming

  /** Spaces and tabs go at the start; spaces, tabs, carriage returns and line feeds
      go at the end; and nothing else goes. */
  lemma TrimsEnds(line: string) returns (before: string, behind: string)
    ensures line == before + TrimLine(line) + behind
    ensures forall k :: 0 <= k < |before| ==> before[k] in " \t"
    ensures forall k :: 0 <= k < |behind| ==> behind[k] in " \t\r\n"
    ensures TrimLine(line) != "" ==> TrimLine(line)[0] !in " \t"
    ensures TrimLine(line) != "" ==> TrimLine(line)[|TrimLine(line)| - 1] !in " \t\r\n"
  {
    behind := TrimsEnd(line);
    before := TrimsStart(TrimEnd(line));
  }

  lemma {:induction false} TrimsEnd(s: string) returns (behind: string)
    ensures s == TrimEnd(s) + behind
    ensures forall k :: 0 <= k < |behind| ==> behind[k] in " \t\r\n"
    ensures TrimEnd(s) != "" ==> TrimEnd(s)[|TrimEnd(s)| - 1] !in " \t\r\n"
  {
    if s != "" && s[|s| - 1] in " \t\r\n" {
      behind := TrimsEnd(s[..|s| - 1]);
      behind := behind + [s[|s| - 1]];
    } else {
      behind := "";
    }
  }

  lemma {:induction false} TrimsStart(s: string) returns (before: string)
    ensures s == before + TrimStart(s)
    ensures forall k :: 0 <= k < |before| ==> before[k] in " \t"
    ensures TrimStart(s) != "" ==> TrimStart(s)[0] !in " \t" && TrimStart(s)[|TrimStart(s)| - 1] == s[|s| - 1]
  {
    if s != "" && s[0] in " \t" {
      before := TrimsStart(s[1..]);
      before := [s[0]] + before;
    } else {
      before := "";
    }
  }

  // ---------------------------------------------------------------- numbers

  /** A space or one of the codes 9 to 13. */
  predicate AllSpace(blank: string) {
    forall k :: 0 <= k < |blank| ==> blank[k] as int == 32 || 9 <= blank[k] as int <= 13
  }

  predicate NoDigitFirst(s: string) {
    s == "" || s[0] !in "0123456789"
  }

  lemma {:induction false} PassesSpace(s: string, i: nat, end: nat)
    requires i <= end <= |s| && AllSpace(s[i..end])
    requires end == |s| || !AllSpace(s[end..end + 1])
    ensures SpacesFrom(s, i) == end
    decreases end - i
  {
    if i < end {
      assert s[i..end][0] == s[i] && s[i..end][1..] == s[i + 1..end];
      PassesSpace(s, i + 1, end);
    } else if end < |s| {
      assert s[end..end + 1][0] == s[end];
    }
  }

  /** Digits end at the first character that is none. */
  lemma {:induction false} DigitsEnd(s: string, i: nat, end: nat, value: nat)
    requires i <= end <= |s| && (forall k :: i <= k < end ==> IsDigit(s[k])) && NoDigitFirst(s[end..])
    ensures DigitsFrom(s, i, value) == DigitsFrom(s[i..end], 0, value)
    decreases end - i
  {
    var digits := s[i..end];
    if i < end {
      DigitsEnd(s, i + 1, end, 10 * value + DigitValue(s[i]));
      DigitsShift(digits, 1, 10 * value + DigitValue(s[i]));
      assert digits[1..] == s[i + 1..end] && digits[0] == s[i];
    } else if end < |s| {
      assert s[end..][0] == s[end];
    }
  }

  lemma {:induction false} DigitsShift(s: string, i: nat, value: nat)
    requires i <= |s|
    ensures DigitsFrom(s, i, value) == DigitsFrom(s[i..], 0, value)
    decreases |s| - i
  {
    if i < |s| && IsDigit(s[i]) {
      var rest := s[i..];
      DigitsShift(s, i + 1, 10 * value + DigitValue(s[i]));
      DigitsShift(rest, 1, 10 * value + DigitValue(s[i]));
      assert rest[1..] == s[i + 1..] && rest[0] == s[i];
    }
  }

  predicate AllDigits(digits: string) {
    forall k :: 0 <= k < |digits| ==> digits[k] in "0123456789"
  }

  /** The number that decimal digits stand for. */
  function Number(digits: string): (n: int)
    requires AllDigits(digits)
    ensures n >= 0
  {
    if digits == "" then 0
    else 10 * Number(digits[..|digits| - 1]) + digits[|digits| - 1] as int - '0' as int
  }

  lemma {:induction false} DigitsAreNumber(digits: string)
    requires AllDigits(digits)
    ensures DigitsFrom(digits, 0, 0) == Number(digits)
  {
    if digits != "" {
      var last := |digits| - 1;
      assert IsDigit(digits[last]);
      DigitsAreNumber(digits[..last]);
      DigitsAppend(digits[..last], 0, 0, digits[last]);
      assert digits[..last] + [digits[last]] == digits;
    }
  }

  predicate IsSign(sign: string) {
    sign == "" || sign == "+" || sign == "-"
  }

  /** Space, a sign and digits, and what follows them: without a sign and a digit
      what follows must not be taken for one of the three. */
  predicate IsNumeral(blank: string, sign: string, digits: string, tail: string) {
    && AllSpace(blank) && IsSign(sign) && AllDigits(digits) && NoDigitFirst(tail)
    && (sign == "" && digits == "" && tail != "" ==> tail[0] !in "+-" && !AllSpace(tail[..1]))
  }

  /** The digits that stand from `i` on, up to `tail`. */
  lemma ReadsDigits(s: string, digits: string, tail: string, i: nat)
    requires AllDigits(digits) && NoDigitFirst(tail) && i <= |s| && s[i..] == digits + tail
    ensures DigitsFrom(s, i, 0) == Number(digits)
  {
    var end := i + |digits|;
    var t := s[i..];
    assert t[..|digits|] == digits && t[|digits|..] == tail;
    assert s[i..end] == digits && s[end..] == tail;
    assert forall k :: i <= k < end ==> s[k] == digits[k - i];
    DigitsEnd(s, i, end, 0);
    DigitsAreNumber(digits);
  }

  lemma SkipsBlank(blank: string, rest: string) returns (s: string)
    requires AllSpace(blank) && (rest != "" ==> !AllSpace(rest[..1]))
    ensures s == blank + rest && SpacesFrom(s, 0) == |blank| && s[|blank|..] == rest
  {
    s := blank + rest;
    assert s[0..|blank|] == blank && s[|blank|..] == rest;
    if rest != "" {
      assert s[|blank|..|blank| + 1] == rest[..1];
    }
    PassesSpace(s, 0, |blank|);
  }

  lemma AfterSign(sign: string, digits: string, tail: string) returns (rest: string)
    requires IsNumeral("", sign, digits, tail)
    ensures rest == sign + (digits + tail) && (rest != "" ==> !AllSpace(rest[..1]))
    ensures sign != "" ==> rest != "" && rest[0] == sign[0] && rest[1..] == digits + tail
    ensures sign == "" ==> rest == digits + tail && (rest == "" || rest[0] !in "+-")
  {
    var behind := digits + tail;
    rest := sign + behind;
    if sign == "" {
      assert rest == behind;
      if digits != "" {
        assert rest[..1][0] == digits[0];
      } else if tail != "" {
        assert rest == tail;
      }
    } else {
      assert rest[0] == sign[0] && rest[..1][0] == sign[0];
    }
  }

  /** `n` with its sign, or the end of the range of 64 bits that it lies beyond. */
  function Saturated(sign: string, n: int): int {
    if sign == "-" then if n > 9_223_372_036_854_775_808 then -9_223_372_036_854_775_808 else -n
    else if n > 9_223_372_036_854_775_807 then 9_223_372_036_854_775_807 else n
  }

  lemma ReadsSigned(s: string, start: nat, sign: string, n: nat)
    requires start <= |s| && SpacesFrom(s, 0) == start && IsSign(sign)
    requires if sign == "" then s[start..] == "" || s[start] !in "+-" else s[start..] != "" && s[start] == sign[0]
    requires start + |sign| <= |s| && DigitsFrom(s, start + |sign|, 0) == n
    ensures Strtoll(s) == Saturated(sign, n)
  {
  }

  /** A bandwidth is read as the number its text begins with, whatever follows, and
      one out of the range of 64 bits as the end of that range. */
  lemma NumeralReads(blank: string, sign: string, digits: string, tail: string)
    requires IsNumeral(blank, sign, digits, tail)
    ensures BandwidthOf(blank + (sign + (digits + tail))) == Saturated(sign, Number(digits))
  {
    var rest := AfterSign(sign, digits, tail);
    var s := SkipsBlank(blank, rest);
    var start := |blank|;
    assert rest != "" ==> s[start] == rest[0];
    assert s[start + |sign|..] == rest[|sign|..];
    ReadsDigits(s, digits, tail, start + |sign|);
    ReadsSigned(s, start, sign, Number(digits));
  }

  /** Every text is such a numeral. */
  lemma EveryTextIsANumeral(s: string) returns (blank: string, sign: string, digits: string, tail: string)
    ensures IsNumeral(blank, sign, digits, tail) && s == blank + (sign + (digits + tail))
  {
    var rest;
    blank, rest := TakesSpace(s);
    sign := if rest != "" && rest[0] in "+-" then rest[..1] else "";
    var behind := rest[|sign|..];
    digits, tail := TakesDigits(behind);
    assert rest == sign + behind;
  }

  lemma {:induction false} TakesSpace(s: string) returns (blank: string, rest: string)
    ensures s == blank + rest && AllSpace(blank) && (rest != "" ==> !AllSpace(rest[..1]))
  {
    if s == "" || !AllSpace(s[..1]) {
      blank, rest := "", s;
    } else {
      blank, rest := TakesSpace(s[1..]);
      assert s == s[..1] + s[1..];
      blank := s[..1] + blank;
    }
  }

  lemma {:induction false} TakesDigits(s: string) returns (digits: string, tail: string)
    ensures s == digits + tail && AllDigits(digits) && NoDigitFirst(tail)
  {
    if NoDigitFirst(s) {
      digits, tail := "", s;
    } else {
      digits, tail := TakesDigits(s[1..]);
      assert s == s[..1] + s[1..];
      digits := s[..1] + digits;
    }
  }

  // ----------------------------------------------------------------- codecs

  ghost predicate Names(codecs: string, format: string) {
    exists i: nat :: TextAt(codecs, format, i)
  }

  lemma ContainsNames(codecs: string, format: string)
    requires format != ""
    ensures Contains(codecs, format) <==> Names(codecs, format)
  {
    NoTextBefore(codecs, format, 0);
    if Contains(codecs, format) {
      assert TextAt(codecs, format, FindText(codecs, format, 0));
    }
  }

  /** A rendition counts as playable when it names no codecs at all or one of the
      four formats anywhere among them. */
  lemma PlayableCodecs(codecs: string)
    ensures SupportedCodecs(codecs) <==>
      codecs == "" || Names(codecs, "avc1") || Names(codecs, "avc3") || Names(codecs, "hvc1") || Names(codecs, "hev1")
  {
    ContainsNames(codecs, "avc1");
    ContainsNames(codecs, "avc3");
    ContainsNames(codecs, "hvc1");
    ContainsNames(codecs, "hev1");
  }
}
