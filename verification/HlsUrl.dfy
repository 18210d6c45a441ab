/** Resolving a rendition's address against the playlist's (resolveUrl and
    normalize_url_path in src/hls-playlist.cpp), beside the dot-segment removal
    of section 5.2.4 of RFC 3986. */
module HlsUrl {
  import opened Common
  import opened Text

  // ----------------------------------------------------------------- segments

  /** The pieces of a path between its slashes; there is always a last one. */
  datatype Pieces = One(last: string) | More(head: string, rest: Pieces)

  function Split(path: string, cursor: nat): Pieces
    requires cursor <= |path|
    decreases |path| - cursor
  {
    var slash := Find(path, '/', cursor);
    if slash == |path| then One(path[cursor..slash]) else More(path[cursor..slash], Split(path, slash + 1))
  }

  function Print(p: Pieces): string {
    match p
    case One(last) => "/" + last
    case More(head, rest) => "/" + head + Print(rest)
  }

  function LastOf(p: Pieces): string {
    match p
    case One(last) => last
    case More(_, rest) => LastOf(rest)
  }

  predicate SlashFree(p: Pieces) {
    match p
    case One(last) => Free(last, '/')
    case More(head, rest) => Free(head, '/') && SlashFree(rest)
  }

  predicate IsDot(segment: string) {
    segment == "." || segment == ".."
  }

  function Pop(stack: seq<string>): seq<string> {
    if stack == [] then [] else stack[..|stack| - 1]
  }

  /** What the source does with one segment. */
  function Keep(stack: seq<string>, segment: string): seq<string> {
    if segment == ".." then Pop(stack)
    else if segment == "" || segment == "." then stack
    else stack + [segment]
  }

  function KeepAll(stack: seq<string>, p: Pieces): seq<string>
    decreases p
  {
    match p
    case One(last) => Keep(stack, last)
    case More(head, rest) => KeepAll(Keep(stack, head), rest)
  }

  /** Each segment behind its slash. */
  function Path(segs: seq<string>): string {
    if segs == [] then "" else Path(segs[..|segs| - 1]) + "/" + segs[|segs| - 1]
  }

  /** The segments that the source puts out for a path. */
  function NormalSegments(p: Pieces): seq<string> {
    var kept := KeepAll([], p);
    if kept == [] then [""] else if LastOf(p) == "" then kept + [""] else kept
  }

  function NormalizedPath(path: string): string
    requires StartsWith(path, "/")
  {
    Path(NormalSegments(Split(path, 1)))
  }

  /** The first '?' or '#' at or after `start`. */
  function FindSuffix(s: string, start: nat): (i: nat)
    requires start <= |s|
    ensures start <= i <= |s|
    ensures i < |s| ==> s[i] == '?' || s[i] == '#'
    decreases |s| - start
  {
    if start == |s| || s[start] == '?' || s[start] == '#' then start else FindSuffix(s, start + 1)
  }

  /** Where an address falls into scheme and authority, path, query and fragment. */
  datatype Parts = NoPath | Parts(scheme: nat, start: nat, end: nat)

  function PartsOf(url: string): (p: Parts)
    ensures p.Parts? ==> p.scheme + 3 <= p.start < p.end <= |url| && url[p.start] == '/'
  {
    var scheme := FindText(url, "://", 0);
    if scheme == |url| then NoPath
    else
      var start := Find(url, '/', scheme + 3);
      if start == |url| then NoPath else Parts(scheme, start, FindSuffix(url, start))
  }

  function NormalizedUrl(url: string): string {
    match PartsOf(url)
    case NoPath => url
    case Parts(_, start, end) => url[..start] + NormalizedPath(url[start..end]) + url[end..]
  }

  // ------------------------------------------------------------- the algorithm

  /** A segment that normalization keeps. */
  predicate Kept(segment: string) {
    segment != "" && !IsDot(segment) && Free(segment, '/')
  }

  predicate AllKept(stack: seq<string>) {
    forall k :: 0 <= k < |stack| ==> Kept(stack[k])
  }

  lemma {:induction false} KeepAllKept(stack: seq<string>, p: Pieces)
    requires AllKept(stack) && SlashFree(p)
    ensures AllKept(KeepAll(stack, p))
    decreases p
  {
    if p.More? { KeepAllKept(Keep(stack, p.head), p.rest); }
  }

  lemma {:induction false} SplitPieces(path: string, cursor: nat)
    requires cursor <= |path|
    ensures SlashFree(Split(path, cursor))
    ensures LastOf(Split(path, cursor)) == "" <==> cursor == |path| || path[|path| - 1] == '/'
    decreases |path| - cursor
  {
    var slash := Find(path, '/', cursor);
    FreeUpTo(path, '/', cursor);
    if slash < |path| { SplitPieces(path, slash + 1); }
  }

  lemma KeepAllStep(parts: seq<string>, path: string, cursor: nat, slash: nat, kept: seq<string>, all: seq<string>)
    requires cursor <= |path| && slash == Find(path, '/', cursor)
    requires kept == Keep(parts, path[cursor..slash]) && all == KeepAll(parts, Split(path, cursor))
    ensures all == if slash == |path| then kept else KeepAll(kept, Split(path, slash + 1))
  {
  }

  /** One segment of the path. */
  method KeepPart(parts: seq<string>, part: string) returns (kept: seq<string>)
    ensures kept == Keep(parts, part)
  {
    kept := parts;
    if part == ".." {
      if parts != [] { kept := parts[..|parts| - 1]; }
    } else if part != "" && part != "." {
      kept := parts + [part];
    }
  }

  method PathParts(path: string) returns (parts: seq<string>)
    requires StartsWith(path, "/")
    ensures parts == KeepAll([], Split(path, 1))
  {
    parts := [];
    var cursor := 1;
    ghost var all := KeepAll([], Split(path, 1));
    while cursor <= |path|
      invariant 1 <= cursor <= |path|
      invariant KeepAll(parts, Split(path, cursor)) == all
      decreases |path| - cursor
    {
      var slash := Find(path, '/', cursor);
      var kept := KeepPart(parts, path[cursor..slash]);
      KeepAllStep(parts, path, cursor, slash, kept, all);
      parts := kept;
      if slash == |path| { break; }
      cursor := slash + 1;
    }
  }

  lemma PathEnds(segs: seq<string>)
    requires AllKept(segs) && segs != []
    ensures Path(segs) != "" && Path(segs)[|Path(segs)| - 1] != '/'
  {
    var last := segs[|segs| - 1];
    assert Kept(last) && last[|last| - 1] != '/';
  }

  lemma PathTake(parts: seq<string>, i: nat)
    requires i < |parts|
    ensures Path(parts[..i + 1]) == Path(parts[..i]) + "/" + parts[i]
    ensures Path(parts[..0]) == ""
  {
    assert parts[..i + 1][..i] == parts[..i];
  }

  method PrintParts(path: string, parts: seq<string>) returns (r: string)
    requires StartsWith(path, "/") && parts == KeepAll([], Split(path, 1))
    ensures r == NormalizedPath(path)
  {
    SplitPieces(path, 1);
    KeepAllKept([], Split(path, 1));
    r := "/";
    for i := 0 to |parts|
      invariant i == 0 ==> r == "/"
      invariant i > 0 ==> r == Path(parts[..i])
    {
      PathTake(parts, i);
      if i > 0 { r := r + "/"; }
      r := r + parts[i];
    }
    assert parts[..|parts|] == parts && (parts + [""])[..|parts|] == parts;
    if parts != [] { PathEnds(parts); }
    if path[|path| - 1] == '/' && r[|r| - 1] != '/' { r := r + "/"; }
  }

  method NormalizeUrlPath(url: string) returns (r: string)
    ensures r == NormalizedUrl(url)
  {
    var scheme := FindText(url, "://", 0);
    if scheme == |url| { return url; }
    var start := Find(url, '/', scheme + 3);
    if start == |url| { return url; }
    var end := FindSuffix(url, start);
    var origin, path, suffix := url[..start], url[start..end], url[end..];
    var parts := PathParts(path);
    var normalized := PrintParts(path, parts);
    r := origin + normalized + suffix;
  }

  // --------------------------------------------- section 5.2.4 of RFC 3986

  /** The output without its last segment and the slash before that. */
  function DropLastSegment(output: string): string {
    if output == "" then ""
    else if output[|output| - 1] == '/' then output[..|output| - 1]
    else DropLastSegment(output[..|output| - 1])
  }

  /** Steps A to E, from an input and an output buffer. */
  function RemoveDotSegments(input: string, output: string): string
    decreases |input|
  {
    if input == "" then output
    else if StartsWith(input, "../") then RemoveDotSegments(input[3..], output)
    else if StartsWith(input, "./") then RemoveDotSegments(input[2..], output)
    else if StartsWith(input, "/./") then RemoveDotSegments(input[2..], output)
    else if input == "/." then RemoveDotSegments("/", output)
    else if StartsWith(input, "/../") then RemoveDotSegments(input[3..], DropLastSegment(output))
    else if input == "/.." then RemoveDotSegments("/", DropLastSegment(output))
    else if IsDot(input) then output
    else
      var end := Find(input, '/', 1);
      RemoveDotSegments(input[end..], output + input[..end])
  }

  /** What the RFC keeps: empty segments too, and a slash after a last dot segment. */
  function Climb(stack: seq<string>, segment: string): seq<string> {
    if segment == ".." then Pop(stack) else if segment == "." then stack else stack + [segment]
  }

  function ClimbAll(stack: seq<string>, p: Pieces): seq<string>
    decreases p
  {
    match p
    case One(last) => if IsDot(last) then Climb(stack, last) + [""] else stack + [last]
    case More(head, rest) => ClimbAll(Climb(stack, head), rest)
  }

  predicate AllFree(stack: seq<string>) {
    forall k :: 0 <= k < |stack| ==> Free(stack[k], '/')
  }

  lemma {:induction false} DropsSegment(output: string, segment: string, n: nat)
    requires Free(segment, '/') && n <= |segment|
    ensures DropLastSegment(output + "/" + segment[..n]) == output
    decreases n
  {
    var s := output + "/" + segment[..n];
    if n > 0 {
      assert s[..|s| - 1] == output + "/" + segment[..n - 1];
      DropsSegment(output, segment, n - 1);
    } else {
      assert s[..|s| - 1] == output;
    }
  }

  lemma DropsTop(stack: seq<string>)
    requires AllFree(stack)
    ensures DropLastSegment(Path(stack)) == Path(Pop(stack))
  {
    if stack != [] {
      var top := stack[|stack| - 1];
      assert top[..|top|] == top;
      DropsSegment(Path(Pop(stack)), top, |top|);
    }
  }

  lemma PathPush(stack: seq<string>, segment: string)
    ensures Path(stack + [segment]) == Path(stack) + "/" + segment
  {
    assert (stack + [segment])[..|stack|] == stack;
  }

  lemma FirstSegmentIs(input: string, head: string, rest: string, name: string)
    requires Free(head, '/') && Free(name, '/') && StartsWith(rest, "/") && input == "/" + head + rest
    ensures StartsWith(input, "/" + name + "/") <==> head == name
  {
    var prefix := "/" + name + "/";
    if head == name { assert input == prefix + rest[1..]; }
    assert input[1..1 + |head|] == head && input[1 + |head|] == '/';
    if prefix <= input {
      assert forall k :: 0 <= k < |prefix| ==> input[k] == prefix[k];
      assert prefix[1..1 + |name|] == name;
      assert input[1..1 + |name|] == name && input[1 + |name|] == '/';
      FindIs(input, '/', 1, 1 + |head|);
      FindIs(input, '/', 1, 1 + |name|);
    }
  }

  /** One inner segment under the RFC's steps. */
  lemma InnerSegment(input: string, head: string, rest: string, output: string)
    requires Free(head, '/') && StartsWith(rest, "/") && input == "/" + head + rest
    ensures RemoveDotSegments(input, output) ==
      RemoveDotSegments(rest, if head == "." then output
                              else if head == ".." then DropLastSegment(output)
                              else output + "/" + head)
  {
    FindIs(input, '/', 1, 1 + |head|);
    assert input[..1 + |head|] == "/" + head && input[1 + |head|..] == rest;
    FirstSegmentIs(input, head, rest, ".");
    FirstSegmentIs(input, head, rest, "..");
    assert "/" + "." + "/" == "/./" && "/" + ".." + "/" == "/../";
    assert input[0] == '/' && input[1 + |head|] == '/';
    assert output + ("/" + head) == output + "/" + head;
    assert input != "/." && input != "/..";
  }

  lemma LastSegment(input: string, last: string, output: string)
    requires Free(last, '/') && input == "/" + last && !IsDot(last)
    ensures RemoveDotSegments(input, output) == output + "/" + last
  {
    FindIs(input, '/', 1, |input|);
    assert input[1..] == last;
    assert input[..|input|] == input && input[|input|..] == "";
    var dot, dots := "/./", "/../";
    assert dot[2] == '/' && dots[3] == '/' && forall k :: 1 <= k < |input| ==> input[k] != '/';
    assert input != "/." && input != "/..";
    assert output + input == output + "/" + last;
  }

  lemma LastDot(output: string)
    ensures RemoveDotSegments("/.", output) == output + "/"
    ensures RemoveDotSegments("/..", output) == DropLastSegment(output) + "/"
  {
    var up, here, dot, dots := "../", "./", "/.", "/..";
    assert up[0] == '.' && here[0] == '.' && dot[0] == '/' && dots[0] == '/' && dots[2] == '.';
    LastSegment("/", "", output);
    LastSegment("/", "", DropLastSegment(output));
  }

  lemma LastClimbs(input: string, last: string, stack: seq<string>)
    requires Free(last, '/') && AllFree(stack) && input == "/" + last
    ensures RemoveDotSegments(input, Path(stack)) == Path(ClimbAll(stack, One(last)))
  {
    if IsDot(last) {
      LastDot(Path(stack));
      DropsTop(stack);
      PathPush(Climb(stack, last), "");
    } else {
      LastSegment(input, last, Path(stack));
      PathPush(stack, last);
    }
  }

  lemma InnerClimbs(input: string, head: string, rest: string, stack: seq<string>)
    requires Free(head, '/') && AllFree(stack) && StartsWith(rest, "/") && input == "/" + head + rest
    ensures RemoveDotSegments(input, Path(stack)) == RemoveDotSegments(rest, Path(Climb(stack, head)))
    ensures AllFree(Climb(stack, head))
  {
    InnerSegment(input, head, rest, Path(stack));
    if head == ".." {
      DropsTop(stack);
    } else if head != "." {
      PathPush(stack, head);
    }
  }

  /** The RFC's rewriting of strings, as a pass over the segments. */
  lemma {:induction false} RewritingClimbs(input: string, p: Pieces, stack: seq<string>)
    requires SlashFree(p) && AllFree(stack) && input == Print(p)
    ensures RemoveDotSegments(input, Path(stack)) == Path(ClimbAll(stack, p))
    decreases p
  {
    match p
    case One(last) => LastClimbs(input, last, stack);
    case More(head, rest) =>
      InnerClimbs(input, head, Print(rest), stack);
      RewritingClimbs(Print(rest), rest, Climb(stack, head));
  }

  lemma CutAt(path: string, code: nat, cursor: nat, slash: nat)
    requires 1 <= cursor <= slash <= |path| && code == cursor - 1 && path[code] == '/'
    ensures path[code..] == "/" + path[cursor..slash] + path[slash..]
    ensures slash == |path| ==> path[code..] == "/" + path[cursor..slash]
  {
  }

  lemma {:induction false} SplitPrints(path: string, cursor: nat, code: nat)
    requires 1 <= cursor <= |path| && code == cursor - 1 && path[code] == '/'
    ensures Print(Split(path, cursor)) == path[code..]
    decreases |path| - cursor
  {
    var slash := Find(path, '/', cursor);
    var head := path[cursor..slash];
    CutAt(path, code, cursor, slash);
    if slash == |path| {
      assert Split(path, cursor) == One(head);
    } else {
      assert Split(path, cursor) == More(head, Split(path, slash + 1));
      SplitPrints(path, slash + 1, slash);
    }
  }

  // -------------------------------------------- where source and RFC agree

  predicate NoInnerEmpty(p: Pieces) {
    p.More? ==> p.head != "" && NoInnerEmpty(p.rest)
  }

  /** How many levels below the root a segment leads, from `height`. */
  function Level(height: nat, segment: string): nat {
    if segment == ".." then (if height == 0 then 0 else height - 1)
    else if segment == "." then height
    else height + 1
  }

  function Depth(height: nat, p: Pieces): nat
    decreases p
  {
    match p
    case One(last) => Level(height, last)
    case More(head, rest) => Depth(Level(height, head), rest)
  }

  /** At some point the path stands at the root and no inner empty segment follows. */
  predicate CleanFromRoot(height: nat, p: Pieces)
    decreases p
  {
    || (height == 0 && NoInnerEmpty(p))
    || match p
       case One(last) => Level(height, last) == 0
       case More(head, rest) => CleanFromRoot(Level(height, head), rest)
  }

  /** No inner empty segment since the path last stood at the root, and no last
      dot segment below the root. */
  predicate AgreesWithRfc(p: Pieces) {
    CleanFromRoot(0, p) && (IsDot(LastOf(p)) ==> Depth(0, p) == 0)
  }

  function Trailing(p: Pieces): seq<string> {
    if IsDot(LastOf(p)) || LastOf(p) == "" then [""] else []
  }

  lemma {:induction false} ClimbDepth(stack: seq<string>, p: Pieces)
    ensures |ClimbAll(stack, p)| == Depth(|stack|, p) + if IsDot(LastOf(p)) then 1 else 0
    decreases p
  {
    if p.More? { ClimbDepth(Climb(stack, p.head), p.rest); }
  }

  lemma {:induction false} CleanAgrees(stack: seq<string>, p: Pieces)
    requires NoInnerEmpty(p)
    ensures ClimbAll(stack, p) == KeepAll(stack, p) + Trailing(p)
    decreases p
  {
    if p.More? { CleanAgrees(Climb(stack, p.head), p.rest); }
  }

  lemma {:induction false} ClimbAgrees(climbed: seq<string>, kept: seq<string>, p: Pieces)
    requires |climbed| >= |kept| && CleanFromRoot(|climbed|, p)
    ensures ClimbAll(climbed, p) == KeepAll(kept, p) + Trailing(p)
    decreases p
  {
    if |climbed| == 0 && NoInnerEmpty(p) {
      CleanAgrees([], p);
    } else if p.More? {
      ClimbAgrees(Climb(climbed, p.head), Keep(kept, p.head), p.rest);
    }
  }

  lemma {:induction false} ClimbDiffers(climbed: seq<string>, kept: seq<string>, p: Pieces)
    requires |climbed| > |kept| || (|climbed| == |kept| && !NoInnerEmpty(p))
    requires !CleanFromRoot(|climbed|, p)
    ensures |ClimbAll(climbed, p)| > |KeepAll(kept, p)| + if LastOf(p) == "" then 1 else 0
    ensures |ClimbAll(climbed, p)| > 1
    decreases p
  {
    if p.More? { ClimbDiffers(Climb(climbed, p.head), Keep(kept, p.head), p.rest); }
  }

  /** The text behind the last slash. */
  lemma SameEnding(s: string, x: string, y: string)
    requires Free(x, '/') && Free(y, '/') && |x| < |s| && |y| < |s|
    requires s[|s| - |x| - 1..] == "/" + x && s[|s| - |y| - 1..] == "/" + y
    ensures x == y
  {
    var i, j := |s| - |x| - 1, |s| - |y| - 1;
    assert s[i] == '/' && s[j] == '/' && s[i..][1..] == x && s[j..][1..] == y;
    assert forall k :: i < k < |s| ==> s[k] == x[k - i - 1];
    assert forall k :: j < k < |s| ==> s[k] == y[k - j - 1];
  }

  lemma {:induction false} PathInjective(a: seq<string>, b: seq<string>)
    requires AllFree(a) && AllFree(b) && Path(a) == Path(b)
    ensures a == b
    decreases |a|
  {
    if a != [] && b != [] {
      var x, y := a[|a| - 1], b[|b| - 1];
      var s := Path(a);
      assert s[|s| - |x| - 1..] == "/" + x && s[|s| - |y| - 1..] == "/" + y;
      SameEnding(s, x, y);
      assert Path(Pop(a)) == s[..|s| - |x| - 1] == Path(Pop(b));
      PathInjective(Pop(a), Pop(b));
    }
  }

  lemma KeepAllFree(stack: seq<string>, p: Pieces)
    requires AllFree(stack) && SlashFree(p)
    ensures AllFree(KeepAll(stack, p)) && AllFree(ClimbAll(stack, p))
    decreases p
  {
    if p.More? {
      KeepAllFree(Keep(stack, p.head), p.rest);
      KeepAllFree(Climb(stack, p.head), p.rest);
    }
  }

  lemma {:induction false} LastIsKept(stack: seq<string>, p: Pieces)
    requires !IsDot(LastOf(p)) && LastOf(p) != ""
    ensures KeepAll(stack, p) != []
    decreases p
  {
    if p.More? { LastIsKept(Keep(stack, p.head), p.rest); }
  }

  /** The source and the RFC give the same segments just when the path has no
      inner empty segment since it last stood at the root, and ends in a dot
      segment only at the root. */
  lemma SameSegments(p: Pieces)
    ensures ClimbAll([], p) == NormalSegments(p) <==> AgreesWithRfc(p)
  {
    ClimbDepth([], p);
    if CleanFromRoot(0, p) {
      ClimbAgrees([], [], p);
      if !IsDot(LastOf(p)) && LastOf(p) != "" { LastIsKept([], p); }
    } else {
      ClimbDiffers([], [], p);
    }
  }

  /** For every absolute path, normalize_url_path gives what section 5.2.4 of
      RFC 3986 gives if and only if the path has no inner empty segment since it
      last stood at the root, and a last "." or ".." leads to the root. */
  lemma NormalizedIsRfc(path: string)
    requires StartsWith(path, "/")
    ensures RemoveDotSegments(path, "") == NormalizedPath(path) <==> AgreesWithRfc(Split(path, 1))
  {
    var p := Split(path, 1);
    SplitPieces(path, 1);
    SplitPrints(path, 1, 0);
    RewritingClimbs(path, p, []);
    KeepAllFree([], p);
    SameSegments(p);
    if Path(ClimbAll([], p)) == Path(NormalSegments(p)) {
      PathInjective(ClimbAll([], p), NormalSegments(p));
    }
  }

  lemma CleanSegments(p: Pieces, kept: seq<string>)
    requires NoInnerEmpty(p) && kept == KeepAll([], p)
    ensures Path(ClimbAll([], p)) == Path(NormalSegments(p)) || Path(ClimbAll([], p)) == Path(NormalSegments(p)) + "/"
  {
    CleanAgrees([], p);
    if Trailing(p) == [] {
      LastIsKept([], p);
      assert kept + [] == kept;
    } else {
      PathPush(kept, "");
      if kept == [] { assert kept + [""] == [""]; }
    }
  }

  /** Without inner empty segments only the slash after a last dot segment is missing. */
  lemma NormalizedUpToSlash(path: string)
    requires StartsWith(path, "/") && NoInnerEmpty(Split(path, 1))
    ensures RemoveDotSegments(path, "") == NormalizedPath(path) ||
            RemoveDotSegments(path, "") == NormalizedPath(path) + "/"
    ensures !IsDot(LastOf(Split(path, 1))) ==> RemoveDotSegments(path, "") == NormalizedPath(path)
  {
    var p := Split(path, 1);
    NormalizedIsRfc(path);
    SplitPieces(path, 1);
    SplitPrints(path, 1, 0);
    RewritingClimbs(path, p, []);
    CleanSegments(p, KeepAll([], p));
  }

  /** The segments as a sequence. */
  function Listed(p: Pieces): seq<string> {
    match p
    case One(last) => [last]
    case More(head, rest) => [head] + Listed(rest)
  }

  lemma {:induction false} PathFront(head: string, segs: seq<string>)
    ensures Path([head] + segs) == "/" + head + Path(segs)
    decreases |segs|
  {
    if segs == [] {
      assert [head] + segs == [head];
      PathPush([], head);
      assert [] + [head] == [head];
    } else {
      assert ([head] + segs)[..|segs|] == [head] + segs[..|segs| - 1];
      PathFront(head, segs[..|segs| - 1]);
    }
  }

  lemma {:induction false} PrintIsPath(p: Pieces)
    requires SlashFree(p)
    ensures Print(p) == Path(Listed(p)) && AllFree(Listed(p))
    decreases p
  {
    match p
    case One(last) =>
      PathPush([], last);
      assert [] + [last] == [last];
    case More(head, rest) =>
      PrintIsPath(rest);
      PathFront(head, Listed(rest));
  }

  lemma {:induction false} ListedOnce(p: Pieces, q: Pieces)
    requires Listed(p) == Listed(q)
    ensures p == q
    decreases p
  {
    assert p.More? ==> Listed(p)[1..] == Listed(p.rest) && Listed(p.rest) != [];
    assert q.More? ==> Listed(q)[1..] == Listed(q.rest) && Listed(q.rest) != [];
    assert Listed(p)[0] == Listed(q)[0];
    if p.More? && q.More? { ListedOnce(p.rest, q.rest); }
  }

  lemma SplitOf(p: Pieces, path: string)
    requires SlashFree(p) && path == Print(p) && StartsWith(path, "/")
    ensures Split(path, 1) == p
  {
    var q := Split(path, 1);
    SplitPieces(path, 1);
    SplitPrints(path, 1, 0);
    PrintIsPath(p);
    PrintIsPath(q);
    PathInjective(Listed(p), Listed(q));
    ListedOnce(p, q);
  }

  /** A path on which they differ: the RFC leaves the slash before a last dot segment. */
  lemma LastDotDiffers(path: string)
    requires path == "/a/."
    ensures NormalizedPath(path) != RemoveDotSegments(path, "")
  {
    var p := More("a", One("."));
    assert Print(p) == path;
    SplitOf(p, path);
    NormalizedIsRfc(path);
    assert Depth(0, p) == 1;
  }

  /** Another: the RFC keeps an inner empty segment. */
  lemma EmptySegmentDiffers(path: string)
    requires path == "/a//b"
    ensures NormalizedPath(path) != RemoveDotSegments(path, "")
  {
    var last := One("b");
    var inner := More("", last);
    var p := More("a", inner);
    assert Print(last) == "/b" && Print(inner) == "//b" && Print(p) == path;
    SplitOf(p, path);
    NormalizedIsRfc(path);
    assert !CleanFromRoot(2, last) && !CleanFromRoot(1, inner) && !CleanFromRoot(0, p);
  }

  // ------------------------------------------------------------- idempotence

  /** Reading a printed sequence of segments back. */
  lemma SplitPath(segs: seq<string>)
    requires AllFree(segs) && segs != []
    ensures StartsWith(Path(segs), "/") && Listed(Split(Path(segs), 1)) == segs
  {
    PathFront(segs[0], segs[1..]);
    assert [segs[0]] + segs[1..] == segs;
    var s := Path(segs);
    SplitPieces(s, 1);
    SplitPrints(s, 1, 0);
    PrintIsPath(Split(s, 1));
    PathInjective(Listed(Split(s, 1)), segs);
  }

  lemma {:induction false} KeepsListed(stack: seq<string>, p: Pieces, kept: seq<string>, tail: seq<string>)
    requires AllKept(kept) && (tail == [] || tail == [""]) && Listed(p) == kept + tail
    ensures KeepAll(stack, p) == stack + kept
    ensures kept != [] ==> (LastOf(p) == "" <==> tail == [""])
    decreases p
  {
    var l := kept + tail;
    assert kept != [] ==> l[0] == kept[0] && l[1..] == kept[1..] + tail;
    match p
    case One(last) =>
      assert |l| == 1 && l[0] == last;
    case More(head, rest) =>
      assert Listed(rest) != [] && l[0] == head && l[1..] == Listed(rest);
      assert Kept(kept[0]);
      KeepsListed(stack + [head], rest, kept[1..], tail);
      if kept[1..] == [] { assert rest == One(""); }
  }

  lemma NormalizedPathAgain(path: string)
    requires StartsWith(path, "/")
    ensures var r := NormalizedPath(path); StartsWith(r, "/") && NormalizedPath(r) == r
  {
    var p := Split(path, 1);
    var kept := KeepAll([], p);
    SplitPieces(path, 1);
    KeepAllKept([], p);
    SplitPath(NormalSegments(p));
    var again := Split(NormalizedPath(path), 1);
    if kept != [] {
      var tail := if LastOf(p) == "" then [""] else [];
      assert kept + tail == NormalSegments(p);
      KeepsListed([], again, kept, tail);
      assert [] + kept == kept;
    } else {
      assert [] + [""] == [""];
      KeepsListed([], again, [], [""]);
    }
  }

  /** No '?' and no '#'. */
  predicate Plain(s: string) {
    forall k :: 0 <= k < |s| ==> s[k] != '?' && s[k] != '#'
  }

  predicate AllPlain(segs: seq<string>) {
    forall k :: 0 <= k < |segs| ==> Plain(segs[k])
  }

  lemma {:induction false} KeepAllPlain(stack: seq<string>, path: string, cursor: nat)
    requires AllPlain(stack) && Plain(path) && cursor <= |path|
    ensures AllPlain(KeepAll(stack, Split(path, cursor)))
    decreases |path| - cursor
  {
    var slash := Find(path, '/', cursor);
    KeepAllStep(stack, path, cursor, slash, Keep(stack, path[cursor..slash]), KeepAll(stack, Split(path, cursor)));
    KeepPlain(stack, path, cursor, slash);
    if slash < |path| { KeepAllPlain(Keep(stack, path[cursor..slash]), path, slash + 1); }
  }

  lemma KeepPlain(stack: seq<string>, path: string, cursor: nat, slash: nat)
    requires AllPlain(stack) && Plain(path) && cursor <= slash <= |path|
    ensures AllPlain(Keep(stack, path[cursor..slash]))
  {
    assert Plain(path[cursor..slash]);
  }

  lemma {:induction false} PathPlain(segs: seq<string>)
    requires AllPlain(segs)
    ensures Plain(Path(segs))
    decreases |segs|
  {
    if segs != [] {
      PathPlain(Pop(segs));
      assert Plain(segs[|segs| - 1]);
    }
  }

  lemma NormalizedPathPlain(path: string)
    requires StartsWith(path, "/") && Plain(path)
    ensures Plain(NormalizedPath(path))
  {
    KeepAllPlain([], path, 1);
    PathPlain(NormalSegments(Split(path, 1)));
  }

  lemma {:induction false} PlainBefore(s: string, start: nat)
    requires start <= |s|
    ensures Plain(s[start..FindSuffix(s, start)])
    ensures forall k :: start <= k < FindSuffix(s, start) ==> s[k] != '?' && s[k] != '#'
    decreases |s| - start
  {
    if start < |s| && s[start] != '?' && s[start] != '#' { PlainBefore(s, start + 1); }
  }

  lemma SuffixIs(s: string, start: nat, i: nat)
    requires start <= i <= |s| && (i < |s| ==> s[i] == '?' || s[i] == '#')
    requires forall k :: start <= k < i ==> s[k] != '?' && s[k] != '#'
    ensures FindSuffix(s, start) == i
  {
    PlainBefore(s, start);
  }

  lemma SameText(r: string, url: string, shared: nat, scheme: nat)
    requires scheme + 3 <= shared <= |r| && shared <= |url| && r[..shared] == url[..shared]
    requires scheme < |url| && FindText(url, "://", 0) == scheme
    ensures FindText(r, "://", 0) == scheme
  {
    NoTextBefore(url, "://", 0);
    assert forall k :: 0 <= k < shared ==> r[k] == r[..shared][k] == url[k];
    forall k | 0 <= k <= scheme ensures TextAt(r, "://", k) == TextAt(url, "://", k) {
      assert r[k] == url[k] && r[k + 1] == url[k + 1] && r[k + 2] == url[k + 2];
    }
    FindTextIs(r, "://", 0, scheme);
  }

  /** An address that begins like another up to the path has its path there. */
  lemma SameStart(url: string, scheme: nat, start: nat, path: string, r: string)
    requires FindText(url, "://", 0) == scheme < |url| && Find(url, '/', scheme + 3) == start
    requires StartsWith(path, "/") && r == url[..start] + path
    ensures PartsOf(r) == Parts(scheme, start, FindSuffix(r, start)) && r[..start] == url[..start]
  {
    assert r[..start] == url[..start];
    SameText(r, url, start, scheme);
    NoneBefore(url, '/', scheme + 3);
    assert forall k :: 0 <= k < start ==> r[k] == url[k];
    assert r[start] == path[0] == '/';
    FindIs(r, '/', scheme + 3, start);
  }

  lemma SliceJoined(url: string, start: nat, origin: string, path: string, end: nat)
    requires url == origin + path && |origin| == start && end <= |path|
    ensures url[..start] == origin && url[start..start + end] == path[..end] && url[start + end..] == path[end..]
  {
  }

  lemma JoinedSuffix(url: string, start: nat, origin: string, path: string, end: nat)
    requires url == origin + path && |origin| == start && end == FindSuffix(path, 0)
    ensures FindSuffix(url, start) == start + end
  {
    PlainBefore(path, 0);
    assert forall k :: start <= k < |url| ==> url[k] == path[k - start];
    SuffixIs(url, start, start + end);
  }

  lemma NormalizesPath(url: string, scheme: nat, start: nat, end: nat)
    requires PartsOf(url) == Parts(scheme, start, end)
    ensures FindText(url, "://", 0) == scheme < |url| && Find(url, '/', scheme + 3) == start < |url|
    ensures end == FindSuffix(url, start) && StartsWith(url[start..end], "/") && Plain(url[start..end])
    ensures NormalizedUrl(url) == url[..start] + NormalizedPath(url[start..end]) + url[end..]
  {
    PlainBefore(url, start);
  }

  lemma NormalizesParts(url: string, scheme: nat, start: nat, end: nat, origin: string, path: string, suffix: string)
    requires PartsOf(url) == Parts(scheme, start, end)
    requires origin == url[..start] && path == url[start..end] && suffix == url[end..]
    ensures StartsWith(path, "/") && NormalizedUrl(url) == origin + NormalizedPath(path) + suffix
  {
    NormalizesPath(url, scheme, start, end);
  }

  /** An address with another path falls into the same parts, but for that path. */
  lemma SameParts(url: string, scheme: nat, start: nat, end: nat, path: string, r: string)
    requires PartsOf(url) == Parts(scheme, start, end)
    requires StartsWith(path, "/") && Plain(path) && r == url[..start] + (path + url[end..])
    ensures PartsOf(r) == Parts(scheme, start, start + |path|)
    ensures r[..start] == url[..start] && r[start..start + |path|] == path && r[start + |path|..] == url[end..]
  {
    NormalizesPath(url, scheme, start, end);
    var tail := path + url[end..];
    SameStart(url, scheme, start, tail, r);
    SuffixBehind(path, url, end, tail);
    SliceJoined(r, start, url[..start], tail, |path|);
    JoinedSuffix(r, start, url[..start], tail, |path|);
  }

  lemma NormalPath(url: string, scheme: nat, start: nat, end: nat) returns (path: string)
    requires PartsOf(url) == Parts(scheme, start, end)
    ensures StartsWith(path, "/") && Plain(path) && NormalizedPath(path) == path
    ensures NormalizedUrl(url) == url[..start] + (path + url[end..])
  {
    NormalizesPath(url, scheme, start, end);
    NormalizedPathPlain(url[start..end]);
    NormalizedPathAgain(url[start..end]);
    NormalizesTo(url, scheme, start, end);
    path := NormalizedPath(url[start..end]);
  }

  lemma NormalizesTo(url: string, scheme: nat, start: nat, end: nat)
    requires PartsOf(url) == Parts(scheme, start, end)
    ensures NormalizedUrl(url) == url[..start] + (NormalizedPath(url[start..end]) + url[end..])
  {
  }

  lemma SuffixBehind(path: string, url: string, end: nat, tail: string)
    requires Plain(path) && end <= |url| && (end < |url| ==> url[end] == '?' || url[end] == '#')
    requires tail == path + url[end..]
    ensures FindSuffix(tail, 0) == |path| && tail[..|path|] == path && tail[|path|..] == url[end..]
  {
    assert forall k :: 0 <= k < |path| ==> tail[k] == path[k];
    SuffixIs(tail, 0, |path|);
  }

  lemma NormalizedKeepsStart(url: string, scheme: nat, start: nat, end: nat)
    requires PartsOf(url) == Parts(scheme, start, end)
    ensures var p := PartsOf(NormalizedUrl(url));
            p.Parts? && p.scheme == scheme && p.start == start && NormalizedUrl(url)[..start] == url[..start]
  {
    var path := NormalPath(url, scheme, start, end);
    SameParts(url, scheme, start, end, path, NormalizedUrl(url));
  }

  /** Normalizing a second time changes nothing, whatever the input. */
  lemma NormalizedAgain(url: string)
    ensures NormalizedUrl(NormalizedUrl(url)) == NormalizedUrl(url)
  {
    match PartsOf(url)
    case NoPath =>
    case Parts(scheme, start, end) =>
      var path := NormalPath(url, scheme, start, end);
      var r := NormalizedUrl(url);
      SameParts(url, scheme, start, end, path, r);
      NormalizesTo(r, scheme, start, start + |path|);
  }

  // ------------------------------------------------------------- references

  predicate HasScheme(value: string, scheme: string) {
    |value| >= |scheme| && forall i :: 0 <= i < |scheme| ==> Lower(value[i]) == scheme[i]
  }

  predicate IsHttpUrl(value: string) {
    HasScheme(value, "http://") || HasScheme(value, "https://")
  }

  /** A reference put behind the last slash of the base, its query aside. */
  function BesideBase(cleanBase: string, scheme: nat, reference: string): string {
    var slash := FindLast(cleanBase, '/');
    if slash < scheme + 3 then "" else cleanBase[..slash + 1] + reference
  }

  /** The address that a reference without an authority stands for; empty: none. */
  function JoinedUrl(base: string, scheme: nat, reference: string): string
    requires scheme + 3 <= |base|
  {
    if StartsWith(reference, "/") then base[..Find(base, '/', scheme + 3)] + reference
    else BesideBase(base[..FindSuffix(base, 0)], scheme, reference)
  }

  /** `reference` against the playlist's address `base`; empty when that fails. */
  function ResolveUrl(base: string, reference: string): string {
    if IsHttpUrl(reference) then reference
    else
      var scheme := FindText(base, "://", 0);
      if scheme == |base| then ""
      else if StartsWith(reference, "//") then base[..scheme] + ":" + reference
      else
        var joined := JoinedUrl(base, scheme, reference);
        if joined == "" then "" else NormalizedUrl(joined)
  }

  /** `r` has the scheme and the authority of `base`, and a path. */
  predicate SameOrigin(r: string, base: string, scheme: nat, start: nat) {
    var p := PartsOf(r);
    p.Parts? && p.scheme == scheme && p.start == start <= |base| && r[..start] == base[..start]
  }

  /** The base's path up to its last slash. */
  function Directory(base: string, start: nat): string
    requires start <= |base|
  {
    base[start..Max(start, FindLast(base[..FindSuffix(base, 0)], '/') + 1)]
  }

  /** The path that is normalized: the reference's, or that behind the base's directory. */
  function JoinedPath(base: string, start: nat, reference: string): string
    requires start <= |base|
  {
    if StartsWith(reference, "/") then reference else Directory(base, start) + reference
  }

  /** The same letter, whatever its case. */
  predicate SameLetter(c: char, small: char) {
    c == small || ('a' <= small <= 'z' && c as int + 32 == small as int)
  }

  predicate BeginsWith(value: string, prefix: string) {
    |value| >= |prefix| && forall i :: 0 <= i < |prefix| ==> SameLetter(value[i], prefix[i])
  }

  lemma SchemeIs(value: string, scheme: string)
    requires forall i :: 0 <= i < |scheme| ==> !('A' <= scheme[i] <= 'Z')
    ensures HasScheme(value, scheme) <==> BeginsWith(value, scheme)
  {
  }

  /** An address of its own, by either scheme in any letters, stays as it is. */
  lemma AddressStays(base: string, reference: string, http: string, https: string)
    requires http == "http://" && https == "https://"
    requires BeginsWith(reference, http) || BeginsWith(reference, https)
    ensures ResolveUrl(base, reference) == reference
  {
    SchemeIs(reference, http);
    SchemeIs(reference, https);
  }

  /** A reference with an authority gets the base's scheme; without a scheme in the
      base nothing but an address can be resolved. */
  lemma AuthorityStays(base: string, reference: string, http: string, https: string)
    requires http == "http://" && https == "https://"
    requires !BeginsWith(reference, http) && !BeginsWith(reference, https)
    ensures var colon := FindText(base, "://", 0);
            && (colon == |base| ==> ResolveUrl(base, reference) == "")
            && (colon < |base| && StartsWith(reference, "//") ==> ResolveUrl(base, reference) == base[..colon] + ":" + reference)
  {
    SchemeIs(reference, http);
    SchemeIs(reference, https);
  }

  lemma BesideIs(base: string, cut: nat, start: nat, scheme: nat, reference: string)
    requires start < cut <= |base| && base[start] == '/' && scheme + 3 <= start
    ensures start <= FindLast(base[..cut], '/') < cut
    ensures BesideBase(base[..cut], scheme, reference) ==
      base[..start] + (base[start..FindLast(base[..cut], '/') + 1] + reference)
  {
    assert base[..cut][start] == '/';
    var end := FindLast(base[..cut], '/') + 1;
    assert base[..cut][..end] == base[..start] + base[start..end];
  }

  /** A reference without an authority has no address just when it is relative
      and the base has no path before its query. */
  lemma JoinedUrlIs(base: string, scheme: nat, start: nat, reference: string, path: string, url: string)
    requires scheme + 3 <= |base| && Find(base, '/', scheme + 3) == start
    requires path == JoinedPath(base, start, reference) && url == JoinedUrl(base, scheme, reference)
    ensures if !StartsWith(reference, "/") && FindSuffix(base, 0) <= start then url == ""
            else StartsWith(path, "/") && url == base[..start] + path
  {
    var cut := FindSuffix(base, 0);
    if !StartsWith(reference, "/") {
      if cut <= start {
        NoneBefore(base, '/', scheme + 3);
        var slash := FindLast(base[..cut], '/');
        assert slash >= 0 ==> base[slash] == '/';
      } else {
        BesideIs(base, cut, start, scheme, reference);
        assert path == base[start..FindLast(base[..cut], '/') + 1] + reference;
        assert path[0] == base[start];
      }
    }
  }

  lemma Resolves(base: string, scheme: nat, reference: string, url: string)
    requires FindText(base, "://", 0) == scheme < |base|
    requires !IsHttpUrl(reference) && !StartsWith(reference, "//") && url == JoinedUrl(base, scheme, reference)
    ensures ResolveUrl(base, reference) == if url == "" then "" else NormalizedUrl(url)
  {
  }

  /** A reference without an authority never leaves the playlist's own: however
      many ".." it holds, scheme and authority stay those of the base. It fails
      just when it is relative and the base has no path before its query. */
  lemma ResolvedKeepsOrigin(base: string, reference: string, scheme: nat, start: nat)
    requires FindText(base, "://", 0) == scheme < |base| && Find(base, '/', scheme + 3) == start
    requires !IsHttpUrl(reference) && !StartsWith(reference, "//")
    ensures if !StartsWith(reference, "/") && FindSuffix(base, 0) <= start
            then ResolveUrl(base, reference) == ""
            else SameOrigin(ResolveUrl(base, reference), base, scheme, start)
  {
    var path := JoinedPath(base, start, reference);
    var url := JoinedUrl(base, scheme, reference);
    JoinedUrlIs(base, scheme, start, reference, path, url);
    Resolves(base, scheme, reference, url);
    if url != "" {
      SameStart(base, scheme, start, path, url);
      NormalizedKeepsStart(url, scheme, start, FindSuffix(url, start));
    }
  }

  lemma ResolvedJoined(base: string, reference: string, scheme: nat, start: nat, path: string) returns (url: string)
    requires FindText(base, "://", 0) == scheme < |base| && Find(base, '/', scheme + 3) == start
    requires !IsHttpUrl(reference) && !StartsWith(reference, "//")
    requires StartsWith(reference, "/") || start < FindSuffix(base, 0)
    requires path == JoinedPath(base, start, reference)
    ensures StartsWith(path, "/") && url == base[..start] + path
    ensures PartsOf(url) == Parts(scheme, start, FindSuffix(url, start)) && ResolveUrl(base, reference) == NormalizedUrl(url)
  {
    url := JoinedUrl(base, scheme, reference);
    JoinedUrlIs(base, scheme, start, reference, path, url);
    Resolves(base, scheme, reference, url);
    SameStart(base, scheme, start, path, url);
  }

  /** Its query and fragment stay, its path is normalized behind the base's. */
  lemma ResolvedPath(base: string, reference: string, scheme: nat, start: nat, path: string, end: nat)
    requires FindText(base, "://", 0) == scheme < |base| && Find(base, '/', scheme + 3) == start
    requires !IsHttpUrl(reference) && !StartsWith(reference, "//")
    requires StartsWith(reference, "/") || start < FindSuffix(base, 0)
    requires path == JoinedPath(base, start, reference) && end == FindSuffix(path, 0)
    ensures StartsWith(path[..end], "/")
    ensures ResolveUrl(base, reference) == base[..start] + NormalizedPath(path[..end]) + path[end..]
  {
    var url := ResolvedJoined(base, reference, scheme, start, path);
    NormalizesJoined(url, scheme, start, base[..start], path, end);
  }

  lemma NormalizesJoined(url: string, scheme: nat, start: nat, origin: string, path: string, end: nat)
    requires |origin| == start && url == origin + path && end == FindSuffix(path, 0)
    requires PartsOf(url) == Parts(scheme, start, FindSuffix(url, start))
    ensures StartsWith(path[..end], "/") && NormalizedUrl(url) == origin + NormalizedPath(path[..end]) + path[end..]
  {
    JoinedSuffix(url, start, origin, path, end);
    SliceJoined(url, start, origin, path, end);
    NormalizesParts(url, scheme, start, start + end, origin, path[..end], path[end..]);
  }

  lemma JoinedAsRfc(base: string, reference: string, scheme: nat, start: nat, path: string, end: nat)
    requires FindText(base, "://", 0) == scheme < |base| && Find(base, '/', scheme + 3) == start
    requires !IsHttpUrl(reference) && !StartsWith(reference, "//")
    requires StartsWith(reference, "/") || start < FindSuffix(base, 0)
    requires path == JoinedPath(base, start, reference) && end == FindSuffix(path, 0)
    ensures StartsWith(path[..end], "/")
    ensures ResolveUrl(base, reference) == base[..start] + RemoveDotSegments(path[..end], "") + path[end..] <==>
            AgreesWithRfc(Split(path[..end], 1))
  {
    ResolvedPath(base, reference, scheme, start, path, end);
    var joined := path[..end];
    NormalizedIsRfc(joined);
    SameMiddle(base[..start], RemoveDotSegments(joined, ""), NormalizedPath(joined), path[end..]);
  }

  lemma SameMiddle(a: string, x: string, y: string, b: string)
    ensures a + x + b == a + y + b <==> x == y
  {
    var s, t := a + x + b, a + y + b;
    if s == t {
      assert |x| == |y|;
      assert s[|a|..|a| + |x|] == x && t[|a|..|a| + |y|] == y;
    }
  }

  // --------------------------------------------- section 5.2.2 of RFC 3986

  /** The base's query, with its '?'. */
  function QueryOf(base: string): string {
    var cut := FindSuffix(base, 0);
    base[cut..Find(base, '#', cut)]
  }

  /** The target of a reference without scheme and authority, against a base with
      a path: one without a path of its own keeps the base's path, and the base's
      query unless it has one itself. */
  function RfcTarget(base: string, start: nat, reference: string): string
    requires start < FindSuffix(base, 0)
  {
    var path := JoinedPath(base, start, reference);
    var end := FindSuffix(path, 0);
    if FindSuffix(reference, 0) == 0 then
      base[..FindSuffix(base, 0)] + (if StartsWith(reference, "?") then "" else QueryOf(base)) + reference
    else base[..start] + RemoveDotSegments(path[..end], "") + path[end..]
  }

  /** Segments that normalization keeps, and a slash at the end. */
  predicate NormalDirectory(p: Pieces) {
    match p
    case One(last) => last == ""
    case More(head, rest) => Kept(head) && NormalDirectory(rest)
  }

  lemma {:induction false} DirectoryKept(stack: seq<string>, p: Pieces)
    requires NormalDirectory(p)
    ensures KeepAll(stack, p) + [""] == stack + Listed(p) && LastOf(p) == ""
    decreases p
  {
    match p
    case One(last) =>
    case More(head, rest) =>
      DirectoryKept(stack + [head], rest);
      assert stack + [head] + Listed(rest) == stack + ([head] + Listed(rest));
  }

  lemma {:induction false} KeptDirectory(p: Pieces, kept: seq<string>)
    requires AllKept(kept) && Listed(p) == kept + [""]
    ensures NormalDirectory(p)
    decreases p
  {
    var l := kept + [""];
    match p
    case One(last) =>
      assert |l| == 1 && l[0] == last && l[|kept|] == "";
    case More(head, rest) =>
      assert Listed(rest) != [] && l[0] == head && l[1..] == Listed(rest);
      assert kept != [] && Kept(kept[0]) && l[1..] == kept[1..] + [""];
      KeptDirectory(rest, kept[1..]);
  }

  lemma DirectoryNormal(p: Pieces)
    requires NormalDirectory(p)
    ensures NormalSegments(p) == Listed(p)
  {
    DirectoryKept([], p);
    assert [] + Listed(p) == Listed(p);
    if KeepAll([], p) == [] { assert [] + [""] == [""]; }
  }

  lemma NormalIsDirectory(path: string, p: Pieces)
    requires StartsWith(path, "/") && p == Split(path, 1) && LastOf(p) == "" && NormalizedPath(path) == path
    ensures NormalDirectory(p)
  {
    SplitPieces(path, 1);
    KeepAllKept([], p);
    SplitPath(NormalSegments(p));
    var kept := KeepAll([], p);
    if kept == [] { assert [] + [""] == [""]; }
    KeptDirectory(p, kept);
  }

  /** Normalization leaves a directory as it is just when all its segments are kept. */
  lemma DirectoryStays(path: string)
    requires StartsWith(path, "/") && path[|path| - 1] == '/'
    ensures NormalizedPath(path) == path <==> NormalDirectory(Split(path, 1))
  {
    var p := Split(path, 1);
    SplitPieces(path, 1);
    if NormalDirectory(p) {
      SplitPrints(path, 1, 0);
      PrintIsPath(p);
      DirectoryNormal(p);
    }
    if NormalizedPath(path) == path { NormalIsDirectory(path, p); }
  }

  lemma NormalizedEndsInSlash(path: string)
    requires StartsWith(path, "/") && path[|path| - 1] == '/'
    ensures NormalizedPath(path) != "" && NormalizedPath(path)[|NormalizedPath(path)| - 1] == '/'
  {
    SplitPieces(path, 1);
    var kept := KeepAll([], Split(path, 1));
    PathPush(kept, "");
    PathPush([], "");
    assert [] + [""] == [""];
  }

  /** The base's directory and its path: the same just when the path ends in a slash. */
  lemma LastSlash(base: string, start: nat, cut: nat) returns (slash: nat)
    requires start < cut == FindSuffix(base, 0) && base[start] == '/'
    ensures start <= slash < cut && base[slash] == '/' && (base[cut - 1] == '/' ==> slash == cut - 1)
    ensures Directory(base, start) == base[start..slash + 1]
  {
    var whole := base[..cut];
    assert whole[start] == '/' && whole[cut - 1] == base[cut - 1];
    slash := FindLast(whole, '/');
    assert whole[slash] == base[slash];
  }

  lemma DirectoryOf(base: string, start: nat, cut: nat, directory: string)
    requires start < cut == FindSuffix(base, 0) && base[start] == '/'
    requires directory == Directory(base, start)
    ensures StartsWith(directory, "/") && directory[|directory| - 1] == '/' && Plain(directory)
    ensures directory == base[start..cut] <==> base[cut - 1] == '/'
  {
    var slash := LastSlash(base, start, cut);
    PlainBefore(base, 0);
    assert |directory| == slash + 1 - start && |base[start..cut]| == cut - start;
    assert forall k :: 0 <= k < |directory| ==> directory[k] == base[start + k];
  }

  /** What the RFC and the source make of a reference without a path. */
  predicate KeepsBasePath(base: string, start: nat, reference: string)
    requires start < FindSuffix(base, 0) && base[start] == '/'
  {
    && NormalDirectory(Split(base[start..FindSuffix(base, 0)], 1))
    && (StartsWith(reference, "?") || QueryOf(base) == "")
  }

  /** What the source makes of a reference without a path. */
  lemma EmptyPathResolved(base: string, reference: string, scheme: nat, start: nat, cut: nat, directory: string)
    requires FindText(base, "://", 0) == scheme < |base| && Find(base, '/', scheme + 3) == start
    requires !IsHttpUrl(reference) && FindSuffix(reference, 0) == 0 && start < cut == FindSuffix(base, 0)
    requires directory == Directory(base, start)
    ensures StartsWith(directory, "/")
    ensures ResolveUrl(base, reference) == base[..start] + NormalizedPath(directory) + reference
  {
    DirectoryOf(base, start, cut, directory);
    SuffixAfter(directory, reference, directory + reference);
    assert !StartsWith(reference, "/") && JoinedPath(base, start, reference) == directory + reference;
    ResolvedPath(base, reference, scheme, start, directory + reference, |directory|);
  }

  lemma EmptyPathTarget(base: string, start: nat, cut: nat, reference: string, query: string)
    requires start < cut == FindSuffix(base, 0) && FindSuffix(reference, 0) == 0
    requires query == if StartsWith(reference, "?") then "" else QueryOf(base)
    ensures RfcTarget(base, start, reference) == base[..start] + base[start..cut] + query + reference
    ensures query == "" <==> StartsWith(reference, "?") || QueryOf(base) == ""
  {
    assert base[..cut] == base[..start] + base[start..cut];
  }

  lemma EmptyPathAsRfc(base: string, reference: string, scheme: nat, start: nat, cut: nat)
    requires FindText(base, "://", 0) == scheme < |base| && Find(base, '/', scheme + 3) == start
    requires !IsHttpUrl(reference) && FindSuffix(reference, 0) == 0 && start < cut == FindSuffix(base, 0)
    ensures ResolveUrl(base, reference) == RfcTarget(base, start, reference) <==> KeepsBasePath(base, start, reference)
  {
    var directory := Directory(base, start);
    var query := if StartsWith(reference, "?") then "" else QueryOf(base);
    QueryStarts(base);
    EmptyPathResolved(base, reference, scheme, start, cut, directory);
    EmptyPathTarget(base, start, cut, reference, query);
    SamePathThen(base[..start], NormalizedPath(directory), base[start..cut], query, reference);
    KeepsPath(base, start, cut, directory, query);
  }

  lemma SamePathThen(a: string, normal: string, whole: string, query: string, b: string)
    ensures a + normal + b == a + whole + query + b <==> normal == whole + query
  {
    assert a + whole + query == a + (whole + query);
    SameMiddle(a, normal, whole + query, b);
  }

  lemma KeepsPath(base: string, start: nat, cut: nat, directory: string, query: string)
    requires start < cut == FindSuffix(base, 0) && base[start] == '/'
    requires directory == Directory(base, start)
    requires query != "" ==> query[0] == '?' || query[0] == '#'
    ensures StartsWith(directory, "/")
    ensures NormalizedPath(directory) == base[start..cut] + query <==>
            NormalDirectory(Split(base[start..cut], 1)) && query == ""
  {
    var whole := base[start..cut];
    DirectoryOf(base, start, cut, directory);
    NormalizedPathPlain(directory);
    NormalizedEndsInSlash(directory);
    PlainHasNoQuery(NormalizedPath(directory), whole, query);
    assert whole + "" == whole;
    SplitPieces(whole, 1);
    DirectoryLast(Split(whole, 1));
    if base[cut - 1] == '/' { DirectoryStays(whole); }
  }

  lemma {:induction false} DirectoryLast(p: Pieces)
    ensures NormalDirectory(p) ==> LastOf(p) == ""
    decreases p
  {
    if p.More? { DirectoryLast(p.rest); }
  }

  lemma QueryStarts(base: string)
    ensures QueryOf(base) != "" ==> QueryOf(base)[0] == '?'
  {
    var cut := FindSuffix(base, 0);
    if cut < |base| && base[cut] == '#' { FindIs(base, '#', cut, cut); }
  }

  /** A query cannot be part of a normalized path. */
  lemma PlainHasNoQuery(normal: string, whole: string, query: string)
    requires Plain(normal) && (query != "" ==> query[0] == '?' || query[0] == '#')
    ensures query != "" ==> normal != whole + query
  {
    if query != "" {
      var s := whole + query;
      assert s[|whole|] == query[0];
    }
  }

  lemma SuffixAfter(directory: string, reference: string, path: string)
    requires Plain(directory) && FindSuffix(reference, 0) == 0 && path == directory + reference
    ensures FindSuffix(path, 0) == |directory| && path[..|directory|] == directory && path[|directory|..] == reference
  {
    assert forall k :: 0 <= k < |directory| ==> path[k] == directory[k];
    assert reference != "" ==> path[|directory|] == reference[0];
    SuffixIs(path, 0, |directory|);
  }

  /** A reference without scheme and authority resolves as section 5.2.2 of RFC 3986
      says, exactly when source and RFC agree on the joined path; and, where it
      has no path of its own, when the base's path is a normalized directory and
      no query of the base is lost. */
  lemma ResolvedAsRfc(base: string, reference: string, scheme: nat, start: nat)
    requires FindText(base, "://", 0) == scheme < |base| && Find(base, '/', scheme + 3) == start
    requires !IsHttpUrl(reference) && !StartsWith(reference, "//") && start < FindSuffix(base, 0)
    ensures var path := JoinedPath(base, start, reference);
            ResolveUrl(base, reference) == RfcTarget(base, start, reference) <==>
            if FindSuffix(reference, 0) == 0 then KeepsBasePath(base, start, reference)
            else AgreesWithRfc(Split(path[..FindSuffix(path, 0)], 1))
  {
    var path := JoinedPath(base, start, reference);
    JoinedAsRfc(base, reference, scheme, start, path, FindSuffix(path, 0));
    if FindSuffix(reference, 0) == 0 {
      EmptyPathAsRfc(base, reference, scheme, start, FindSuffix(base, 0));
    }
  }

  lemma QueryAlone(reference: string)
    requires reference != "" && reference[0] == '?'
    ensures FindSuffix(reference, 0) == 0 && StartsWith(reference, "?") && !IsHttpUrl(reference)
  {
  }

  lemma NotADirectory(path: string)
    requires |path| > 1 && path[|path| - 1] != '/'
    ensures !NormalDirectory(Split(path, 1))
  {
    SplitPieces(path, 1);
    DirectoryLast(Split(path, 1));
  }

  lemma WholeBase(base: string, start: nat, cut: nat, reference: string)
    requires start < cut == |base|
    ensures base[..start] + base[start..cut] + "" + reference == base + reference
  {
  }

  lemma QueryTarget(base: string, start: nat, cut: nat, reference: string)
    requires start < cut == |base| == FindSuffix(base, 0) && reference != "" && reference[0] == '?'
    ensures RfcTarget(base, start, reference) == base + reference
  {
    QueryAlone(reference);
    WholeBase(base, start, cut, reference);
    EmptyPathTarget(base, start, cut, reference, "");
  }

  /** They differ for a reference that is only a query and a base without one
      whose path does not end in a slash: the RFC keeps its last segment. */
  lemma LastSegmentIsLost(base: string, reference: string, scheme: nat, start: nat, cut: nat)
    requires FindText(base, "://", 0) == scheme < |base| && Find(base, '/', scheme + 3) == start
    requires start + 1 < cut == |base| == FindSuffix(base, 0) && base[cut - 1] != '/'
    requires reference != "" && reference[0] == '?'
    ensures RfcTarget(base, start, reference) == base + reference != ResolveUrl(base, reference)
  {
    QueryTarget(base, start, cut, reference);
    QueryAlone(reference);
    NotADirectory(base[start..cut]);
    EmptyPathAsRfc(base, reference, scheme, start, cut);
  }

  /** An example of that. */
  lemma QueryOnlyDiffers(base: string, reference: string)
    requires base == "http://h/a/b" && reference == "?x"
    ensures Find(base, '/', 7) == 8 < FindSuffix(base, 0)
    ensures RfcTarget(base, 8, reference) == base + reference != ResolveUrl(base, reference)
  {
    var colon := "://";
    forall k | 0 <= k < 4 ensures !TextAt(base, colon, k) {
      assert base[k + 0] != colon[0];
    }
    FindTextIs(base, colon, 0, 4);
    FindIs(base, '/', 7, 8);
    SuffixIs(base, 0, 12);
    LastSegmentIsLost(base, reference, 4, 8, 12);
  }
}
