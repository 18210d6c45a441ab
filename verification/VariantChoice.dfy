/** Which rendition is played: chooseVariant in src/hls-playlist.cpp, and the
    choice among FFmpeg's programs in select_hls_program in
    src/media-player.cpp, which is meant to follow the same rule. */
module VariantChoice {
  import opened HlsPlaylist

  predicate InRange(v: Variant) {
    v.supportedVideo && 0 < v.bandwidth <= TARGET_BITRATE
  }

  predicate Unknown(v: Variant) {
    v.supportedVideo && v.bandwidth == 0
  }

  predicate Over(v: Variant) {
    v.supportedVideo && v.bandwidth > TARGET_BITRATE
  }

  /** `i` is the first of greatest bandwidth in range. */
  predicate BestInRange(vs: seq<Variant>, i: int) {
    && 0 <= i < |vs| && InRange(vs[i])
    && forall j :: 0 <= j < |vs| && InRange(vs[j]) ==>
         vs[j].bandwidth <= vs[i].bandwidth && (j < i ==> vs[j].bandwidth < vs[i].bandwidth)
  }

  predicate FirstUnknown(vs: seq<Variant>, i: int) {
    0 <= i < |vs| && Unknown(vs[i]) && forall j :: 0 <= j < i ==> !Unknown(vs[j])
  }

  /** `i` is the first of least bandwidth over the target and below `limit`. */
  predicate LeastOver(vs: seq<Variant>, i: int, limit: int) {
    && 0 <= i < |vs| && Over(vs[i]) && vs[i].bandwidth < limit
    && forall j :: 0 <= j < |vs| && Over(vs[j]) ==>
         vs[i].bandwidth <= vs[j].bandwidth && (j < i ==> vs[i].bandwidth < vs[j].bandwidth)
  }

  predicate NoneIn(vs: seq<Variant>) {
    forall j :: 0 <= j < |vs| ==> !InRange(vs[j])
  }

  predicate NoneUnknown(vs: seq<Variant>) {
    forall j :: 0 <= j < |vs| ==> !Unknown(vs[j])
  }

  predicate NoneOver(vs: seq<Variant>, limit: int) {
    forall j :: 0 <= j < |vs| && Over(vs[j]) ==> vs[j].bandwidth >= limit
  }

  /** The rule of chooseVariant; -1 for none. A bandwidth is any 64-bit number. */
  predicate Chosen(vs: seq<Variant>, i: int) {
    || BestInRange(vs, i)
    || (NoneIn(vs) && FirstUnknown(vs, i))
    || (NoneIn(vs) && NoneUnknown(vs) && LeastOver(vs, i, INT64_MAX + 1))
    || (NoneIn(vs) && NoneUnknown(vs) && NoneOver(vs, INT64_MAX + 1) && i == -1)
  }

  predicate FirstCandidate(vs: seq<Variant>, i: int) {
    0 <= i < |vs| && vs[i].supportedVideo && forall j :: 0 <= j < i ==> !vs[j].supportedVideo
  }

  predicate NoCandidate(vs: seq<Variant>) {
    forall j :: 0 <= j < |vs| ==> !vs[j].supportedVideo
  }

  /** The rule of select_hls_program. */
  predicate Selected(vs: seq<Variant>, i: int) {
    || BestInRange(vs, i)
    || (NoneIn(vs) && LeastOver(vs, i, INT64_MAX))
    || (NoneIn(vs) && NoneOver(vs, INT64_MAX) && FirstCandidate(vs, i))
    || (NoCandidate(vs) && i == -1)
  }

  /** What SelectProgram makes of the renditions: none where there are fewer than two. */
  predicate SelectedOf(vs: seq<Variant>, j: int) {
    if |vs| <= 1 then j == -1 else Selected(vs, j)
  }

  predicate Int64(vs: seq<Variant>) {
    forall j :: 0 <= j < |vs| ==> -INT64_MAX - 1 <= vs[j].bandwidth <= INT64_MAX
  }

  method ChooseVariant(variants: seq<Variant>) returns (chosen: int)
    requires Int64(variants)
    ensures Chosen(variants, chosen)
  {
    var bestUnder, lowestOver := -1, -1;
    for i := 0 to |variants|
      invariant UnderSoFar(variants[..i], bestUnder)
      invariant OverSoFar(variants[..i], lowestOver, INT64_MAX + 1)
    {
      var v := variants[i];
      assert variants[..i + 1] == variants[..i] + [v];
      if !v.supportedVideo { continue; }
      if v.bandwidth > 0 && v.bandwidth <= TARGET_BITRATE
         && (bestUnder < 0 || v.bandwidth > variants[bestUnder].bandwidth) {
        bestUnder := i;
      } else if v.bandwidth > TARGET_BITRATE
                && (lowestOver < 0 || v.bandwidth < variants[lowestOver].bandwidth) {
        lowestOver := i;
      } else if v.bandwidth == 0 && bestUnder < 0 {
        bestUnder := i;
      }
    }
    assert variants[..|variants|] == variants;
    return if bestUnder >= 0 then bestUnder else lowestOver;
  }

  predicate UnderSoFar(vs: seq<Variant>, i: int) {
    BestInRange(vs, i) || (NoneIn(vs) && FirstUnknown(vs, i)) || (NoneIn(vs) && NoneUnknown(vs) && i == -1)
  }

  predicate OverSoFar(vs: seq<Variant>, i: int, limit: int) {
    LeastOver(vs, i, limit) || (NoneOver(vs, limit) && i == -1)
  }

  predicate BestSoFar(vs: seq<Variant>, i: int) {
    BestInRange(vs, i) || (NoneIn(vs) && i == -1)
  }

  predicate FirstSoFar(vs: seq<Variant>, i: int) {
    FirstCandidate(vs, i) || (NoCandidate(vs) && i == -1)
  }

  /** The programs FFmpeg found, with the bitrate their metadata gives. One or
      none is left alone: nothing is selected. */
  method SelectProgram(programs: seq<Variant>) returns (selected: int)
    requires Int64(programs)
    ensures SelectedOf(programs, selected)
  {
    if |programs| <= 1 { return -1; }
    var bestUnder, lowestOver, fallback := -1, -1, -1;
    var bestUnderBitrate, lowestOverBitrate := -1, INT64_MAX;
    for i := 0 to |programs|
      invariant BestSoFar(programs[..i], bestUnder)
      invariant bestUnderBitrate == if bestUnder < 0 then -1 else programs[bestUnder].bandwidth
      invariant OverSoFar(programs[..i], lowestOver, INT64_MAX)
      invariant lowestOverBitrate == if lowestOver < 0 then INT64_MAX else programs[lowestOver].bandwidth
      invariant FirstSoFar(programs[..i], fallback)
    {
      var p := programs[i];
      assert programs[..i + 1] == programs[..i] + [p];
      if !p.supportedVideo { continue; }
      if fallback < 0 { fallback := i; }
      if p.bandwidth > 0 && p.bandwidth <= TARGET_BITRATE && p.bandwidth > bestUnderBitrate {
        bestUnder, bestUnderBitrate := i, p.bandwidth;
      } else if p.bandwidth > TARGET_BITRATE && p.bandwidth < lowestOverBitrate {
        lowestOver, lowestOverBitrate := i, p.bandwidth;
      }
    }
    assert programs[..|programs|] == programs;
    return if bestUnder >= 0 then bestUnder else if lowestOver >= 0 then lowestOver else fallback;
  }

  /** A playable rendition of known bandwidth up to 1.5 Mbit/s. */
  predicate Fitting(v: Variant) {
    v.supportedVideo && 1 <= v.bandwidth <= 1_500_000
  }

  /** `i` comes before `k` when the greater bandwidth is wanted, or the first of two alike. */
  predicate Greater(vs: seq<Variant>, i: nat, k: nat)
    requires i < |vs| && k < |vs|
  {
    vs[i].bandwidth > vs[k].bandwidth || (vs[i].bandwidth == vs[k].bandwidth && i <= k)
  }

  predicate Less(vs: seq<Variant>, i: nat, k: nat)
    requires i < |vs| && k < |vs|
  {
    vs[i].bandwidth < vs[k].bandwidth || (vs[i].bandwidth == vs[k].bandwidth && i <= k)
  }

  /** What the first rule picks: a fitting rendition of the greatest bandwidth where
      there is one; else the first of unknown bandwidth; else a playable one of the
      least bandwidth over 1.5 Mbit/s; else none. */
  lemma ChosenFits(vs: seq<Variant>, i: int)
    requires Int64(vs) && Chosen(vs, i)
    ensures -1 <= i < |vs|
    ensures forall k :: 0 <= k < |vs| && Fitting(vs[k]) ==> i >= 0 && Fitting(vs[i]) && Greater(vs, i, k)
    ensures (forall k :: 0 <= k < |vs| ==> !Fitting(vs[k])) ==>
      forall k :: 0 <= k < |vs| && vs[k].supportedVideo && vs[k].bandwidth == 0 ==>
        0 <= i <= k && vs[i].supportedVideo && vs[i].bandwidth == 0
    ensures (forall k :: 0 <= k < |vs| && vs[k].supportedVideo ==> vs[k].bandwidth < 0 || vs[k].bandwidth > 1_500_000) ==>
      forall k :: 0 <= k < |vs| && vs[k].supportedVideo && vs[k].bandwidth > 1_500_000 ==>
        i >= 0 && vs[i].supportedVideo && vs[i].bandwidth > 1_500_000 && Less(vs, i, k)
    ensures i >= 0 ==> vs[i].supportedVideo && vs[i].bandwidth >= 0
  {
  }

  /** What the second rule picks: a fitting rendition of the greatest bandwidth; else
      a playable one of the least bandwidth over 1.5 Mbit/s and below 2^63 - 1; else
      the first playable one; of one rendition, none. */
  lemma SelectedFits(vs: seq<Variant>, j: int)
    requires SelectedOf(vs, j)
    ensures -1 <= j < |vs| && (j >= 0 ==> |vs| > 1 && vs[j].supportedVideo)
    ensures |vs| > 1 ==>
      forall k :: 0 <= k < |vs| && Fitting(vs[k]) ==> j >= 0 && Fitting(vs[j]) && Greater(vs, j, k)
    ensures |vs| > 1 && (forall k :: 0 <= k < |vs| ==> !Fitting(vs[k])) ==>
      forall k :: 0 <= k < |vs| && vs[k].supportedVideo && 1_500_000 < vs[k].bandwidth < 0x7FFF_FFFF_FFFF_FFFF ==>
        j >= 0 && vs[j].bandwidth > 1_500_000 && Less(vs, j, k)
    ensures |vs| > 1 && (forall k :: 0 <= k < |vs| && vs[k].supportedVideo ==>
                           vs[k].bandwidth <= 0 || vs[k].bandwidth >= 0x7FFF_FFFF_FFFF_FFFF) ==>
      forall k :: 0 <= k < |vs| && vs[k].supportedVideo ==> 0 <= j <= k
  {
  }

  /** Each rule fixes its answer. */
  lemma ChosenOnce(vs: seq<Variant>, i: int, j: int)
    requires Chosen(vs, i) && Chosen(vs, j)
    ensures i == j
  {
  }

  lemma SelectedOnce(vs: seq<Variant>, i: int, j: int)
    requires Selected(vs, i) && Selected(vs, j)
    ensures i == j
  {
  }

  /** A rendition that chooseVariant takes where there is none better. */
  predicate Playable(v: Variant) {
    v.supportedVideo && v.bandwidth >= 0
  }

  /** Fewer than two renditions: none of them is playable. More: one is in range;
      or none is a candidate; or none is unknown and one is over the target; or
      the first candidate is the one left to both. */
  ghost predicate RulesAgree(vs: seq<Variant>) {
    if |vs| <= 1 then forall k :: 0 <= k < |vs| ==> !Playable(vs[k])
    else
      || !NoneIn(vs)
      || NoCandidate(vs)
      || (NoneUnknown(vs) && !NoneOver(vs, INT64_MAX))
      || (NoneOver(vs, INT64_MAX) &&
          exists i :: FirstCandidate(vs, i) && (vs[i].bandwidth == 0 || (vs[i].bandwidth == INT64_MAX && NoneUnknown(vs))))
  }

  /** The two choices fall on the same rendition, or both on none, exactly then. */
  lemma ChoicesAgree(vs: seq<Variant>, i: int, j: int)
    requires Int64(vs) && Chosen(vs, i) && SelectedOf(vs, j)
    ensures i == j <==> RulesAgree(vs)
  {
    if |vs| == 1 { assert i == 0 <==> Playable(vs[0]); }
  }

  /** Where every candidate states a usable bandwidth they agree, unless there is
      one rendition alone and it is a candidate. */
  lemma UsableBandwidthsAgree(vs: seq<Variant>, i: int, j: int)
    requires forall k :: 0 <= k < |vs| && vs[k].supportedVideo ==> 0 < vs[k].bandwidth < INT64_MAX
    requires Chosen(vs, i) && SelectedOf(vs, j)
    ensures i == j <==> |vs| != 1 || !vs[0].supportedVideo
  {
    if |vs| == 1 { assert i == 0 <==> Playable(vs[0]); }
  }

  /** Both choices as the source makes them. */
  method BothChoices(variants: seq<Variant>) returns (chosen: int, selected: int)
    requires Int64(variants)
    ensures Chosen(variants, chosen) && SelectedOf(variants, selected)
    ensures chosen == selected <==> RulesAgree(variants)
  {
    chosen := ChooseVariant(variants);
    selected := SelectProgram(variants);
    ChoicesAgree(variants, chosen, selected);
  }

  /** Lists on which they differ: an unknown bandwidth before one over the target,
      and one rendition alone. */
  lemma UnknownAndOverDiffer(vs: seq<Variant>, i: int, j: int)
    requires vs == [Variant("low", 0, true), Variant("high", 1_500_001, true)]
    requires Chosen(vs, i) && SelectedOf(vs, j)
    ensures i == 0 && j == 1
  {
    assert FirstUnknown(vs, 0) && NoneIn(vs) && LeastOver(vs, 1, INT64_MAX);
    ChosenOnce(vs, i, 0);
    SelectedOnce(vs, j, 1);
  }

  lemma OneRenditionDiffers(vs: seq<Variant>, i: int, j: int)
    requires vs == [Variant("only", 1_000_000, true)] && Chosen(vs, i) && SelectedOf(vs, j)
    ensures i == 0 && j == -1
  {
    assert BestInRange(vs, 0);
    ChosenOnce(vs, i, 0);
  }
}
