/** The request patterns of the Fetch domain: a greedy left-to-right scan for the segments
    between wildcards, against what a pattern means. */
module UrlPattern {
  datatype Result<T> = Ok(value: T) | PatternTooLong

  const MAX_PATTERN := 256

  // ───────────── what a pattern means ─────────────

  /** `p` matches all of `u` from position `j` on. */
  ghost predicate Means(p: string, u: string, j: nat)
    requires j <= |u|
    decreases |p|, 0
  {
    if p == "" then j == |u|
    else if p[0] == '*' then MeansLater(p[1..], u, j)
    else j < |u| && (p[0] == '?' || p[0] == u[j]) && Means(p[1..], u, j + 1)
  }

  /** A wildcard before `p` takes some characters, or none. */
  ghost predicate MeansLater(p: string, u: string, j: nat)
    requires j <= |u|
    decreases |p|, 1
  {
    exists k: nat :: j <= k <= |u| && Means(p, u, k)
  }

  /** A leading wildcard can take more. */
  lemma StarTakesMore(p: string, u: string, j: nat, k: nat)
    requires p != "" && p[0] == '*' && j <= k <= |u| && Means(p, u, k)
    ensures Means(p, u, j)
  {
    assert MeansLater(p[1..], u, k);
  }

  lemma DoubleStar(p: string, u: string, j: nat)
    requires |p| > 1 && p[0] == '*' && p[1] == '*' && j <= |u|
    ensures Means(p, u, j) <==> Means(p[1..], u, j)
  {
    assert Means(p, u, j) == MeansLater(p[1..], u, j);
    forall k: nat | j <= k <= |u| && Means(p[1..], u, k) ensures Means(p[1..], u, j) {
      StarTakesMore(p[1..], u, j, k);
    }
    if Means(p[1..], u, j) { assert MeansLater(p[1..], u, j); }
  }

  // ───────────── compiling ─────────────

  /** Runs of wildcards count as one. */
  function Collapse(p: string): (r: string)
    ensures p != "" ==> r != "" && r[0] == p[0]
  {
    if |p| <= 1 then p
    else if p[0] == '*' && p[1] == '*' then Collapse(p[1..])
    else [p[0]] + Collapse(p[1..])
  }

  function Split(p: string): (r: seq<string>)
    ensures |r| >= 1
  {
    if p == "" then [""]
    else if p[0] == '*' then [""] + Split(p[1..])
    else var rest := Split(p[1..]); [[p[0]] + rest[0]] + rest[1..]
  }

  function NonEmpty(segments: seq<string>): seq<string> {
    if segments == [] then []
    else (if segments[0] == "" then [] else [segments[0]]) + NonEmpty(segments[1..])
  }

  function TotalLength(segments: seq<string>): nat {
    if segments == [] then 0 else |segments[0]| + TotalLength(segments[1..])
  }

  datatype Compiled = Exact(only: string) | Scan(first: string, middle: seq<string>, last: string, minLength: nat)

  function Compile(pattern: string): Result<Compiled> {
    if |pattern| > MAX_PATTERN then PatternTooLong
    else
      var segments := Split(Collapse(pattern));
      if |segments| == 1 then Ok(Exact(segments[0]))
      else Ok(Scan(segments[0], NonEmpty(segments[1..|segments| - 1]), segments[|segments| - 1], TotalLength(segments)))
  }

  // ───────────── the scan ─────────────

  predicate Fits(text: string, segment: string, offset: nat) {
    offset + |segment| <= |text| &&
    forall i :: 0 <= i < |segment| ==> segment[i] == '?' || segment[i] == text[offset + i]
  }

  method MatchAt(text: string, segment: string, offset: nat) returns (r: bool)
    ensures r == Fits(text, segment, offset)
  {
    if offset + |segment| > |text| { return false; }
    for i := 0 to |segment|
      invariant forall k :: 0 <= k < i ==> segment[k] == '?' || segment[k] == text[offset + k]
    {
      if segment[i] == '?' { continue; }
      if text[offset + i] != segment[i] { return false; }
    }
    r := true;
  }

  method IndexOfSegment(text: string, segment: string, start: nat) returns (r: int)
    ensures r == -1 || start <= r
    ensures r == -1 ==> forall i: nat :: start <= i ==> !Fits(text, segment, i)
    ensures r != -1 ==> Fits(text, segment, r) && forall i: nat :: start <= i < r ==> !Fits(text, segment, i)
  {
    var limit := |text| - |segment|;
    var i := start;
    while i <= limit
      invariant forall k: nat :: start <= k < i ==> !Fits(text, segment, k)
      decreases limit - i
    {
      var fits := MatchAt(text, segment, i);
      if fits { return i; }
      i := i + 1;
    }
    r := -1;
  }

  predicate EndsOn(u: string, last: string, pos: nat) {
    pos + |last| <= |u| && Fits(u, last, |u| - |last|)
  }

  /** Some way of placing the middles in order from `pos` on leaves room for the tail. */
  ghost predicate Placeable(middle: seq<string>, last: string, u: string, pos: nat)
    decreases |middle|
  {
    if middle == [] then EndsOn(u, last, pos)
    else exists i: nat :: pos <= i && Fits(u, middle[0], i) && Placeable(middle[1..], last, u, i + |middle[0]|)
  }

  lemma {:induction false} PlaceableEarlier(middle: seq<string>, last: string, u: string, pos: nat, later: nat)
    requires pos <= later && Placeable(middle, last, u, later)
    ensures Placeable(middle, last, u, pos)
  {
    if middle != [] {
      var i: nat :| later <= i && Fits(u, middle[0], i) && Placeable(middle[1..], last, u, i + |middle[0]|);
    }
  }

  /** Nothing is lost by putting a segment at its first place. */
  lemma GreedyChoice(middle: seq<string>, last: string, u: string, pos: nat, found: nat)
    requires middle != [] && pos <= found && Fits(u, middle[0], found)
    requires forall i: nat :: pos <= i < found ==> !Fits(u, middle[0], i)
    ensures Placeable(middle, last, u, pos) <==> Placeable(middle[1..], last, u, found + |middle[0]|)
  {
    if Placeable(middle, last, u, pos) {
      var i: nat :| pos <= i && Fits(u, middle[0], i) && Placeable(middle[1..], last, u, i + |middle[0]|);
      PlaceableEarlier(middle[1..], last, u, found + |middle[0]|, i + |middle[0]|);
    }
  }

  ghost predicate Accepts(c: Compiled, u: string) {
    match c
    case Exact(only) => |u| == |only| && Fits(u, only, 0)
    case Scan(first, middle, last, minLength) =>
      minLength <= |u| && Fits(u, first, 0) && Placeable(middle, last, u, |first|)
  }

  method Matches(c: Compiled, url: string) returns (r: bool)
    ensures r == Accepts(c, url)
  {
    match c
    case Exact(only) =>
      r := MatchAt(url, only, 0);
      r := |url| == |only| && r;
    case Scan(first, middle, last, minLength) =>
      if |url| < minLength { return false; }
      r := MatchAt(url, first, 0);
      if !r { return; }
      var pos: nat := |first|;
      for k := 0 to |middle|
        invariant Placeable(middle[k..], last, url, pos) == Placeable(middle, last, url, |first|)
      {
        var found := IndexOfSegment(url, middle[k], pos);
        assert middle[k..][0] == middle[k] && middle[k..][1..] == middle[k + 1..];
        if found == -1 { return false; }
        GreedyChoice(middle[k..], last, url, pos, found);
        pos := found + |middle[k]|;
      }
      var tailStart := |url| - |last|;
      if tailStart < pos { return false; }
      r := MatchAt(url, last, tailStart);
  }

  // ───────────── the scan accepts what the pattern means ─────────────

  /** The segments between wildcards, placed in order with any gaps. */
  ghost predicate SegmentsMean(segments: seq<string>, u: string, j: nat)
    requires |segments| >= 1
    decreases |segments|
  {
    Fits(u, segments[0], j) &&
    if |segments| == 1 then j + |segments[0]| == |u|
    else exists k: nat :: j + |segments[0]| <= k <= |u| && SegmentsMean(segments[1..], u, k)
  }

  lemma FitsCons(u: string, c: char, s: string, j: nat)
    ensures Fits(u, [c] + s, j) <==> j < |u| && (c == '?' || c == u[j]) && Fits(u, s, j + 1)
  {
    var cs := [c] + s;
    if Fits(u, cs, j) {
      assert cs[0] == c && u[j + 0] == u[j];
      forall i | 0 <= i < |s| ensures s[i] == '?' || s[i] == u[j + 1 + i] {
        assert cs[i + 1] == s[i] && u[j + (i + 1)] == u[j + 1 + i];
      }
    } else if j < |u| && (c == '?' || c == u[j]) && Fits(u, s, j + 1) {
      forall i | 0 <= i < |cs| ensures cs[i] == '?' || cs[i] == u[j + i] {
        if i > 0 { assert cs[i] == s[i - 1] && u[j + 1 + (i - 1)] == u[j + i]; }
      }
    }
  }

  lemma {:induction false} SplitMeans(p: string, u: string, j: nat)
    requires j <= |u|
    ensures Means(p, u, j) <==> SegmentsMean(Split(p), u, j)
    decreases |p|
  {
    if p == "" {
    } else if p[0] == '*' {
      assert Split(p)[1..] == Split(p[1..]);
      forall k: nat | j <= k <= |u| ensures Means(p[1..], u, k) <==> SegmentsMean(Split(p[1..]), u, k) {
        SplitMeans(p[1..], u, k);
      }
      assert Means(p, u, j) == MeansLater(p[1..], u, j);
    } else {
      var rest := Split(p[1..]);
      FitsCons(u, p[0], rest[0], j);
      assert Split(p)[1..] == rest[1..];
      if j < |u| { SplitMeans(p[1..], u, j + 1); }
    }
  }

  lemma {:induction false} CollapseMeans(p: string, u: string, j: nat)
    requires j <= |u|
    ensures Means(Collapse(p), u, j) <==> Means(p, u, j)
    decreases |p|
  {
    if |p| > 1 {
      var rest := p[1..];
      var c := Collapse(p);
      if p[0] == '*' && p[1] == '*' {
        CollapseMeans(rest, u, j);
        DoubleStar(p, u, j);
      } else {
        assert c[1..] == Collapse(rest);
        forall k: nat | j <= k <= |u| ensures Means(Collapse(rest), u, k) <==> Means(rest, u, k) {
          CollapseMeans(rest, u, k);
        }
        assert p[0] == '*' ==> (MeansLater(Collapse(rest), u, j) <==> MeansLater(rest, u, j));
      }
    }
  }

  lemma {:induction false} LongEnough(segments: seq<string>, u: string, j: nat)
    requires |segments| >= 1 && SegmentsMean(segments, u, j)
    ensures j + TotalLength(segments) <= |u|
    decreases |segments|
  {
    if |segments| > 1 {
      var k: nat :| j + |segments[0]| <= k <= |u| && SegmentsMean(segments[1..], u, k);
      LongEnough(segments[1..], u, k);
    }
  }

  /** Some later place from which the segments match to the end. */
  ghost predicate Somewhere(segments: seq<string>, u: string, pos: nat)
    requires |segments| >= 1
  {
    exists k: nat :: pos <= k <= |u| && SegmentsMean(segments, u, k)
  }

  lemma SegmentsUnfold(segments: seq<string>, u: string, j: nat)
    requires |segments| >= 2
    ensures SegmentsMean(segments, u, j) <==> Fits(u, segments[0], j) && Somewhere(segments[1..], u, j + |segments[0]|)
  {
  }

  /** After the first segment: the middles anywhere in order, the last one at the end. */
  lemma {:induction false} MiddlesPlaceable(segments: seq<string>, u: string, pos: nat)
    requires |segments| >= 1 && pos <= |u|
    ensures Somewhere(segments, u, pos) <==>
      Placeable(NonEmpty(segments[..|segments| - 1]), segments[|segments| - 1], u, pos)
    decreases |segments|
  {
    var last := segments[|segments| - 1];
    if |segments| == 1 {
      assert segments[..0] == [];
      if EndsOn(u, last, pos) { assert SegmentsMean(segments, u, |u| - |last|); }
    } else {
      var tail := segments[1..];
      assert segments[..|segments| - 1][1..] == tail[..|tail| - 1];
      var rest := NonEmpty(tail[..|tail| - 1]);
      forall k: nat | Fits(u, segments[0], k)
        ensures SegmentsMean(segments, u, k) <==> Placeable(rest, last, u, k + |segments[0]|)
      {
        SegmentsUnfold(segments, u, k);
        MiddlesPlaceable(tail, u, k + |segments[0]|);
      }
      PlaceFirst(segments, segments[0], rest, last, u, pos);
    }
  }

  lemma PlaceFirst(segments: seq<string>, first: string, rest: seq<string>, last: string, u: string, pos: nat)
    requires |segments| >= 2 && first == segments[0] && pos <= |u|
    requires forall k: nat :: Fits(u, first, k) ==> (SegmentsMean(segments, u, k) <==> Placeable(rest, last, u, k + |first|))
    ensures Somewhere(segments, u, pos) <==> Placeable((if first == "" then [] else [first]) + rest, last, u, pos)
  {
    if first == "" {
      assert [] + rest == rest;
      assert Fits(u, first, pos) && pos + |first| == pos;
      if Somewhere(segments, u, pos) {
        var k: nat :| pos <= k <= |u| && SegmentsMean(segments, u, k);
        PlaceableEarlier(rest, last, u, pos, k + |first|);
      }
    } else {
      var middle := [first] + rest;
      assert middle[1..] == rest && middle[0] == first;
      if Placeable(middle, last, u, pos) {
        var i: nat :| pos <= i && Fits(u, middle[0], i) && Placeable(middle[1..], last, u, i + |middle[0]|);
      }
    }
  }

  lemma {:induction false} ExactMeans(only: string, u: string)
    ensures SegmentsMean([only], u, 0) <==> |u| == |only| && Fits(u, only, 0)
  {
  }

  /** For every pattern of at most 256 characters and every URL, the scan answers what the
      pattern means; longer patterns, and only those, are refused. */
  lemma CompiledMeans(pattern: string, u: string)
    ensures Compile(pattern).PatternTooLong? <==> |pattern| > MAX_PATTERN
    ensures Compile(pattern).Ok? ==> (Accepts(Compile(pattern).value, u) <==> Means(pattern, u, 0))
  {
    var segments := Split(Collapse(pattern));
    CollapseMeans(pattern, u, 0);
    SplitMeans(Collapse(pattern), u, 0);
    if |segments| == 1 {
      assert segments == [segments[0]];
      ExactMeans(segments[0], u);
    } else {
      if SegmentsMean(segments, u, 0) { LongEnough(segments, u, 0); }
      SegmentsUnfold(segments, u, 0);
      if |segments[0]| <= |u| { MiddlesPlaceable(segments[1..], u, |segments[0]|); }
      assert segments[1..][..|segments| - 2] == segments[1..|segments| - 1];
    }
  }

  /** Compile once, match any URL. */
  method CompileAndMatch(pattern: string, url: string) returns (r: Result<bool>)
    ensures r.PatternTooLong? <==> |pattern| > 256
    ensures r.Ok? ==> (r.value <==> Means(pattern, url, 0))
  {
    CompiledMeans(pattern, url);
    var c := Compile(pattern);
    if c.PatternTooLong? { return PatternTooLong; }
    var matched := Matches(c.value, url);
    r := Ok(matched);
  }
}
