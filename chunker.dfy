/**
 * The chapter chunker: cleans a translated chapter, splits it into paragraphs and
 * sentences, and packs the sentences greedily into speakable chunks of at most LIMIT
 * characters. A first paragraph that looks like a chapter title is kept as chunk 0
 * verbatim; a sentence longer than LIMIT is force-split near the limit at a space.
 *
 * Sentence splitting follows the regular-expression path of the reader (the one taken
 * when `Intl.Segmenter` is unavailable); case mapping, a platform facility, is the
 * parameter `lower`.
 */
module Chunker {
  import opened Text
  import opened Wrappers

  const MinLimit: nat := 200
  const MaxLimit: nat := 3000
  /** How far before the limit `HardSplit` looks for a space. */
  const SplitWindow: nat := 120
  /** First paragraphs shorter than this are treated as titles. */
  const TitleMaxLength: nat := 100
  /** The lower-case chapter marker "chương". */
  const ChapterMarker: string := "ch\U{1B0}\U{1A1}ng"

  /** LIMIT: the configured chunk size clamped to [200, 3000]. */
  function Limit(chunkChars: int): (l: nat)
    ensures MinLimit <= l <= MaxLimit
    ensures MinLimit <= chunkChars <= MaxLimit ==> l == chunkChars
    ensures chunkChars < MinLimit ==> l == MinLimit
    ensures chunkChars > MaxLimit ==> l == MaxLimit
  {
    if chunkChars < MinLimit then MinLimit
    else if chunkChars > MaxLimit then MaxLimit
    else chunkChars
  }

  /** SOFT_TARGET: 85% of the limit, but never below 200. */
  function SoftTarget(limit: nat): (t: nat)
    ensures MinLimit <= t
    ensures limit >= MinLimit ==> t <= limit
    ensures 100 * t >= 85 * limit - 99
    ensures t == MinLimit || 100 * t <= 85 * limit
  {
    var t := limit * 85 / 100;
    if t < MinLimit then MinLimit else t
  }

  // ---- paragraphs ----

  /** The number of newlines that start `s`. */
  function NewlineRunLength(s: string): (k: nat)
    ensures k <= |s|
    ensures forall i :: 0 <= i < k ==> s[i] == '\n'
    ensures k < |s| ==> s[k] != '\n'
  {
    if s != [] && s[0] == '\n' then 1 + NewlineRunLength(s[1..]) else 0
  }

  /** `s.split(/\n{2,}|\n+/)`: the pieces between maximal runs of newlines. */
  function SplitAtNewlineRuns(s: string): (r: seq<string>)
    ensures |r| >= 1
    ensures StripWs(Concat(r)) == StripWs(s)
    decreases |s|
  {
    var i := IndexOf(s, "\n");
    if i < 0 then ConcatSingle(s); [s]
    else
      assert s[i] == '\n' by { assert s[i..i + 1] == "\n"; }
      var k := NewlineRunLength(s[i..]);
      var rest := SplitAtNewlineRuns(s[i + k..]);
      assert AllWs(s[i..i + k]) by { assert forall j :: 0 <= j < k ==> s[i..i + k][j] == s[i..][j]; }
      DropBlankRun(s, i, i + k, rest);
      [s[..i]] + rest
  }

  /**
   * The pieces hold no line feed, and glued back together they are the text with its line
   * feeds removed: only line feeds are dropped. Where the cuts fall is `NewlineRunCuts`.
   */
  lemma {:induction false} NewlineRunPieces(s: string)
    ensures var r := SplitAtNewlineRuns(s); LineFree(r) && Concat(r) == Without(s, '\n')
    decreases |s|
  {
    var i := IndexOf(s, "\n");
    if i < 0 {
      NoNewlineBefore(s, |s|);
      assert s[..|s|] == s;
      WithoutAbsent(s, '\n');
      ConcatSingle(s);
      ConsLineFree(s, []);
      assert [s] + [] == [s];
    } else {
      var k := NewlineRunLength(s[i..]);
      var tail := s[i + k..];
      NewlineRunPieces(tail);
      var rest := SplitAtNewlineRuns(tail);
      SplitStep(s);
      NoNewlineBefore(s, i);
      FirstNewlineRun(s, i, k);
      ConsLineFree(s[..i], rest);
      ConcatAppend([s[..i]], rest);
      ConcatSingle(s[..i]);
    }
  }

  /** The pieces with the gaps between them put back: `r[0] + gaps[0] + r[1] + … + r[k]`. */
  function Rejoin(r: seq<string>, gaps: seq<string>): string
    requires |r| == |gaps| + 1
    decreases |gaps|
  {
    if gaps == [] then r[0] else r[0] + gaps[0] + Rejoin(r[1..], gaps[1..])
  }

  /** Putting back one more piece in front. */
  lemma RejoinCons(p: string, g: string, r: seq<string>, gaps: seq<string>)
    requires |r| == |gaps| + 1
    ensures Rejoin([p] + r, [g] + gaps) == p + g + Rejoin(r, gaps)
  {
    assert ([p] + r)[1..] == r && ([g] + gaps)[1..] == gaps;
  }

  /** Every gap is a non-empty run of line feeds. */
  predicate NewlineGaps(gaps: seq<string>) {
    forall i :: 0 <= i < |gaps| ==> gaps[i] != [] && forall j :: 0 <= j < |gaps[i]| ==> gaps[i][j] == '\n'
  }

  /** Only the first and the last piece may be empty. */
  predicate InnerNonEmpty(r: seq<string>) {
    forall i :: 0 < i < |r| - 1 ==> r[i] != []
  }

  /**
   * `s` is the pieces `r` with the gaps put back, every piece free of line feeds and every
   * gap a run of them: each gap is then a whole maximal run of line feeds of `s`.
   */
  predicate CutAtNewlineRuns(s: string, r: seq<string>, gaps: seq<string>) {
    |r| == |gaps| + 1 && LineFree(r) && InnerNonEmpty(r) && NewlineGaps(gaps) && s == Rejoin(r, gaps)
  }

  /** The split cuts `s` at its runs of line feeds and nowhere else. */
  lemma {:induction false} NewlineRunCuts(s: string)
    ensures exists gaps :: CutAtNewlineRuns(s, SplitAtNewlineRuns(s), gaps)
    decreases |s|
  {
    var i := IndexOf(s, "\n");
    if i < 0 {
      NewlineRunPieces(s);
      assert CutAtNewlineRuns(s, [s], []);
    } else {
      var k := NewlineRunLength(s[i..]);
      var tail := s[i + k..];
      NewlineRunCuts(tail);
      var rest := SplitAtNewlineRuns(tail);
      var gs :| CutAtNewlineRuns(tail, rest, gs);
      assert SplitAtNewlineRuns(s) == [s[..i]] + rest;
      NoNewlineBefore(s, i);
      var g := NewlineRunAt(s, i, k);
      ConsNewlineCut(s, s[..i], g, tail, rest, gs);
    }
  }

  /** The run of line feeds at the first one, and what follows it. */
  lemma {:induction false} NewlineRunAt(s: string, i: nat, k: nat) returns (g: string)
    requires i < |s| && OccursAt(s, "\n", i) && k == NewlineRunLength(s[i..])
    ensures i + k <= |s| && g == s[i..i + k] && s == s[..i] + g + s[i + k..]
    ensures g != [] && forall j :: 0 <= j < |g| ==> g[j] == '\n'
    ensures s[i + k..] == [] || s[i + k..][0] != '\n'
  {
    assert s[i] == '\n' by { assert s[i..i + 1][0] == s[i]; }
    g := s[i..i + k];
    assert forall j :: 0 <= j < k ==> g[j] == s[i..][j];
    if i + k < |s| {
      assert s[i + k..][0] == s[i..][k];
    }
  }

  /** A line-feed-free head and a run of line feeds in front of a cut text. */
  lemma {:induction false} ConsNewlineCut(s: string, head: string, g: string, tail: string, rest: seq<string>, gs: seq<string>)
    requires s == head + g + tail && '\n' !in head
    requires g != [] && forall j :: 0 <= j < |g| ==> g[j] == '\n'
    requires tail == [] || tail[0] != '\n'
    requires CutAtNewlineRuns(tail, rest, gs)
    ensures CutAtNewlineRuns(s, [head] + rest, [g] + gs)
  {
    RejoinCons(head, g, rest, gs);
    NewlineGapsCons(g, gs);
    ConsLineFree(head, rest);
    CutStartsWithPiece(tail, rest, gs);
    ConsInnerNonEmpty(head, rest);
  }

  /** A cut text whose first piece is empty starts with a line feed. */
  lemma {:induction false} CutStartsWithPiece(s: string, r: seq<string>, gaps: seq<string>)
    requires CutAtNewlineRuns(s, r, gaps)
    ensures |r| > 1 && r[0] == [] ==> s != [] && s[0] == '\n'
  {
    if |r| > 1 && r[0] == [] {
      assert s == r[0] + gaps[0] + Rejoin(r[1..], gaps[1..]);
      assert s[0] == gaps[0][0];
    }
  }

  /** What follows the first gap of a cut text is cut too, and starts after the whole run. */
  lemma {:induction false} CutTail(s: string, r: seq<string>, gaps: seq<string>)
    requires CutAtNewlineRuns(s, r, gaps) && gaps != []
    ensures '\n' !in r[0] && gaps[0] != [] && forall j :: 0 <= j < |gaps[0]| ==> gaps[0][j] == '\n'
    ensures var tail := Rejoin(r[1..], gaps[1..]);
      && s == r[0] + gaps[0] + tail
      && CutAtNewlineRuns(tail, r[1..], gaps[1..])
      && (tail == [] || tail[0] != '\n')
  {
    var r', gaps' := r[1..], gaps[1..];
    var tail := Rejoin(r', gaps');
    forall i | 0 <= i < |r'| ensures '\n' !in r'[i] { assert r'[i] == r[i + 1]; }
    forall i | 0 < i < |r'| - 1 ensures r'[i] != [] { assert r'[i] == r[i + 1]; }
    forall i | 0 <= i < |gaps'| ensures gaps'[i] == gaps[i + 1] { }
    assert CutAtNewlineRuns(tail, r', gaps');
    if tail != [] && gaps' != [] {
      assert r'[0] != [];
      assert tail == r'[0] + gaps'[0] + Rejoin(r'[1..], gaps'[1..]);
      assert tail[0] == r'[0][0];
    }
  }

  lemma NewlineGapsCons(g: string, gaps: seq<string>)
    requires g != [] && (forall j :: 0 <= j < |g| ==> g[j] == '\n') && NewlineGaps(gaps)
    ensures NewlineGaps([g] + gaps)
  {
    var r := [g] + gaps;
    forall i | 1 <= i < |r| ensures r[i] == gaps[i - 1] { }
  }

  lemma ConsInnerNonEmpty(p: string, r: seq<string>)
    requires InnerNonEmpty(r) && (|r| > 1 ==> r[0] != [])
    ensures InnerNonEmpty([p] + r)
  {
    var t := [p] + r;
    forall i | 0 < i < |t| - 1 ensures t[i] != [] { assert t[i] == r[i - 1]; }
  }

  /**
   * The cut is the only one: any line-feed-free pieces whose gaps are runs of line feeds,
   * with no empty piece in the middle, are exactly what the split returns.
   */
  lemma {:induction false} NewlineRunCutsUnique(s: string, r: seq<string>, gaps: seq<string>)
    requires CutAtNewlineRuns(s, r, gaps)
    ensures SplitAtNewlineRuns(s) == r
    decreases |gaps|
  {
    if gaps == [] {
      assert s == r[0];
      NoNewlineNoIndex(s);
    } else {
      var tail := Rejoin(r[1..], gaps[1..]);
      CutTail(s, r, gaps);
      NewlineRunCutsUnique(tail, r[1..], gaps[1..]);
      SplitAtFirstGap(s, r[0], gaps[0], tail);
      assert r == [r[0]] + r[1..];
    }
  }

  /** A line-feed-free head, then a whole run of line feeds: the split cuts there. */
  lemma {:induction false} SplitAtFirstGap(s: string, head: string, g: string, tail: string)
    requires s == head + g + tail && '\n' !in head
    requires g != [] && forall j :: 0 <= j < |g| ==> g[j] == '\n'
    requires tail == [] || tail[0] != '\n'
    ensures SplitAtNewlineRuns(s) == [head] + SplitAtNewlineRuns(tail)
  {
    assert (g + tail)[0] == g[0];
    FirstNewlineAt(s, head, g + tail);
    RunOfGap(g, tail);
    SplitAfterFirstRun(s, head, g, tail);
  }

  /** One step of the split, when the text is a head, a run of line feeds and the rest. */
  lemma {:induction false} SplitAfterFirstRun(s: string, head: string, g: string, tail: string)
    requires s == head + g + tail && IndexOf(s, "\n") == |head| && NewlineRunLength(g + tail) == |g|
    ensures SplitAtNewlineRuns(s) == [head] + SplitAtNewlineRuns(tail)
  {
    SplitStep(s);
    SliceThree(s, head, g, tail);
  }

  /** One unfolding of the split at its first line feed. */
  lemma SplitStep(s: string)
    requires IndexOf(s, "\n") >= 0
    ensures var i := IndexOf(s, "\n");
      i + NewlineRunLength(s[i..]) <= |s|
      && SplitAtNewlineRuns(s) == [s[..i]] + SplitAtNewlineRuns(s[i + NewlineRunLength(s[i..])..])
  {
    var i := IndexOf(s, "\n");
    var k := NewlineRunLength(s[i..]);
    assert SplitAtNewlineRuns(s) == [s[..i]] + SplitAtNewlineRuns(s[i + k..]);
  }

  /** The slices of a text made of three parts. */
  lemma SliceThree(s: string, a: string, b: string, c: string)
    requires s == a + b + c
    ensures s[..|a|] == a && s[|a|..] == b + c && s[|a| + |b|..] == c
  {
  }

  /** Without a line feed, `IndexOf` finds none. */
  lemma NoNewlineNoIndex(s: string)
    requires '\n' !in s
    ensures IndexOf(s, "\n") < 0
  {
    forall j | 0 <= j < |s| ensures !OccursAt(s, "\n", j) {
      assert s[j..j + 1][0] == s[j];
    }
  }

  /** The first line feed is the one right after a line-feed-free head. */
  lemma {:induction false} FirstNewlineAt(s: string, head: string, more: string)
    requires s == head + more && '\n' !in head && more != [] && more[0] == '\n'
    ensures IndexOf(s, "\n") == |head|
  {
    assert s[|head|..|head| + 1] == [more[0]];
    assert OccursAt(s, "\n", |head|);
    forall j | 0 <= j < |head| ensures !OccursAt(s, "\n", j) {
      assert s[j..j + 1][0] == head[j];
    }
  }

  /** A gap of line feeds followed by something that is not one is the whole run. */
  lemma {:induction false} RunOfGap(g: string, tail: string)
    requires forall j :: 0 <= j < |g| ==> g[j] == '\n'
    requires tail == [] || tail[0] != '\n'
    ensures NewlineRunLength(g + tail) == |g|
    decreases |g|
  {
    if g == [] {
      assert g + tail == tail;
    } else {
      assert (g + tail)[1..] == g[1..] + tail;
      RunOfGap(g[1..], tail);
    }
  }

  /** Cutting at the first run of line feeds removes exactly that run's line feeds. */
  lemma FirstNewlineRun(s: string, i: nat, k: nat)
    requires i <= |s| && '\n' !in s[..i] && k == NewlineRunLength(s[i..])
    ensures i + k <= |s|
    ensures Without(s, '\n') == s[..i] + Without(s[i + k..], '\n')
  {
    var head, r := s[..i], s[i..];
    assert s == head + r;
    WithoutSplit(head, r, s);
    DropNewlineRun(r);
    DropOfDrop(s, i, k);
  }

  /** Dropping `i` characters and then `k` drops `i + k`. */
  lemma DropOfDrop(s: string, i: nat, k: nat)
    requires i + k <= |s|
    ensures s[i..][k..] == s[i + k..]
  {
  }

  /** Removing line feeds from a text whose first part has none leaves that part alone. */
  lemma WithoutSplit(head: string, r: string, s: string)
    requires s == head + r && '\n' !in head
    ensures Without(s, '\n') == head + Without(r, '\n')
  {
    WithoutAppend(head, r, '\n');
    WithoutAbsent(head, '\n');
  }

  /** The line feeds of a leading run are all that removing them drops from it. */
  lemma {:induction false} DropNewlineRun(r: string)
    ensures Without(r, '\n') == Without(r[NewlineRunLength(r)..], '\n')
    decreases |r|
  {
    if r != [] && r[0] == '\n' {
      DropNewlineRun(r[1..]);
      DropOfDrop(r, 1, NewlineRunLength(r[1..]));
    } else {
      assert r[0..] == r;
    }
  }

  /** No line feed before the first occurrence `IndexOf` reports. */
  lemma NoNewlineBefore(s: string, n: nat)
    requires n <= |s| && forall j :: 0 <= j < n ==> !OccursAt(s, "\n", j)
    ensures '\n' !in s[..n]
  {
    forall j | 0 <= j < n ensures s[..n][j] != '\n' {
      assert !OccursAt(s, "\n", j);
      assert s[j..j + 1] == [s[j]];
    }
  }

  /**
   * Cutting `s` around a blank run `s[i..j]` keeps its content: the piece before the run
   * followed by pieces holding the content after it.
   */
  lemma {:induction false} DropBlankRun(s: string, i: nat, j: nat, rest: seq<string>)
    requires i <= j <= |s| && AllWs(s[i..j])
    requires StripWs(Concat(rest)) == StripWs(s[j..])
    ensures StripWs(Concat([s[..i]] + rest)) == StripWs(s)
  {
    var head, run, tail := s[..i], s[i..j], s[j..];
    assert s == head + run + tail;
    StripWsAppend(head + run, tail);
    StripWsAppend(head, run);
    StripWsOfAllWs(run);
    assert StripWs(head + run) == StripWs(head);
    ConsContent(head, rest);
  }

  /** `.map(p => p.trim()).filter(p => p.length > 0)`. */
  function TrimAndDropEmpty(ps: seq<string>): (r: seq<string>)
    ensures AllWellFormed(r)
    ensures StripWs(Concat(r)) == StripWs(Concat(ps))
    ensures |r| <= |ps|
  {
    if ps == [] then []
    else
      var t := Trim(ps[0]);
      var rest := TrimAndDropEmpty(ps[1..]);
      ConsContent(ps[0], ps[1..]);
      ConsContent(t, rest);
      if t == [] then rest else ConsChunk(t, rest); [t] + rest
  }

  lemma {:induction false} ConsContent(s: string, ss: seq<string>)
    ensures StripWs(Concat([s] + ss)) == StripWs(s) + StripWs(Concat(ss))
  {
    ConcatAppend([s], ss);
    ConcatSingle(s);
    StripWsAppend(s, Concat(ss));
  }

  lemma {:induction false} ConsChunk(c: string, cs: seq<string>)
    requires WellFormed(c) && AllWellFormed(cs)
    ensures AllWellFormed([c] + cs)
  {
  }

  /** The trimmed, non-empty paragraphs of the cleaned text. */
  function Paragraphs(s: string): (r: seq<string>)
    ensures AllWellFormed(r)
    ensures StripWs(Concat(r)) == StripWs(s)
  {
    TrimAndDropEmpty(SplitAtNewlineRuns(s))
  }

  /** No piece holds a line feed. */
  predicate LineFree(ps: seq<string>) {
    forall i :: 0 <= i < |ps| ==> '\n' !in ps[i]
  }

  /** No paragraph holds a line feed. */
  lemma ParagraphsHaveNoNewline(s: string)
    ensures LineFree(Paragraphs(s))
  {
    NewlineRunPieces(s);
    TrimmedKeepLineFree(SplitAtNewlineRuns(s));
  }

  /** Trimming and dropping empty pieces cannot introduce a line feed. */
  lemma {:induction false} TrimmedKeepLineFree(ps: seq<string>)
    requires LineFree(ps)
    ensures LineFree(TrimAndDropEmpty(ps))
  {
    if ps != [] {
      assert LineFree(ps[1..]) by {
        forall i | 0 <= i < |ps[1..]| ensures '\n' !in ps[1..][i] { assert ps[1..][i] == ps[i + 1]; }
      }
      TrimmedKeepLineFree(ps[1..]);
      TrimKeepsLineFree(ps[0]);
      TrimAndDropEmptyStep(ps);
      ConsLineFree(Trim(ps[0]), TrimAndDropEmpty(ps[1..]));
    }
  }

  lemma ConsLineFree(p: string, ps: seq<string>)
    requires '\n' !in p && LineFree(ps)
    ensures LineFree([p] + ps)
  {
    var r := [p] + ps;
    forall i | 1 <= i < |r| ensures '\n' !in r[i] { assert r[i] == ps[i - 1]; }
  }

  /** `trim` cannot introduce a line feed. */
  lemma {:induction false} TrimKeepsLineFree(p: string)
    requires '\n' !in p
    ensures '\n' !in Trim(p)
  {
    TrimIsSlice(p);
    SliceKeepsLineFree(p, WsRunLength(p), Trim(p));
  }

  lemma {:induction false} SliceKeepsLineFree(p: string, k: nat, t: string)
    requires '\n' !in p && k + |t| <= |p| && t == p[k..k + |t|]
    ensures '\n' !in t
  {
    forall j | 0 <= j < |t| ensures t[j] != '\n' {
      assert t[j] == p[k + j];
    }
  }

  /** One step of `TrimAndDropEmpty`. */
  lemma TrimAndDropEmptyStep(ps: seq<string>)
    requires ps != []
    ensures var t := Trim(ps[0]);
      TrimAndDropEmpty(ps) == if t == [] then TrimAndDropEmpty(ps[1..]) else [t] + TrimAndDropEmpty(ps[1..])
  {
  }

  /** `isLikelyTitle`: starts with the chapter marker once lower-cased, or is short. */
  predicate IsLikelyTitle(p: string, lower: string -> string) {
    StartsWith(lower(Trim(p)), ChapterMarker) || |Trim(p)| < TitleMaxLength
  }

  /** 1 when the first paragraph is emitted on its own as a title chunk, else 0. */
  function TitleCount(ps: seq<string>, lower: string -> string): (k: nat)
    ensures k <= 1 && k <= |ps|
    ensures k == 1 <==> |ps| > 0 && IsLikelyTitle(ps[0], lower)
  {
    if |ps| > 0 && IsLikelyTitle(ps[0], lower) then 1 else 0
  }

  // ---- sentences (regular-expression path) ----

  /** The sentence-ending characters `. ! ? … 。 ！ ？`. */
  predicate IsTerminator(c: char) {
    c == '.' || c == '!' || c == '?' || c == '\U{2026}' || c == '\U{3002}'
    || c == '\U{FF01}' || c == '\U{FF1F}'
  }

  /** `(?<=[.!?…。！？])\s+` can start matching at position `j` of `s`. */
  predicate BreakAt(s: string, j: int) {
    1 <= j < |s| && IsTerminator(s[j - 1]) && IsWs(s[j])
  }

  /** The first position at or after `from` where `(?<=[.!?…。！？])\s+` matches, or -1. */
  function SentenceBreak(s: string, from: nat): (q: int)
    requires 1 <= from
    ensures q == -1 || (from <= q && BreakAt(s, q))
    ensures forall i :: from <= i && (q == -1 || i < q) ==> !BreakAt(s, i)
    decreases |s| - from
  {
    if from >= |s| then -1
    else if IsTerminator(s[from - 1]) && IsWs(s[from]) then from
    else SentenceBreak(s, from + 1)
  }

  /** `s.split(/(?<=[.!?…。！？])\s+/)`: cut after a terminator, dropping the blank run. */
  function SplitAfterTerminators(s: string): (r: seq<string>)
    ensures StripWs(Concat(r)) == StripWs(s)
    decreases |s|
  {
    var q := SentenceBreak(s, 1);
    if q < 0 then ConcatSingle(s); [s]
    else
      assert BreakAt(s, q);
      var k := WsRunLength(s[q..]);
      var rest := SplitAfterTerminators(s[q + k..]);
      assert s[q..q + k] == s[q..][..k];
      DropBlankRun(s, q, q + k, rest);
      [s[..q]] + rest
  }

  /** No terminator followed by whitespace inside `p`: `p` holds no sentence break. */
  predicate NoBreakInside(p: string) {
    forall j :: 1 <= j < |p| ==> !BreakAt(p, j)
  }

  predicate EndsWithTerminator(p: string) {
    p != [] && IsTerminator(p[|p| - 1])
  }

  /** No piece holds a break, and every piece but the last ends with its terminator. */
  predicate CutAtBreaks(r: seq<string>) {
    && (forall i :: 0 <= i < |r| ==> NoBreakInside(r[i]))
    && (forall i :: 0 <= i < |r| - 1 ==> EndsWithTerminator(r[i]))
  }

  /** Every piece after the first starts after the whole blank run. */
  predicate StartAfterBlanks(r: seq<string>) {
    forall i :: 1 <= i < |r| ==> r[i] == [] || !IsWs(r[i][0])
  }

  /**
   * What the sentence pieces look like: no piece holds a break, every piece but the last
   * ends with its terminator, and every piece after the first starts after a blank run.
   * The first piece starts where the text does, and a text without a break stays whole.
   * That the blank runs between the pieces are the ones dropped is `SentenceCuts`.
   */
  lemma {:induction false} SentencePieces(s: string)
    ensures var r := SplitAfterTerminators(s);
      && |r| >= 1
      && (|r| == 1 || s == [] ==> r == [s])
      && (s != [] ==> r[0] != [] && r[0][0] == s[0])
      && CutAtBreaks(r) && StartAfterBlanks(r)
    decreases |s|
  {
    var q := SentenceBreak(s, 1);
    if q < 0 {
      assert NoBreakInside(s);
    } else {
      assert BreakAt(s, q);
      var k := WsRunLength(s[q..]);
      var tail := s[q + k..];
      SentencePieces(tail);
      var rest := SplitAfterTerminators(tail);
      assert SplitAfterTerminators(s) == [s[..q]] + rest;
      BreakHead(s, q);
      BreakTail(s, q, k);
      ConsPieces(s[..q], rest);
    }
  }

  /** The piece before the first break holds none and ends with the terminator. */
  lemma BreakHead(s: string, q: int)
    requires q == SentenceBreak(s, 1) && q >= 0
    ensures 1 <= q < |s| && NoBreakInside(s[..q]) && EndsWithTerminator(s[..q])
  {
    var head := s[..q];
    forall j | 1 <= j < |head| ensures !BreakAt(head, j) {
      assert head[j - 1] == s[j - 1] && head[j] == s[j];
      assert !BreakAt(s, j);
    }
  }

  /** What follows the blank run after a break starts with a non-blank character. */
  lemma BreakTail(s: string, q: nat, k: nat)
    requires q < |s| && k == WsRunLength(s[q..])
    ensures q + k <= |s| && (s[q + k..] == [] || !IsWs(s[q + k..][0]))
  {
    if q + k < |s| {
      assert s[q..][k] == s[q + k..][0];
    }
  }

  /** A cut piece in front of the pieces of the rest. */
  lemma ConsPieces(head: string, rest: seq<string>)
    requires NoBreakInside(head) && EndsWithTerminator(head)
    requires |rest| >= 1 && CutAtBreaks(rest) && StartAfterBlanks(rest)
    requires rest[0] == [] || !IsWs(rest[0][0])
    ensures CutAtBreaks([head] + rest) && StartAfterBlanks([head] + rest)
  {
    var r := [head] + rest;
    forall i | 1 <= i < |r|
      ensures NoBreakInside(r[i]) && (i < |r| - 1 ==> EndsWithTerminator(r[i]))
      ensures r[i] == [] || !IsWs(r[i][0])
    {
      assert r[i] == rest[i - 1];
    }
  }

  /** Every gap is a non-empty run of whitespace. */
  predicate BlankGaps(gaps: seq<string>) {
    forall i :: 0 <= i < |gaps| ==> gaps[i] != [] && AllWs(gaps[i])
  }

  /**
   * `s` is the pieces `r` with the gaps put back, no piece holding a break, every piece but
   * the last ending with its terminator, every gap a run of whitespace and every piece after
   * a gap starting after it: each gap is then the whole blank run after a sentence break.
   */
  predicate CutAtSentenceBreaks(s: string, r: seq<string>, gaps: seq<string>) {
    |r| == |gaps| + 1 && CutAtBreaks(r) && StartAfterBlanks(r) && BlankGaps(gaps) && s == Rejoin(r, gaps)
  }

  /** The split cuts `s` at its sentence breaks, dropping the whole blank run after each. */
  lemma {:induction false} SentenceCuts(s: string)
    ensures exists gaps :: CutAtSentenceBreaks(s, SplitAfterTerminators(s), gaps)
    decreases |s|
  {
    SentencePieces(s);
    var q := SentenceBreak(s, 1);
    if q < 0 {
      assert CutAtSentenceBreaks(s, [s], []);
    } else {
      var k := WsRunLength(s[q..]);
      var tail := s[q + k..];
      SentenceCuts(tail);
      var rest := SplitAfterTerminators(tail);
      var gs :| CutAtSentenceBreaks(tail, rest, gs);
      assert SplitAfterTerminators(s) == [s[..q]] + rest;
      var g := BlankRunAt(s, q, k);
      ConsSentenceGaps(s, s[..q], g, tail, rest, gs);
      assert CutAtSentenceBreaks(s, [s[..q]] + rest, [g] + gs);
    }
  }

  /** The blank run at a sentence break. */
  lemma {:induction false} BlankRunAt(s: string, q: nat, k: nat) returns (g: string)
    requires BreakAt(s, q) && k == WsRunLength(s[q..])
    ensures q + k <= |s| && g == s[q..q + k] && s == s[..q] + g + s[q + k..]
    ensures g != [] && AllWs(g)
  {
    assert s[q..][0] == s[q];
    g := s[q..q + k];
    assert g == s[q..][..k];
  }

  /** A piece and a blank run in front of a cut text. */
  lemma {:induction false} ConsSentenceGaps(s: string, head: string, g: string, tail: string, rest: seq<string>, gs: seq<string>)
    requires s == head + g + tail && g != [] && AllWs(g)
    requires CutAtSentenceBreaks(tail, rest, gs)
    ensures s == Rejoin([head] + rest, [g] + gs) && BlankGaps([g] + gs)
  {
    RejoinCons(head, g, rest, gs);
    var gaps := [g] + gs;
    forall i | 1 <= i < |gaps| ensures gaps[i] == gs[i - 1] { }
  }

  /**
   * The cut is the only one: any pieces free of breaks, each but the last ending with its
   * terminator, with whole blank runs between them, are exactly what the split returns.
   */
  lemma {:induction false} SentenceCutsUnique(s: string, r: seq<string>, gaps: seq<string>)
    requires CutAtSentenceBreaks(s, r, gaps)
    ensures SplitAfterTerminators(s) == r
    decreases |gaps|
  {
    if gaps == [] {
      assert s == r[0];
      NoBreakNoCut(s);
    } else {
      var tail := Rejoin(r[1..], gaps[1..]);
      SentenceCutTail(s, r, gaps);
      SentenceCutsUnique(tail, r[1..], gaps[1..]);
      SplitAtFirstBreak(s, r[0], gaps[0], tail);
      assert r == [r[0]] + r[1..];
    }
  }

  /** A text without a break is not cut. */
  lemma {:induction false} NoBreakNoCut(s: string)
    requires NoBreakInside(s)
    ensures SentenceBreak(s, 1) < 0
  {
  }

  /** What follows the first gap of a cut text is cut too, and starts after the whole run. */
  lemma {:induction false} SentenceCutTail(s: string, r: seq<string>, gaps: seq<string>)
    requires CutAtSentenceBreaks(s, r, gaps) && gaps != []
    ensures NoBreakInside(r[0]) && EndsWithTerminator(r[0]) && gaps[0] != [] && AllWs(gaps[0])
    ensures var tail := Rejoin(r[1..], gaps[1..]);
      && s == r[0] + gaps[0] + tail
      && CutAtSentenceBreaks(tail, r[1..], gaps[1..])
      && (tail == [] || !IsWs(tail[0]))
  {
    var r', gaps' := r[1..], gaps[1..];
    var tail := Rejoin(r', gaps');
    forall i | 0 <= i < |r'| ensures r'[i] == r[i + 1] { }
    forall i | 0 <= i < |gaps'| ensures gaps'[i] == gaps[i + 1] { }
    assert CutAtBreaks(r') && StartAfterBlanks(r') && BlankGaps(gaps');
    if gaps' != [] {
      assert EndsWithTerminator(r'[0]);
      assert tail == r'[0] + gaps'[0] + Rejoin(r'[1..], gaps'[1..]);
      assert tail[0] == r'[0][0];
    }
  }

  /** A piece ending at a break, then its whole blank run: the split cuts there. */
  lemma {:induction false} SplitAtFirstBreak(s: string, head: string, g: string, tail: string)
    requires s == head + g + tail && NoBreakInside(head) && EndsWithTerminator(head)
    requires g != [] && AllWs(g) && (tail == [] || !IsWs(tail[0]))
    ensures SplitAfterTerminators(s) == [head] + SplitAfterTerminators(tail)
  {
    FirstBreakAt(s, head, g + tail);
    WsRunLengthAppend(g, tail);
    SentenceSplitStep(s, |head|, |g|);
    SliceThree(s, head, g, tail);
  }

  /** The first break is the one right after a piece that holds none and ends with a terminator. */
  lemma {:induction false} FirstBreakAt(s: string, head: string, more: string)
    requires s == head + more && NoBreakInside(head) && EndsWithTerminator(head)
    requires more != [] && IsWs(more[0])
    ensures SentenceBreak(s, 1) == |head|
  {
    assert s[|head| - 1] == head[|head| - 1] && s[|head|] == more[0];
    assert BreakAt(s, |head|);
    forall j | 1 <= j < |head| ensures !BreakAt(s, j) {
      assert s[j - 1] == head[j - 1] && s[j] == head[j];
      assert !BreakAt(head, j);
    }
  }

  /** One unfolding of the sentence split at its first break `q`, whose blank run is `k` long. */
  lemma {:induction false} SentenceSplitStep(s: string, q: int, k: nat)
    requires q == SentenceBreak(s, 1) && q >= 0 && k == WsRunLength(s[q..])
    ensures q + k <= |s| && SplitAfterTerminators(s) == [s[..q]] + SplitAfterTerminators(s[q + k..])
  {
    assert BreakAt(s, q);
    var tail := s[q + k..];
    var rest := SplitAfterTerminators(tail);
    assert SplitAfterTerminators(s) == [s[..q]] + rest;
  }

  /**
   * `splitToSentences` without a segmenter: the trimmed non-empty pieces, or the trimmed
   * paragraph when there are none.
   */
  function Sentences(p: string): (r: seq<string>)
    ensures AllWellFormed(r)
    ensures StripWs(Concat(r)) == StripWs(p)
  {
    var parts := TrimAndDropEmpty(SplitAfterTerminators(p));
    if |parts| > 0 then parts
    else
      EmptyContentIsAllWs(p);
      if Trim(p) != [] then [Trim(p)] else []
  }

  /**
   * Every sentence holds no break, and every sentence but the last ends with its
   * terminator. The pieces they are trimmed from are cut as `SentenceCuts` states.
   */
  lemma {:induction false} SentencesEndAtTerminators(p: string)
    ensures CutAtBreaks(Sentences(p))
  {
    var pieces := SplitAfterTerminators(p);
    var parts := TrimAndDropEmpty(pieces);
    SentencesUnfold(p);
    SentencePieces(p);
    TrimmedKeepBreaks(pieces);
    if parts == [] {
      OnlyLastMayVanish(pieces);
      TrimKeepsNoBreak(p);
    }
  }

  /** The two ways `Sentences` can end. */
  lemma {:induction false} SentencesUnfold(p: string)
    ensures var parts := TrimAndDropEmpty(SplitAfterTerminators(p));
      Sentences(p) == if parts != [] then parts else if Trim(p) != [] then [Trim(p)] else []
  {
  }

  /** Trimming and dropping empties leaves nothing only when there is at most one piece. */
  lemma OnlyLastMayVanish(ps: seq<string>)
    ensures TrimAndDropEmpty(ps) == [] && CutAtBreaks(ps) ==> |ps| <= 1
  {
    if |ps| >= 2 && CutAtBreaks(ps) {
      TrimKeepsTerminator(ps[0]);
      TrimAndDropEmptyStep(ps);
    }
  }

  /** Trimming keeps a string free of breaks. */
  lemma {:induction false} TrimKeepsNoBreak(s: string)
    requires NoBreakInside(s)
    ensures NoBreakInside(Trim(s))
  {
    TrimIsSlice(s);
    SliceKeepsNoBreak(s, WsRunLength(s), Trim(s));
  }

  /** A slice of a string without breaks has none. */
  lemma {:induction false} SliceKeepsNoBreak(s: string, k: nat, t: string)
    requires NoBreakInside(s) && k + |t| <= |s| && t == s[k..k + |t|]
    ensures NoBreakInside(t)
  {
    forall j | 1 <= j < |t| ensures !BreakAt(t, j) {
      assert t[j - 1] == s[k + j - 1] && t[j] == s[k + j];
      assert !BreakAt(s, k + j);
    }
  }

  /** Trimming and dropping empty pieces keeps where the pieces end. */
  lemma {:induction false} TrimmedKeepBreaks(ps: seq<string>)
    requires CutAtBreaks(ps)
    ensures CutAtBreaks(TrimAndDropEmpty(ps))
  {
    if ps != [] {
      var t := Trim(ps[0]);
      TailCut(ps);
      TrimmedKeepBreaks(ps[1..]);
      TrimKeepsNoBreak(ps[0]);
      TrimAndDropEmptyStep(ps);
      var rest := TrimAndDropEmpty(ps[1..]);
      if |ps| >= 2 {
        TrimKeepsTerminator(ps[0]);
      } else {
        assert rest == [];
      }
      if t != [] {
        ConsBreaks(t, rest);
      }
    }
  }

  /** A piece that ends with a terminator keeps it under `trim`. */
  lemma TrimKeepsTerminator(p: string)
    requires EndsWithTerminator(p)
    ensures Trim(p) != [] && EndsWithTerminator(Trim(p))
  {
    TerminatorNotBlank(p[|p| - 1]);
    TrimKeepsLast(p);
  }

  lemma TerminatorNotBlank(c: char)
    requires IsTerminator(c)
    ensures !IsWs(c)
  {
  }

  lemma TailCut(ps: seq<string>)
    requires ps != [] && CutAtBreaks(ps)
    ensures CutAtBreaks(ps[1..])
  {
    var tl := ps[1..];
    forall i | 0 <= i < |tl| ensures NoBreakInside(tl[i]) && (i < |tl| - 1 ==> EndsWithTerminator(tl[i])) {
      assert tl[i] == ps[i + 1];
    }
  }

  lemma ConsBreaks(t: string, rest: seq<string>)
    requires NoBreakInside(t) && (rest != [] ==> EndsWithTerminator(t)) && CutAtBreaks(rest)
    ensures CutAtBreaks([t] + rest)
  {
    var r := [t] + rest;
    forall i | 1 <= i < |r| ensures NoBreakInside(r[i]) && (i < |r| - 1 ==> EndsWithTerminator(r[i])) {
      assert r[i] == rest[i - 1];
    }
  }

  /**
   * `sentenceRaw.replace(/\s+/g, ' ').trim()`: the words of the sentence joined by single
   * spaces.
   */
  function NormalizeSentence(raw: string): (r: string)
    ensures IsTrimmed(r)
    ensures StripWs(r) == StripWs(raw)
    ensures r == JoinWords(Words(raw))
  {
    CollapseWsKeepsContent(raw);
    CollapseTrimJoinsWords(raw);
    Trim(CollapseWs(raw))
  }

  // ---- packing ----

  /** A chunk is non-empty and has no surrounding whitespace. */
  predicate WellFormed(c: string) {
    c != [] && IsTrimmed(c)
  }

  predicate AllWellFormed(cs: seq<string>) {
    forall i :: 0 <= i < |cs| ==> WellFormed(cs[i])
  }

  predicate AllWithin(cs: seq<string>, limit: nat) {
    forall i :: 0 <= i < |cs| ==> |cs[i]| <= limit
  }

  /** All the chunks of a sequence of groups, in order. */
  function Flatten(gs: seq<seq<string>>): seq<string> {
    if gs == [] then [] else gs[0] + Flatten(gs[1..])
  }

  lemma {:induction false} FlattenSnoc(gs: seq<seq<string>>, g: seq<string>)
    ensures Flatten(gs + [g]) == Flatten(gs) + g
  {
    if gs != [] {
      assert (gs + [g])[0] == gs[0] && (gs + [g])[1..] == gs[1..] + [g];
      FlattenSnoc(gs[1..], g);
    } else {
      assert gs + [g] == [g];
    }
  }

  /**
   * Where `hardSplit` cuts a string longer than the limit: at the last space among the
   * characters `[limit - 120, limit]`, or at the limit when there is none. A cut never
   * falls at position 0 of a trimmed string.
   */
  function CutPoint(remaining: string, limit: nat): (cut: nat)
    requires 1 <= limit < |remaining| && IsTrimmed(remaining)
    ensures 1 <= cut <= limit
    ensures var windowStart := if limit >= SplitWindow then limit - SplitWindow else 0;
      || (cut == limit && ' ' !in remaining[windowStart..limit + 1])
      || (windowStart <= cut && remaining[cut] == ' ' && ' ' !in remaining[cut + 1..limit + 1])
  {
    var windowStart := if limit >= SplitWindow then limit - SplitWindow else 0;
    var slice := remaining[windowStart..limit + 1];
    var lastSpace := LastIndexOf(slice, ' ');
    assert windowStart == 0 ==> slice[0] == remaining[0];
    assert lastSpace > -1 ==> slice[lastSpace + 1..] == remaining[windowStart + lastSpace + 1..limit + 1];
    if lastSpace > -1 then windowStart + lastSpace else limit
  }

  /** One cut of `hardSplit`: a well-formed piece no longer than the cut, and the rest. */
  lemma {:induction false} CutStep(remaining: string, cut: nat)
    requires 1 <= cut < |remaining| && IsTrimmed(remaining)
    ensures WellFormed(Trim(remaining[..cut])) && |Trim(remaining[..cut])| <= cut
    ensures StripWs(Trim(remaining[..cut])) + StripWs(Trim(remaining[cut..])) == StripWs(remaining)
  {
    var head, tail := remaining[..cut], remaining[cut..];
    assert remaining == head + tail;
    StripWsAppend(head, tail);
    TrimFacts(head);
    assert !AllWs(head) by { assert head[0] == remaining[0]; }
  }

  /** Appending one well-formed chunk keeps the chunk list well-formed and within the limit. */
  lemma {:induction false} SnocChunk(out: seq<string>, c: string, limit: nat)
    requires AllWellFormed(out) && WellFormed(c)
    ensures AllWellFormed(out + [c])
    ensures AllWithin(out, limit) && |c| <= limit ==> AllWithin(out + [c], limit)
  {
  }

  lemma {:induction false} SnocWellFormed(out: seq<string>, c: string)
    requires WellFormed(c)
    ensures AllWellFormed(out) ==> AllWellFormed(out + [c])
  {
  }

  /**
   * Moving `piece` from the unprocessed text to the output keeps the content when the
   * piece and the new unprocessed text together hold the content of the old one.
   */
  lemma {:induction false} ContentStep(out: seq<string>, todo: string, piece: string, todo': string, whole: string)
    requires StripWs(Concat(out)) + StripWs(todo) == whole
    requires StripWs(piece) + StripWs(todo') == StripWs(todo)
    ensures StripWs(Concat(out + [piece])) + StripWs(todo') == whole
  {
    SnocContent(out, piece);
    Regroup(StripWs(Concat(out)), StripWs(piece), StripWs(todo'));
  }

  /** The content of the output after one more chunk. */
  lemma {:induction false} SnocContent(out: seq<string>, c: string)
    ensures StripWs(Concat(out + [c])) == StripWs(Concat(out)) + StripWs(c)
  {
    ConcatSnoc(out, c);
    StripWsAppend(Concat(out), c);
  }

  lemma {:induction false} Regroup(a: string, b: string, c: string)
    ensures (a + b) + c == a + (b + c)
  {
  }

  lemma {:induction false} AppendChunks(out: seq<string>, more: seq<string>, limit: nat)
    requires AllWellFormed(out) && AllWellFormed(more)
    ensures AllWellFormed(out + more)
    ensures AllWithin(out, limit) && AllWithin(more, limit) ==> AllWithin(out + more, limit)
    ensures StripWs(Concat(out + more)) == StripWs(Concat(out)) + StripWs(Concat(more))
  {
    ConcatAppend(out, more);
    StripWsAppend(Concat(out), Concat(more));
  }

  /** The loop invariant of `hardSplit`: the pieces cut so far and the rest hold `whole`. */
  predicate Splitting(pieces: seq<string>, remaining: string, limit: nat, whole: string) {
    && IsTrimmed(remaining)
    && AllWellFormed(pieces) && AllWithin(pieces, limit)
    && StripWs(Concat(pieces)) + StripWs(remaining) == whole
  }

  /** One cut of `hardSplit` keeps its loop invariant and shortens the remaining text. */
  lemma {:induction false} CutAdvance(pieces: seq<string>, remaining: string, limit: nat, whole: string)
    requires 1 <= limit < |remaining| && Splitting(pieces, remaining, limit, whole)
    ensures var cut := CutPoint(remaining, limit);
      var rest := Trim(remaining[cut..]);
      |rest| < |remaining| && Splitting(pieces + [Trim(remaining[..cut])], rest, limit, whole)
  {
    var cut := CutPoint(remaining, limit);
    CutStep(remaining, cut);
    var piece, rest := Trim(remaining[..cut]), Trim(remaining[cut..]);
    ContentStep(pieces, remaining, piece, rest, whole);
    SnocChunk(pieces, piece, limit);
  }

  /** What is left once it fits becomes the last piece, unless it is empty. */
  lemma {:induction false} LastPiece(pieces: seq<string>, remaining: string, limit: nat, whole: string)
    requires |remaining| <= limit && Splitting(pieces, remaining, limit, whole)
    ensures var r := if remaining != [] then pieces + [remaining] else pieces;
      AllWellFormed(r) && AllWithin(r, limit) && StripWs(Concat(r)) == whole
  {
    if remaining != [] {
      ContentStep(pieces, remaining, remaining, [], whole);
      SnocChunk(pieces, remaining, limit);
    }
  }

  /**
   * `hardSplit`: cuts a sentence longer than the limit into trimmed, non-empty pieces of
   * at most `limit` characters (see `CutPoint`) that keep all its content in order.
   * Every cut takes at least one character, so the loop ends.
   */
  method HardSplit(s: string, limit: nat) returns (pieces: seq<string>)
    requires limit >= 1
    ensures AllWellFormed(pieces) && AllWithin(pieces, limit)
    ensures StripWs(Concat(pieces)) == StripWs(s)
  {
    pieces := [];
    var remaining := Trim(s);
    while |remaining| > limit
      invariant Splitting(pieces, remaining, limit, StripWs(s))
      decreases |remaining|
    {
      var cutAt := CutPoint(remaining, limit);
      CutAdvance(pieces, remaining, limit, StripWs(s));
      pieces, remaining := pieces + [Trim(remaining[..cutAt])], Trim(remaining[cutAt..]);
    }
    LastPiece(pieces, remaining, limit, StripWs(s));
    if remaining != [] {
      pieces := pieces + [remaining];
    }
  }

  /** `flush`: emits the trimmed buffer when it is not blank. */
  function Flush(out: seq<string>, buf: string): (r: seq<string>)
    ensures StripWs(Concat(r)) == StripWs(Concat(out)) + StripWs(buf)
    ensures r == out || r == out + [Trim(buf)]
    ensures AllWellFormed(out) ==> AllWellFormed(r)
  {
    var t := Trim(buf);
    if t != [] then
      SnocContent(out, t);
      SnocWellFormed(out, t);
      out + [t]
    else
      assert StripWs(buf) == StripWs(t) == [];
      out
  }

  lemma {:induction false} ContentSnoc(ss: seq<string>, i: nat)
    requires i < |ss|
    ensures StripWs(Concat(ss[..i + 1])) == StripWs(Concat(ss[..i])) + StripWs(ss[i])
  {
    assert ss[..i + 1] == ss[..i] + [ss[i]];
    ConcatSnoc(ss[..i], ss[i]);
    StripWsAppend(Concat(ss[..i]), ss[i]);
  }

  /** The buffer between sentences: empty, or a well-formed chunk within the limit. */
  predicate BufferOk(buf: string, limit: nat) {
    buf == [] || (WellFormed(buf) && |buf| <= limit)
  }

  /**
   * One pass of the sentence loop of `splitForTts`. An empty sentence is skipped. With an
   * empty buffer a sentence within the limit becomes the buffer and a longer one goes
   * through `HardSplit`. Otherwise the sentence joins the buffer after one space while the
   * result stays within the limit, and the buffer is flushed early once it reaches the
   * soft target; when it does not fit, the buffer is flushed first and the sentence is
   * handled as with an empty buffer. Chunks already emitted are never changed, and the
   * content of the output and the buffer grows by exactly the sentence's content.
   */
  method PackSentence(out: seq<string>, buf: string, sentence: string, limit: nat, soft: nat)
    returns (out': seq<string>, buf': string)
    requires limit >= 1 && IsTrimmed(sentence)
    requires BufferOk(buf, limit) && AllWellFormed(out) && AllWithin(out, limit)
    ensures BufferOk(buf', limit) && AllWellFormed(out') && AllWithin(out', limit)
    ensures |out| <= |out'| && out'[..|out|] == out
    ensures StripWs(Concat(out')) + StripWs(buf')
         == StripWs(Concat(out)) + StripWs(buf) + StripWs(sentence)
  {
    if sentence == [] {
      assert StripWs(Concat(out)) + StripWs(buf) + StripWs(sentence)
          == StripWs(Concat(out)) + StripWs(buf);
      return out, buf;
    }
    if buf == [] {
      out', buf' := Start(out, sentence, limit);
      assert StripWs(Concat(out)) + StripWs(buf) == StripWs(Concat(out));
    } else {
      out', buf' := Extend(out, buf, sentence, limit, soft);
    }
  }

  /**
   * A non-empty sentence arriving at a non-empty buffer: it joins the buffer after one
   * space when the result fits, the joined buffer being flushed once it reaches the soft
   * target; otherwise the buffer is flushed and the sentence starts afresh.
   */
  method Extend(out: seq<string>, buf: string, sentence: string, limit: nat, soft: nat)
    returns (out': seq<string>, buf': string)
    requires limit >= 1 && WellFormed(sentence) && WellFormed(buf) && |buf| <= limit
    requires AllWellFormed(out) && AllWithin(out, limit)
    ensures BufferOk(buf', limit) && AllWellFormed(out') && AllWithin(out', limit)
    ensures |out| <= |out'| && out'[..|out|] == out
    ensures |buf + " " + sentence| <= limit && |buf + " " + sentence| < soft ==>
              out' == out && buf' == buf + " " + sentence
    ensures |buf + " " + sentence| <= limit && |buf + " " + sentence| >= soft ==>
              out' == out + [buf + " " + sentence] && buf' == []
    ensures |buf + " " + sentence| > limit ==>
              |out| + 1 <= |out'| && out'[..|out| + 1] == out + [buf]
    ensures |buf + " " + sentence| > limit && |sentence| <= limit ==>
              out' == out + [buf] && buf' == sentence
    ensures |buf + " " + sentence| > limit && |sentence| > limit ==> buf' == []
    ensures StripWs(Concat(out')) + StripWs(buf')
         == StripWs(Concat(out)) + StripWs(buf) + StripWs(sentence)
  {
    if |buf + " " + sentence| <= limit {
      out', buf' := Join(out, buf, sentence, limit, soft);
    } else {
      out', buf' := Restart(out, buf, sentence, limit);
    }
  }

  /** The sentence fits after the buffer: it joins it, and the result is flushed at the soft target. */
  method Join(out: seq<string>, buf: string, sentence: string, limit: nat, soft: nat)
    returns (out': seq<string>, buf': string)
    requires WellFormed(sentence) && WellFormed(buf) && |buf + " " + sentence| <= limit
    requires AllWellFormed(out) && AllWithin(out, limit)
    ensures BufferOk(buf', limit) && AllWellFormed(out') && AllWithin(out', limit)
    ensures |buf + " " + sentence| < soft ==> out' == out && buf' == buf + " " + sentence
    ensures |buf + " " + sentence| >= soft ==> out' == out + [buf + " " + sentence] && buf' == []
    ensures StripWs(Concat(out')) + StripWs(buf')
         == StripWs(Concat(out)) + StripWs(buf) + StripWs(sentence)
  {
    var next := buf + " " + sentence;
    JoinFacts(buf, sentence);
    Regroup(StripWs(Concat(out)), StripWs(buf), StripWs(sentence));
    if |next| >= soft {
      FlushChunk(out, next, limit);
      out' := Flush(out, next);
      buf' := "";
    } else {
      out', buf' := out, next;
    }
  }

  /** Flushing a well-formed buffer within the limit emits it as it is. */
  lemma {:induction false} FlushChunk(out: seq<string>, buf: string, limit: nat)
    requires WellFormed(buf) && |buf| <= limit && AllWellFormed(out) && AllWithin(out, limit)
    ensures Flush(out, buf) == out + [buf]
    ensures AllWellFormed(out + [buf]) && AllWithin(out + [buf], limit)
    ensures StripWs(Concat(out + [buf])) + StripWs("") == StripWs(Concat(out)) + StripWs(buf)
  {
    assert StripWs("") == [];
    TrimFacts(buf);
    SnocContent(out, buf);
    SnocChunk(out, buf, limit);
  }

  /** The joined buffer is a well-formed chunk holding the content of both parts. */
  lemma {:induction false} JoinFacts(buf: string, sentence: string)
    requires WellFormed(buf) && WellFormed(sentence)
    ensures WellFormed(buf + " " + sentence)
    ensures StripWs(buf + " " + sentence) == StripWs(buf) + StripWs(sentence)
  {
    JoinContent(buf, sentence);
    JoinEnds(buf, sentence);
  }

  lemma {:induction false} JoinEnds(a: string, b: string)
    requires a != [] && b != []
    ensures var j := a + " " + b; j[0] == a[0] && j[|j| - 1] == b[|b| - 1]
  {
    var j := a + " " + b;
    assert j == a + (" " + b);
  }

  /** The sentence does not fit after the buffer: the buffer is flushed and the sentence starts afresh. */
  method Restart(out: seq<string>, buf: string, sentence: string, limit: nat)
    returns (out': seq<string>, buf': string)
    requires limit >= 1 && WellFormed(sentence) && WellFormed(buf) && |buf| <= limit
    requires AllWellFormed(out) && AllWithin(out, limit)
    ensures BufferOk(buf', limit) && AllWellFormed(out') && AllWithin(out', limit)
    ensures |out| + 1 <= |out'| && out'[..|out| + 1] == out + [buf]
    ensures |out| <= |out'| && out'[..|out|] == out
    ensures |sentence| <= limit ==> out' == out + [buf] && buf' == sentence
    ensures |sentence| > limit ==> buf' == []
    ensures StripWs(Concat(out')) + StripWs(buf')
         == StripWs(Concat(out)) + StripWs(buf) + StripWs(sentence)
  {
    ghost var c, b, t := StripWs(Concat(out)), StripWs(buf), StripWs(sentence);
    FlushChunk(out, buf, limit);
    var flushed := Flush(out, buf);
    FlushWithin(out, buf, limit);
    assert flushed[..|out|] == out;
    out', buf' := Start(flushed, sentence, limit);
    assert out'[..|out|] == flushed[..|out|];
    assert out'[..|out| + 1] == flushed[..|out| + 1];
    assert StripWs(Concat(out')) + StripWs(buf') == (c + b) + t;
  }

  /** Joining with one space adds no content. */
  lemma {:induction false} JoinContent(a: string, b: string)
    ensures StripWs(a + " " + b) == StripWs(a) + StripWs(b)
  {
    StripWsAppend(a + " ", b);
    StripWsAppend(a, " ");
    assert StripWs(" ") == [] by { assert " "[1..] == []; }
  }

  lemma {:induction false} FlushWithin(out: seq<string>, buf: string, limit: nat)
    requires AllWithin(out, limit) && |buf| <= limit
    ensures AllWithin(Flush(out, buf), limit)
  {
  }

  /**
   * A non-empty sentence arriving at an empty buffer: it becomes the buffer when it fits,
   * and is force-split straight into the output otherwise.
   */
  method Start(out: seq<string>, sentence: string, limit: nat) returns (out': seq<string>, buf': string)
    requires limit >= 1 && WellFormed(sentence)
    requires AllWellFormed(out) && AllWithin(out, limit)
    ensures BufferOk(buf', limit) && AllWellFormed(out') && AllWithin(out', limit)
    ensures |sentence| <= limit ==> out' == out && buf' == sentence
    ensures |sentence| > limit ==> buf' == [] && |out| <= |out'| && out'[..|out|] == out
    ensures StripWs(Concat(out')) + StripWs(buf') == StripWs(Concat(out)) + StripWs(sentence)
  {
    if |sentence| <= limit {
      return out, sentence;
    }
    var pieces := HardSplit(sentence, limit);
    AppendChunks(out, pieces, limit);
    out', buf' := out + pieces, "";
    assert out'[..|out|] == out;
  }

  /**
   * The sentence loop of `splitForTts` for one paragraph, ending in the paragraph-boundary
   * flush. The buffer is empty when a paragraph starts (the previous one ended with a
   * flush), so each paragraph packs independently.
   */
  method PackParagraph(sentences: seq<string>, limit: nat, soft: nat) returns (out: seq<string>)
    requires limit >= 1
    ensures AllWellFormed(out) && AllWithin(out, limit)
    ensures StripWs(Concat(out)) == StripWs(Concat(sentences))
  {
    out := [];
    var buf := "";
    for si := 0 to |sentences|
      invariant BufferOk(buf, limit) && AllWellFormed(out) && AllWithin(out, limit)
      invariant StripWs(Concat(out)) + StripWs(buf) == StripWs(Concat(sentences[..si]))
    {
      ContentSnoc(sentences, si);
      var sentence := NormalizeSentence(sentences[si]);
      out, buf := PackSentence(out, buf, sentence, limit, soft);
    }
    assert sentences[..|sentences|] == sentences;
    out := Flush(out, buf);
  }

  /**
   * What the paragraph loop of `splitForTts` keeps after the paragraphs before `pi`: the
   * chunks after the title are the groups of those paragraphs in order, every group is
   * within the limit and holds exactly its paragraph's content.
   */
  ghost predicate Packed(chunks: seq<string>, groups: seq<seq<string>>, ps: seq<string>,
                         k: nat, pi: nat, limit: nat)
  {
    && k <= pi <= |ps| && k <= |chunks|
    && AllWellFormed(chunks)
    && AllWithin(chunks[k..], limit)
    && chunks[k..] == Flatten(groups)
    && |groups| == pi - k
    && GroupsKeep(groups, ps, k)
    && StripWs(Concat(chunks)) == StripWs(Concat(ps[..pi]))
  }

  /** Group `g` holds exactly the content of paragraph `k + g`. */
  predicate GroupKeeps(groups: seq<seq<string>>, ps: seq<string>, k: nat, g: nat)
    requires g < |groups| && k + g < |ps|
  {
    StripWs(Concat(groups[g])) == StripWs(ps[k + g])
  }

  /** Before the loop: only the title chunk, if any, and no groups. */
  lemma {:induction false} PackedStart(ps: seq<string>, k: nat, limit: nat)
    requires AllWellFormed(ps) && k <= 1 && k <= |ps|
    ensures Packed(ps[..k], [], ps, k, k, limit)
  {
    if k == 1 {
      assert ps[..1] == [ps[0]];
      ConcatSingle(ps[0]);
    }
  }

  predicate GroupsKeep(groups: seq<seq<string>>, ps: seq<string>, k: nat) {
    k + |groups| <= |ps| && forall g :: 0 <= g < |groups| ==> GroupKeeps(groups, ps, k, g)
  }

  lemma {:induction false} GroupsKeepSnoc(groups: seq<seq<string>>, ps: seq<string>, k: nat, emitted: seq<string>)
    requires GroupsKeep(groups, ps, k) && k + |groups| < |ps|
    requires StripWs(Concat(emitted)) == StripWs(ps[k + |groups|])
    ensures GroupsKeep(groups + [emitted], ps, k)
  {
    var gs := groups + [emitted];
    forall g | 0 <= g < |gs|
      ensures GroupKeeps(gs, ps, k, g)
    {
      if g < |groups| {
        assert GroupKeeps(groups, ps, k, g);
        assert gs[g] == groups[g];
      }
    }
  }

  lemma {:induction false} SuffixSnoc(chunks: seq<string>, k: nat, emitted: seq<string>, limit: nat,
                   groups: seq<seq<string>>)
    requires k <= |chunks| && AllWithin(chunks[k..], limit) && AllWithin(emitted, limit)
    requires chunks[k..] == Flatten(groups)
    ensures AllWithin((chunks + emitted)[k..], limit)
    ensures (chunks + emitted)[k..] == Flatten(groups + [emitted])
    ensures (chunks + emitted)[..|chunks|] == chunks
  {
    FlattenSnoc(groups, emitted);
    assert (chunks + emitted)[k..] == chunks[k..] + emitted;
    assert (chunks + emitted)[..|chunks|] == chunks;
  }

  lemma {:induction false} PackedStep(chunks: seq<string>, groups: seq<seq<string>>, ps: seq<string>,
                   k: nat, pi: nat, limit: nat, emitted: seq<string>)
    requires Packed(chunks, groups, ps, k, pi, limit) && pi < |ps|
    requires AllWellFormed(emitted) && AllWithin(emitted, limit)
    requires StripWs(Concat(emitted)) == StripWs(ps[pi])
    ensures Packed(chunks + emitted, groups + [emitted], ps, k, pi + 1, limit)
    ensures (chunks + emitted)[..|chunks|] == chunks
  {
    AppendChunks(chunks, emitted, limit);
    ContentSnoc(ps, pi);
    SuffixSnoc(chunks, k, emitted, limit, groups);
    assert k + |groups| == pi;
    assert StripWs(Concat(emitted)) == StripWs(ps[k + |groups|]);
    GroupsKeepSnoc(groups, ps, k, emitted);
  }

  /**
   * `splitForTts`: the chunks of a cleaned chapter. They are non-empty and trimmed and
   * keep all of its non-blank content in order. A likely-title first paragraph is chunk 0
   * verbatim and may exceed the limit; every other chunk is within the limit. The ghost
   * `groups` are the chunks of each later paragraph: no chunk spans two paragraphs.
   */
  method SplitForTts(input: string, chunkChars: int, lower: string -> string)
    returns (chunks: seq<string>, ghost groups: seq<seq<string>>)
    ensures AllWellFormed(chunks)
    ensures StripWs(Concat(chunks)) == StripWs(input)
    ensures var ps := Paragraphs(input); var k := TitleCount(ps, lower);
      && (k == 1 ==> |chunks| > 0 && chunks[0] == ps[0])
      && Packed(chunks, groups, ps, k, |ps|, Limit(chunkChars))
  {
    var limit := Limit(chunkChars);
    var paragraphs := Paragraphs(input);
    var startIndex := 0;
    if |paragraphs| > 0 && IsLikelyTitle(paragraphs[0], lower) {
      startIndex := 1;
    }
    assert startIndex == TitleCount(paragraphs, lower);
    chunks, groups := PackParagraphs(paragraphs, startIndex, limit, SoftTarget(limit));
    assert paragraphs[..|paragraphs|] == paragraphs;
  }

  /**
   * The paragraph loop of `splitForTts`: the title chunk (the first `k` paragraphs, `k`
   * being 0 or 1) followed by each later paragraph packed on its own.
   */
  method PackParagraphs(paragraphs: seq<string>, k: nat, limit: nat, soft: nat)
    returns (chunks: seq<string>, ghost groups: seq<seq<string>>)
    requires AllWellFormed(paragraphs) && k <= 1 && k <= |paragraphs| && limit >= 1
    ensures k == 1 ==> |chunks| > 0 && chunks[0] == paragraphs[0]
    ensures Packed(chunks, groups, paragraphs, k, |paragraphs|, limit)
  {
    chunks := paragraphs[..k];
    groups := [];
    PackedStart(paragraphs, k, limit);
    for pi := k to |paragraphs|
      invariant k == 1 ==> |chunks| > 0 && chunks[0] == paragraphs[0]
      invariant Packed(chunks, groups, paragraphs, k, pi, limit)
    {
      var sentences := Sentences(paragraphs[pi]);
      var emitted := PackParagraph(sentences, limit, soft);
      PackedStep(chunks, groups, paragraphs, k, pi, limit, emitted);
      chunks := chunks + emitted;
      groups := groups + [emitted];
    }
  }

  /**
   * `processTranslatedText`: an empty text leaves the chunks as they were (`None`);
   * otherwise bold markers are removed, CRLF becomes LF, and the result is chunked.
   */
  method ProcessTranslatedText(text: string, chunkChars: int, lower: string -> string)
    returns (r: Option<seq<string>>)
    ensures r.None? <==> text == []
    ensures r.Some? ==> AllWellFormed(r.value)
    ensures r.Some? ==> StripWs(Concat(r.value)) == StripWs(RemoveBold(text))
    ensures r.Some? ==> var ps := Paragraphs(CrlfToLf(RemoveBold(text)));
      TitleCount(ps, lower) == 1 ==> r.value != [] && r.value[0] == ps[0]
    ensures r.Some? ==> var ps := Paragraphs(CrlfToLf(RemoveBold(text)));
      var k := TitleCount(ps, lower);
      k <= |r.value| && AllWithin(r.value[k..], Limit(chunkChars))
  {
    if text == [] {
      return None;
    }
    CrlfToLfKeepsContent(RemoveBold(text));
    var cleaned := CrlfToLf(RemoveBold(text));
    var chunks, groups := SplitForTts(cleaned, chunkChars, lower);
    r := Some(chunks);
  }
}
