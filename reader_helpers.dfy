/**
 * Small helpers of the reader screen: the word highlight of the chunk being spoken, the
 * in-chapter search, the export selection toggle and the sleep-timer display.
 */
module ReaderHelpers {
  import opened Wrappers
  import opened Text
  import RecentLists

  // ---- word highlight (`renderContent`) ----

  /** How a paragraph is drawn: as plain text, or with one word highlighted. */
  datatype Rendering =
    | Plain(text: string)
    | Highlight(before: string, word: string, space: string, after: string)

  /**
   * `renderContent`: an inactive paragraph, a missing or out-of-range character index, or
   * a position where `/^(\S+)(\s*)/` does not match (it holds whitespace) draws the text
   * plainly. Otherwise the text is cut at the index into the part before it, the word
   * there, the whitespace after the word and the rest, which put back together give the
   * text again.
   */
  function RenderSplit(text: string, isActive: bool, activeChar: Option<int>): (r: Rendering)
    ensures r.Plain? ==> r.text == text
    ensures r.Highlight? <==>
      isActive && activeChar.Some? && 0 <= activeChar.value < |text| && !IsWs(text[activeChar.value])
    ensures r.Highlight? ==> HighlightsAt(r, text, activeChar.value)
  {
    if !isActive || activeChar.None? || activeChar.value < 0 || activeChar.value >= |text| then
      Plain(text)
    else if IsWs(text[activeChar.value]) then Plain(text)
    else WordAt(text, activeChar.value)
  }

  /**
   * The pieces of a highlight give the text back; the word starts at `i` and is the whole
   * run of non-white characters there, followed by the whole run of whitespace.
   */
  ghost predicate HighlightsAt(r: Rendering, text: string, i: int)
    requires r.Highlight?
  {
    && r.before + r.word + r.space + r.after == text
    && |r.before| == i
    && r.word != [] && (forall j :: 0 <= j < |r.word| ==> !IsWs(r.word[j]))
    && AllWs(r.space)
    && (r.after == [] || !IsWs(r.after[0]))
    && (r.space == [] ==> r.after == [])
  }

  /** The match of `/^(\S+)(\s*)/` at a non-white character `i`, and the text around it. */
  function WordAt(text: string, i: nat): (r: Rendering)
    requires i < |text| && !IsWs(text[i])
    ensures r.Highlight? && HighlightsAt(r, text, i)
  {
    var remaining := text[i..];
    var w := WordLength(remaining);
    var k := WsRunLength(remaining[w..]);
    SplitParts(text, i, w, k);
    Highlight(text[..i], remaining[..w], remaining[w..][..k], remaining[w..][k..])
  }

  lemma {:induction false} SplitParts(text: string, i: nat, w: nat, k: nat)
    requires i <= |text| && w <= |text[i..]| && k <= |text[i..][w..]|
    ensures text[..i] + text[i..][..w] + text[i..][w..][..k] + text[i..][w..][k..] == text
  {
    var a, b := i + w, i + w + k;
    assert text[i..][..w] == text[i..a];
    assert text[i..][w..][..k] == text[a..b];
    assert text[i..][w..][k..] == text[b..];
    assert text[..i] + text[i..a] == text[..a];
    assert text[..a] + text[a..b] == text[..b];
    assert text[..b] + text[b..] == text;
  }

  // ---- search (`performSearch`) ----

  predicate StrictlyIncreasing(xs: seq<nat>) {
    forall i, j :: 0 <= i < j < |xs| ==> xs[i] < xs[j]
  }

  /**
   * `performSearch`: an empty query or an empty chapter finds nothing; otherwise the
   * result holds, in increasing order, exactly the indices of the chunks whose lower-case
   * form contains the lower-case query. Case mapping is the parameter `lower`.
   */
  method PerformSearch(query: string, translated: string, chunks: seq<string>,
                       lower: string -> string) returns (results: seq<nat>)
    ensures query == [] || translated == [] ==> results == []
    ensures StrictlyIncreasing(results)
    ensures forall j :: 0 <= j < |results| ==> results[j] < |chunks|
    ensures query != [] && translated != [] ==>
      forall i :: 0 <= i < |chunks| ==> (i in results <==> Contains(lower(chunks[i]), lower(query)))
  {
    if query == [] || translated == [] {
      return [];
    }
    results := [];
    var q := lower(query);
    for index := 0 to |chunks|
      invariant StrictlyIncreasing(results)
      invariant forall j :: 0 <= j < |results| ==> results[j] < index
      invariant forall i :: 0 <= i < index ==> (i in results <==> Contains(lower(chunks[i]), q))
    {
      if Contains(lower(chunks[index]), q) {
        results := results + [index];
      }
    }
  }

  // ---- export selection (`toggleChapterSelection`) ----

  function Identity(s: string): string { s }

  /**
   * `toggleChapterSelection`: a selected URL is deselected (every copy of it goes), an
   * unselected one is appended; every other URL keeps its selection state.
   */
  function ToggleChapterSelection(selected: seq<string>, url: string): (r: seq<string>)
    ensures url in r <==> url !in selected
    ensures forall u :: u != url ==> (u in r <==> u in selected)
    ensures url !in selected ==> r == selected + [url]
  {
    if url in selected then RecentLists.WithoutKey(selected, Identity, url)
    else selected + [url]
  }

  /** Toggling an unselected URL twice gives the selection back. */
  lemma {:induction false} ToggleTwice(selected: seq<string>, url: string)
    requires url !in selected
    ensures ToggleChapterSelection(ToggleChapterSelection(selected, url), url) == selected
  {
    var once := selected + [url];
    RecentLists.WithoutKeyAppend(selected, [url], Identity, url);
    RecentLists.WithoutAbsentKey(selected, Identity, url);
    assert RecentLists.WithoutKey([url], Identity, url) == [];
  }

  // ---- timer display (`formatTime`) ----

  /** `n.toString().padStart(2, '0')` for `n < 60`. */
  function Pad2(n: nat): (r: string)
    requires n < 60
    ensures |r| == 2 && IsDigit(r[0]) && IsDigit(r[1])
  {
    [DigitChar(n / 10), DigitChar(n % 10)]
  }

  /** `formatTime`: whole minutes, a colon and the seconds in two digits. */
  function FormatTime(s: nat): (r: string)
    ensures |r| >= 4 && r[|r| - 3] == ':'
  {
    NatToDecimal(s / 60) + ":" + Pad2(s % 60)
  }

  /** Reads `m:ss` back as seconds; `None` when the text is not of that shape. */
  function ParseTime(t: string): (r: Option<nat>)
  {
    if |t| < 4 || t[|t| - 3] != ':' then None
    else
      var m, ss := t[..|t| - 3], t[|t| - 2..];
      if (forall i :: 0 <= i < |m| ==> IsDigit(m[i])) && IsDigit(ss[0]) && IsDigit(ss[1]) then
        Some(DecimalValue(m) * 60 + DecimalValue(ss))
      else None
  }

  lemma {:induction false} Pad2Value(n: nat)
    requires n < 60
    ensures DecimalValue(Pad2(n)) == n
  {
    var r := Pad2(n);
    assert r[..1][..0] == [];
    assert r[..|r| - 1] == r[..1] == [r[0]];
    assert DecimalValue(r[..1]) == n / 10;
    assert DecimalValue(r) == 10 * (n / 10) + n % 10;
  }

  /** The display reads back as the number of seconds it shows. */
  lemma {:induction false} FormatTimeRoundTrip(s: nat)
    ensures ParseTime(FormatTime(s)) == Some(s)
  {
    ParseJoined(NatToDecimal(s / 60), Pad2(s % 60));
    DecimalRoundTrip(s / 60);
    Pad2Value(s % 60);
  }

  lemma {:induction false} ParseJoined(m: string, p: string)
    requires m != [] && forall i :: 0 <= i < |m| ==> IsDigit(m[i])
    requires |p| == 2 && IsDigit(p[0]) && IsDigit(p[1])
    ensures ParseTime(m + ":" + p) == Some(DecimalValue(m) * 60 + DecimalValue(p))
  {
    var t := m + ":" + p;
    assert t[..|t| - 3] == m;
    assert t[|t| - 2..] == p;
  }
}
