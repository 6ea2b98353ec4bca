/**
 * String helpers shared by the chunker, the reader helpers and the speech-service framing:
 * JavaScript's whitespace class, the whitespace-free "content" of a string, `trim`,
 * whitespace-run collapsing, the two global replacements the chunker applies before
 * splitting, and decimal rendering of integers.
 */
module Text {

  /** JavaScript's `\s` class; `String.prototype.trim` removes exactly these characters. */
  predicate IsWs(c: char) {
    c == ' ' || c == '\t' || c == '\n' || c == '\r' || c == '\U{B}' || c == '\U{C}'
    || c == '\U{A0}' || c == '\U{1680}' || ('\U{2000}' <= c <= '\U{200A}')
    || c == '\U{2028}' || c == '\U{2029}' || c == '\U{202F}' || c == '\U{205F}'
    || c == '\U{3000}' || c == '\U{FEFF}'
  }

  predicate AllWs(s: string) {
    forall i :: 0 <= i < |s| ==> IsWs(s[i])
  }

  /** No leading and no trailing whitespace. */
  predicate IsTrimmed(s: string) {
    s == [] || (!IsWs(s[0]) && !IsWs(s[|s| - 1]))
  }

  /** The string with every whitespace character removed: the content chunking must keep. */
  function StripWs(s: string): (r: string)
    ensures |r| <= |s|
  {
    if s == [] then [] else (if IsWs(s[0]) then [] else [s[0]]) + StripWs(s[1..])
  }

  /** The string with every occurrence of `c` removed. */
  function Without(s: string, c: char): (r: string)
    ensures c !in r
  {
    if s == [] then [] else (if s[0] == c then [] else [s[0]]) + Without(s[1..], c)
  }

  /** The pieces glued together with no separator. */
  function Concat(ss: seq<string>): string {
    if ss == [] then [] else ss[0] + Concat(ss[1..])
  }

  lemma {:induction false} StripWsAppend(a: string, b: string)
    ensures StripWs(a + b) == StripWs(a) + StripWs(b)
  {
    if a != [] {
      assert (a + b)[0] == a[0] && (a + b)[1..] == a[1..] + b;
      StripWsAppend(a[1..], b);
      var h: string := if IsWs(a[0]) then [] else [a[0]];
      calc {
        StripWs(a + b);
        h + StripWs(a[1..] + b);
        h + (StripWs(a[1..]) + StripWs(b));
        (h + StripWs(a[1..])) + StripWs(b);
      }
    } else {
      assert a + b == b;
    }
  }

  /** Removing blanks and removing one other character can be done in either order. */
  lemma {:induction false} StripWsWithoutCommute(s: string, c: char)
    ensures Without(StripWs(s), c) == StripWs(Without(s, c))
    decreases |s|
  {
    if s != [] {
      var ws: string := if IsWs(s[0]) then [] else [s[0]];
      var wc: string := if s[0] == c then [] else [s[0]];
      StripWsWithoutCommute(s[1..], c);
      WithoutAppend(ws, StripWs(s[1..]), c);
      StripWsAppend(wc, Without(s[1..], c));
      assert Without(ws, c) == StripWs(wc);
    }
  }

  /** Removing a character that does not occur changes nothing. */
  lemma {:induction false} WithoutAbsent(s: string, c: char)
    requires c !in s
    ensures Without(s, c) == s
  {
    if s != [] {
      assert c !in s[1..];
      WithoutAbsent(s[1..], c);
      assert s == [s[0]] + s[1..];
    }
  }

  /** Removing the only character a string holds leaves nothing. */
  lemma {:induction false} WithoutOnly(s: string, c: char)
    requires forall i :: 0 <= i < |s| ==> s[i] == c
    ensures Without(s, c) == []
  {
    if s != [] {
      WithoutOnly(s[1..], c);
    }
  }

  lemma {:induction false} WithoutAppend(a: string, b: string, c: char)
    ensures Without(a + b, c) == Without(a, c) + Without(b, c)
  {
    if a != [] {
      assert (a + b)[0] == a[0] && (a + b)[1..] == a[1..] + b;
      WithoutAppend(a[1..], b, c);
      var h: string := if a[0] == c then [] else [a[0]];
      calc {
        Without(a + b, c);
        h + Without(a[1..] + b, c);
        h + (Without(a[1..], c) + Without(b, c));
        (h + Without(a[1..], c)) + Without(b, c);
      }
    } else {
      assert a + b == b;
    }
  }

  lemma {:induction false} StripWsOfAllWs(s: string)
    requires AllWs(s)
    ensures StripWs(s) == []
  {
    if s != [] {
      StripWsOfAllWs(s[1..]);
    }
  }

  /** A string whose content is empty is all whitespace. */
  lemma {:induction false} EmptyContentIsAllWs(s: string)
    requires StripWs(s) == []
    ensures AllWs(s)
  {
    if s != [] {
      EmptyContentIsAllWs(s[1..]);
    }
  }

  lemma {:induction false} ConcatAppend(ss: seq<string>, tt: seq<string>)
    ensures Concat(ss + tt) == Concat(ss) + Concat(tt)
  {
    if ss != [] {
      assert (ss + tt)[0] == ss[0] && (ss + tt)[1..] == ss[1..] + tt;
      ConcatAppend(ss[1..], tt);
      calc {
        Concat(ss + tt);
        ss[0] + Concat(ss[1..] + tt);
        ss[0] + (Concat(ss[1..]) + Concat(tt));
        (ss[0] + Concat(ss[1..])) + Concat(tt);
      }
    } else {
      assert ss + tt == tt;
    }
  }

  lemma {:induction false} ConcatSingle(s: string)
    ensures Concat([s]) == s
  {
    assert [s][1..] == [];
  }

  lemma {:induction false} ConcatSnoc(ss: seq<string>, s: string)
    ensures Concat(ss + [s]) == Concat(ss) + s
  {
    ConcatAppend(ss, [s]);
  }

  /** `trimStart`: the string without its leading whitespace. */
  function TrimStart(s: string): (r: string)
    ensures r == [] || !IsWs(r[0])
    ensures StripWs(r) == StripWs(s)
    ensures |r| <= |s| && r == s[|s| - |r|..]
    ensures r == s[WsRunLength(s)..]
  {
    if s != [] && IsWs(s[0]) then
      assert StripWs(s) == StripWs(s[1..]);
      TrimStart(s[1..])
    else
      s
  }

  /** `trimEnd`: the string without its trailing whitespace. */
  function TrimEnd(s: string): (r: string)
    ensures r == [] || !IsWs(r[|r| - 1])
    ensures StripWs(r) == StripWs(s)
    ensures |r| <= |s| && r == s[..|r|]
  {
    if s != [] && IsWs(s[|s| - 1]) then
      assert s == s[..|s| - 1] + [s[|s| - 1]];
      StripWsAppend(s[..|s| - 1], [s[|s| - 1]]);
      TrimEnd(s[..|s| - 1])
    else
      s
  }

  /** JavaScript's `String.prototype.trim`. */
  function Trim(s: string): (r: string)
    ensures IsTrimmed(r)
    ensures StripWs(r) == StripWs(s)
    ensures |r| <= |s|
  {
    TrimShape(s);
    TrimEnd(TrimStart(s))
  }

  /** What `trim` keeps is the slice of `s` just after its leading whitespace. */
  lemma TrimIsSlice(s: string)
    ensures var k, r := WsRunLength(s), Trim(s); k + |r| <= |s| && r == s[k..k + |r|]
  {
  }

  lemma {:induction false} TrimShape(s: string)
    ensures IsTrimmed(TrimEnd(TrimStart(s)))
  {
    var a := TrimStart(s);
    var r := TrimEnd(a);
    assert r == [] || r[0] == a[0];
  }

  /** `trim` leaves a trimmed string alone and empties exactly the blank ones. */
  lemma {:induction false} TrimFacts(s: string)
    ensures IsTrimmed(s) ==> Trim(s) == s
    ensures Trim(s) == [] <==> AllWs(s)
  {
    var a := TrimStart(s);
    var r := TrimEnd(a);
    assert r == [] || r[0] == a[0];
    if r == [] {
      EmptyContentIsAllWs(s);
    } else {
      assert StripWs(r) != [] by {
        assert r == [r[0]] + r[1..];
        StripWsAppend([r[0]], r[1..]);
      }
      if AllWs(s) {
        StripWsOfAllWs(s);
      }
    }
    if IsTrimmed(s) && s != [] {
      assert a == s;
      assert r == a;
    }
  }

  /** `trim` removes exactly the blank padding around a string that is itself trimmed. */
  lemma {:induction false} TrimPadded(lead: string, core: string, trail: string)
    requires AllWs(lead) && AllWs(trail) && core != [] && IsTrimmed(core)
    ensures Trim(lead + core + trail) == core
  {
    var padded := lead + core + trail;
    assert padded == lead + (core + trail);
    TrimStartPadded(lead, core + trail);
    TrimEndPadded(core, trail);
    assert Trim(padded) == TrimEnd(TrimStart(padded));
  }

  lemma {:induction false} TrimStartPadded(lead: string, s: string)
    requires AllWs(lead) && s != [] && !IsWs(s[0])
    ensures TrimStart(lead + s) == s
    decreases |lead|
  {
    if lead != [] {
      assert (lead + s)[1..] == lead[1..] + s;
      TrimStartPadded(lead[1..], s);
    }
  }

  lemma {:induction false} TrimEndPadded(s: string, trail: string)
    requires AllWs(trail) && s != [] && !IsWs(s[|s| - 1])
    ensures TrimEnd(s + trail) == s
    decreases |trail|
  {
    if trail != [] {
      var init := trail[..|trail| - 1];
      assert (s + trail)[..|s + trail| - 1] == s + init;
      TrimEndPadded(s, init);
    } else {
      assert s + trail == s;
    }
  }

  /** A string that ends with a non-blank character keeps that character last under `trim`. */
  lemma {:induction false} TrimKeepsLast(s: string)
    requires s != [] && !IsWs(s[|s| - 1])
    ensures Trim(s) != [] && Trim(s)[|Trim(s)| - 1] == s[|s| - 1]
  {
    RunStopsAtNonBlank(s, |s| - 1);
    var a := TrimStart(s);
    assert a == s[WsRunLength(s)..];
    assert a != [] && a[|a| - 1] == s[|s| - 1];
    assert TrimEnd(a) == a;
  }

  /** A whitespace run stops at the first non-blank character. */
  lemma {:induction false} RunStopsAtNonBlank(s: string, j: nat)
    requires j < |s| && !IsWs(s[j])
    ensures WsRunLength(s) <= j
  {
    if IsWs(s[0]) {
      RunStopsAtNonBlank(s[1..], j - 1);
    }
  }

  /** A string that starts with a non-blank character loses only its trailing blanks to `trim`. */
  lemma {:induction false} TrimFromNonBlank(s: string)
    requires s != [] && !IsWs(s[0])
    ensures Trim(s) == TrimEnd(s)
  {
  }

  /** A leading blank makes no difference to `trim`. */
  lemma {:induction false} TrimLeadingBlank(c: char, s: string)
    requires IsWs(c)
    ensures Trim([c] + s) == Trim(s)
  {
    assert ([c] + s)[1..] == s;
  }

  /** `trimEnd` of a string behind a prefix, when the string starts with a non-blank. */
  lemma {:induction false} TrimEndBehind(p: string, s: string)
    requires s != [] && !IsWs(s[0])
    ensures TrimEnd(p + s) == p + TrimEnd(s)
    decreases |s|
  {
    var ps := p + s;
    if IsWs(s[|s| - 1]) {
      assert |s| >= 2;
      assert ps[..|ps| - 1] == p + s[..|s| - 1];
      TrimEndBehind(p, s[..|s| - 1]);
    }
  }

  /** The length of the whitespace run that starts `s`. */
  function WsRunLength(s: string): (k: nat)
    ensures k <= |s|
    ensures AllWs(s[..k])
    ensures k < |s| ==> !IsWs(s[k])
  {
    if s != [] && IsWs(s[0]) then 1 + WsRunLength(s[1..]) else 0
  }

  /** The whitespace run that starts `a + b` is the one that starts `a` when `a` does not end inside it. */
  lemma {:induction false} WsRunLengthAppend(a: string, b: string)
    requires WsRunLength(a) < |a| || b == [] || !IsWs(b[0])
    ensures WsRunLength(a + b) == WsRunLength(a)
    decreases |a|
  {
    if a != [] && IsWs(a[0]) {
      assert (a + b)[1..] == a[1..] + b;
      WsRunLengthAppend(a[1..], b);
    } else if a == [] {
      assert a + b == b;
    }
  }

  /**
   * `s.replace(/\s+/g, ' ')`: every maximal whitespace run becomes one space.
   * `CollapseWsKeepsContent` and `CollapseWsSingleSpaces` state what the result looks like,
   * and `CollapseTrimJoinsWords` fixes the trimmed result for every input.
   */
  function CollapseWs(s: string): (r: string)
    ensures |r| <= |s|
    decreases |s|
  {
    if s == [] then []
    else if IsWs(s[0]) then " " + CollapseWs(s[WsRunLength(s)..])
    else [s[0]] + CollapseWs(s[1..])
  }

  /** Collapsing keeps the content: only whitespace is replaced. */
  lemma {:induction false} CollapseWsKeepsContent(s: string)
    ensures StripWs(CollapseWs(s)) == StripWs(s)
    decreases |s|
  {
    if s == [] {
    } else if IsWs(s[0]) {
      var k := WsRunLength(s);
      assert s == s[..k] + s[k..];
      StripWsAppend(s[..k], s[k..]);
      StripWsOfAllWs(s[..k]);
      CollapseWsKeepsContent(s[k..]);
      StripWsAppend(" ", CollapseWs(s[k..]));
    } else {
      assert s == [s[0]] + s[1..];
      StripWsAppend([s[0]], s[1..]);
      CollapseWsKeepsContent(s[1..]);
      StripWsAppend([s[0]], CollapseWs(s[1..]));
    }
  }

  /** After collapsing, the only whitespace left is single spaces. */
  lemma {:induction false} CollapseWsSingleSpaces(s: string)
    ensures var r := CollapseWs(s); forall i :: 0 <= i < |r| && IsWs(r[i]) ==> r[i] == ' '
    ensures var r := CollapseWs(s); forall i :: 0 <= i < |r| - 1 && IsWs(r[i]) ==> !IsWs(r[i + 1])
    ensures s != [] && !IsWs(s[0]) ==> CollapseWs(s) != [] && CollapseWs(s)[0] == s[0]
    decreases |s|
  {
    if s == [] {
    } else if IsWs(s[0]) {
      var k := WsRunLength(s);
      var t := s[k..];
      CollapseWsSingleSpaces(t);
      assert t != [] ==> !IsWs(t[0]) && !IsWs(CollapseWs(t)[0]);
      assert CollapseWs(s) == " " + CollapseWs(t);
    } else {
      CollapseWsSingleSpaces(s[1..]);
      assert CollapseWs(s) == [s[0]] + CollapseWs(s[1..]);
    }
  }

  /** A string without whitespace is unchanged, and a blank string becomes one space. */
  lemma {:induction false} CollapseWsExtremes(s: string)
    ensures (forall i :: 0 <= i < |s| ==> !IsWs(s[i])) ==> CollapseWs(s) == s
    ensures s != [] && AllWs(s) ==> CollapseWs(s) == " "
    decreases |s|
  {
    if s != [] && !IsWs(s[0]) {
      assert (forall i :: 0 <= i < |s| ==> !IsWs(s[i])) ==> forall i :: 0 <= i < |s[1..]| ==> !IsWs(s[1..][i]);
      CollapseWsExtremes(s[1..]);
    }
  }

  /** A prefix without whitespace passes through collapsing unchanged. */
  lemma {:induction false} CollapseWsWordPrefix(w: string, rest: string)
    requires forall i :: 0 <= i < |w| ==> !IsWs(w[i])
    ensures CollapseWs(w + rest) == w + CollapseWs(rest)
    decreases |w|
  {
    if w == [] {
      assert w + rest == rest;
    } else {
      assert (w + rest)[1..] == w[1..] + rest;
      CollapseWsWordPrefix(w[1..], rest);
      assert w == [w[0]] + w[1..];
    }
  }

  /** A whole run of whitespace, however long, becomes exactly one space. */
  lemma CollapseWsRunPrefix(w: string, rest: string)
    requires w != [] && AllWs(w) && (rest == [] || !IsWs(rest[0]))
    ensures CollapseWs(w + rest) == " " + CollapseWs(rest)
  {
    WsRunLengthAppend(w, rest);
    assert (w + rest)[0] == w[0];
    assert (w + rest)[|w|..] == rest;
  }

  /** The length of the run of non-blank characters that starts `s`. */
  function WordLength(s: string): (k: nat)
    ensures k <= |s|
    ensures forall i :: 0 <= i < k ==> !IsWs(s[i])
    ensures k < |s| ==> IsWs(s[k])
  {
    if s != [] && !IsWs(s[0]) then 1 + WordLength(s[1..]) else 0
  }

  /** A word: a non-empty string without whitespace. */
  predicate IsWord(w: string) {
    w != [] && forall i :: 0 <= i < |w| ==> !IsWs(w[i])
  }

  /** The maximal runs of non-blank characters of `s`, in order. */
  function Words(s: string): (ws: seq<string>)
    ensures forall i :: 0 <= i < |ws| ==> IsWord(ws[i])
    ensures s != [] && !IsWs(s[0]) ==> ws != []
    decreases |s|
  {
    if s == [] then []
    else if IsWs(s[0]) then Words(s[WsRunLength(s)..])
    else
      var k := WordLength(s);
      [s[..k]] + Words(s[k..])
  }

  /** The words joined by single spaces. */
  function JoinWords(ws: seq<string>): string {
    if ws == [] then [] else if |ws| == 1 then ws[0] else ws[0] + " " + JoinWords(ws[1..])
  }

  /**
   * `s.replace(/\s+/g, ' ').trim()` is the words of `s` joined by single spaces: this
   * pins the collapsing down independently of how it is computed.
   */
  lemma {:induction false} CollapseTrimJoinsWords(s: string)
    ensures Trim(CollapseWs(s)) == JoinWords(Words(s))
    decreases |s|, 1
  {
    if s == [] {
    } else if IsWs(s[0]) {
      var k := WsRunLength(s);
      TrimLeadingBlank(' ', CollapseWs(s[k..]));
      CollapseTrimJoinsWords(s[k..]);
    } else {
      WordHeadJoins(s);
    }
  }

  /** `CollapseTrimJoinsWords` when `s` starts with a word. */
  lemma {:induction false} WordHeadJoins(s: string)
    requires s != [] && !IsWs(s[0])
    ensures Trim(CollapseWs(s)) == JoinWords(Words(s))
    decreases |s|, 0
  {
    var k := WordLength(s);
    var word, rest := s[..k], s[k..];
    WordHeadSplit(s);
    if rest == [] {
      assert CollapseWs(s) == word;
      TrimFacts(word);
    } else {
      var tail := rest[WsRunLength(rest)..];
      BlankHeadSplit(rest);
      if tail == [] {
        WordThenBlank(word);
      } else {
        CollapseTrimJoinsWords(tail);
        WordThenMore(word, tail);
      }
    }
  }

  /** A string that starts with a whitespace run collapses to a space and the rest collapsed. */
  lemma BlankHeadSplit(s: string)
    requires s != [] && IsWs(s[0])
    ensures var t := s[WsRunLength(s)..];
      && CollapseWs(s) == " " + CollapseWs(t)
      && Words(s) == Words(t)
      && (t == [] || !IsWs(t[0]))
  {
  }

  /** A word followed by one space trims back to the word. */
  lemma WordThenBlank(word: string)
    requires IsWord(word)
    ensures Trim(word + (" " + CollapseWs([]))) == JoinWords([word] + Words([]))
  {
    assert word + (" " + CollapseWs([])) == [] + word + " ";
    assert AllWs(" ");
    TrimPadded([], word, " ");
    assert [word] + Words([]) == [word];
  }

  /** A string that starts with a word collapses to that word followed by the rest collapsed. */
  lemma WordHeadSplit(s: string)
    requires s != [] && !IsWs(s[0])
    ensures var k := WordLength(s);
      && IsWord(s[..k])
      && CollapseWs(s) == s[..k] + CollapseWs(s[k..])
      && Words(s) == [s[..k]] + Words(s[k..])
  {
    var k := WordLength(s);
    assert s == s[..k] + s[k..];
    CollapseWsWordPrefix(s[..k], s[k..]);
  }

  /** A word, a space, then collapsed text that starts with a word. */
  lemma WordThenMore(word: string, tail: string)
    requires IsWord(word) && tail != [] && !IsWs(tail[0])
    requires Trim(CollapseWs(tail)) == JoinWords(Words(tail))
    ensures Trim(word + (" " + CollapseWs(tail))) == JoinWords([word] + Words(tail))
  {
    var c := CollapseWs(tail);
    CollapseWsSingleSpaces(tail);
    TrimWordSpace(word, c);
    var w := Words(tail);
    assert ([word] + w)[1..] == w;
    assert w != [];
  }

  /** Trimming a word, a space and a text that starts with a non-blank trims only the text. */
  lemma TrimWordSpace(word: string, c: string)
    requires IsWord(word) && c != [] && !IsWs(c[0])
    ensures Trim(word + (" " + c)) == word + " " + Trim(c)
  {
    assert word + (" " + c) == (word + " ") + c;
    TrimFromNonBlank(c);
    TrimFromNonBlank((word + " ") + c);
    TrimEndBehind(word + " ", c);
  }

  /**
   * `s.replace(/\*\*\/g, '')`: removes the pairs of asterisks found scanning left to right.
   * What remains never holds two adjacent asterisks (`"***"` leaves one), and every other
   * character is kept in order.
   */
  function RemoveBold(s: string): (r: string)
    ensures forall i :: 0 <= i < |r| - 1 ==> !(r[i] == '*' && r[i + 1] == '*')
    ensures |r| <= |s|
    ensures s != [] && s[0] != '*' ==> r != [] && r[0] == s[0]
    ensures '*' !in s ==> r == s
  {
    if |s| >= 2 && s[0] == '*' && s[1] == '*' then RemoveBold(s[2..])
    else if s == [] then []
    else [s[0]] + RemoveBold(s[1..])
  }

  /** Only asterisks are removed: every other character is kept, in order. */
  lemma {:induction false} RemoveBoldKeeps(s: string)
    ensures Without(RemoveBold(s), '*') == Without(s, '*')
    decreases |s|
  {
    if |s| >= 2 && s[0] == '*' && s[1] == '*' {
      assert s == "**" + s[2..];
      WithoutAppend("**", s[2..], '*');
      RemoveBoldKeeps(s[2..]);
    } else if s != [] {
      assert s == [s[0]] + s[1..];
      WithoutAppend([s[0]], s[1..], '*');
      WithoutAppend([s[0]], RemoveBold(s[1..]), '*');
      RemoveBoldKeeps(s[1..]);
    }
  }

  /** Does a carriage return directly precede a line feed somewhere in `s`? */
  predicate HasCrlf(s: string) {
    exists i :: 0 <= i < |s| - 1 && s[i] == '\r' && s[i + 1] == '\n'
  }

  /**
   * `s.replace(/\r\n/g, '\n')`: a carriage return directly before a line feed is dropped.
   * `CrlfToLfChanges` shows that a text without such a pair is unchanged and one with a
   * pair gets shorter, `CrlfToLfKeepsContent` that only carriage returns go, and `CrlfToLfAppend`
   * (cutting anywhere but inside a pair commutes with the replacement) together with
   * `CrlfToLfPair` fixes the result for every input.
   */
  function CrlfToLf(s: string): (r: string)
    ensures |r| <= |s|
  {
    if |s| >= 2 && s[0] == '\r' && s[1] == '\n' then "\n" + CrlfToLf(s[2..])
    else if s == [] then []
    else [s[0]] + CrlfToLf(s[1..])
  }

  /** A text without a CRLF pair is unchanged, and one with a pair gets shorter. */
  lemma {:induction false} CrlfToLfChanges(s: string)
    ensures !HasCrlf(s) ==> CrlfToLf(s) == s
    ensures HasCrlf(s) ==> |CrlfToLf(s)| < |s|
    decreases |s|
  {
    if |s| >= 2 && s[0] == '\r' && s[1] == '\n' {
      assert HasCrlf(s);
    } else if s != [] {
      CrlfToLfChanges(s[1..]);
      assert HasCrlf(s) ==> HasCrlf(s[1..]) by {
        if HasCrlf(s) {
          var i :| 0 <= i < |s| - 1 && s[i] == '\r' && s[i + 1] == '\n';
          assert i >= 1 && s[1..][i - 1] == s[i] && s[1..][i] == s[i + 1];
        }
      }
      assert HasCrlf(s[1..]) ==> HasCrlf(s) by {
        if HasCrlf(s[1..]) {
          var i :| 0 <= i < |s[1..]| - 1 && s[1..][i] == '\r' && s[1..][i + 1] == '\n';
          assert s[i + 1] == '\r' && s[i + 2] == '\n';
        }
      }
    }
  }

  /** The pair itself becomes a single line feed. */
  lemma CrlfToLfPair()
    ensures CrlfToLf("\r\n") == "\n"
  {
    assert "\r\n"[2..] == [];
  }

  /** Only carriage returns are removed: every other character survives, in order. */
  lemma {:induction false} CrlfToLfKeepsContent(s: string)
    ensures Without(CrlfToLf(s), '\r') == Without(s, '\r')
    ensures StripWs(CrlfToLf(s)) == StripWs(s)
    decreases |s|
  {
    if |s| >= 2 && s[0] == '\r' && s[1] == '\n' {
      assert s == "\r\n" + s[2..];
      WithoutAppend("\r\n", s[2..], '\r');
      StripWsAppend("\r\n", s[2..]);
      var rest := CrlfToLf(s[2..]);
      CrlfToLfKeepsContent(s[2..]);
      WithoutAppend("\n", rest, '\r');
      StripWsAppend("\n", rest);
    } else if s != [] {
      assert s == [s[0]] + s[1..];
      WithoutAppend([s[0]], s[1..], '\r');
      StripWsAppend([s[0]], s[1..]);
      var rest := CrlfToLf(s[1..]);
      CrlfToLfKeepsContent(s[1..]);
      WithoutAppend([s[0]], rest, '\r');
      StripWsAppend([s[0]], rest);
    }
  }

  /** The replacement distributes over a concatenation that does not split a CRLF pair. */
  lemma {:induction false} CrlfToLfAppend(a: string, b: string)
    requires a == [] || b == [] || a[|a| - 1] != '\r' || b[0] != '\n'
    ensures CrlfToLf(a + b) == CrlfToLf(a) + CrlfToLf(b)
    decreases |a|, 1
  {
    if a == [] {
      assert a + b == b;
    } else if |a| >= 2 && a[0] == '\r' && a[1] == '\n' {
      CrlfHeadAppend(a, b);
    } else {
      PlainHeadAppend(a, b);
    }
  }

  /** `CrlfToLfAppend` when `a` starts with a CRLF pair. */
  lemma {:induction false} CrlfHeadAppend(a: string, b: string)
    requires |a| >= 2 && a[0] == '\r' && a[1] == '\n'
    requires b == [] || a[|a| - 1] != '\r' || b[0] != '\n'
    ensures CrlfToLf(a + b) == CrlfToLf(a) + CrlfToLf(b)
    decreases |a|, 0
  {
    assert (a + b)[2..] == a[2..] + b;
    CrlfToLfAppend(a[2..], b);
  }

  /** `CrlfToLfAppend` when `a` starts with anything but a CRLF pair. */
  lemma {:induction false} PlainHeadAppend(a: string, b: string)
    requires a != [] && !(|a| >= 2 && a[0] == '\r' && a[1] == '\n')
    requires b == [] || a[|a| - 1] != '\r' || b[0] != '\n'
    ensures CrlfToLf(a + b) == CrlfToLf(a) + CrlfToLf(b)
    decreases |a|, 0
  {
    var t := a[1..];
    PlainJoinHead(a, b);
    PlainStep(a + b);
    PlainStep(a);
    assert t == [] || t[|t| - 1] == a[|a| - 1];
    CrlfToLfAppend(t, b);
    AppendAssoc([a[0]], CrlfToLf(t), CrlfToLf(b));
  }

  /** `a + b` starts like `a` does, with no CRLF pair at its head when `a` has none. */
  lemma {:induction false} PlainJoinHead(a: string, b: string)
    requires a != [] && !(|a| >= 2 && a[0] == '\r' && a[1] == '\n')
    requires b == [] || a[|a| - 1] != '\r' || b[0] != '\n'
    ensures var ab := a + b;
      ab != [] && ab[0] == a[0] && ab[1..] == a[1..] + b && !(|ab| >= 2 && ab[0] == '\r' && ab[1] == '\n')
  {
    var ab := a + b;
    if |a| == 1 && b != [] {
      assert ab[1] == b[0];
    } else if |a| >= 2 {
      assert ab[1] == a[1];
    }
  }

  /** A character that does not start a CRLF pair is kept as it is. */
  lemma {:induction false} PlainStep(s: string)
    requires s != [] && !(|s| >= 2 && s[0] == '\r' && s[1] == '\n')
    ensures CrlfToLf(s) == [s[0]] + CrlfToLf(s[1..])
  {
  }

  /** Gluing three texts together does not depend on the grouping. */
  lemma AppendAssoc(x: string, y: string, z: string)
    ensures x + (y + z) == x + y + z
  {
  }

  /** Does `s` start with `prefix` (`String.prototype.startsWith`)? */
  predicate StartsWith(s: string, prefix: string) {
    |prefix| <= |s| && s[..|prefix|] == prefix
  }

  /** Does `pattern` occur in `s` at position `i`? */
  predicate OccursAt(s: string, pattern: string, i: int) {
    0 <= i <= |s| - |pattern| && s[i..i + |pattern|] == pattern
  }

  /** Does `pattern` occur in `s` (`String.prototype.includes`)? */
  predicate Contains(s: string, pattern: string) {
    exists i | 0 <= i <= |s| - |pattern| :: OccursAt(s, pattern, i)
  }

  /** `s.lastIndexOf(c)`: the last position holding `c`, or -1. */
  function LastIndexOf(s: string, c: char): (r: int)
    ensures -1 <= r < |s|
    ensures r == -1 <==> c !in s
    ensures r >= 0 ==> s[r] == c && c !in s[r + 1..]
  {
    if s == [] then -1
    else if s[|s| - 1] == c then |s| - 1
    else
      var r := LastIndexOf(s[..|s| - 1], c);
      assert s == s[..|s| - 1] + [s[|s| - 1]];
      r
  }

  /** `s.indexOf(pattern)`: the first position where `pattern` starts, or -1. */
  function IndexOf(s: string, pattern: string, from: nat := 0): (r: int)
    requires from <= |s|
    ensures r == -1 || (from <= r && OccursAt(s, pattern, r))
    ensures forall i :: from <= i && (r == -1 || i < r) ==> !OccursAt(s, pattern, i)
    decreases |s| - from
  {
    if |s| - from < |pattern| then -1
    else if s[from..from + |pattern|] == pattern then from
    else IndexOf(s, pattern, from + 1)
  }

  // ---- decimal numbers ----

  predicate IsDigit(c: char) { '0' <= c <= '9' }

  function DigitChar(d: nat): (c: char)
    requires d < 10
    ensures IsDigit(c) && DigitValue(c) == d
  {
    ('0' as int + d) as char
  }

  function DigitValue(c: char): nat
    requires IsDigit(c)
  {
    (c as int - '0' as int) as nat
  }

  /** `n.toString()` for a non-negative integer: its decimal digits, no leading zero. */
  function NatToDecimal(n: nat): (r: string)
    ensures r != []
    ensures forall i :: 0 <= i < |r| ==> IsDigit(r[i])
    ensures |r| > 1 ==> r[0] != '0'
    decreases n
  {
    if n < 10 then [DigitChar(n)] else NatToDecimal(n / 10) + [DigitChar(n % 10)]
  }

  /** Reads a string of digits back as a number. */
  function DecimalValue(s: string): nat
    requires forall i :: 0 <= i < |s| ==> IsDigit(s[i])
  {
    if s == [] then 0 else 10 * DecimalValue(s[..|s| - 1]) + DigitValue(s[|s| - 1])
  }

  lemma {:induction false} DecimalRoundTrip(n: nat)
    ensures DecimalValue(NatToDecimal(n)) == n
    decreases n
  {
    if n >= 10 {
      var r := NatToDecimal(n);
      assert r[..|r| - 1] == NatToDecimal(n / 10);
      DecimalRoundTrip(n / 10);
    }
  }

  /** `String(i)` for any integer: a minus sign before the digits of a negative number. */
  function IntToDecimal(i: int): (r: string)
    ensures r != []
    ensures i < 0 <==> r[0] == '-'
  {
    if i < 0 then "-" + NatToDecimal(-i) else NatToDecimal(i)
  }

  /** Reads an optional minus sign and digits back as an integer. */
  function SignedDecimalValue(s: string): int
    requires s != [] && (s[0] == '-' || IsDigit(s[0]))
    requires forall i :: 1 <= i < |s| ==> IsDigit(s[i])
  {
    var magnitude: int := if s[0] == '-' then DecimalValue(s[1..]) else DecimalValue(s);
    if s[0] == '-' then -magnitude else magnitude
  }

  lemma {:induction false} IntDecimalRoundTrip(i: int)
    ensures var r := IntToDecimal(i);
      (r[0] == '-' || IsDigit(r[0])) && (forall k :: 1 <= k < |r| ==> IsDigit(r[k]))
      && SignedDecimalValue(r) == i
  {
    if i < 0 {
      var digits := NatToDecimal(-i);
      var r := "-" + digits;
      assert r[1..] == digits;
      DecimalRoundTrip(-i);
      assert SignedDecimalValue(r) == -(DecimalValue(digits) as int);
    } else {
      DecimalRoundTrip(i);
    }
  }
}
