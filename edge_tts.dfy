/**
 * The framing rules of the remote speech service: the prosody rate string and the SSML
 * document sent for one chunk, the two-byte big-endian header in front of every binary
 * audio frame, the word-boundary entries carried by metadata text frames, and the rule
 * that decides, when the socket closes, whether the synthesis resolves with the audio
 * collected so far or is rejected. JSON parsing is the parameter `parse`; the socket itself
 * is replaced by the sequence of frames it delivers.
 */
module EdgeTts {
  import opened Wrappers
  import opened Text

  newtype byte = x: int | 0 <= x < 256

  /** The WebSocket close code of a normal closure. */
  const NormalClose: int := 1000
  const MetadataPath: string := "Path:audio.metadata"
  const TurnEndPath: string := "Path:turn.end"
  /** The blank line between a text frame's headers and its JSON body. */
  const HeaderSeparator: string := "\r\n\r\n"
  const WordBoundaryType: string := "WordBoundary"

  // ---- the rate string and the SSML document (`createSSML`) ----

  /** The prosody rate for a percentage change `p`: `+p%` from 0 up, `p%` (with its minus) below. */
  function RateString(p: int): (r: string)
    ensures |r| >= 3 && r[|r| - 1] == '%'
    ensures p >= 0 <==> r[0] == '+'
    ensures p < 0 <==> r[0] == '-'
  {
    if p >= 0 then "+" + IntToDecimal(p) + "%" else IntToDecimal(p) + "%"
  }

  /** Reads a rate string back as its percentage; `None` when it is not of that shape. */
  function ParseRate(s: string): Option<int> {
    if |s| < 3 || s[|s| - 1] != '%' || !(s[0] == '+' || s[0] == '-') then None
    else
      var digits := s[1..|s| - 1];
      if forall i :: 0 <= i < |digits| ==> IsDigit(digits[i]) then
        Some(if s[0] == '+' then DecimalValue(digits) as int else -(DecimalValue(digits) as int))
      else None
  }

  /** The rate string determines the percentage it was made from. */
  lemma {:induction false} RateRoundTrip(p: int)
    ensures ParseRate(RateString(p)) == Some(p)
  {
    var r := RateString(p);
    if p >= 0 {
      assert r[1..|r| - 1] == NatToDecimal(p);
      DecimalRoundTrip(p);
    } else {
      assert r[1..|r| - 1] == NatToDecimal(-p);
      DecimalRoundTrip(-p);
    }
  }

  /** The two examples of the comment on `rateToString`, with 0 as the boundary case. */
  lemma {:induction false} RateExamples()
    ensures RateString(50) == "+50%" && RateString(-20) == "-20%" && RateString(0) == "+0%"
  {
    assert NatToDecimal(50) == NatToDecimal(5) + ['0'];
    assert NatToDecimal(20) == NatToDecimal(2) + ['0'];
  }

  /** The opening tag; its first character is written apart so that proofs can read it. */
  const SpeakOpen: string :=
    "<" + "speak version='1.0' xmlns='http://www.w3.org/2001/10/synthesis' xml:lang='vi-VN'>"

  function Prosody(rate: string, text: string): string {
    "<prosody rate='" + rate + "'>" + text + "</prosody>"
  }

  function Voice(voice: string, inner: string): string {
    "<voice name='" + voice + "'>\n            " + inner + "\n        </voice>"
  }

  function Speak(inner: string): string {
    SpeakOpen + "\n        " + inner + "\n    </speak>"
  }

  /**
   * The template literal of `createSSML`, cut where its three elements open and close:
   * a line break and four spaces on either side of the speak element.
   */
  function SsmlTemplate(text: string, voice: string, rate: string): string {
    "\n    " + Speak(Voice(voice, Prosody(rate, text))) + "\n    "
  }

  /**
   * `createSSML`: the chunk's text, unescaped, inside a prosody element carrying the rate,
   * inside the voice element, inside the `vi-VN` speak element; `trim` removes only the
   * template's outer indentation, whatever the text holds.
   */
  function CreateSsml(text: string, voice: string, p: int): (r: string)
    ensures r == Speak(Voice(voice, Prosody(RateString(p), text)))
    ensures StartsWith(r, SpeakOpen)
  {
    var rate := RateString(p);
    SsmlTrim(text, voice, rate);
    Trim(SsmlTemplate(text, voice, rate))
  }

  lemma {:induction false} SsmlTrim(text: string, voice: string, rate: string)
    ensures var core := Speak(Voice(voice, Prosody(rate, text)));
      Trim(SsmlTemplate(text, voice, rate)) == core && StartsWith(core, SpeakOpen)
  {
    var core := Speak(Voice(voice, Prosody(rate, text)));
    var pad := "\n    ";
    var close := "\n    </speak>";
    assert core == SpeakOpen + ("\n        " + Voice(voice, Prosody(rate, text))) + close;
    assert SpeakOpen[0] == '<';
    assert core[0] == SpeakOpen[0];
    assert core[|core| - 1] == close[|close| - 1] == '>';
    assert IsTrimmed(core);
    assert core[..|SpeakOpen|] == SpeakOpen;
    assert AllWs(pad);
    TrimPadded(pad, core, pad);
  }

  // ---- binary audio frames ----

  /** `view.getUint16(0)`: the big-endian length of the frame's headers. */
  function HeaderLength(frame: seq<byte>): nat
    requires |frame| >= 2
  {
    frame[0] as int * 256 + frame[1] as int
  }

  /**
   * The audio a binary frame adds: the bytes after the length field and the headers, when
   * there are any. A frame too short to hold the length field makes `getUint16` throw, so
   * the handler stops and adds nothing either.
   */
  function AudioPayload(frame: seq<byte>): (r: Option<seq<byte>>)
    ensures r.Some? <==> |frame| >= 2 && |frame| > HeaderLength(frame) + 2
    ensures r.Some? ==> r.value != [] && frame == frame[..HeaderLength(frame) + 2] + r.value
  {
    if |frame| < 2 || |frame| <= HeaderLength(frame) + 2 then None
    else
      var h := HeaderLength(frame);
      assert frame == frame[..h + 2] + frame[h + 2..];
      Some(frame[h + 2..])
  }

  /** A frame as the service sends it: the header length, the headers, then the audio. */
  function MakeBinaryFrame(headers: seq<byte>, audio: seq<byte>): (f: seq<byte>)
    requires |headers| < 65536
    ensures |f| == 2 + |headers| + |audio|
  {
    [(|headers| / 256) as byte, (|headers| % 256) as byte] + headers + audio
  }

  /** Stripping the header gives back exactly the audio that was framed, if any. */
  lemma {:induction false} FrameRoundTrip(headers: seq<byte>, audio: seq<byte>)
    requires |headers| < 65536
    ensures var f := MakeBinaryFrame(headers, audio);
      HeaderLength(f) == |headers|
      && AudioPayload(f) == (if audio == [] then None else Some(audio))
  {
    var f := MakeBinaryFrame(headers, audio);
    assert HeaderLength(f) == |headers|;
    assert f[|headers| + 2..] == audio;
  }

  // ---- metadata text frames ----

  /** One element of the `Metadata` array: its `Type` and its `Data`, the latter kept as text. */
  datatype MetaEntry = MetaEntry(kind: string, data: string)

  /** The JSON body of a metadata frame: everything after the first blank line. */
  function MetadataPayload(s: string): (r: Option<string>)
    ensures r.Some? <==> Contains(s, MetadataPath) && Contains(s, HeaderSeparator)
    ensures r.Some? ==>
      var j := IndexOf(s, HeaderSeparator);
      0 <= j && r.value == s[j + |HeaderSeparator|..]
  {
    if !Contains(s, MetadataPath) then None
    else
      var j := IndexOf(s, HeaderSeparator);
      IndexOfContains(s, HeaderSeparator);
      if j == -1 then None else Some(s[j + |HeaderSeparator|..])
  }

  /** `indexOf` finds the pattern exactly when the string contains it. */
  lemma {:induction false} IndexOfContains(s: string, pattern: string)
    ensures IndexOf(s, pattern) >= 0 <==> Contains(s, pattern)
  {
    var j := IndexOf(s, pattern);
    if Contains(s, pattern) {
      var i :| 0 <= i <= |s| - |pattern| && OccursAt(s, pattern, i);
      assert j != -1;
    }
  }

  /** The `Data` of the `WordBoundary` entries, in order. */
  function WordBoundariesOf(entries: seq<MetaEntry>): (r: seq<string>)
    ensures |r| <= |entries|
    ensures forall d :: d in r <==>
      exists i :: 0 <= i < |entries| && entries[i].kind == WordBoundaryType && entries[i].data == d
  {
    if entries == [] then []
    else
      var rest := WordBoundariesOf(entries[1..]);
      assert forall i :: 0 < i < |entries| ==> entries[i] == entries[1..][i - 1];
      assert forall i :: 0 <= i < |entries| - 1 ==> entries[1..][i] == entries[i + 1];
      if entries[0].kind == WordBoundaryType then [entries[0].data] + rest else rest
  }

  /** The entries of two arrays are collected as those of the first, then those of the second. */
  lemma {:induction false} WordBoundariesAppend(a: seq<MetaEntry>, b: seq<MetaEntry>)
    ensures WordBoundariesOf(a + b) == WordBoundariesOf(a) + WordBoundariesOf(b)
    decreases |a|
  {
    if a != [] {
      assert (a + b)[1..] == a[1..] + b;
      WordBoundariesAppend(a[1..], b);
    } else {
      assert a + b == b;
    }
  }

  // ---- the frames of one synthesis ----

  datatype Frame = TextFrame(text: string) | BinaryFrame(bytes: seq<byte>)

  /** The word boundaries a text frame adds; an unparseable body adds none. */
  function FrameBoundaries(f: Frame, parse: string -> Option<seq<MetaEntry>>): seq<string> {
    if f.BinaryFrame? then []
    else
      match MetadataPayload(f.text)
      case None => []
      case Some(body) =>
        match parse(body)
        case None => []
        case Some(entries) => WordBoundariesOf(entries)
  }

  /** The audio chunk a frame adds: none, or one non-empty chunk. */
  function FrameAudio(f: Frame): (r: seq<seq<byte>>)
    ensures |r| <= 1 && forall i :: 0 <= i < |r| ==> r[i] != []
  {
    if f.TextFrame? then []
    else
      match AudioPayload(f.bytes)
      case None => []
      case Some(a) => [a]
  }

  /** A text frame that is not metadata and carries the end of the turn asks for the close. */
  predicate RequestsClose(f: Frame) {
    f.TextFrame? && !Contains(f.text, MetadataPath) && Contains(f.text, TurnEndPath)
  }

  /** `audioChunks` after the frames: the payloads of the binary frames, in arrival order. */
  function AudioOf(frames: seq<Frame>): (r: seq<seq<byte>>)
    ensures forall i :: 0 <= i < |r| ==> r[i] != []
  {
    if frames == [] then [] else AudioOf(frames[..|frames| - 1]) + FrameAudio(frames[|frames| - 1])
  }

  /** No chunk is collected exactly when no frame carried audio. */
  lemma {:induction false} NoAudioIff(frames: seq<Frame>)
    ensures AudioOf(frames) == [] <==> forall i :: 0 <= i < |frames| ==> FrameAudio(frames[i]) == []
  {
    if frames != [] {
      var init, last := frames[..|frames| - 1], frames[|frames| - 1];
      NoAudioIff(init);
      assert (AudioOf(frames) == []) == (AudioOf(init) == [] && FrameAudio(last) == []);
      if forall i :: 0 <= i < |frames| ==> FrameAudio(frames[i]) == [] {
        forall i | 0 <= i < |init| ensures FrameAudio(init[i]) == [] {
          assert init[i] == frames[i];
        }
      } else {
        var i :| 0 <= i < |frames| && FrameAudio(frames[i]) != [];
        if i < |init| {
          assert init[i] == frames[i];
        }
      }
    }
  }

  /** `wordBoundaries` after the frames. */
  function BoundariesOf(frames: seq<Frame>, parse: string -> Option<seq<MetaEntry>>): seq<string> {
    if frames == [] then []
    else BoundariesOf(frames[..|frames| - 1], parse) + FrameBoundaries(frames[|frames| - 1], parse)
  }

  /** All the audio bytes, chunk after chunk: the contents of the resolved blob. */
  function JoinChunks(chunks: seq<seq<byte>>): seq<byte> {
    if chunks == [] then [] else chunks[0] + JoinChunks(chunks[1..])
  }

  lemma {:induction false} JoinNonEmpty(chunks: seq<seq<byte>>)
    requires forall i :: 0 <= i < |chunks| ==> chunks[i] != []
    ensures JoinChunks(chunks) == [] <==> chunks == []
  {
    if chunks != [] {
      assert |JoinChunks(chunks)| >= |chunks[0]| > 0;
    }
  }

  // ---- the outcome ----

  datatype SynthesisError =
    | ClosedEarly(code: int)   // the socket closed abnormally before any audio arrived
    | ConnectionError          // the socket reported an error

  datatype Outcome = Resolved(audio: seq<byte>, boundaries: seq<string>) | Rejected(error: SynthesisError)

  /** `onclose`: reject exactly when no audio arrived and the closure was not normal. */
  function CloseDecision(chunks: seq<seq<byte>>, boundaries: seq<string>, code: int): (o: Outcome)
    ensures o.Rejected? <==> chunks == [] && code != NormalClose
    ensures o.Rejected? ==> o.error == ClosedEarly(code)
    ensures o.Resolved? ==> o.audio == JoinChunks(chunks) && o.boundaries == boundaries
  {
    if chunks == [] && code != NormalClose then Rejected(ClosedEarly(code))
    else Resolved(JoinChunks(chunks), boundaries)
  }

  /**
   * A resolved synthesis that delivered no audio at all can only come from a normal
   * closure: an abnormal one with nothing collected is always rejected.
   */
  lemma {:induction false} SilentResolveNeedsNormalClose(frames: seq<Frame>, parse: string -> Option<seq<MetaEntry>>,
                                      code: int)
    ensures var o := CloseDecision(AudioOf(frames), BoundariesOf(frames, parse), code);
      o.Resolved? && o.audio == [] ==> code == NormalClose
  {
    JoinNonEmpty(AudioOf(frames));
  }

  /**
   * The state `synthesize` keeps for one request. The promise settles once: whichever of
   * `onerror` and `onclose` comes first decides it, and later calls change nothing.
   */
  class SynthesisSession {
    var audioChunks: seq<seq<byte>>
    var wordBoundaries: seq<string>
    var closeRequested: bool
    var outcome: Option<Outcome>

    constructor ()
      ensures audioChunks == [] && wordBoundaries == [] && !closeRequested && outcome == None
    {
      audioChunks := [];
      wordBoundaries := [];
      closeRequested := false;
      outcome := None;
    }

    /** `onmessage`: collect the frame's audio or word boundaries, close on the end of the turn. */
    method OnMessage(f: Frame, parse: string -> Option<seq<MetaEntry>>)
      modifies this
      ensures audioChunks == old(audioChunks) + FrameAudio(f)
      ensures wordBoundaries == old(wordBoundaries) + FrameBoundaries(f, parse)
      ensures closeRequested == (old(closeRequested) || RequestsClose(f))
      ensures outcome == old(outcome)
    {
      match f
      case TextFrame(s) =>
        if Contains(s, MetadataPath) {
          var body := MetadataPayload(s);
          if body.Some? {
            var entries := parse(body.value);
            if entries.Some? {
              wordBoundaries := wordBoundaries + WordBoundariesOf(entries.value);
            }
          }
        } else if Contains(s, TurnEndPath) {
          closeRequested := true;
        }
      case BinaryFrame(bytes) =>
        var payload := AudioPayload(bytes);
        if payload.Some? {
          audioChunks := audioChunks + [payload.value];
        }
    }

    /** `onerror`: reject, unless the promise has already settled. */
    method OnError()
      modifies this
      ensures outcome == if old(outcome).None? then Some(Rejected(ConnectionError)) else old(outcome)
      ensures audioChunks == old(audioChunks) && wordBoundaries == old(wordBoundaries)
      ensures closeRequested == old(closeRequested)
    {
      if outcome.None? {
        outcome := Some(Rejected(ConnectionError));
      }
    }

    /** `onclose`: decide from what was collected, unless the promise has already settled. */
    method OnClose(code: int)
      modifies this
      ensures outcome == if old(outcome).None? then Some(CloseDecision(audioChunks, wordBoundaries, code))
                         else old(outcome)
      ensures audioChunks == old(audioChunks) && wordBoundaries == old(wordBoundaries)
      ensures closeRequested == old(closeRequested)
    {
      if outcome.None? {
        outcome := Some(CloseDecision(audioChunks, wordBoundaries, code));
      }
    }
  }

  /** Does one of the first `k` frames ask for the close? */
  predicate ClosesWithin(frames: seq<Frame>, k: nat)
    requires k <= |frames|
  {
    exists i :: 0 <= i < k && RequestsClose(frames[i])
  }

  /** The collected state after one more frame. */
  lemma {:induction false} OfSnoc(frames: seq<Frame>, parse: string -> Option<seq<MetaEntry>>, i: nat)
    requires i < |frames|
    ensures AudioOf(frames[..i + 1]) == AudioOf(frames[..i]) + FrameAudio(frames[i])
    ensures BoundariesOf(frames[..i + 1], parse) == BoundariesOf(frames[..i], parse) + FrameBoundaries(frames[i], parse)
    ensures ClosesWithin(frames, i + 1) == (ClosesWithin(frames, i) || RequestsClose(frames[i]))
  {
    var front := frames[..i + 1];
    assert front[..i] == frames[..i] && front[i] == frames[i];
    AudioSnoc(front);
    BoundariesSnoc(front, parse);
    if RequestsClose(frames[i]) {
      assert 0 <= i < i + 1 && RequestsClose(frames[i]);
    } else if ClosesWithin(frames, i + 1) {
      var j :| 0 <= j < i + 1 && RequestsClose(frames[j]);
      assert j != i;
    }
  }

  lemma {:induction false} AudioSnoc(frames: seq<Frame>)
    requires frames != []
    ensures AudioOf(frames) == AudioOf(frames[..|frames| - 1]) + FrameAudio(frames[|frames| - 1])
  {
  }

  lemma {:induction false} BoundariesSnoc(frames: seq<Frame>, parse: string -> Option<seq<MetaEntry>>)
    requires frames != []
    ensures BoundariesOf(frames, parse)
      == BoundariesOf(frames[..|frames| - 1], parse) + FrameBoundaries(frames[|frames| - 1], parse)
  {
  }

  /**
   * One synthesis from the socket's point of view: the frames arrive in order, an error is
   * reported or not, then the socket closes with `code`. The result is what the promise
   * settles to, and whether the handlers asked the socket to close.
   */
  method Synthesize(frames: seq<Frame>, parse: string -> Option<seq<MetaEntry>>, errored: bool,
                    code: int) returns (o: Outcome, closeRequested: bool)
    ensures errored ==> o == Rejected(ConnectionError)
    ensures !errored ==> o == CloseDecision(AudioOf(frames), BoundariesOf(frames, parse), code)
    ensures closeRequested == ClosesWithin(frames, |frames|)
  {
    var session := Receive(frames, parse);
    if errored {
      session.OnError();
    }
    session.OnClose(code);
    o := session.outcome.value;
    closeRequested := session.closeRequested;
  }

  /** A fresh session that has been handed every frame, in order, and has not settled. */
  method Receive(frames: seq<Frame>, parse: string -> Option<seq<MetaEntry>>)
    returns (session: SynthesisSession)
    ensures fresh(session)
    ensures session.audioChunks == AudioOf(frames)
    ensures session.wordBoundaries == BoundariesOf(frames, parse)
    ensures session.closeRequested == ClosesWithin(frames, |frames|)
    ensures session.outcome == None
  {
    session := new SynthesisSession();
    for i := 0 to |frames|
      invariant Received(session, frames, parse, i)
    {
      Deliver(session, frames, parse, i);
    }
    assert frames[..|frames|] == frames;
  }

  /** `session` has been handed the first `k` frames and has not settled. */
  predicate Received(session: SynthesisSession, frames: seq<Frame>,
                     parse: string -> Option<seq<MetaEntry>>, k: nat)
    requires k <= |frames|
    reads session
  {
    && session.audioChunks == AudioOf(frames[..k])
    && session.wordBoundaries == BoundariesOf(frames[..k], parse)
    && session.closeRequested == ClosesWithin(frames, k)
    && session.outcome == None
  }

  /** Hands frame `i` to `onmessage`. */
  method Deliver(session: SynthesisSession, frames: seq<Frame>,
                 parse: string -> Option<seq<MetaEntry>>, i: nat)
    requires i < |frames| && Received(session, frames, parse, i)
    modifies session
    ensures Received(session, frames, parse, i + 1)
  {
    OfSnoc(frames, parse, i);
    session.OnMessage(frames[i], parse);
  }
}
