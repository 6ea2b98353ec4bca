/**
 * The API-key fall-through of the translation request. The configured keys are tried in
 * order. A key that hits its quota (HTTP 429) is skipped without recording an error; any
 * other failure is recorded and the next key is tried; the first successful reply is
 * cleaned up and returned. When every key fails, the last recorded error is reported, or
 * a generic one when only quota replies were seen. The HTTP exchange for a key is the
 * parameter `reply`, and JavaScript's case-insensitive matching compares the characters
 * mapped by the parameter `canon`.
 */
module Translation {
  import opened Wrappers
  import opened Text

  /** What parsing the JSON body gave: unparseable, or the first candidate's text if any. */
  datatype Body = Unparseable(message: string) | Parsed(text: Option<string>)

  /** The outcome of one request: the network failed, or a status and a body arrived. */
  datatype Reply = NetworkFailure(message: string) | Reply(status: int, body: Body)

  datatype TranslationError =
    | NoKey                      // "Cần nhập ít nhất 1 API Key."
    | ApiStatus(status: int)     // "Lỗi API: <status>"
    | RequestFailed(message: string)
    | AllKeysFailed              // the generic message when no error was recorded

  const QuotaStatus: int := 429
  /** The most characters `.{0,50}` lets the preamble line carry after its opening words. */
  const PreambleSlack: nat := 50

  /** The opening words of a preamble the model likes to add, in the regex's order. */
  const Preambles: seq<string> := [
    "\U{110}\U{E2}y l\U{E0} b\U{1EA3}n d\U{1ECB}ch",   // "Đây là bản dịch"
    "D\U{1B0}\U{1EDB}i \U{111}\U{E2}y l\U{E0}",         // "Dưới đây là"
    "B\U{1EA3}n d\U{1ECB}ch:"                           // "Bản dịch:"
  ]

  // ---- sanitising the reply ----

  /** The characters `.` does not match. */
  predicate IsLineTerminator(c: char) {
    c == '\n' || c == '\r' || c == '\U{2028}' || c == '\U{2029}'
  }

  /** Does `s` start with `p`, comparing case-insensitively? */
  predicate StartsIgnoringCase(s: string, p: string, canon: char -> char) {
    |p| <= |s| && forall i :: 0 <= i < |p| ==> canon(s[i]) == canon(p[i])
  }

  /** The first line terminator at or after `from`, or -1. */
  function NextLineTerminator(s: string, from: nat): (j: int)
    requires from <= |s|
    ensures j == -1 || (from <= j < |s| && IsLineTerminator(s[j]))
    ensures forall i :: from <= i < |s| && (j == -1 || i < j) ==> !IsLineTerminator(s[i])
    decreases |s| - from
  {
    if from == |s| then -1
    else if IsLineTerminator(s[from]) then from
    else NextLineTerminator(s, from + 1)
  }

  /**
   * Where `^(alternatives).{0,50}\n` ends, trying the alternatives in order: after the
   * line feed that follows one of them within 50 characters of other text.
   */
  function PreambleEnd(t: string, alternatives: seq<string>, canon: char -> char): (e: Option<nat>)
    ensures e.Some? ==> 0 < e.value <= |t| && t[e.value - 1] == '\n'
    ensures e.Some? ==> exists a :: a in alternatives && StartsIgnoringCase(t, a, canon) && |a| < e.value
  {
    if alternatives == [] then None
    else
      var a := alternatives[0];
      var j := if StartsIgnoringCase(t, a, canon) then NextLineTerminator(t, |a|) else -1;
      if j >= 0 && j - |a| <= PreambleSlack && t[j] == '\n' then Some(j + 1)
      else
        var rest := PreambleEnd(t, alternatives[1..], canon);
        assert rest.Some? ==> exists b :: b in alternatives[1..] && StartsIgnoringCase(t, b, canon) && |b| < rest.value;
        rest
  }

  /**
   * `^a.{0,50}\n` matches `t` ending at `e`: `t` opens with `a`, and the first line
   * terminator after it is a line feed at `e - 1`, at most 50 characters further on.
   */
  predicate PreambleMatch(t: string, a: string, canon: char -> char, e: int) {
    StartsIgnoringCase(t, a, canon) && |a| < e <= |t| && e - 1 - |a| <= PreambleSlack &&
    t[e - 1] == '\n' && forall i :: |a| <= i < e - 1 ==> !IsLineTerminator(t[i])
  }

  /** An alternative matches at most once, where the line after it first ends. */
  lemma PreambleMatchIsFirstLineEnd(t: string, a: string, canon: char -> char, e: int)
    ensures PreambleMatch(t, a, canon, e) <==>
      StartsIgnoringCase(t, a, canon) &&
      var j := NextLineTerminator(t, |a|);
      j >= 0 && e == j + 1 && j - |a| <= PreambleSlack && t[j] == '\n'
  {
    if StartsIgnoringCase(t, a, canon) {
      var j := NextLineTerminator(t, |a|);
      if PreambleMatch(t, a, canon, e) {
        assert IsLineTerminator(t[e - 1]);
      }
    }
  }

  /** No alternative matches anywhere. */
  ghost predicate NoneMatch(t: string, alternatives: seq<string>, canon: char -> char) {
    forall i, k :: 0 <= i < |alternatives| ==> !PreambleMatch(t, alternatives[i], canon, k)
  }

  /** Alternative `i` matches, ending at `e`, and none before it matches anywhere. */
  ghost predicate FirstMatch(t: string, alternatives: seq<string>, canon: char -> char, i: int, e: int) {
    0 <= i < |alternatives| && PreambleMatch(t, alternatives[i], canon, e) &&
    forall j, k :: 0 <= j < i ==> !PreambleMatch(t, alternatives[j], canon, k)
  }

  /**
   * The regex's alternation: the result is the end of the first alternative that matches,
   * and there is none exactly when no alternative matches anywhere.
   */
  lemma {:induction false} PreambleEndFirstMatch(t: string, alternatives: seq<string>, canon: char -> char)
    ensures var e := PreambleEnd(t, alternatives, canon);
      (e.None? <==> NoneMatch(t, alternatives, canon))
      && (e.Some? ==> exists i :: FirstMatch(t, alternatives, canon, i, e.value))
    decreases |alternatives|
  {
    if alternatives != [] {
      var a := alternatives[0];
      var rest := alternatives[1..];
      var j := if StartsIgnoringCase(t, a, canon) then NextLineTerminator(t, |a|) else -1;
      if j >= 0 && j - |a| <= PreambleSlack && t[j] == '\n' {
        assert PreambleEnd(t, alternatives, canon) == Some(j + 1);
        PreambleMatchIsFirstLineEnd(t, a, canon, j + 1);
        FirstAlternativeMatches(t, alternatives, canon, j + 1);
      } else {
        assert PreambleEnd(t, alternatives, canon) == PreambleEnd(t, rest, canon);
        PreambleEndFirstMatch(t, rest, canon);
        forall k ensures !PreambleMatch(t, a, canon, k) {
          PreambleMatchIsFirstLineEnd(t, a, canon, k);
        }
        LaterMatch(t, alternatives, canon, PreambleEnd(t, rest, canon));
      }
    }
  }

  /** A match of the first alternative is the first match. */
  lemma FirstAlternativeMatches(t: string, alternatives: seq<string>, canon: char -> char, e: int)
    requires alternatives != [] && PreambleMatch(t, alternatives[0], canon, e)
    ensures !NoneMatch(t, alternatives, canon) && FirstMatch(t, alternatives, canon, 0, e)
  {
  }

  /** When the first alternative matches nowhere, what holds of the rest holds of them all. */
  lemma LaterMatch(t: string, alternatives: seq<string>, canon: char -> char, e: Option<nat>)
    requires alternatives != [] && forall k :: !PreambleMatch(t, alternatives[0], canon, k)
    requires e.None? <==> NoneMatch(t, alternatives[1..], canon)
    requires e.Some? ==> exists i :: FirstMatch(t, alternatives[1..], canon, i, e.value)
    ensures e.None? <==> NoneMatch(t, alternatives, canon)
    ensures e.Some? ==> exists i :: FirstMatch(t, alternatives, canon, i, e.value)
  {
    var rest := alternatives[1..];
    assert forall i :: 1 <= i < |alternatives| ==> alternatives[i] == rest[i - 1];
    if e.Some? {
      var i :| FirstMatch(t, rest, canon, i, e.value);
      assert alternatives[i + 1] == rest[i];
      assert FirstMatch(t, alternatives, canon, i + 1, e.value);
    }
  }

  /** `.replace(/^(Đây là bản dịch|Dưới đây là|Bản dịch:).{0,50}\n/i, '')`. */
  function StripPreamble(t: string, canon: char -> char): (r: string)
    ensures |r| <= |t| && r == t[|t| - |r|..]
    ensures (forall a :: a in Preambles ==> !StartsIgnoringCase(t, a, canon)) ==> r == t
  {
    match PreambleEnd(t, Preambles, canon)
    case None => t
    case Some(e) => t[e..]
  }

  /**
   * The replacement removes exactly the preamble's first line, through its line feed, and
   * leaves a reply that opens with none of the preambles untouched.
   */
  lemma StripPreambleDropsFirstLine(t: string, canon: char -> char)
    ensures var r := StripPreamble(t, canon);
      r == t <==> NoneMatch(t, Preambles, canon)
    ensures var r := StripPreamble(t, canon);
      r != t ==> exists i, e :: e == |t| - |r| && FirstMatch(t, Preambles, canon, i, e)
  {
    PreambleEndFirstMatch(t, Preambles, canon);
  }

  /** The reply text as the reader keeps it: no preamble line, no `**`, no outer blanks. */
  function Sanitize(t: string, canon: char -> char): (r: string)
    ensures IsTrimmed(r)
    ensures forall i :: 0 <= i < |r| - 1 ==> !(r[i] == '*' && r[i + 1] == '*')
  {
    var body := RemoveBold(StripPreamble(t, canon));
    var r := Trim(body);
    NoBoldSurvivesTrim(body);
    r
  }

  /** `trim` cuts a contiguous piece out of its input, so it joins no two characters. */
  lemma {:induction false} NoBoldSurvivesTrim(s: string)
    requires forall i :: 0 <= i < |s| - 1 ==> !(s[i] == '*' && s[i + 1] == '*')
    ensures var r := Trim(s); forall i :: 0 <= i < |r| - 1 ==> !(r[i] == '*' && r[i + 1] == '*')
  {
    var a := TrimStart(s);
    var r := TrimEnd(a);
    var lo := |s| - |a|;
    assert forall i :: 0 <= i < |r| ==> r[i] == s[lo + i];
  }

  /** Sanitising drops only blanks, asterisks and the preamble line: the rest is kept in order. */
  lemma SanitizeKeepsContent(t: string, canon: char -> char)
    ensures var p := StripPreamble(t, canon);
      Without(StripWs(Sanitize(t, canon)), '*') == Without(StripWs(p), '*')
  {
    var p := StripPreamble(t, canon);
    var body := RemoveBold(p);
    RemoveBoldKeeps(p);
    StripWsWithoutCommute(Sanitize(t, canon), '*');
    StripWsWithoutCommute(body, '*');
    StripWsWithoutCommute(p, '*');
  }

  /** A reply with no preamble, no asterisk and no outer blanks comes back unchanged. */
  lemma SanitizeCleanReply(t: string, canon: char -> char)
    requires forall a :: a in Preambles ==> !StartsIgnoringCase(t, a, canon)
    requires '*' !in t && IsTrimmed(t)
    ensures Sanitize(t, canon) == t
  {
    assert StripPreamble(t, canon) == t;
    assert RemoveBold(t) == t;
    TrimFacts(t);
  }

  // ---- the key loop ----

  /** `apiKeys.filter(k => k && k.trim().length > 0)`. */
  function ValidKeys(keys: seq<string>): (r: seq<string>)
    ensures forall i :: 0 <= i < |r| ==> Trim(r[i]) != []
    ensures forall k :: k in r <==> k in keys && Trim(k) != []
  {
    if keys == [] then []
    else
      var rest := ValidKeys(keys[1..]);
      assert forall k :: k in keys <==> k == keys[0] || k in keys[1..];
      if Trim(keys[0]) != [] then [keys[0]] + rest else rest
  }

  /** The filter keeps the keys in order, duplicates included: it splits over concatenation. */
  lemma {:induction false} ValidKeysAppend(a: seq<string>, b: seq<string>)
    ensures ValidKeys(a + b) == ValidKeys(a) + ValidKeys(b)
    decreases |a|
  {
    if a == [] {
      assert a + b == b;
    } else {
      assert (a + b)[0] == a[0] && (a + b)[1..] == a[1..] + b;
      ValidKeysAppend(a[1..], b);
    }
  }

  /** A single key survives the filter exactly when it is not blank. */
  lemma ValidKeysSingle(k: string)
    ensures ValidKeys([k]) == if Trim(k) != [] then [k] else []
  {
    assert [k][1..] == [];
  }

  /** A reply that ends the loop: a status in 200-299 (not 429) with a parseable body. */
  predicate Answers(rep: Reply) {
    rep.Reply? && rep.status != QuotaStatus && 200 <= rep.status <= 299 && rep.body.Parsed?
  }

  /** The text returned for an answering reply: an absent or empty text gives "". */
  function AnswerText(rep: Reply, canon: char -> char): string
    requires Answers(rep)
  {
    match rep.body.text
    case None => ""
    case Some(t) => if t == [] then "" else Sanitize(t, canon)
  }

  /** The error a non-answering reply records; a quota reply records none. */
  function ErrorOf(rep: Reply): Option<TranslationError>
    requires !Answers(rep)
  {
    match rep
    case NetworkFailure(m) => Some(RequestFailed(m))
    case Reply(status, body) =>
      if status == QuotaStatus then None
      else if !(200 <= status <= 299) then Some(ApiStatus(status))
      else Some(RequestFailed(body.message))
  }

  /** The rest of the loop from a key on, with the error recorded so far. */
  function KeyLoop(keys: seq<string>, reply: string -> Reply, canon: char -> char,
                   lastError: Option<TranslationError>): (r: Result<string, TranslationError>)
    ensures r.Success? ==> exists i :: 0 <= i < |keys| && Answers(reply(keys[i]))
    ensures r.Failure? && lastError != Some(NoKey) ==> r.error != NoKey
    ensures r == Failure(AllKeysFailed) ==> lastError.None? || lastError == Some(AllKeysFailed)
    decreases |keys|
  {
    if keys == [] then Failure(if lastError.Some? then lastError.value else AllKeysFailed)
    else if Answers(reply(keys[0])) then Success(AnswerText(reply(keys[0]), canon))
    else
      var e := ErrorOf(reply(keys[0]));
      var r := KeyLoop(keys[1..], reply, canon, if e.Some? then e else lastError);
      assert r.Success? ==> exists i :: 1 <= i < |keys| && Answers(reply(keys[i])) by {
        if r.Success? {
          var i :| 0 <= i < |keys[1..]| && Answers(reply(keys[1..][i]));
          assert keys[1..][i] == keys[i + 1];
        }
      }
      r
  }

  /** What `fetchTranslation` resolves to, or the error it throws. */
  function Translate(keys: seq<string>, reply: string -> Reply, canon: char -> char)
    : (r: Result<string, TranslationError>)
    ensures r == Failure(NoKey) <==> ValidKeys(keys) == []
    ensures r.Success? ==> exists k :: k in keys && Trim(k) != [] && Answers(reply(k))
  {
    var valid := ValidKeys(keys);
    if valid == [] then Failure(NoKey) else KeyLoop(valid, reply, canon, None)
  }

  /** `fetchTranslation`: the loop over the valid keys. */
  method FetchTranslation(keys: seq<string>, reply: string -> Reply, canon: char -> char)
    returns (r: Result<string, TranslationError>)
    ensures r == Translate(keys, reply, canon)
  {
    var valid := ValidKeys(keys);
    if valid == [] {
      return Failure(NoKey);
    }
    var lastError: Option<TranslationError> := None;
    for i := 0 to |valid|
      invariant KeyLoop(valid, reply, canon, None) == KeyLoop(valid[i..], reply, canon, lastError)
    {
      var rep := reply(valid[i]);
      assert valid[i..][1..] == valid[i + 1..];
      if Answers(rep) {
        return Success(AnswerText(rep, canon));
      }
      var e := ErrorOf(rep);
      if e.Some? {
        lastError := e;
      }
    }
    r := Failure(if lastError.Some? then lastError.value else AllKeysFailed);
  }

  // ---- what the loop promises ----

  /** The last error a run of non-answering replies records, read from the end. */
  function LastRecorded(keys: seq<string>, reply: string -> Reply): Option<TranslationError>
    requires forall i :: 0 <= i < |keys| ==> !Answers(reply(keys[i]))
  {
    if keys == [] then None
    else
      var e := ErrorOf(reply(keys[|keys| - 1]));
      if e.Some? then e else LastRecorded(keys[..|keys| - 1], reply)
  }

  lemma {:induction false} LastRecordedCons(keys: seq<string>, reply: string -> Reply)
    requires keys != [] && forall i :: 0 <= i < |keys| ==> !Answers(reply(keys[i]))
    ensures var rest := LastRecorded(keys[1..], reply);
      LastRecorded(keys, reply) == if rest.Some? then rest else ErrorOf(reply(keys[0]))
    decreases |keys|
  {
    if |keys| > 1 {
      var init := keys[..|keys| - 1];
      assert init[1..] == keys[1..][..|keys[1..]| - 1];
      assert keys[1..][|keys[1..]| - 1] == keys[|keys| - 1];
      LastRecordedCons(init, reply);
    } else {
      assert keys[..0] == [];
    }
  }

  /** With no answer, the loop fails with the last recorded error after `lastError`. */
  lemma {:induction false} LoopFailsWithLast(keys: seq<string>, reply: string -> Reply,
                                             canon: char -> char, lastError: Option<TranslationError>)
    requires forall i :: 0 <= i < |keys| ==> !Answers(reply(keys[i]))
    ensures var rec := LastRecorded(keys, reply);
      var e := if rec.Some? then rec else lastError;
      KeyLoop(keys, reply, canon, lastError) == Failure(if e.Some? then e.value else AllKeysFailed)
    decreases |keys|
  {
    if keys != [] {
      var e := ErrorOf(reply(keys[0]));
      LoopFailsWithLast(keys[1..], reply, canon, if e.Some? then e else lastError);
      LastRecordedCons(keys, reply);
    }
  }

  /**
   * When no key answers, the request fails with the error of the last key that recorded
   * one, and with the generic error when every key only hit its quota.
   */
  lemma {:induction false} NoAnswerReportsLastError(keys: seq<string>, reply: string -> Reply, canon: char -> char)
    requires ValidKeys(keys) != []
    requires forall k :: k in ValidKeys(keys) ==> !Answers(reply(k))
    ensures var rec := LastRecorded(ValidKeys(keys), reply);
      Translate(keys, reply, canon) == Failure(if rec.Some? then rec.value else AllKeysFailed)
  {
    var valid := ValidKeys(keys);
    assert forall i :: 0 <= i < |valid| ==> valid[i] in valid;
    LoopFailsWithLast(valid, reply, canon, None);
  }

  /** A run in which every key hits its quota ends in the generic error. */
  lemma {:induction false} AllQuotaRecordsNothing(keys: seq<string>, reply: string -> Reply)
    requires forall i :: 0 <= i < |keys| ==> reply(keys[i]).Reply? && reply(keys[i]).status == QuotaStatus
    ensures LastRecorded(keys, reply) == None
    decreases |keys|
  {
    if keys != [] {
      AllQuotaRecordsNothing(keys[..|keys| - 1], reply);
    }
  }

  /** When every valid key hits its quota, the request fails with the generic error. */
  lemma {:induction false} AllQuotaFailsGenerically(keys: seq<string>, reply: string -> Reply, canon: char -> char)
    requires ValidKeys(keys) != []
    requires forall k :: k in ValidKeys(keys) ==> reply(k).Reply? && reply(k).status == QuotaStatus
    ensures Translate(keys, reply, canon) == Failure(AllKeysFailed)
  {
    var valid := ValidKeys(keys);
    assert forall i :: 0 <= i < |valid| ==> valid[i] in valid;
    AllQuotaRecordsNothing(valid, reply);
    NoAnswerReportsLastError(keys, reply, canon);
  }

  /** The first key that answers decides the result; the keys before it change nothing. */
  lemma {:induction false} FirstAnswerWins(keys: seq<string>, reply: string -> Reply,
                                           canon: char -> char, lastError: Option<TranslationError>,
                                           i: nat)
    requires i < |keys| && Answers(reply(keys[i]))
    requires forall j :: 0 <= j < i ==> !Answers(reply(keys[j]))
    ensures KeyLoop(keys, reply, canon, lastError) == Success(AnswerText(reply(keys[i]), canon))
    decreases i
  {
    if i > 0 {
      var e := ErrorOf(reply(keys[0]));
      assert forall j :: 0 <= j < i - 1 ==> keys[1..][j] == keys[j + 1];
      FirstAnswerWins(keys[1..], reply, canon, if e.Some? then e else lastError, i - 1);
    }
  }

  /** The request succeeds exactly when some valid key answers. */
  lemma {:induction false} SucceedsIffSomeKeyAnswers(keys: seq<string>, reply: string -> Reply,
                                                     canon: char -> char,
                                                     lastError: Option<TranslationError>)
    ensures KeyLoop(keys, reply, canon, lastError).Success? <==>
            exists i :: 0 <= i < |keys| && Answers(reply(keys[i]))
    decreases |keys|
  {
    if keys != [] {
      if !Answers(reply(keys[0])) {
        var e := ErrorOf(reply(keys[0]));
        SucceedsIffSomeKeyAnswers(keys[1..], reply, canon, if e.Some? then e else lastError);
        if exists i :: 0 <= i < |keys| && Answers(reply(keys[i])) {
          var i :| 0 <= i < |keys| && Answers(reply(keys[i]));
          assert keys[1..][i - 1] == keys[i];
        }
      }
    }
  }
}
