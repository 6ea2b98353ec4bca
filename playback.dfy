/**
 * The reader's playback state machine. With the browser engine, chunks become utterances
 * kept five ahead in the platform's speech queue; with the remote engine, chunks are
 * synthesised one at a time into audio URLs that an audio element plays. Each state change
 * of the component is a `State -> State` function here, and the `Player` class holds the
 * same state in fields, one method per handler, each proved to make exactly that change.
 *
 * The platform is explicit: the speech queue is a FIFO of utterances whose head the
 * platform starts, ends, fails or silently drops; `cancel()` empties it; a `setTimeout` is
 * a counter of pending calls, or a list of pending navigations; clocks are parameters.
 */
module Playback {
  import opened Wrappers
  import Watchdog

  /** `QUEUE_AHEAD`: how many utterances the browser engine keeps queued. */
  const QueueAhead: nat := 5

  datatype Engine = Browser | Edge

  /** An utterance object: `id` is its identity, `index` the chunk it speaks. */
  datatype Utterance = Utterance(id: nat, index: nat)

  datatype SpeechError = Interrupted | Canceled | OtherError(name: string)

  /** What `getEdgeAudio` does with an index before its first `await`. */
  datatype AudioRequest =
    | Invalid            // throws 'Invalid index'
    | Cached(url: string)
    | Joined             // awaits the synthesis already in flight
    | Started            // starts a synthesis and records it as in flight

  /** A `playEdgeChunk` waiting for its audio: the chunk and the play token it captured. */
  datatype PlayTicket = PlayTicket(index: nat, token: nat)

  /** The reading flags and position. */
  datatype Speech = Speech(
    speaking: bool,                 // isSpeaking
    paused: bool,                   // isPaused
    cursor: nat,                    // currentChunkIndexRef
    activeChunk: Option<nat>,       // activeChunkIndex
    activeChar: Option<int>,        // activeCharIndex
    lastEventAt: int)               // lastSpeechEventAtRef

  /** The browser engine: the platform's speech queue and the utterances still wanted. */
  datatype Synth = Synth(
    queue: seq<Utterance>,          // the platform's speech queue, head first
    active: set<Utterance>,         // activeUtterancesRef
    nextId: nat)                    // identity of the next utterance object

  /** What happens after the last chunk. */
  datatype Nav = Nav(
    autoMode: bool,                 // autoModeRef
    nextUrl: Option<string>,        // nextChapterUrl
    pendingNavs: seq<string>)       // scheduled `loadChapter(url, true)` calls

  datatype Timers = Timers(
    scheduledSpeaks: nat,           // scheduled `speakNextChunk()` calls
    stuckChecks: nat)               // the watchdog's consecutiveStuckChecks

  /** The remote engine: the play token, the audio element and the audio cache. */
  datatype Audio = Audio(
    token: nat,                     // playTokenRef
    src: string,                    // the audio element's source
    playing: bool,                  // the audio element is playing
    urls: map<nat, string>,         // audioCacheRef
    inFlight: set<nat>)             // the indices of audioInFlightRef

  /** The component's playback state: React state, refs, the platform queue and the audio element. */
  datatype State = State(chunks: seq<string>, engine: Engine, speech: Speech, synth: Synth,
                         nav: Nav, timers: Timers, audio: Audio)

  function Min(a: int, b: int): int { if a <= b then a else b }

  /** Where playback (re)starts: the cursor, or 0 once the cursor has run past the chunks. */
  function StartIndex(cursor: nat, n: nat): (s: nat)
    ensures s < n || (s == 0 && n == 0)
    ensures cursor < n ==> s == cursor
  {
    if cursor >= n then 0 else cursor
  }

  /** The utterances for chunks `lo` up to `hi`, created in order from identity `firstId`. */
  function Window(firstId: nat, lo: nat, hi: nat): (w: seq<Utterance>)
    requires lo <= hi
    ensures |w| == hi - lo
    ensures forall k :: 0 <= k < |w| ==> w[k] == Utterance(firstId + k, lo + k)
  {
    seq(hi - lo, k requires 0 <= k < hi - lo => Utterance(firstId + k, lo + k))
  }

  function Elems(q: seq<Utterance>): set<Utterance> {
    set u | u in q
  }

  // ---- the browser engine ----

  /** `scheduleNext(index)`: a new active utterance at the back of the queue, if the index is a chunk. */
  function AfterScheduleNext(v: State, index: int): State {
    if 0 <= index < |v.chunks| then
      var u := Utterance(v.synth.nextId, index);
      v.(synth := Synth(v.synth.queue + [u], v.synth.active + {u}, v.synth.nextId + 1))
    else v
  }

  /** `speechSynthesis.cancel()` followed by `activeUtterancesRef.current.clear()`. */
  function Cleared(v: State): State {
    v.(synth := v.synth.(queue := [], active := {}))
  }

  /** The calls `scheduleNext(s)`, ..., `scheduleNext(s + k - 1)`, one after another. */
  function ScheduleRun(v: State, s: nat, k: nat): State
    decreases k
  {
    if k == 0 then v else AfterScheduleNext(ScheduleRun(v, s, k - 1), s + k - 1)
  }

  /** `speakNextChunk`: clear everything, then queue the five chunks from the start index. */
  function AfterSpeakNextChunk(v: State): State {
    ScheduleRun(Cleared(v), StartIndex(v.speech.cursor, |v.chunks|), QueueAhead)
  }

  /**
   * Did a handler change React state, so that the component renders again? Only the
   * flags, the highlighted chunk and character, the engine and the chunks are state; the
   * cursor, the queue, the timers and the audio are refs or live outside React.
   */
  predicate Rerendered(before: State, after: State) {
    || before.speech.speaking != after.speech.speaking || before.speech.paused != after.speech.paused
    || before.speech.activeChunk != after.speech.activeChunk
    || before.speech.activeChar != after.speech.activeChar
    || before.engine != after.engine || before.chunks != after.chunks
  }

  /**
   * Every render recreates `speakNextChunk` (it depends on `loadChapter`, a plain function
   * of the component), so the watchdog effect is re-run with a fresh counter after any
   * handler that changes React state.
   */
  function Rewatched(before: State, after: State): State {
    if Rerendered(before, after) then after.(timers := after.timers.(stuckChecks := 0))
    else after
  }

  /** `utterance.onstart`; it has no active-set guard. */
  function AfterOnStart(v: State, u: Utterance, now: int): State {
    Rewatched(v, v.(speech := v.speech.(cursor := u.index, activeChunk := Some(u.index), activeChar := Some(0),
                                        lastEventAt := now)))
  }

  /** `utterance.onboundary`. */
  function AfterOnBoundary(v: State, isWord: bool, charIndex: int, now: int): State {
    Rewatched(v, v.(speech := v.speech.(lastEventAt := now,
                                        activeChar := if isWord then Some(charIndex) else v.speech.activeChar)))
  }

  /** The end of the chapter: advance after a delay in auto mode, else stop. */
  function ChapterEnd(v: State): State {
    if v.nav.autoMode && v.nav.nextUrl.Some? then
      v.(nav := v.nav.(pendingNavs := v.nav.pendingNavs + [v.nav.nextUrl.value]))
    else v.(speech := v.speech.(speaking := false, paused := false))
  }

  /** `onend` up to the end-of-chapter test: forget the utterance and queue five ahead. */
  function EndedBody(v: State, u: Utterance): State {
    AfterScheduleNext(v.(synth := v.synth.(active := v.synth.active - {u}),
                         speech := v.speech.(activeChar := None)), u.index + QueueAhead)
  }

  /** `utterance.onend`: ignored unless active; keeps the queue five ahead; ends the chapter. */
  function AfterOnEnd(v: State, u: Utterance): State {
    if u !in v.synth.active then v
    else
      var w := EndedBody(v, u);
      Rewatched(v, if u.index == |v.chunks| - 1 then ChapterEnd(w) else w)
  }

  /** `utterance.onerror`: ignored unless active; a real error skips to the next chunk. */
  function AfterOnError(v: State, u: Utterance, e: SpeechError): State {
    if u !in v.synth.active then v
    else
      var w := v.(synth := v.synth.(active := v.synth.active - {u}));
      if e == Interrupted || e == Canceled then w else AfterScheduleNext(w, u.index + 1)
  }

  // ---- the remote engine ----

  /** `getEdgeAudio` up to its first `await`. */
  function Lookup(urls: map<nat, string>, inFlight: set<nat>, index: int, n: nat): (r: AudioRequest)
    ensures r.Invalid? <==> !(0 <= index < n)
    ensures r.Cached? <==> 0 <= index < n && index in urls
    ensures r.Cached? ==> r.url == urls[index]
    ensures r.Joined? <==> 0 <= index < n && index !in urls && index in inFlight
    ensures r.Started? <==> 0 <= index < n && index !in urls && index !in inFlight
  {
    if !(0 <= index < n) then Invalid
    else if index in urls then Cached(urls[index])
    else if index in inFlight then Joined
    else Started
  }

  /** The state after `getEdgeAudio(index)` starts: a started synthesis is recorded in flight. */
  function AfterRequestAudio(v: State, index: int): State {
    if Lookup(v.audio.urls, v.audio.inFlight, index, |v.chunks|).Started? then
      v.(audio := v.audio.(inFlight := v.audio.inFlight + {index}))
    else v
  }

  /** A synthesis settles: the in-flight entry goes, and a success is cached. */
  function AfterSettleAudio(v: State, index: nat, url: Option<string>): State {
    v.(audio := v.audio.(inFlight := v.audio.inFlight - {index},
                         urls := if url.Some? then v.audio.urls[index := url.value] else v.audio.urls))
  }

  /** The ticket `playEdgeChunk(index)` waits with, if the index is a chunk. */
  function PlayEdgeTicket(v: State, index: int): Option<PlayTicket> {
    if 0 <= index < |v.chunks| then Some(PlayTicket(index, v.audio.token)) else None
  }

  /** `playEdgeChunk(index)` up to its first `await`. */
  function AfterPlayEdgeBegin(v: State, index: int): State {
    if 0 <= index < |v.chunks| then
      Rewatched(v, AfterRequestAudio(v.(speech := v.speech.(activeChunk := Some(index), activeChar := None,
                                                            cursor := index)), index))
    else v
  }

  /**
   * The rest of `playEdgeChunk`, once `getEdgeAudio` has given `url` (or failed) and, if it
   * was set as the source, `audio.play()` has succeeded or not. A completion whose token is
   * no longer current changes nothing; a successful play prefetches the next two chunks.
   */
  function AfterPlayEdgeFinish(v: State, t: PlayTicket, url: Option<string>, playOk: bool): State {
    if url.None? || v.audio.token != t.token then v
    else if !playOk then v.(audio := v.audio.(src := url.value))
    else AfterRequestAudio(AfterRequestAudio(v.(audio := v.audio.(src := url.value, playing := true)),
                                             t.index + 1), t.index + 2)
  }

  /** The audio element's `onEnded`: play the next chunk or end the chapter. */
  function AfterEdgeAudioEnded(v: State): State {
    var w := v.(audio := v.audio.(playing := false));
    if v.engine != Edge || !v.speech.speaking || v.speech.paused then w
    else if v.speech.cursor + 1 >= |v.chunks| then Rewatched(v, ChapterEnd(w))
    else AfterPlayEdgeBegin(w, v.speech.cursor + 1)
  }

  function EdgeAudioEndedTicket(v: State): Option<PlayTicket> {
    if v.engine != Edge || !v.speech.speaking || v.speech.paused || v.speech.cursor + 1 >= |v.chunks| then None
    else PlayEdgeTicket(v, v.speech.cursor + 1)
  }

  // ---- the controls ----

  /** `stopSpeech`. */
  function AfterStopSpeech(v: State): State {
    Rewatched(v, Cleared(v).(audio := v.audio.(token := v.audio.token + 1, playing := false, src := ""),
                             speech := v.speech.(speaking := false, paused := false, activeChunk := None,
                                                 activeChar := None, cursor := 0)))
  }

  /** `toggleSpeech`: pause, resume or start, on either engine; nothing without chunks. */
  function AfterToggleSpeech(v: State): State {
    var n := |v.chunks|;
    var s := StartIndex(v.speech.cursor, n);
    if n == 0 then v
    else if v.engine == Edge then
      if v.speech.speaking && !v.speech.paused then
        Rewatched(v, v.(audio := v.audio.(playing := false), speech := v.speech.(paused := true)))
      else if v.speech.paused then
        var w := v.(speech := v.speech.(paused := false));
        Rewatched(v, if v.audio.src != "" then w.(audio := w.audio.(playing := true)) else AfterPlayEdgeBegin(w, s))
      else Rewatched(v, AfterPlayEdgeBegin(Cleared(v).(speech := v.speech.(speaking := true, paused := false)), s))
    else
      if v.speech.speaking && !v.speech.paused then Rewatched(v, Cleared(v).(speech := v.speech.(paused := true)))
      else if v.speech.paused then Rewatched(v, AfterSpeakNextChunk(v.(speech := v.speech.(paused := false))))
      else Rewatched(v, AfterSpeakNextChunk(Cleared(v).(speech := v.speech.(speaking := true, paused := false,
                                                                            cursor := s))))
  }

  function ToggleTicket(v: State): Option<PlayTicket> {
    var s := StartIndex(v.speech.cursor, |v.chunks|);
    if |v.chunks| == 0 || v.engine != Edge || (v.speech.speaking && !v.speech.paused) then None
    else if v.speech.paused && v.audio.src != "" then None
    else PlayEdgeTicket(v, s)
  }

  /** `jumpToChunk(index)`: speak from the chunk after a short delay; the play token is kept. */
  function AfterJumpToChunk(v: State, index: nat): State {
    Rewatched(v, Cleared(v).(speech := v.speech.(cursor := index, activeChunk := Some(index),
                                                 activeChar := None, speaking := true, paused := false),
                             timers := v.timers.(scheduledSpeaks := v.timers.scheduledSpeaks + 1)))
  }

  /** A scheduled `speakNextChunk()` fires; it does not look at the flags. */
  function AfterScheduledSpeak(v: State): State {
    if v.timers.scheduledSpeaks == 0 then v
    else AfterSpeakNextChunk(v.(timers := v.timers.(scheduledSpeaks := v.timers.scheduledSpeaks - 1)))
  }

  /** The auto-start effect: a translated chapter in auto mode starts from chunk 0. */
  function AfterAutoStart(v: State, chapterReady: bool): State {
    if v.nav.autoMode && chapterReady && |v.chunks| > 0 && !v.speech.speaking && !v.speech.paused then
      var w := AfterSpeakNextChunk(v.(speech := v.speech.(cursor := 0)));
      Rewatched(v, w.(speech := w.speech.(speaking := true)))
    else v
  }

  /** Choosing an engine: whatever is playing stops first. */
  function AfterSetEngine(v: State, e: Engine): State {
    var w := if v.speech.speaking || v.speech.paused then AfterStopSpeech(v) else v;
    Rewatched(w, w.(engine := e))
  }

  /**
   * `setChunks`: only the chunks change; the cursor, the play token and the audio cache are
   * kept. The chapter loader stops reading before it installs new chunks, and the
   * chunk-size slider only while something is being read (`AfterChunkSizeChange`).
   */
  function AfterSetChunks(v: State, chunks: seq<string>): State {
    Rewatched(v, v.(chunks := chunks))
  }

  /**
   * The chunk-size slider: reading stops only while speaking or paused, and the
   * translation, when there is one, is split again (`resplit`).
   */
  function AfterChunkSizeChange(v: State, resplit: Option<seq<string>>): State {
    var w := if v.speech.speaking || v.speech.paused then AfterStopSpeech(v) else v;
    if resplit.Some? then AfterSetChunks(w, resplit.value) else w
  }

  /**
   * One tick of the watchdog interval, which exists only while the browser engine speaks
   * unpaused; `synthPaused`, `synthSpeaking` and `synthPending` are what the platform reports.
   */
  function AfterWatchdogTick(v: State, synthPaused: bool, synthSpeaking: bool, synthPending: bool,
                             now: int): State {
    if !(v.speech.speaking && !v.speech.paused && v.engine == Browser) then v
    else
      var r := Watchdog.Tick(v.timers.stuckChecks, synthPaused, synthSpeaking, synthPending,
                             v.speech.lastEventAt, now, v.speech.cursor, |v.chunks|);
      var w := v.(timers := v.timers.(stuckChecks := r.counter));
      if r.recovery == Watchdog.HardRestart then
        Cleared(w).(timers := w.timers.(scheduledSpeaks := w.timers.scheduledSpeaks + 1))
      else w
  }

  // ---- what the state machine promises ----

  lemma {:induction false} WindowSnoc(id: nat, lo: nat, hi: nat)
    requires lo <= hi
    ensures Window(id, lo, hi) + [Utterance(id + (hi - lo), hi)] == Window(id, lo, hi + 1)
  {
    var a := Window(id, lo, hi) + [Utterance(id + (hi - lo), hi)];
    var b := Window(id, lo, hi + 1);
    assert |a| == |b|;
    forall k | 0 <= k < |a| ensures a[k] == b[k] {
      if k < hi - lo {
        assert a[k] == Window(id, lo, hi)[k];
      }
    }
  }

  lemma {:induction false} WindowElems(id: nat, lo: nat, hi: nat, u: Utterance)
    requires lo <= hi
    ensures u in Elems(Window(id, lo, hi)) <==> id <= u.id < id + (hi - lo) && u.index == lo + (u.id - id)
  {
    var w := Window(id, lo, hi);
    if id <= u.id < id + (hi - lo) && u.index == lo + (u.id - id) {
      assert w[u.id - id] == u;
    }
  }

  lemma {:induction false} ElemsSnoc(q: seq<Utterance>, u: Utterance)
    ensures Elems(q + [u]) == Elems(q) + {u}
  {
    assert forall x :: x in q + [u] <==> x in q || x == u;
  }

  /** The queue is the window of chunks `s` up to `s+k` (or the end), and exactly it is active. */
  predicate WindowUpTo(v: State, id: nat, s: nat, k: nat) {
    var hi := Min(s + k, |v.chunks|);
    s <= hi && v.synth.queue == Window(id, s, hi) && v.synth.active == Elems(v.synth.queue)
    && v.synth.nextId == id + (hi - s)
  }

  /** The browser queue as `speakNextChunk` leaves it: the five chunks from `s`. */
  predicate WindowFrom(v: State, id: nat, s: nat) {
    WindowUpTo(v, id, s, QueueAhead)
  }

  /** A window is empty exactly when it starts past the last chunk; an empty one leaves nothing active. */
  lemma {:induction false} WindowEmpty(v: State, id: nat, a: nat)
    requires WindowFrom(v, id, a)
    ensures v.synth.queue == [] <==> a >= |v.chunks|
    ensures v.synth.queue == [] ==> v.synth.active == {}
  {
    if v.synth.queue == [] {
      assert Elems([]) == {};
    }
  }

  /** Scheduling the chunk after a window extends the window by it, and touches nothing else. */
  lemma {:induction false} ScheduleStep(w: State, id: nat, s: nat, k: nat)
    requires k >= 1 && s <= |w.chunks| && WindowUpTo(w, id, s, k - 1)
    ensures var r := AfterScheduleNext(w, s + k - 1);
      WindowUpTo(r, id, s, k) && r == w.(synth := r.synth)
  {
    var n := |w.chunks|;
    if s + k - 1 < n {
      WindowSnoc(id, s, s + k - 1);
      ElemsSnoc(w.synth.queue, Utterance(w.synth.nextId, s + k - 1));
    }
  }

  /** Running the scheduling calls from an empty queue builds the window they name. */
  lemma {:induction false} ScheduleRunWindow(c: State, id: nat, s: nat, k: nat)
    requires s <= |c.chunks| && c.synth.queue == [] && c.synth.active == {} && c.synth.nextId == id
    ensures var r := ScheduleRun(c, s, k);
      WindowUpTo(r, id, s, k) && r == c.(synth := r.synth)
    decreases k
  {
    if k == 0 {
      assert Window(id, s, s) == [];
    } else {
      ScheduleRunWindow(c, id, s, k - 1);
      ScheduleStep(ScheduleRun(c, s, k - 1), id, s, k);
    }
  }

  /**
   * `speakNextChunk` queues exactly the chunks from the start index up to five ahead (or
   * the end), in order, each as a new utterance, makes exactly those active, and changes
   * nothing else.
   */
  lemma {:induction false} SpeakNextQueuesWindow(v: State)
    ensures var r := AfterSpeakNextChunk(v);
      WindowFrom(r, v.synth.nextId, StartIndex(v.speech.cursor, |v.chunks|)) && r == v.(synth := r.synth)
  {
    ScheduleRunWindow(Cleared(v), v.synth.nextId, StartIndex(v.speech.cursor, |v.chunks|), QueueAhead);
  }

  /** The platform takes the head off its queue, to end it or report its failure. */
  function Popped(v: State): State
    requires v.synth.queue != []
  {
    v.(synth := v.synth.(queue := v.synth.queue[1..]))
  }

  /**
   * When the platform finishes the head of a window, `onend` slides the window one chunk
   * on: the next chunk five ahead (if any) is queued with the next identity.
   */
  lemma {:induction false} EndSlidesWindow(v: State, id: nat, a: nat)
    requires a < |v.chunks| && WindowFrom(v, id, a)
    ensures v.synth.queue != [] && v.synth.queue[0] == Utterance(id, a) && Utterance(id, a) in v.synth.active
    ensures WindowFrom(AfterOnEnd(Popped(v), v.synth.queue[0]), id + 1, a + 1)
  {
    var n := |v.chunks|;
    var hi := Min(a + QueueAhead, n);
    WindowHead(id, a, hi);
    var u := Utterance(id, a);
    var w := Popped(v);
    var w' := w.(synth := w.synth.(active := w.synth.active - {u}), speech := w.speech.(activeChar := None));
    assert w'.synth.active == Elems(w'.synth.queue);
    ScheduleAfterHead(w', id, a);
    var e := EndedBody(w, u);
    var f := if a == n - 1 then ChapterEnd(e) else e;
    assert f.synth == e.synth && f.chunks == e.chunks;
    assert AfterOnEnd(w, u) == Rewatched(w, f);
  }

  /** The head of a window, and the window that remains behind it. */
  lemma {:induction false} WindowHead(id: nat, a: nat, hi: nat)
    requires a < hi
    ensures var q := Window(id, a, hi);
      q[0] == Utterance(id, a) && q[1..] == Window(id + 1, a + 1, hi)
      && Utterance(id, a) !in Elems(q[1..]) && Elems(q) == Elems(q[1..]) + {Utterance(id, a)}
  {
    var q := Window(id, a, hi);
    var u := q[0];
    WindowElems(id + 1, a + 1, hi, u);
    assert q == [u] + q[1..];
    assert forall x :: x in q <==> x == u || x in q[1..];
  }

  /** After the head of the window from `a` is gone, scheduling `a+5` gives the window from `a+1`. */
  lemma {:induction false} ScheduleAfterHead(w: State, id: nat, a: nat)
    requires a < |w.chunks|
    requires w.synth.queue == Window(id + 1, a + 1, Min(a + QueueAhead, |w.chunks|))
    requires w.synth.active == Elems(w.synth.queue)
    requires w.synth.nextId == id + (Min(a + QueueAhead, |w.chunks|) - a)
    ensures WindowFrom(AfterScheduleNext(w, a + QueueAhead), id + 1, a + 1)
  {
    var n := |w.chunks|;
    if a + QueueAhead < n {
      WindowSnoc(id + 1, a + 1, a + QueueAhead);
      ElemsSnoc(w.synth.queue, Utterance(w.synth.nextId, a + QueueAhead));
    }
  }

  /**
   * An accepted end of chunk `i` changes no flag unless `i` is the last chunk; the last one
   * schedules the next chapter in auto mode when there is one, and otherwise stops. The
   * cursor is left where it is either way.
   */
  lemma {:induction false} EndOfChapter(v: State, u: Utterance)
    requires u in v.synth.active
    ensures var r := AfterOnEnd(v, u);
      && r.chunks == v.chunks && r.speech.cursor == v.speech.cursor && r.engine == v.engine
      && r.nav.autoMode == v.nav.autoMode && r.nav.nextUrl == v.nav.nextUrl
      && r.timers.scheduledSpeaks == v.timers.scheduledSpeaks && r.audio == v.audio
      && (u.index != |v.chunks| - 1 ==>
            r.speech.speaking == v.speech.speaking && r.speech.paused == v.speech.paused
            && r.nav == v.nav)
      && (u.index == |v.chunks| - 1 && v.nav.autoMode && v.nav.nextUrl.Some? ==>
            r.nav.pendingNavs == v.nav.pendingNavs + [v.nav.nextUrl.value]
            && r.speech.speaking == v.speech.speaking && r.speech.paused == v.speech.paused)
      && (u.index == |v.chunks| - 1 && !(v.nav.autoMode && v.nav.nextUrl.Some?) ==>
            !r.speech.speaking && !r.speech.paused && r.nav == v.nav)
  {
    var w := EndedBody(v, u);
    var e := if u.index == |v.chunks| - 1 then ChapterEnd(w) else w;
    assert AfterOnEnd(v, u) == Rewatched(v, e);
  }

  /** `onend` and `onerror` of an utterance that is no longer active change nothing. */
  lemma {:induction false} InactiveCallbacksIgnored(v: State, u: Utterance, e: SpeechError)
    requires u !in v.synth.active
    ensures AfterOnEnd(v, u) == v && AfterOnError(v, u, e) == v
  {
  }

  /**
   * An active utterance's error is forgotten; an interruption or cancellation queues
   * nothing, any other error queues the next chunk, if there is one.
   */
  lemma {:induction false} ErrorSkipsAhead(v: State, u: Utterance, e: SpeechError)
    requires u in v.synth.active
    ensures var r := AfterOnError(v, u, e);
      u !in r.synth.active
      && (e == Interrupted || e == Canceled ==> r.synth.queue == v.synth.queue)
      && (e != Interrupted && e != Canceled ==>
            r.synth.queue == v.synth.queue + (if u.index + 1 < |v.chunks| then [Utterance(v.synth.nextId, u.index + 1)] else []))
  {
    if e != Interrupted && e != Canceled && u.index + 1 < |v.chunks| {
      assert u.index + 1 != u.index;
    }
  }

  /** `toggleSpeech` without chunks does nothing. */
  lemma {:induction false} ToggleWithoutChunks(v: State)
    requires v.chunks == []
    ensures AfterToggleSpeech(v) == v && ToggleTicket(v) == None
  {
  }

  /** With the browser engine, `toggleSpeech` pauses by emptying the queue; the cursor stays. */
  lemma {:induction false} ToggleBrowserPauses(v: State)
    requires v.chunks != [] && v.engine == Browser && v.speech.speaking && !v.speech.paused
    ensures var r := AfterToggleSpeech(v);
      r.speech.speaking && r.speech.paused && r.synth.queue == [] && r.synth.active == {}
      && r.speech.cursor == v.speech.cursor && r.chunks == v.chunks && r.audio == v.audio
  {
  }

  /** A paused browser reading resumes from the cursor, queueing the window from there. */
  lemma {:induction false} ToggleBrowserResumes(v: State)
    requires v.chunks != [] && v.engine == Browser && v.speech.paused
    ensures var r := AfterToggleSpeech(v);
      r.speech.speaking == v.speech.speaking && !r.speech.paused && r.speech.cursor == v.speech.cursor
      && WindowFrom(r, v.synth.nextId, StartIndex(v.speech.cursor, |v.chunks|))
  {
    SpeakNextQueuesWindow(v.(speech := v.speech.(paused := false)));
  }

  /** An idle browser reading starts at the start index, queueing the window from there. */
  lemma {:induction false} ToggleBrowserStarts(v: State)
    requires v.chunks != [] && v.engine == Browser && !v.speech.speaking && !v.speech.paused
    ensures var r := AfterToggleSpeech(v);
      var s := StartIndex(v.speech.cursor, |v.chunks|);
      r.speech.speaking && !r.speech.paused && r.speech.cursor == s && WindowFrom(r, v.synth.nextId, s)
  {
    var s := StartIndex(v.speech.cursor, |v.chunks|);
    var w := Cleared(v).(speech := v.speech.(speaking := true, paused := false, cursor := s));
    SpeakNextQueuesWindow(w);
    assert StartIndex(w.speech.cursor, |w.chunks|) == s;
  }

  /** With the remote engine, `toggleSpeech` pauses the audio element; nothing else moves. */
  lemma {:induction false} ToggleEdgePauses(v: State)
    requires v.chunks != [] && v.engine == Edge && v.speech.speaking && !v.speech.paused
    ensures var r := AfterToggleSpeech(v);
      r.speech.speaking && r.speech.paused && !r.audio.playing && ToggleTicket(v) == None
      && r.audio.src == v.audio.src && r.audio.token == v.audio.token && r.audio.urls == v.audio.urls
      && r.speech.cursor == v.speech.cursor && r.synth == v.synth && r.chunks == v.chunks
  {
  }

  /**
   * A paused remote reading resumes the loaded audio where it stopped; with no audio
   * loaded it plays the start index afresh, under the current play token.
   */
  lemma {:induction false} ToggleEdgeResumes(v: State)
    requires v.chunks != [] && v.engine == Edge && v.speech.paused
    ensures var r := AfterToggleSpeech(v);
      !r.speech.paused && r.speech.speaking == v.speech.speaking && r.audio.token == v.audio.token
    ensures var r := AfterToggleSpeech(v);
      v.audio.src != "" ==> r.audio.playing && r.audio.src == v.audio.src && ToggleTicket(v) == None
                            && r.speech.cursor == v.speech.cursor
    ensures var r := AfterToggleSpeech(v);
      var s := StartIndex(v.speech.cursor, |v.chunks|);
      v.audio.src == "" ==> ToggleTicket(v) == Some(PlayTicket(s, r.audio.token)) && r.speech.cursor == s
                            && r.speech.activeChunk == Some(s) && (s in r.audio.urls || s in r.audio.inFlight)
  {
  }

  /**
   * An idle remote reading empties the browser queue and plays the start index under the
   * current play token, so its completion is not stale.
   */
  lemma {:induction false} ToggleEdgeStarts(v: State)
    requires v.chunks != [] && v.engine == Edge && !v.speech.speaking && !v.speech.paused
    ensures var r := AfterToggleSpeech(v);
      var s := StartIndex(v.speech.cursor, |v.chunks|);
      r.speech.speaking && !r.speech.paused && r.speech.cursor == s && r.speech.activeChunk == Some(s)
      && r.synth.queue == [] && r.synth.active == {} && r.audio.token == v.audio.token
      && ToggleTicket(v) == Some(PlayTicket(s, r.audio.token)) && (s in r.audio.urls || s in r.audio.inFlight)
  {
  }

  /**
   * Once a chapter has played to its end without auto-advance, the cursor still points at
   * the last chunk, so starting again replays only that chunk.
   */
  lemma {:induction false} ReplayStartsAtLastChunk(v: State)
    requires v.engine == Browser && v.chunks != [] && v.speech.cursor == |v.chunks| - 1
    requires !v.speech.speaking && !v.speech.paused
    ensures AfterToggleSpeech(v).synth.queue == [Utterance(v.synth.nextId, |v.chunks| - 1)]
  {
    ToggleBrowserStarts(v);
    var n := |v.chunks|;
    assert Min(n - 1 + QueueAhead, n) == n;
    assert Window(v.synth.nextId, n - 1, n)[0] == Utterance(v.synth.nextId, n - 1);
  }

  /**
   * Moving the chunk-size slider while nothing is read keeps the cursor and the play token,
   * so a chapter that ended without auto-advance still replays its last chunk.
   */
  lemma {:induction false} IdleResplitKeepsPlace(v: State, chunks: seq<string>)
    requires !v.speech.speaking && !v.speech.paused
    ensures var r := AfterChunkSizeChange(v, Some(chunks));
      r.chunks == chunks && r.speech == v.speech && r.audio == v.audio && r.synth == v.synth
  {
  }

  /** Moving the slider while reading or paused stops first, then installs the new chunks. */
  lemma {:induction false} ResplitWhileReadingStops(v: State, resplit: Option<seq<string>>)
    requires v.speech.speaking || v.speech.paused
    ensures var r := AfterChunkSizeChange(v, resplit);
      !r.speech.speaking && !r.speech.paused && r.speech.cursor == 0
      && r.audio.token == v.audio.token + 1 && r.audio.urls == v.audio.urls
      && r.chunks == (if resplit.Some? then resplit.value else v.chunks)
  {
  }

  /** `stopSpeech` resets the flags and the cursor and advances the play token. */
  lemma {:induction false} StopResets(v: State)
    ensures var r := AfterStopSpeech(v);
      !r.speech.speaking && !r.speech.paused && r.speech.cursor == 0 && r.speech.activeChunk == None
      && r.synth.queue == [] && r.synth.active == {}
      && r.audio.token == v.audio.token + 1 && r.audio.src == "" && !r.audio.playing
      && r.audio.urls == v.audio.urls
  {
  }

  /** `jumpToChunk(k)` speaks from `k` after a delay, and keeps the play token. */
  lemma {:induction false} JumpSpeaksFrom(v: State, k: nat)
    ensures var r := AfterJumpToChunk(v, k);
      r.speech.cursor == k && r.speech.speaking && !r.speech.paused && r.speech.activeChunk == Some(k)
      && r.synth.queue == [] && r.synth.active == {}
      && r.audio == v.audio && r.timers.scheduledSpeaks == v.timers.scheduledSpeaks + 1
  {
  }

  /** A delayed speak after a jump to a chunk queues the window from that chunk. */
  lemma {:induction false} JumpThenSpeak(v: State, k: nat)
    requires k < |v.chunks|
    ensures var r := AfterScheduledSpeak(AfterJumpToChunk(v, k));
      WindowFrom(r, v.synth.nextId, k) && r.speech.cursor == k && r.speech.speaking && !r.speech.paused
  {
    var j := AfterJumpToChunk(v, k);
    var x := Cleared(v).(speech := v.speech.(cursor := k, activeChunk := Some(k), activeChar := None,
                                             speaking := true, paused := false));
    assert j == x.(timers := Timers(v.timers.scheduledSpeaks + 1, j.timers.stuckChecks));
    var sp := x.(timers := Timers(v.timers.scheduledSpeaks, j.timers.stuckChecks));
    assert AfterScheduledSpeak(j) == AfterSpeakNextChunk(sp);
    SpeakNextQueuesWindow(sp);
  }

  /** A remote-engine completion whose token is no longer current changes nothing. */
  lemma {:induction false} StaleCompletionIgnored(v: State, t: PlayTicket, url: Option<string>, playOk: bool)
    requires t.token != v.audio.token
    ensures AfterPlayEdgeFinish(v, t, url, playOk) == v
  {
  }

  /** A stop cancels every play started before it: the audio it fetched is never set. */
  lemma {:induction false} StopCancelsPendingPlay(v: State, index: int, url: Option<string>, playOk: bool)
    requires PlayEdgeTicket(v, index).Some?
    ensures var stopped := AfterStopSpeech(AfterPlayEdgeBegin(v, index));
      AfterPlayEdgeFinish(stopped, PlayEdgeTicket(v, index).value, url, playOk) == stopped
      && stopped.audio.src == ""
  {
  }

  /** A jump does not advance the token, so a remote play started before it still completes. */
  lemma {:induction false} JumpKeepsPendingPlay(v: State, index: int, k: nat, url: string)
    requires PlayEdgeTicket(v, index).Some?
    ensures var jumped := AfterJumpToChunk(AfterPlayEdgeBegin(v, index), k);
      AfterPlayEdgeFinish(jumped, PlayEdgeTicket(v, index).value, Some(url), true).audio.src == url
  {
  }

  /** A current completion sets the source and, once playing, prefetches the next two chunks. */
  lemma {:induction false} CompletionPrefetches(v: State, t: PlayTicket, url: string)
    requires t.token == v.audio.token
    ensures var r := AfterPlayEdgeFinish(v, t, Some(url), true);
      var n := |v.chunks|;
      r.audio.src == url && r.audio.playing && r.audio.urls == v.audio.urls
      && (forall i :: i in r.audio.inFlight <==>
            i in v.audio.inFlight
            || ((i == t.index + 1 || i == t.index + 2) && i < n && i !in v.audio.urls))
  {
  }

  /**
   * The request table: a started synthesis is joined by later requests until it settles;
   * a success is served from the cache from then on without synthesis; a failure leaves
   * the index to be synthesised afresh.
   */
  lemma {:induction false} AudioRequestsShareOneSynthesis(v: State, index: nat)
    requires Lookup(v.audio.urls, v.audio.inFlight, index, |v.chunks|).Started?
    ensures var w := AfterRequestAudio(v, index);
      Lookup(w.audio.urls, w.audio.inFlight, index, |w.chunks|) == Joined
      && AfterRequestAudio(w, index) == w
  {
  }

  lemma {:induction false} SettledAudio(v: State, index: nat, url: Option<string>)
    requires index < |v.chunks| && index !in v.audio.urls
    ensures var w := AfterSettleAudio(v, index, url);
      index !in w.audio.inFlight
      && Lookup(w.audio.urls, w.audio.inFlight, index, |w.chunks|)
         == (if url.Some? then Cached(url.value) else Started)
  {
  }

  /**
   * New chunks keep the audio cache: a later request for an index cached under the old
   * chunks is answered with the old audio, whatever the new chunk says.
   */
  lemma {:induction false} NewChunksKeepOldAudio(v: State, chunks: seq<string>, index: nat)
    requires index in v.audio.urls && index < |chunks|
    ensures var w := AfterSetChunks(v, chunks);
      w.chunks == chunks
      && Lookup(w.audio.urls, w.audio.inFlight, index, |chunks|) == Cached(v.audio.urls[index])
  {
  }

  /**
   * A queue the platform dropped while chunks remain is recovered: the next troubled tick
   * resumes gently, the one after cancels and schedules a restart, and the restart queues
   * the window from the cursor again.
   */
  lemma {:induction false} DroppedQueueRecovers(v: State, now1: int, now2: int)
    requires v.speech.speaking && !v.speech.paused && v.engine == Browser && v.timers.stuckChecks == 0
    requires v.speech.cursor < |v.chunks| - 1
    ensures var t1 := AfterWatchdogTick(v, false, false, false, now1);
      var t2 := AfterWatchdogTick(t1, false, false, false, now2);
      var r := AfterScheduledSpeak(t2);
      t1.timers.stuckChecks == 1 && t1.synth == v.synth
      && t2.timers.stuckChecks == 0 && t2.synth.queue == []
      && t2.timers.scheduledSpeaks == v.timers.scheduledSpeaks + 1
      && WindowFrom(r, v.synth.nextId, v.speech.cursor) && r.speech.speaking && !r.speech.paused
  {
    var n := |v.chunks|;
    assert Watchdog.Troubled(false, false, v.speech.lastEventAt, now1, v.speech.cursor, n);
    var t1 := AfterWatchdogTick(v, false, false, false, now1);
    assert t1 == v.(timers := v.timers.(stuckChecks := 1));
    var t2 := AfterWatchdogTick(t1, false, false, false, now2);
    var sp := Cleared(v);
    assert t2 == sp.(timers := Timers(v.timers.scheduledSpeaks + 1, 0));
    assert AfterScheduledSpeak(t2) == AfterSpeakNextChunk(sp);
    SpeakNextQueuesWindow(sp);
  }

  /** The remote engine's end of audio: the next chunk, or the end of the chapter. */
  lemma {:induction false} EdgeEndAdvances(v: State)
    requires v.engine == Edge && v.speech.speaking && !v.speech.paused
    ensures var r := AfterEdgeAudioEnded(v);
      !r.audio.playing
      && (v.speech.cursor + 1 < |v.chunks| ==>
            r.speech.cursor == v.speech.cursor + 1
            && EdgeAudioEndedTicket(v) == Some(PlayTicket(v.speech.cursor + 1, v.audio.token)))
      && (v.speech.cursor + 1 >= |v.chunks| ==>
            EdgeAudioEndedTicket(v) == None && r.speech.cursor == v.speech.cursor
            && (if v.nav.autoMode && v.nav.nextUrl.Some? then r.nav.pendingNavs == v.nav.pendingNavs + [v.nav.nextUrl.value]
                else !r.speech.speaking && !r.speech.paused))
  {
  }

  // ---- the component, with its state in fields ----

  /** The state of a freshly mounted reader holding `chunks`. */
  function Initial(chunks: seq<string>, engine: Engine, autoMode: bool, nextUrl: Option<string>): State {
    State(chunks, engine, Speech(false, false, 0, None, None, 0), Synth([], {}, 0),
          Nav(autoMode, nextUrl, []), Timers(0, 0), Audio(0, "", false, map[], {}))
  }

  class Player {
    var chunks: seq<string>
    var engine: Engine
    var speech: Speech
    var synth: Synth
    var nav: Nav
    var timers: Timers
    var audio: Audio

    /** All the fields as one state. */
    function View(): State
      reads this
    {
      State(chunks, engine, speech, synth, nav, timers, audio)
    }

    constructor (chunks0: seq<string>, engine0: Engine, autoMode0: bool, nextUrl0: Option<string>)
      ensures View() == Initial(chunks0, engine0, autoMode0, nextUrl0)
    {
      chunks, engine := chunks0, engine0;
      speech := Speech(false, false, 0, None, None, 0);
      synth := Synth([], {}, 0);
      nav := Nav(autoMode0, nextUrl0, []);
      timers := Timers(0, 0);
      audio := Audio(0, "", false, map[], {});
    }

    /** `speechSynthesis.cancel()` and `activeUtterancesRef.current.clear()`. */
    method CancelAll()
      modifies this
      ensures View() == Cleared(old(View()))
    {
      synth := synth.(queue := [], active := {});
    }

    /** Re-runs the watchdog effect if React state differs from `before`. */
    method Rewatch(before: State)
      modifies this
      ensures View() == Rewatched(before, old(View()))
    {
      if Rerendered(before, View()) {
        timers := timers.(stuckChecks := 0);
      }
    }

    method ScheduleNext(index: int)
      modifies this
      ensures View() == AfterScheduleNext(old(View()), index)
    {
      if 0 <= index < |chunks| {
        var u := Utterance(synth.nextId, index);
        synth := Synth(synth.queue + [u], synth.active + {u}, synth.nextId + 1);
      }
    }

    /** One more `scheduleNext` call of a run that started from the state `c`. */
    method ScheduleStep(ghost c: State, s: nat, k: nat)
      requires View() == ScheduleRun(c, s, k)
      modifies this
      ensures View() == ScheduleRun(c, s, k + 1)
    {
      ScheduleNext(s + k);
    }

    method SpeakNextChunk()
      modifies this
      ensures View() == AfterSpeakNextChunk(old(View()))
    {
      CancelAll();
      ghost var c := View();
      var s := StartIndex(speech.cursor, |chunks|);
      ScheduleStep(c, s, 0);
      ScheduleStep(c, s, 1);
      ScheduleStep(c, s, 2);
      ScheduleStep(c, s, 3);
      ScheduleStep(c, s, 4);
    }

    method OnStart(u: Utterance, now: int)
      modifies this
      ensures View() == AfterOnStart(old(View()), u, now)
    {
      var before := View();
      speech := speech.(activeChunk := Some(u.index), activeChar := Some(0), cursor := u.index,
                        lastEventAt := now);
      Rewatch(before);
    }

    method OnBoundary(isWord: bool, charIndex: int, now: int)
      modifies this
      ensures View() == AfterOnBoundary(old(View()), isWord, charIndex, now)
    {
      var before := View();
      speech := speech.(lastEventAt := now);
      if isWord {
        speech := speech.(activeChar := Some(charIndex));
      }
      Rewatch(before);
    }

    /** The last chunk has been heard: schedule the next chapter in auto mode, else stop. */
    method EndChapter()
      modifies this
      ensures View() == ChapterEnd(old(View()))
    {
      if nav.autoMode && nav.nextUrl.Some? {
        nav := nav.(pendingNavs := nav.pendingNavs + [nav.nextUrl.value]);
      } else {
        speech := speech.(speaking := false, paused := false);
      }
    }

    method OnEnd(u: Utterance)
      modifies this
      ensures View() == AfterOnEnd(old(View()), u)
    {
      if u !in synth.active {
        return;
      }
      var before := View();
      synth := synth.(active := synth.active - {u});
      speech := speech.(activeChar := None);
      ScheduleNext(u.index + QueueAhead);
      assert View() == EndedBody(before, u);
      if u.index == |chunks| - 1 {
        EndChapter();
      }
      Rewatch(before);
    }

    method OnError(u: Utterance, e: SpeechError)
      modifies this
      ensures View() == AfterOnError(old(View()), u, e)
    {
      if u !in synth.active {
        return;
      }
      synth := synth.(active := synth.active - {u});
      if e != Interrupted && e != Canceled {
        ScheduleNext(u.index + 1);
      }
    }

    // -- the platform's side of the speech queue --

    /** The platform starts speaking the head of its queue. */
    method PlatformStart(now: int)
      modifies this
      ensures View() == if old(synth.queue) == [] then old(View())
                        else AfterOnStart(old(View()), old(synth.queue)[0], now)
    {
      if synth.queue != [] {
        OnStart(synth.queue[0], now);
      }
    }

    /** The platform takes the head off its queue. */
    method Pop() returns (u: Utterance)
      requires synth.queue != []
      modifies this
      ensures u == old(synth.queue)[0] && View() == Popped(old(View()))
    {
      u := synth.queue[0];
      synth := synth.(queue := synth.queue[1..]);
    }

    /** The platform finishes the head of its queue and reports its end. */
    method PlatformFinish()
      modifies this
      ensures View() == if old(synth.queue) == [] then old(View())
                        else AfterOnEnd(Popped(old(View())), old(synth.queue)[0])
    {
      if synth.queue != [] {
        var u := Pop();
        OnEnd(u);
      }
    }

    /** The platform gives up on the head of its queue and reports an error. */
    method PlatformFail(e: SpeechError)
      modifies this
      ensures View() == if old(synth.queue) == [] then old(View())
                        else AfterOnError(Popped(old(View())), old(synth.queue)[0], e)
    {
      if synth.queue != [] {
        var u := Pop();
        OnError(u, e);
      }
    }

    /** The platform silently loses its queue, reporting nothing: what the watchdog is for. */
    method PlatformDrop()
      modifies this
      ensures View() == old(View()).(synth := old(synth).(queue := []))
    {
      synth := synth.(queue := []);
    }

    // -- the remote engine --

    method RequestAudio(index: int) returns (r: AudioRequest)
      modifies this
      ensures r == Lookup(old(audio).urls, old(audio).inFlight, index, |old(chunks)|)
      ensures View() == AfterRequestAudio(old(View()), index)
    {
      if index < 0 || index >= |chunks| {
        return Invalid;
      }
      if index in audio.urls {
        return Cached(audio.urls[index]);
      }
      if index in audio.inFlight {
        return Joined;
      }
      audio := audio.(inFlight := audio.inFlight + {index});
      r := Started;
    }

    method SettleAudio(index: nat, url: Option<string>)
      modifies this
      ensures View() == AfterSettleAudio(old(View()), index, url)
    {
      if url.Some? {
        audio := audio.(urls := audio.urls[index := url.value]);
      }
      audio := audio.(inFlight := audio.inFlight - {index});
    }

    method PlayEdgeBegin(index: int) returns (t: Option<PlayTicket>)
      modifies this
      ensures t == PlayEdgeTicket(old(View()), index)
      ensures View() == AfterPlayEdgeBegin(old(View()), index)
    {
      if index < 0 || index >= |chunks| {
        return None;
      }
      t := Some(PlayTicket(index, audio.token));
      var before := View();
      speech := speech.(activeChunk := Some(index), activeChar := None, cursor := index);
      var _ := RequestAudio(index);
      Rewatch(before);
    }

    method PlayEdgeFinish(t: PlayTicket, url: Option<string>, playOk: bool)
      modifies this
      ensures View() == AfterPlayEdgeFinish(old(View()), t, url, playOk)
    {
      if url.None? || audio.token != t.token {
        return;
      }
      audio := audio.(src := url.value);
      if !playOk {
        return;
      }
      audio := audio.(playing := true);
      var _ := RequestAudio(t.index + 1);
      var _ := RequestAudio(t.index + 2);
    }

    method HandleEdgeAudioEnded() returns (t: Option<PlayTicket>)
      modifies this
      ensures t == EdgeAudioEndedTicket(old(View()))
      ensures View() == AfterEdgeAudioEnded(old(View()))
    {
      var before := View();
      audio := audio.(playing := false);
      if engine != Edge || !speech.speaking || speech.paused {
        return None;
      }
      var next := speech.cursor + 1;
      if next >= |chunks| {
        EndChapter();
        Rewatch(before);
        return None;
      }
      t := PlayEdgeBegin(next);
    }

    // -- the controls --

    method StopSpeech()
      modifies this
      ensures View() == AfterStopSpeech(old(View()))
    {
      var before := View();
      CancelAll();
      audio := audio.(token := audio.token + 1, playing := false, src := "");
      speech := speech.(speaking := false, paused := false, activeChunk := None, activeChar := None,
                        cursor := 0);
      Rewatch(before);
    }

    method ToggleSpeech() returns (t: Option<PlayTicket>)
      modifies this
      ensures t == ToggleTicket(old(View()))
      ensures View() == AfterToggleSpeech(old(View()))
    {
      if |chunks| == 0 {
        return None;
      }
      var before := View();
      var s := StartIndex(speech.cursor, |chunks|);
      t := None;
      if engine == Edge {
        if speech.speaking && !speech.paused {
          audio := audio.(playing := false);
          speech := speech.(paused := true);
        } else if speech.paused {
          speech := speech.(paused := false);
          if audio.src != "" {
            audio := audio.(playing := true);
          } else {
            t := PlayEdgeBegin(s);
          }
        } else {
          CancelAll();
          speech := speech.(speaking := true, paused := false);
          t := PlayEdgeBegin(s);
        }
      } else {
        if speech.speaking && !speech.paused {
          CancelAll();
          speech := speech.(paused := true);
        } else if speech.paused {
          speech := speech.(paused := false);
          SpeakNextChunk();
        } else {
          CancelAll();
          speech := speech.(speaking := true, paused := false, cursor := s);
          SpeakNextChunk();
        }
      }
      Rewatch(before);
    }

    method JumpToChunk(index: nat)
      modifies this
      ensures View() == AfterJumpToChunk(old(View()), index)
    {
      var before := View();
      CancelAll();
      speech := speech.(cursor := index, activeChunk := Some(index), activeChar := None,
                        speaking := true, paused := false);
      timers := timers.(scheduledSpeaks := timers.scheduledSpeaks + 1);
      Rewatch(before);
    }

    /** A delayed `speakNextChunk()` fires. */
    method RunScheduledSpeak()
      modifies this
      ensures View() == AfterScheduledSpeak(old(View()))
    {
      if timers.scheduledSpeaks > 0 {
        timers := timers.(scheduledSpeaks := timers.scheduledSpeaks - 1);
        SpeakNextChunk();
      }
    }

    /** The auto-start effect, once the chapter is translated (`step === 3`). */
    method AutoStart(chapterReady: bool)
      modifies this
      ensures View() == AfterAutoStart(old(View()), chapterReady)
    {
      if nav.autoMode && chapterReady && |chunks| > 0 && !speech.speaking && !speech.paused {
        var before := View();
        speech := speech.(cursor := 0);
        SpeakNextChunk();
        speech := speech.(speaking := true);
        Rewatch(before);
      }
    }

    method SetEngine(e: Engine)
      modifies this
      ensures View() == AfterSetEngine(old(View()), e)
    {
      if speech.speaking || speech.paused {
        StopSpeech();
      }
      var before := View();
      engine := e;
      Rewatch(before);
    }

    /** `setChunks(newChunks)`. */
    method SetChunks(newChunks: seq<string>)
      modifies this
      ensures View() == AfterSetChunks(old(View()), newChunks)
    {
      var before := View();
      chunks := newChunks;
      Rewatch(before);
    }

    /** The chunk-size slider's handler. */
    method ChangeChunkSize(resplit: Option<seq<string>>)
      modifies this
      ensures View() == AfterChunkSizeChange(old(View()), resplit)
    {
      if speech.speaking || speech.paused {
        StopSpeech();
      }
      if resplit.Some? {
        SetChunks(resplit.value);
      }
    }

    method WatchdogTick(synthPaused: bool, synthSpeaking: bool, synthPending: bool, now: int)
      modifies this
      ensures View() == AfterWatchdogTick(old(View()), synthPaused, synthSpeaking, synthPending, now)
    {
      if !(speech.speaking && !speech.paused && engine == Browser) {
        return;
      }
      var r := Watchdog.Tick(timers.stuckChecks, synthPaused, synthSpeaking, synthPending,
                             speech.lastEventAt, now, speech.cursor, |chunks|);
      timers := timers.(stuckChecks := r.counter);
      if r.recovery == Watchdog.HardRestart {
        CancelAll();
        timers := timers.(scheduledSpeaks := timers.scheduledSpeaks + 1);
      }
    }

    /** A delayed `loadChapter(url, true)` fires; it starts by stopping speech. */
    method FirePendingNav() returns (url: Option<string>)
      modifies this
      ensures url == if old(nav).pendingNavs == [] then None else Some(old(nav).pendingNavs[0])
      ensures View() == if old(nav).pendingNavs == [] then old(View())
                        else AfterStopSpeech(old(View()).(nav := old(nav).(pendingNavs := old(nav).pendingNavs[1..])))
    {
      if nav.pendingNavs == [] {
        return None;
      }
      url := Some(nav.pendingNavs[0]);
      nav := nav.(pendingNavs := nav.pendingNavs[1..]);
      StopSpeech();
    }

    /**
     * The platform speaks the head of a window through: it starts the head, then finishes
     * it, and `onend` slides the window on by one chunk. `started` is the chunk `onstart`
     * reported.
     */
    method PlayChunk(now: int, ghost id: nat, a: nat) returns (started: nat)
      requires a < |chunks| && WindowFrom(View(), id, a)
      modifies this
      ensures started == a
      ensures WindowFrom(View(), id + 1, a + 1)
      ensures chunks == old(chunks) && speech.cursor == a
      ensures nav.autoMode == old(nav).autoMode && nav.nextUrl == old(nav).nextUrl
      ensures a != |chunks| - 1 ==>
                nav == old(nav) && speech.speaking == old(speech).speaking && speech.paused == old(speech).paused
      ensures a == |chunks| - 1 && nav.autoMode && nav.nextUrl.Some? ==>
                nav.pendingNavs == old(nav).pendingNavs + [old(nav).nextUrl.value]
      ensures a == |chunks| - 1 && !(nav.autoMode && nav.nextUrl.Some?) ==>
                !speech.speaking && !speech.paused
    {
      EndSlidesWindow(View(), id, a);
      PlatformStart(now);
      started := speech.cursor;
      ghost var before := View();
      EndSlidesWindow(before, id, a);
      EndOfChapter(Popped(before), before.synth.queue[0]);
      PlatformFinish();
    }

    /**
     * The platform plays a window of chunks from `s` out: it starts and finishes the head
     * of its queue until the queue is empty. Every chunk from `s` to the last is started
     * once, in order; the reading then ends (or the next chapter is scheduled) with the
     * cursor on the last chunk.
     */
    method PlayOut(now: int, ghost id0: nat, s: nat) returns (started: seq<nat>)
      requires WindowFrom(View(), id0, s) && (s < |chunks| || s == |chunks| == 0)
      modifies this
      ensures var n := |old(chunks)|;
        |started| == n - s && (forall k :: 0 <= k < |started| ==> started[k] == s + k)
        && synth.queue == [] && synth.active == {} && chunks == old(chunks)
        && (n > 0 ==> speech.cursor == n - 1)
        && (n > 0 && !(old(nav).autoMode && old(nav).nextUrl.Some?) ==> !speech.speaking && !speech.paused)
        && (n > 0 && old(nav).autoMode && old(nav).nextUrl.Some? ==>
              nav.pendingNavs == old(nav).pendingNavs + [old(nav).nextUrl.value])
    {
      ghost var nav0 := nav;
      var n := |chunks|;
      started := [];
      var a := s;
      ghost var id := id0;
      while synth.queue != []
        invariant s <= a && (a <= n || n == 0) && id == id0 + (a - s)
        invariant WindowFrom(View(), id, a)
        invariant |started| == a - s && forall k :: 0 <= k < |started| ==> started[k] == s + k
        invariant chunks == old(chunks) && nav.autoMode == nav0.autoMode && nav.nextUrl == nav0.nextUrl
        invariant a > s ==> speech.cursor == a - 1
        invariant a < n ==> nav.pendingNavs == nav0.pendingNavs
        invariant n > 0 && a == n && !(nav.autoMode && nav.nextUrl.Some?) ==> !speech.speaking && !speech.paused
        invariant n > 0 && a == n && nav.autoMode && nav.nextUrl.Some? ==>
                    nav.pendingNavs == nav0.pendingNavs + [nav0.nextUrl.value]
        decreases n - a
      {
        WindowEmpty(View(), id, a);
        var k := PlayChunk(now, id, a);
        started := started + [k];
        a, id := a + 1, id + 1;
      }
      WindowEmpty(View(), id, a);
    }

    /** Uninterrupted browser playback from a call of `speakNextChunk`. */
    method PlayThrough(now: int) returns (started: seq<nat>)
      modifies this
      ensures var n := |old(chunks)|;
        var s := StartIndex(old(speech).cursor, n);
        |started| == n - s && (forall k :: 0 <= k < |started| ==> started[k] == s + k)
        && synth.queue == [] && synth.active == {} && chunks == old(chunks)
        && (n > 0 ==> speech.cursor == n - 1)
        && (n > 0 && !(old(nav).autoMode && old(nav).nextUrl.Some?) ==> !speech.speaking && !speech.paused)
        && (n > 0 && old(nav).autoMode && old(nav).nextUrl.Some? ==>
              nav.pendingNavs == old(nav).pendingNavs + [old(nav).nextUrl.value])
    {
      ghost var v0 := View();
      var s := StartIndex(speech.cursor, |chunks|);
      SpeakNextQueuesWindow(v0);
      SpeakNextChunk();
      started := PlayOut(now, v0.synth.nextId, s);
    }
  }
}
