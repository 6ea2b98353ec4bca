/**
 * Chapter navigation: `loadChapter`, which serves a chapter from the translation cache, from
 * the preloaded slot or by a cold fetch, with the auto-mode chapter limit checked first; and
 * the preload of the next chapter while the current one is read, with the guard that starts
 * it. Each step is a function from the reader's session to the next one. Scraping and
 * translation are outcomes given as parameters; the speech side of a load (`stopSpeech`,
 * then new chunks) is `Playback.Player.StopSpeech` followed by `Playback.Player.SetChunks`.
 */
module Loader {
  import opened Wrappers
  import opened Text
  import RecentLists
  import Translation

  /** What a chapter page holds once scraped (and, when `translated` is not empty, translated). */
  datatype Chapter = Chapter(content: string, translated: string, nextUrl: Option<string>,
                             prevUrl: Option<string>)

  /** `preloadedData`: the next chapter, fetched and translated ahead of time. */
  datatype Preloaded = Preloaded(url: string, chapter: Chapter)

  /** What a scrape gives: the text and the neighbouring chapters' links. */
  datatype Page = Page(content: string, nextUrl: Option<string>, prevUrl: Option<string>)

  /** The reader's session state that navigation reads and writes. */
  datatype Session = Session(
    url: string,
    chapter: Chapter,
    step: nat,                          // 1 input, 2 scraped, 3 translated
    loading: bool,
    error: string,
    autoMode: bool,                     // isAutoMode
    limit: int,                         // autoStopChapterLimit, 0 for none
    readCount: nat,                     // chaptersReadCount
    style: RecentLists.Style,           // translationStyle
    autoStyle: Option<RecentLists.Style>,
    cache: seq<RecentLists.CacheEntry>, // translatedChapters
    history: seq<RecentLists.HistoryItem>,
    preloaded: Option<Preloaded>,
    preloading: bool)                   // isPreloading

  /** How `loadChapter` served a URL. */
  datatype Route = StoppedAtLimit | FromCache | FromPreload | ColdFetch | NothingToFetch

  datatype Loaded = Loaded(session: Session, route: Route)

  /** A JavaScript truthiness test on `string | null`: present and not empty. */
  predicate Present(link: Option<string>) {
    link.Some? && link.value != []
  }

  /** "Đã dừng tự động sau khi đọc xong N chương.", shown when auto mode stops. */
  function LimitMessage(limit: int): string {
    "\U{110}\U{E3} d\U{1EEB}ng t\U{1EF1} \U{111}\U{1ED9}ng sau khi \U{111}\U{1ECD}c xong "
    + IntToDecimal(limit) + " ch\U{1B0}\U{1A1}ng."
  }

  /** `translatedChapters.find(c => c.url === url)`. */
  function FindCached(cache: seq<RecentLists.CacheEntry>, url: string): (r: Option<RecentLists.CacheEntry>)
    ensures r.Some? <==> exists i :: 0 <= i < |cache| && cache[i].url == url
    ensures r.Some? ==> r.value in cache && r.value.url == url
  {
    if cache == [] then None
    else if cache[0].url == url then Some(cache[0])
    else
      assert forall i :: 1 <= i < |cache| ==> cache[i] == cache[1..][i - 1];
      FindCached(cache[1..], url)
  }

  /** The entry found is the first one with that URL. */
  lemma {:induction false} FindCachedIsFirst(cache: seq<RecentLists.CacheEntry>, url: string, i: nat)
    requires i < |cache| && cache[i].url == url
    requires forall j :: 0 <= j < i ==> cache[j].url != url
    ensures FindCached(cache, url) == Some(cache[i])
  {
    if i > 0 {
      FindCachedIsFirst(cache[1..], url, i - 1);
    }
  }

  function EntryChapter(e: RecentLists.CacheEntry): Chapter {
    Chapter(e.content, e.translated, e.nextUrl, e.prevUrl)
  }

  /** The style a chapter is cached under: the auto-mode style while it is set, else the reader's. */
  function StyleToUse(s: Session): RecentLists.Style {
    if s.autoMode && s.autoStyle.Some? then s.autoStyle.value else s.style
  }

  /** A chapter is shown: its URL and texts become current, the reader is at step 3, the visit is logged. */
  function Show(s: Session, target: string, c: Chapter, now: int): Session {
    s.(url := target, chapter := c, step := 3,
       history := RecentLists.SaveToHistory(s.history, target, c.translated, now))
  }

  /**
   * The synchronous part of `fetchContent(target)` in URL mode, as written: with no URL at
   * all nothing happens; otherwise the page is cleared back to step 1, the preloaded slot is
   * emptied and the chapter counter is reset. The session's own URL is left as it was.
   */
  function BeginFetchAsWritten(s: Session, target: string): (r: Loaded)
    ensures r.route == NothingToFetch || r.route == ColdFetch
    ensures r.route == NothingToFetch <==> target == [] && s.url == []
    ensures r.route == NothingToFetch ==> r.session == s
    ensures r.session.url == s.url && r.session.cache == s.cache && r.session.history == s.history
    ensures r.route == ColdFetch ==>
      r.session.step == 1 && r.session.preloaded == None && r.session.readCount == 0 && r.session.loading
  {
    var urlToFetch := if target != [] then target else s.url;
    if urlToFetch == [] then Loaded(s, NothingToFetch)
    else
      Loaded(s.(loading := true, error := [], chapter := Chapter([], [], None, None), step := 1,
                preloaded := None, readCount := 0), ColdFetch)
  }

  /**
   * `fetchContent(target)` as evidently intended: the same, and the URL fetched becomes the
   * session's URL, so that the translation that follows is filed under the chapter's own URL.
   */
  function BeginFetch(s: Session, target: string): (r: Loaded)
    ensures r.route == BeginFetchAsWritten(s, target).route
    ensures r.route == ColdFetch ==> r.session.url != [] && r.session.url == (if target != [] then target else s.url)
    ensures r.route == ColdFetch ==> r.session.step == 1 && r.session.preloaded == None && r.session.readCount == 0
  {
    var urlToFetch := if target != [] then target else s.url;
    var r := BeginFetchAsWritten(s, target);
    Loaded(r.session.(url := urlToFetch), r.route)
  }

  /** The scrape started by `BeginFetch` settles: step 2 with the page, or its error. */
  function FinishFetch(s: Session, page: Result<Page, string>): (r: Session)
    ensures !r.loading && r.url == s.url && r.preloaded == s.preloaded && r.cache == s.cache
    ensures page.Success? ==> r.step == 2 && r.error == s.error && r.chapter.content == page.value.content
                              && r.chapter.translated == s.chapter.translated
    ensures page.Failure? ==> r.step == s.step && r.chapter == s.chapter && r.error == page.error
  {
    if page.Success? then
      s.(chapter := s.chapter.(content := page.value.content, nextUrl := page.value.nextUrl,
                               prevUrl := page.value.prevUrl),
         step := 2, loading := false)
    else s.(error := page.error, loading := false)
  }

  /** "Cần nhập API Key.", shown when translation is asked for without a usable key. */
  const NeedKeyMessage: string := "C\U{1EA7}n nh\U{1EAD}p API Key."
  /** "Lỗi khi gọi AI.", shown when the translation fails with an empty message. */
  const TranslateFailedMessage: string := "L\U{1ED7}i khi g\U{1ECD}i AI."

  /** The link a translated chapter is filed under: `url || nextChapterUrl || ""`. */
  function FilingUrl(s: Session): string {
    if s.url != [] then s.url else if Present(s.chapter.nextUrl) then s.chapter.nextUrl.value else []
  }

  /**
   * `translateContent`, with `translation` what `fetchTranslation` gave (its error as the
   * message it throws): nothing without scraped text; an error without a usable key;
   * otherwise the translation is shown at step 3 and filed in the history and the cache
   * under `FilingUrl`, or its error is shown. The speech side (`stopSpeech`, the new
   * chunks) is `Playback.Player.StopSpeech` followed by `Playback.Player.SetChunks`.
   */
  function TranslateChapter(s: Session, keys: seq<string>, translation: Result<string, string>,
                            now: int): (r: Session)
    ensures r.url == s.url && r.preloaded == s.preloaded && r.readCount == s.readCount
    ensures r.chapter.content == s.chapter.content && (r.step == s.step || r.step == 3)
    ensures r.step == 3 && r.step != s.step ==> r.chapter.translated != [] || translation.Success?
    ensures s.chapter.content == [] ==> r == s
  {
    if s.chapter.content == [] then s
    else if Translation.ValidKeys(keys) == [] then s.(error := NeedKeyMessage)
    else if translation.Failure? then
      s.(error := if translation.error == [] then TranslateFailedMessage else translation.error)
    else
      var t := translation.value;
      var c := s.chapter;
      var at := FilingUrl(s);
      s.(error := [], chapter := c.(translated := t), step := 3,
         history := RecentLists.SaveToHistory(s.history, at, t, now),
         cache := RecentLists.SaveToCache(s.cache, at, c.content, t, c.nextUrl, c.prevUrl, now,
                                          StyleToUse(s)))
  }

  /** An automatic navigation counts one more chapter read. */
  function Counted(s: Session, isAutoNav: bool): Session {
    if isAutoNav then s.(readCount := s.readCount + 1) else s
  }

  /**
   * `loadChapter(target, isAutoNav)` after its `stopSpeech()`, as written: the auto-mode
   * limit, then the counter, then the cache (which is not reordered), then the preloaded
   * slot (which is cached and emptied), then a cold fetch that leaves the URL as it was.
   */
  function LoadChapterAsWritten(s: Session, target: string, isAutoNav: bool, now: int): (r: Loaded)
    ensures r.route == StoppedAtLimit <==> isAutoNav && s.limit > 0 && s.readCount >= s.limit
    ensures r.route == ColdFetch ==> r.session.url == s.url
    ensures r.route == FromCache || r.route == FromPreload ==> r.session.url == target && r.session.step == 3
  {
    if isAutoNav && s.limit > 0 && s.readCount >= s.limit then
      Loaded(s.(autoMode := false, error := LimitMessage(s.limit)), StoppedAtLimit)
    else
      var t := Counted(s, isAutoNav);
      var cached := FindCached(t.cache, target);
      if cached.Some? then Loaded(Show(t, target, EntryChapter(cached.value), now), FromCache)
      else if t.preloaded.Some? && t.preloaded.value.url == target then
        var c := t.preloaded.value.chapter;
        var shown := Show(t, target, c, now);
        Loaded(shown.(cache := RecentLists.SaveToCache(t.cache, target, c.content, c.translated, c.nextUrl,
                                                       c.prevUrl, now, StyleToUse(t)),
                      preloaded := None), FromPreload)
      else BeginFetchAsWritten(t, target)
  }

  /** `loadChapter` as evidently intended: the same, with the cold fetch of `BeginFetch`. */
  function LoadChapter(s: Session, target: string, isAutoNav: bool, now: int): (r: Loaded)
    ensures r.route == StoppedAtLimit <==> isAutoNav && s.limit > 0 && s.readCount >= s.limit
    ensures target != [] && r.route != StoppedAtLimit ==> r.route != NothingToFetch && r.session.url == target
  {
    var r := LoadChapterAsWritten(s, target, isAutoNav, now);
    if r.route == ColdFetch then BeginFetch(Counted(s, isAutoNav), target) else r
  }

  // ---- preloading the next chapter ----

  /** The preload effect's guard. */
  predicate ShouldPreload(s: Session): (b: bool)
    ensures b ==> Present(s.chapter.nextUrl) && s.step == 3 && s.autoMode
    ensures b ==> !(s.preloaded.Some? && s.preloaded.value.url == s.chapter.nextUrl.value)
  {
    && s.autoMode && Present(s.chapter.nextUrl) && s.step == 3 && !s.preloading
    && (s.preloaded.None? || s.preloaded.value.url != s.chapter.nextUrl.value)
    && !(s.limit > 0 && s.readCount >= s.limit)
  }

  datatype PreloadStart = NoPreload | PreloadedFromCache | PreloadFetching

  /**
   * `doPreload` up to its first `await`, with `keys` the stored API keys: nothing without
   * a next chapter or a usable key; a cached next chapter fills the slot at once; otherwise
   * a fetch starts.
   */
  function BeginPreload(s: Session, keys: seq<string>): (r: (Session, PreloadStart))
    ensures r.1 == NoPreload <==> !Present(s.chapter.nextUrl) || Translation.ValidKeys(keys) == []
    ensures r.1 == NoPreload ==> r.0 == s
    ensures r.1 == PreloadedFromCache ==>
      r.0 == s.(preloaded := r.0.preloaded) && r.0.preloaded.Some? && r.0.preloaded.value.url == s.chapter.nextUrl.value
      && FindCached(s.cache, s.chapter.nextUrl.value).Some?
    ensures r.1 == PreloadFetching ==>
      r.0 == s.(preloading := true) && FindCached(s.cache, s.chapter.nextUrl.value).None?
  {
    if !Present(s.chapter.nextUrl) || Translation.ValidKeys(keys) == [] then (s, NoPreload)
    else
      var next := s.chapter.nextUrl.value;
      var cached := FindCached(s.cache, next);
      if cached.Some? then (s.(preloaded := Some(Preloaded(next, EntryChapter(cached.value)))), PreloadedFromCache)
      else (s.(preloading := true), PreloadFetching)
  }

  /**
   * The preload of `target` settles, with the scrape's outcome and, if the page had text,
   * the translation's: a non-empty translation fills the slot and is cached at once;
   * anything else leaves both as they were. Either way the preload is over.
   */
  function FinishPreload(s: Session, target: string, page: Result<Page, string>,
                         translation: Result<string, Translation.TranslationError>, now: int): (r: Session)
    ensures !r.preloading && r.url == s.url && r.chapter == s.chapter && r.step == s.step
    ensures r.preloaded != s.preloaded || r.cache != s.cache ==>
      page.Success? && translation.Success? && r.preloaded == Some(Preloaded(target, Chapter(page.value.content,
        translation.value, page.value.nextUrl, page.value.prevUrl)))
    ensures page.Success? && page.value.content != [] && translation.Success? && translation.value != [] && target != [] ==>
      r.preloaded.Some? && r.preloaded.value.url == target && r.cache != [] && r.cache[0].url == target
  {
    var done := s.(preloading := false);
    if page.Success? && page.value.content != [] && translation.Success? && translation.value != [] then
      var p := page.value;
      var c := Chapter(p.content, translation.value, p.nextUrl, p.prevUrl);
      done.(preloaded := Some(Preloaded(target, c)),
            cache := RecentLists.SaveToCache(s.cache, target, p.content, translation.value, p.nextUrl,
                                             p.prevUrl, now, StyleToUse(s)))
    else done
  }

  // ---- what navigation promises ----

  /** At the limit, an automatic navigation only switches auto mode off and reports why. */
  lemma {:induction false} LimitStopsAutoNav(s: Session, target: string, now: int)
    requires s.limit > 0 && s.readCount >= s.limit
    ensures var r := LoadChapter(s, target, true, now);
      r.route == StoppedAtLimit && r.session == s.(autoMode := false, error := LimitMessage(s.limit))
      && !ShouldPreload(r.session)
  {
  }

  /** A manual navigation is never stopped by the limit and does not count. */
  lemma {:induction false} ManualNavIgnoresLimit(s: Session, target: string, now: int)
    ensures var r := LoadChapter(s, target, false, now);
      r.route != StoppedAtLimit
      && (r.route == FromCache || r.route == FromPreload ==> r.session.readCount == s.readCount)
  {
  }

  /**
   * The counter goes up before the cache is consulted: every automatic navigation that
   * passes the limit and is served without a fetch counts one chapter.
   */
  lemma {:induction false} AutoNavCounts(s: Session, target: string, now: int)
    requires !(s.limit > 0 && s.readCount >= s.limit)
    ensures var r := LoadChapter(s, target, true, now);
      (r.route == FromCache || r.route == FromPreload) ==> r.session.readCount == s.readCount + 1
  {
  }

  /**
   * A cached chapter is served from the cache, whatever the preloaded slot holds; the
   * cache keeps its order, the slot is untouched and the visit goes first in the history.
   */
  lemma {:induction false} CacheHitServes(s: Session, target: string, isAutoNav: bool, now: int, e: RecentLists.CacheEntry)
    requires !(isAutoNav && s.limit > 0 && s.readCount >= s.limit)
    requires e in s.cache && e.url == target
    ensures var r := LoadChapter(s, target, isAutoNav, now).session;
      LoadChapter(s, target, isAutoNav, now).route == FromCache
      && r.cache == s.cache && r.preloaded == s.preloaded
      && r.url == target && r.step == 3 && r.chapter == EntryChapter(FindCached(s.cache, target).value)
      && (target != [] ==> r.history != [] && r.history[0].url == target)
  {
    var i :| 0 <= i < |s.cache| && s.cache[i] == e;
    assert FindCached(s.cache, target).Some?;
  }

  /** A preloaded chapter that is not cached is shown, cached first, and the slot emptied. */
  lemma {:induction false} PreloadHitServes(s: Session, target: string, isAutoNav: bool, now: int)
    requires !(isAutoNav && s.limit > 0 && s.readCount >= s.limit)
    requires FindCached(s.cache, target).None?
    requires s.preloaded.Some? && s.preloaded.value.url == target
    ensures var r := LoadChapter(s, target, isAutoNav, now);
      var c := s.preloaded.value.chapter;
      r.route == FromPreload && r.session.preloaded == None && r.session.chapter == c
      && r.session.step == 3 && r.session.url == target
      && (target != [] && c.translated != [] ==> r.session.cache[0].url == target)
  {
  }

  /** A cold fetch empties the slot, resets the counter and takes the URL it fetches. */
  lemma {:induction false} ColdFetchResets(s: Session, target: string, isAutoNav: bool, now: int)
    requires target != []
    requires !(isAutoNav && s.limit > 0 && s.readCount >= s.limit)
    requires FindCached(s.cache, target).None?
    requires !(s.preloaded.Some? && s.preloaded.value.url == target)
    ensures var r := LoadChapter(s, target, isAutoNav, now);
      r.route == ColdFetch && r.session.preloaded == None && r.session.readCount == 0
      && r.session.step == 1 && r.session.url == target && r.session.cache == s.cache
  {
  }

  /** The guard never fires at the limit nor while a preload is running. */
  lemma {:induction false} GuardRespectsLimit(s: Session)
    ensures (s.limit > 0 && s.readCount >= s.limit) ==> !ShouldPreload(s)
    ensures s.preloading ==> !ShouldPreload(s)
  {
  }

  /** Once the preload has begun, the guard does not fire again for the same chapter. */
  lemma {:induction false} PreloadFiresOnce(s: Session, keys: seq<string>)
    requires ShouldPreload(s)
    ensures var (r, how) := BeginPreload(s, keys);
      (how == NoPreload <==> Translation.ValidKeys(keys) == [])
      && (how != NoPreload ==> !ShouldPreload(r))
  {
  }

  /** A cached next chapter fills the slot with the cached texts, and nothing else changes. */
  lemma {:induction false} PreloadFromCacheCopies(s: Session, keys: seq<string>, e: RecentLists.CacheEntry)
    requires Present(s.chapter.nextUrl) && Translation.ValidKeys(keys) != []
    requires e in s.cache && e.url == s.chapter.nextUrl.value
    ensures var (r, how) := BeginPreload(s, keys);
      how == PreloadedFromCache
      && r == s.(preloaded := Some(Preloaded(e.url, EntryChapter(FindCached(s.cache, e.url).value))))
  {
    var i :| 0 <= i < |s.cache| && s.cache[i] == e;
  }

  /**
   * A failed scrape, an empty page or a failed or empty translation changes nothing but
   * the preloading flag.
   */
  lemma {:induction false} FailedPreloadKeepsSlot(s: Session, target: string, page: Result<Page, string>,
                               translation: Result<string, Translation.TranslationError>, now: int)
    requires page.Failure? || page.value.content == [] || translation.Failure? || translation.value == []
    ensures FinishPreload(s, target, page, translation, now) == s.(preloading := false)
  {
  }

  /**
   * A successful preload also caches the chapter, so the navigation to it that follows is
   * served from the cache, not from the slot, and the slot stays filled.
   */
  lemma {:induction false} PreloadedChapterServedFromCache(s: Session, target: string, p: Page, translated: string,
                                        now: int, later: int, isAutoNav: bool)
    requires target != [] && p.content != [] && translated != []
    ensures var t := FinishPreload(s, target, Success(p), Success(translated), now);
      var r := LoadChapter(t, target, isAutoNav, later);
      !(isAutoNav && t.limit > 0 && t.readCount >= t.limit) ==>
        r.route == FromCache && r.session.preloaded == t.preloaded
        && r.session.chapter == Chapter(p.content, translated, p.nextUrl, p.prevUrl)
  {
    var t := FinishPreload(s, target, Success(p), Success(translated), now);
    assert t.cache[0].url == target;
    var u := if isAutoNav then t.(readCount := t.readCount + 1) else t;
    assert FindCached(u.cache, target) == Some(t.cache[0]);
  }

  /** A cold fetch that succeeds shows the scraped page at step 2, untranslated. */
  lemma {:induction false} FetchThenScraped(s: Session, target: string, p: Page)
    requires target != []
    ensures var r := FinishFetch(BeginFetch(s, target).session, Success(p));
      r.step == 2 && r.chapter == Chapter(p.content, [], p.nextUrl, p.prevUrl) && !r.loading
      && r.error == [] && r.preloaded == None
  {
  }

  /** Translating a scraped page files it, at step 3, at the front of the history and the cache. */
  lemma {:induction false} TranslateFilesChapter(s: Session, keys: seq<string>, t: string, now: int)
    requires s.chapter.content != [] && Translation.ValidKeys(keys) != [] && FilingUrl(s) != []
    requires t != []
    ensures var r := TranslateChapter(s, keys, Success(t), now);
      var c := s.chapter;
      r.step == 3 && r.chapter == c.(translated := t) && r.error == []
      && r.history[0] == RecentLists.HistoryItem(FilingUrl(s), RecentLists.Title(t), now)
      && r.cache[0] == RecentLists.CacheEntry(FilingUrl(s), RecentLists.Title(t), c.content, t,
                                              c.nextUrl, c.prevUrl, now, StyleToUse(s))
  {
  }

  /** Without usable keys, or on failure, only the error changes. */
  lemma {:induction false} TranslateFailureReports(s: Session, keys: seq<string>, translation: Result<string, string>, now: int)
    requires s.chapter.content != []
    requires Translation.ValidKeys(keys) == [] || translation.Failure?
    ensures var r := TranslateChapter(s, keys, translation, now);
      r == s.(error := r.error) && r.error != []
  {
  }

  /** A translated chapter at the front of the cache is what a visit to its URL shows. */
  lemma {:induction false} CacheFrontServed(s: Session, url: string, now: int)
    requires s.cache != [] && s.cache[0].url == url
    ensures LoadChapter(s, url, false, now).route == FromCache
    ensures LoadChapter(s, url, false, now).session.chapter == EntryChapter(s.cache[0])
  {
    assert FindCached(s.cache, url) == Some(s.cache[0]);
  }

  /**
   * As written, going on by a cold fetch to a chapter other than the current one leaves the
   * URL where it was, so the new chapter's translation is filed under the current chapter's
   * URL: the cache entry for that URL now holds the new chapter, and a visit back to it shows
   * the new chapter's text.
   */
  lemma {:induction false} ColdFetchMisfilesChapter(s: Session, target: string, isAutoNav: bool, now: int,
                                 p: Page, keys: seq<string>, t: string, later: int)
    requires s.url != [] && target != [] && target != s.url
    requires !(isAutoNav && s.limit > 0 && s.readCount >= s.limit)
    requires FindCached(s.cache, target).None?
    requires !(s.preloaded.Some? && s.preloaded.value.url == target)
    requires p.content != [] && t != [] && Translation.ValidKeys(keys) != []
    ensures var f := FinishFetch(LoadChapterAsWritten(s, target, isAutoNav, now).session, Success(p));
      var r := TranslateChapter(f, keys, Success(t), now);
      r.cache != [] && r.cache[0].url == s.url && r.cache[0].url != target
      && LoadChapterAsWritten(r, s.url, false, later).session.chapter.translated == t
  {
    var l := LoadChapterAsWritten(s, target, isAutoNav, now);
    assert l == BeginFetchAsWritten(Counted(s, isAutoNav), target);
    var f := FinishFetch(l.session, Success(p));
    assert f.url == s.url && f.chapter.content == p.content;
    TranslateFilesChapter(f, keys, t, now);
    var r := TranslateChapter(f, keys, Success(t), now);
    assert FindCached(r.cache, s.url) == Some(r.cache[0]);
  }

  /** The correction changes only the URL a cold fetch leaves, which becomes the target. */
  lemma {:induction false} LoadChapterCorrectsOnlyUrl(s: Session, target: string, isAutoNav: bool, now: int)
    ensures var fixed, written := LoadChapter(s, target, isAutoNav, now), LoadChapterAsWritten(s, target, isAutoNav, now);
      fixed.route == written.route && fixed.session == written.session.(url := fixed.session.url)
      && (fixed.route != ColdFetch || target == [] ==> fixed.session.url == written.session.url)
      && (fixed.route == ColdFetch && target != [] ==> fixed.session.url == target)
  {
  }

  /** After a cold navigation, the scraped page is current under the URL that was fetched. */
  lemma {:induction false} ScrapedAfterColdNav(s: Session, target: string, isAutoNav: bool, now: int, p: Page)
    requires target != []
    requires !(isAutoNav && s.limit > 0 && s.readCount >= s.limit)
    requires FindCached(s.cache, target).None?
    requires !(s.preloaded.Some? && s.preloaded.value.url == target)
    ensures var f := FinishFetch(LoadChapter(s, target, isAutoNav, now).session, Success(p));
      f.url == target && f.chapter == Chapter(p.content, [], p.nextUrl, p.prevUrl) && f.step == 2
  {
    assert LoadChapter(s, target, isAutoNav, now) == BeginFetch(Counted(s, isAutoNav), target);
  }

  /**
   * With the URL taken by the fetch, a chapter reached by a cold fetch and then translated
   * is filed under its own URL, and a later visit to that URL serves it from the cache.
   */
  lemma {:induction false} ColdFetchFilesUnderTarget(s: Session, target: string, isAutoNav: bool, now: int,
                                  p: Page, keys: seq<string>, t: string, later: int)
    requires target != [] && p.content != [] && t != [] && Translation.ValidKeys(keys) != []
    requires !(isAutoNav && s.limit > 0 && s.readCount >= s.limit)
    requires FindCached(s.cache, target).None?
    requires !(s.preloaded.Some? && s.preloaded.value.url == target)
    ensures var f := FinishFetch(LoadChapter(s, target, isAutoNav, now).session, Success(p));
      var r := TranslateChapter(f, keys, Success(t), now);
      r.step == 3 && r.cache != [] && r.cache[0].url == target
      && r.history != [] && r.history[0].url == target
      && LoadChapter(r, target, false, later).session.chapter == Chapter(p.content, t, p.nextUrl, p.prevUrl)
  {
    var f := FinishFetch(LoadChapter(s, target, isAutoNav, now).session, Success(p));
    ScrapedAfterColdNav(s, target, isAutoNav, now, p);
    TranslateFilesChapter(f, keys, t, now);
    CacheFrontServed(TranslateChapter(f, keys, Success(t), now), target, later);
  }
}
