# Truyen-render reader core, modelled in Dafny

Truyen-render is a single-page web reader for Vietnamese web novels. It scrapes a chapter,
has a language model rewrite it, splits the result into speakable chunks, and reads those
chunks aloud. Reading uses either the browser's speech synthesis or a remote Edge TTS
engine reached over a WebSocket. In auto mode it goes on to the next chapter by itself.
While one chapter is being read, the next one is preloaded and translated, and
translated chapters are kept in a small cache.

This project models the core of that reader and proves properties of the model:

| file | models | form |
|---|---|---|
| `wrappers.dfy` | `Option` and `Result` | datatypes |
| `text.dfy` | the JavaScript string operations the core relies on: `trim`, `\s+` collapsing, `**` and CRLF replacement, `indexOf`, `lastIndexOf`, `includes`, decimal `toString` | pure functions and lemmas |
| `chunker.dfy` | `processTranslatedText` / `splitForTts` / `hardSplit` | pure functions (paragraphs, sentences) and methods with loops (packing, hard split) |
| `recent_lists.dfy` | the translation cache (20 entries), the history (50) and the bookmarks (20): bounded lists, most recent first | pure functions |
| `reader_helpers.dfy` | the word highlight of `renderContent`, `performSearch`, `toggleChapterSelection` and `formatTime` | functions, plus a method for the search loop |
| `translation.dfy` | the API-key fall-through of `fetchTranslation` and the cleanup of its reply | functions, plus a method for the key loop |
| `watchdog.dfy` | one tick of the browser-engine watchdog | pure functions |
| `playback.dfy` | the playback state machine of both engines: utterance queue, callbacks, controls, remote audio cache, play token, watchdog recovery, chapter end | a `Player` class whose methods update its fields, each specified by a state-transition function |
| `loader.dfy` | `loadChapter`, the cold fetch, `translateContent`, the preload guard and `doPreload` | pure functions over a `Session` record |
| `edge_tts.dfy` | `createSSML`, the binary frame header, metadata frames, and the close decision of `EdgeSpeechService.synthesize` | functions, plus a `SynthesisSession` class for the socket handlers |

The state the reader keeps in React refs is mutated in place; `Playback.Player` models it
as class fields. The state the reader keeps with `useState` is replaced wholesale on every
update; `Loader.Session` models it as a value. The following become parameters:

- clocks (`Date.now()`);
- scraping and translation outcomes;
- the HTTP reply for each API key;
- case mapping (`lower`, `canon`);
- JSON parsing of metadata (`parse`);
- what the speech platform reports (paused, speaking, pending).

Timers (`setTimeout`) are modelled as counters of pending calls, or as queues of pending
navigations. They fire when `Playback.Player.RunScheduledSpeak` or
`Playback.Player.FirePendingNav` is called. The speech platform's callbacks fire through the
`Playback.Player.Platform*` methods, and the remote engine's through the methods named after
them.

## Model

| member | source | states |
|---|---|---|
| Text.Trim | src/App.tsx:1249 | `trim()`: no leading or trailing whitespace, and the non-white content is unchanged |
| Text.TrimFacts | src/App.tsx:1236-1237 | a trimmed string is its own trim, and a string trims to empty exactly when it is all whitespace (why `filter(Boolean)` drops the blank pieces) |
| Text.TrimPadded | src/services/edgeTTS.ts:13-19 | trimming whitespace padding off a trimmed core gives the core back |
| Text.TrimIsSlice | src/App.tsx:1249 | `trim()` gives the slice that starts after the leading whitespace run |
| Text.TrimKeepsLast | src/App.tsx:1249 | a non-white last character survives trimming and stays last |
| Text.CollapseWs | src/App.tsx:1293 | `replace(/\s+/g, ' ')` never lengthens the text (what it keeps is stated by the lemmas below) |
| Text.CollapseWsKeepsContent | src/App.tsx:1293 | collapsing keeps every non-white character, in order |
| Text.CollapseWsSingleSpaces | src/App.tsx:1293 | the only whitespace left is the plain space, no two whitespace characters are adjacent, and a non-white first character stays first |
| Text.CollapseWsExtremes | src/App.tsx:1293 | a text without whitespace is unchanged, and a non-empty all-white text becomes one space |
| Text.CollapseWsWordPrefix | src/App.tsx:1293 | a leading word is kept as it is, and only the rest is collapsed |
| Text.CollapseWsRunPrefix | src/App.tsx:1293 | a whole whitespace run, of any length, becomes exactly one space; with `CollapseWsWordPrefix` this fixes the result for every text |
| Text.CollapseTrimJoinsWords | src/App.tsx:1293 | collapsing then trimming gives the words of the text joined by single spaces |
| Text.RemoveBold | src/App.tsx:1221 | `replace(/\*\*/g, '')`: no `**` is left, the result is no longer, and a first character that is not an asterisk stays first |
| Text.RemoveBoldKeeps | src/App.tsx:1221 | removing the pairs of asterisks keeps every other character, in order |
| Text.CrlfToLf | src/App.tsx:1221 | `replace(/\r\n/g, '\n')` never lengthens the text (what it keeps is stated by the lemmas below) |
| Text.CrlfToLfChanges | src/App.tsx:1221 | a text without CRLF is unchanged, and one with a CRLF gets shorter |
| Text.CrlfToLfPair | src/App.tsx:1221 | a CRLF pair becomes one line feed |
| Text.CrlfToLfKeepsContent | src/App.tsx:1221 | only carriage returns are removed: the text without carriage returns, and its non-white content, are unchanged |
| Text.CrlfToLfAppend | src/App.tsx:1221 | the replacement works piece by piece when the first piece does not end with a carriage return |
| Text.LastIndexOf | src/App.tsx:1264 | `lastIndexOf`: -1 exactly when the character is absent, otherwise its last position |
| Text.IndexOf | src/services/edgeTTS.ts:103 | `indexOf`: the first occurrence at or after `from`, or -1 when there is none |
| Text.NatToDecimal | src/App.tsx:608 | decimal digits without a leading zero |
| Text.DecimalRoundTrip | src/App.tsx:608 | the digits read back as the number |
| Text.IntToDecimal | src/services/edgeTTS.ts:11 | a sign exactly for negative numbers |
| Text.IntDecimalRoundTrip | src/services/edgeTTS.ts:11 | the signed rendering reads back as the number |
| Chunker.Limit | src/App.tsx:1244 | LIMIT is the chunk size clamped to [200, 3000], and equal to the setting inside that range |
| Chunker.SoftTarget | src/App.tsx:1245 | SOFT_TARGET is at least 200 and at most LIMIT; it is 85% of LIMIT rounded down, or 200 when that is smaller |
| Chunker.SplitAtNewlineRuns | src/App.tsx:1248 | the split at newline runs yields at least one piece, and the pieces hold all the content |
| Chunker.NewlineRunPieces | src/App.tsx:1248 | the pieces hold no line feed, and together they are the text with its line feeds removed |
| Chunker.NewlineRunCuts | src/App.tsx:1248 | the text is the pieces with a gap put back between each two, every gap a non-empty run of line feeds and no piece holding one, so each gap is a whole maximal run; only the first and the last piece may be empty |
| Chunker.NewlineRunCutsUnique | src/App.tsx:1248 | any such decomposition of the text is exactly what the split returns, so the split cuts at every maximal run of line feeds and nowhere else |
| Chunker.TrimAndDropEmpty | src/App.tsx:1249-1250 | the paragraphs are trimmed and non-empty, keep all the content, and there are no more of them than pieces |
| Chunker.Paragraphs | src/App.tsx:1247-1250 | the paragraphs are trimmed and non-empty, and hold the input's whole non-white content in order |
| Chunker.ParagraphsHaveNoNewline | src/App.tsx:1247-1250 | no paragraph holds a line feed |
| Chunker.TitleCount | src/App.tsx:1252-1255 | one title chunk exactly when there is a first paragraph that starts with "chương" (lower-cased) or is shorter than 100 characters |
| Chunker.SentenceBreak | src/App.tsx:1235 | the first position where `(?<=[.!?…。！？])\s+` matches: a terminator then a whitespace character, with no earlier match |
| Chunker.SplitAfterTerminators | src/App.tsx:1235 | splitting after the terminators keeps all the content |
| Chunker.SentencePieces | src/App.tsx:1235 | no piece holds a terminator followed by whitespace, every piece but the last ends with its terminator, later pieces start with a non-white character, the first piece starts where the text does, and a text without a break stays whole |
| Chunker.SentenceCuts | src/App.tsx:1235 | the text is the pieces with a gap put back between each two, every gap a non-empty whitespace run that follows a piece ending with its terminator, so each gap is the whole whitespace run after a break |
| Chunker.SentenceCutsUnique | src/App.tsx:1235 | any such decomposition of the text is exactly what the split returns, so the split cuts at every break and nowhere else |
| Chunker.Sentences | src/App.tsx:1233-1238 | the regular-expression path of `splitToSentences`: the sentences are non-empty and trimmed, and keep the paragraph's content |
| Chunker.SentencesEndAtTerminators | src/App.tsx:1233-1238 | no sentence holds a break, and every sentence but the last ends with its terminator |
| Chunker.NormalizeSentence | src/App.tsx:1293 | a normalized sentence is its words joined by single spaces: trimmed, and with the same content |
| Chunker.CutPoint | src/App.tsx:1262-1265 | the cut is the last space in the window `[LIMIT-120, LIMIT]`, or LIMIT itself when that window has no space |
| Chunker.CutStep | src/App.tsx:1266-1267 | the piece cut off is non-empty, trimmed and no longer than the cut, and piece plus remainder hold the content |
| Chunker.HardSplit | src/App.tsx:1257-1271 | every piece is non-empty, trimmed and within LIMIT, and the pieces hold the sentence's content |
| Chunker.Flush | src/App.tsx:1283-1287 | `flush` appends the trimmed buffer or nothing, and keeps the content |
| Chunker.Start | src/App.tsx:1296-1304 | with an empty buffer, a sentence within LIMIT becomes the buffer and a longer one is hard-split |
| Chunker.Extend | src/App.tsx:1307-1321 | with a non-empty buffer, `buf + " " + sentence` is kept if it fits, flushed early at the soft target, and otherwise the buffer is emitted first; a sentence within LIMIT then becomes the buffer, a longer one is hard-split and leaves the buffer empty |
| Chunker.Join | src/App.tsx:1307-1313 | when `buf + " " + sentence` fits, it becomes the buffer, and it is flushed as one chunk once it reaches the soft target; the content is kept |
| Chunker.Restart | src/App.tsx:1315-1321 | when the joined text does not fit, the buffer is emitted as the next chunk; a sentence within LIMIT becomes the buffer, a longer one is hard-split and leaves the buffer empty; the content is kept |
| Chunker.PackSentence | src/App.tsx:1292-1322 | one pass of the sentence loop: emitted chunks never change, the buffer stays within LIMIT, and the output plus the buffer grow by exactly the sentence's content |
| Chunker.PackParagraph | src/App.tsx:1289-1326 | a paragraph ends up as trimmed, non-empty chunks within LIMIT holding its content; no chunk crosses into the next paragraph |
| Chunker.PackParagraphs | src/App.tsx:1273-1329 | the title chunk, then each later paragraph's own chunks in order, each group within LIMIT and holding exactly its paragraph |
| Chunker.SplitForTts | src/App.tsx:1241-1330 | all chunks are non-empty and trimmed, and together hold the input's content; a likely-title first paragraph is chunk 0 verbatim; the other chunks are within LIMIT and grouped by paragraph |
| Chunker.ProcessTranslatedText | src/App.tsx:1217-1333 | an empty text leaves the chunks alone; otherwise the chunks hold the content of the text without `**`; a title chunk comes first, and the rest are within LIMIT |
| RecentLists.WithoutKey | src/App.tsx:326 | `filter(c => c.url !== url)`: exactly the items without the key remain |
| RecentLists.PutFront | src/App.tsx:220 | the new item is first, then the other items without its key, cut to the cap |
| RecentLists.PutFrontKeepsOrder | src/App.tsx:220 | the items behind the new one keep their relative order |
| RecentLists.PutFrontIdempotent | src/App.tsx:326 | saving the same item twice in a row equals saving it once |
| RecentLists.FirstLine | src/App.tsx:214-215 | `split('\n')[0]`: the prefix before the first line feed |
| RecentLists.Title | src/App.tsx:215 | the title is the first line cut to 50 characters |
| RecentLists.SaveToCache | src/App.tsx:309-329 | no URL or no translation: the cache is unchanged; otherwise the new entry is first, followed by the older entries for other URLs in their order, as many as fit in 20 |
| RecentLists.SaveToCacheIdempotent | src/App.tsx:309-329 | saving a chapter again leaves the cache unchanged |
| RecentLists.SaveToHistory | src/App.tsx:210-223 | no URL: the history is unchanged; otherwise the visit is first, followed by the older items for other URLs in their order, as many as fit in 50 |
| RecentLists.BookmarkTarget | src/App.tsx:333-334 | the current URL, else a non-empty next URL, else nothing |
| RecentLists.AddBookmark | src/App.tsx:332-349 | a bookmark for the target at the active chunk (0 when none), titled after the translation or "Chương không tên", goes first, followed by the older bookmarks for other URLs in their order, as many as fit in 20 |
| RecentLists.RemoveBookmark | src/App.tsx:351-355 | exactly the bookmarks for other URLs remain, in order |
| RecentLists.RemoveAfterAdd | src/App.tsx:332-355 | removing a bookmark just added leaves the older bookmarks for other URLs |
| ReaderHelpers.RenderSplit | src/App.tsx:7-30 | the word highlight is drawn exactly when the paragraph is active and the index falls on a non-white character; then before, word, space and after give the text back, the word being the whole run of non-white characters |
| ReaderHelpers.WordAt | src/App.tsx:11-21 | at a non-white character, `/^(\S+)(\s*)/` matches: the text before the index, the whole word, the whole whitespace run after it and the rest give the text back |
| ReaderHelpers.PerformSearch | src/App.tsx:369-382 | an empty query or chapter finds nothing; otherwise, in increasing order, exactly the chunks whose lower-case form contains the lower-case query |
| ReaderHelpers.ToggleChapterSelection | src/App.tsx:393-399 | the URL's selection flips and no other URL's changes; an unselected URL is appended |
| ReaderHelpers.ToggleTwice | src/App.tsx:393-399 | toggling an unselected URL twice restores the selection |
| ReaderHelpers.FormatTime | src/App.tsx:608 | minutes, a colon, and two digits of seconds |
| ReaderHelpers.FormatTimeRoundTrip | src/App.tsx:608 | the display reads back as the number of seconds |
| Translation.NextLineTerminator | src/App.tsx:707 | the first character `.` does not match, at or after a position |
| Translation.PreambleEnd | src/App.tsx:707 | the end of a preamble line: after a line feed, with one of the three openings (compared case-insensitively) before it (the converse, and which line feed, are stated by `PreambleEndFirstMatch`) |
| Translation.PreambleMatchIsFirstLineEnd | src/App.tsx:707 | `^a.{0,50}\n` matches at most once: at the first line terminator after the opening, when that is a line feed within 50 characters |
| Translation.PreambleEndFirstMatch | src/App.tsx:707 | the alternation: the preamble ends where the first matching opening's line ends, and there is none exactly when no opening matches |
| Translation.StripPreamble | src/App.tsx:707 | the result is a suffix of the reply, and the reply is unchanged when it opens with none of the preambles (what is removed when one matches is stated by `StripPreambleDropsFirstLine`) |
| Translation.StripPreambleDropsFirstLine | src/App.tsx:707 | the reply changes exactly when a preamble matches, and then exactly its first line, through the line feed, is removed |
| Translation.Sanitize | src/App.tsx:705-710 | the cleaned reply is trimmed and holds no `**` (what it keeps is stated by `SanitizeKeepsContent` and `SanitizeCleanReply`) |
| Translation.SanitizeKeepsContent | src/App.tsx:705-710 | apart from the preamble line, only whitespace and asterisks are removed; every other character is kept, in order |
| Translation.SanitizeCleanReply | src/App.tsx:705-710 | a reply with no preamble, no asterisk and no outer whitespace is returned unchanged |
| Translation.NoBoldSurvivesTrim | src/App.tsx:708-709 | trimming cannot create a `**` |
| Translation.ValidKeys | src/App.tsx:674 | exactly the keys that are not blank |
| Translation.ValidKeysAppend | src/App.tsx:674 | the filter keeps the keys in their order, duplicates included: it distributes over concatenation |
| Translation.ValidKeysSingle | src/App.tsx:674 | a single key is kept exactly when it is not blank |
| Translation.KeyLoop | src/App.tsx:694-716 | a success comes from a key that answered; the loop never reports a missing key; the generic error only when no error was recorded |
| Translation.Translate | src/App.tsx:672-716 | "no key" exactly when no key is usable; a success comes from a usable key that answered |
| Translation.FetchTranslation | src/App.tsx:672-716 | the key loop returns what `Translate` defines: the first answering key's cleaned text, else the last recorded error, else the generic error |
| Translation.AllQuotaRecordsNothing | src/App.tsx:700 | quota replies (429) record no error |
| Translation.LoopFailsWithLast | src/App.tsx:711-716 | when no key answers, the loop fails with the last recorded error |
| Translation.NoAnswerReportsLastError | src/App.tsx:716 | when no valid key answers, the error thrown is the last one recorded, or the generic one |
| Translation.AllQuotaFailsGenerically | src/App.tsx:700-716 | when every key is over quota, the generic error is thrown |
| Translation.FirstAnswerWins | src/App.tsx:694-710 | the first answering key decides the result; later keys are not consulted |
| Translation.SucceedsIffSomeKeyAnswers | src/App.tsx:694-716 | the loop succeeds exactly when some key answers |
| Watchdog.Tick | src/App.tsx:1007-1050 | a paused engine is resumed; a healthy tick clears the counter; a first troubled tick resumes gently; a second restarts and clears the counter |
| Watchdog.CounterBounded | src/App.tsx:1026-1049 | the counter never exceeds 1 |
| Watchdog.NoEventNeverStalls | src/App.tsx:1016-1023 | before any speech event only the queue-empty test can fire |
| Watchdog.TroubleAlternates | src/App.tsx:1025-1047 | under persistent trouble, gentle resumes and hard restarts alternate |
| Playback.StartIndex | src/App.tsx:980 | playback starts at the cursor while it is inside the chapter, and at 0 otherwise |
| Playback.Window | src/App.tsx:983-996 | the queued utterances are consecutive chunks with consecutive ids |
| Playback.Lookup | src/App.tsx:789-796 | `getEdgeAudio`: an invalid index is refused; a cached URL is returned; a synthesis in flight is joined; only otherwise does a new one start |
| Playback.WindowEmpty | src/App.tsx:983-996 | the queue is empty exactly when it starts past the last chunk |
| Playback.SpeakNextQueuesWindow | src/App.tsx:975-998 | `speakNextChunk` leaves exactly the (up to) five chunks from the start index queued and active, and changes nothing else |
| Playback.EndSlidesWindow | src/App.tsx:935-952 | when the head of the queue ends, the five-chunk window slides by one |
| Playback.EndOfChapter | src/App.tsx:943-951 | only the last chunk's end matters: in auto mode with a next link it schedules the navigation; otherwise it stops reading |
| Playback.InactiveCallbacksIgnored | src/App.tsx:936-955 | end and error callbacks of an utterance that is no longer active change nothing |
| Playback.ErrorSkipsAhead | src/App.tsx:954-962 | an interruption or cancellation only forgets the utterance; any other error also queues the next chunk |
| Playback.ToggleWithoutChunks | src/App.tsx:1060 | with no chunks, the toggle does nothing |
| Playback.ToggleBrowserPauses | src/App.tsx:1094-1099 | pausing the browser engine empties the queue and keeps the cursor |
| Playback.ToggleBrowserResumes | src/App.tsx:1100-1104 | resuming requeues five chunks from the cursor |
| Playback.ToggleBrowserStarts | src/App.tsx:1105-1111 | starting sets speaking and queues from the start index |
| Playback.ToggleEdgePauses | src/App.tsx:1067-1071 | pausing the remote engine only pauses the audio element: the source, the token, the cursor and the browser queue stay |
| Playback.ToggleEdgeResumes | src/App.tsx:1072-1081 | resuming plays loaded audio where it stopped; without loaded audio, the start index is played afresh under the current token |
| Playback.ToggleEdgeStarts | src/App.tsx:1082-1088 | starting empties the browser queue and plays the start index under the current token, so its completion is not stale |
| Playback.ReplayStartsAtLastChunk | src/App.tsx:943-951 | after a chapter ends without auto mode, the cursor is still on the last chunk, so the next start replays only that chunk (the start at line 1062) |
| Playback.StopResets | src/App.tsx:770-786 | stop clears both engines, bumps the play token, resets the cursor, and keeps the audio cache |
| Playback.JumpSpeaksFrom | src/App.tsx:1114-1122 | a jump sets the cursor and the flags, empties the queue, and schedules one speak; the play token is kept |
| Playback.JumpThenSpeak | src/App.tsx:1114-1125 | once the scheduled speak fires, the five chunks from the jump target are queued |
| Playback.StaleCompletionIgnored | src/App.tsx:827 | an Edge completion whose token is no longer current changes nothing |
| Playback.StopCancelsPendingPlay | src/App.tsx:825-827 | a stop between the request and the completion cancels the play (the stop bumps the token at line 777) |
| Playback.JumpKeepsPendingPlay | src/App.tsx:1114-1125 | a jump does not bump the token, so the audio requested before it still starts (the token check at line 827) |
| Playback.CompletionPrefetches | src/App.tsx:829-834 | a successful play sets the source and requests the next two chunks that are neither cached nor in flight |
| Playback.AudioRequestsShareOneSynthesis | src/App.tsx:795-807 | a second request for a chunk in flight joins it and starts nothing |
| Playback.SettledAudio | src/App.tsx:803-811 | a settled synthesis leaves flight; a success is cached, a failure can be retried |
| Playback.IdleResplitKeepsPlace | src/App.tsx:1715-1717 | re-splitting while nothing is read changes only the chunks: the cursor, the flags, the queue and the play token stay |
| Playback.ResplitWhileReadingStops | src/App.tsx:1715-1717 | re-splitting while reading or paused stops first: flags cleared, cursor 0, token bumped, audio cache kept, and the new chunks installed |
| Playback.NewChunksKeepOldAudio | src/App.tsx:792-793 | the audio cache is never cleared: after new chunks, an old index still maps to the old audio (the cache declared at line 137) |
| Playback.DroppedQueueRecovers | src/App.tsx:1022-1046 | a queue the browser dropped is nudged on the first tick, cancelled on the second, and requeued from the cursor by the scheduled speak |
| Playback.EdgeEndAdvances | src/App.tsx:842-858 | the end of an Edge chunk plays the next one, or ends the chapter after the last |
| Playback.Player.constructor | src/App.tsx:135-147 | the refs and flags start empty, at chunk 0, with token 0 |
| Playback.Player.CancelAll | src/App.tsx:977-978 | `cancel()` plus clearing the active set empties the queue and the active set |
| Playback.Player.Rewatch | src/App.tsx:1001-1057 | the watchdog's counter restarts after any change to React state (the flags, the highlight, the engine, the chunks): `speakNextChunk` is recreated on every render, because it depends on `loadChapter`, a plain function of the component (lines 860, 966, 998) |
| Playback.Player.ScheduleNext | src/App.tsx:968-973 | an index inside the chapter is queued and made active; any other index is ignored (`prepareUtterance`, lines 909-910, gives nothing for an index outside) |
| Playback.Player.ScheduleStep | src/App.tsx:983-996 | one more of the five queued chunks |
| Playback.Player.SpeakNextChunk | src/App.tsx:975-998 | the new state is `AfterSpeakNextChunk` of the old one |
| Playback.Player.OnStart | src/App.tsx:922-928 | `onstart` moves the cursor and the highlight, and stamps the event time; a moved highlight restarts the watchdog's count |
| Playback.Player.OnBoundary | src/App.tsx:930-933 | `onboundary` stamps the event time and moves the word highlight; a moved highlight restarts the watchdog's count |
| Playback.Player.EndChapter | src/App.tsx:943-951 | auto mode with a next link schedules the navigation; otherwise reading stops |
| Playback.Player.OnEnd | src/App.tsx:935-952 | `onend` is guarded by the active set, refills five ahead, and ends the chapter after the last chunk |
| Playback.Player.OnError | src/App.tsx:954-962 | `onerror` is guarded by the active set and skips ahead unless interrupted or cancelled |
| Playback.Player.PlatformStart | src/App.tsx:922-928 | the platform starts the head utterance, if any |
| Playback.Player.Pop | src/App.tsx:971 | the platform takes the head utterance off its queue |
| Playback.Player.PlatformFinish | src/App.tsx:935-952 | the head utterance finishes and its `onend` runs |
| Playback.Player.PlatformFail | src/App.tsx:954-962 | the head utterance fails and its `onerror` runs |
| Playback.Player.PlatformDrop | src/App.tsx:1021-1023 | the platform silently drops its queue; the active set is unchanged |
| Playback.Player.RequestAudio | src/App.tsx:789-807 | the request's route is `Lookup`'s, and a new synthesis is put in flight |
| Playback.Player.SettleAudio | src/App.tsx:803-811 | the synthesis leaves flight, and a success is cached |
| Playback.Player.PlayEdgeBegin | src/App.tsx:816-826 | `playEdgeChunk` moves the cursor and the highlight, takes the current token, and requests the audio |
| Playback.Player.PlayEdgeFinish | src/App.tsx:826-838 | the completion under its token: a stale one is ignored; a successful one plays and prefetches |
| Playback.Player.HandleEdgeAudioEnded | src/App.tsx:842-858 | the audio's end plays the next chunk, or ends the chapter |
| Playback.Player.StopSpeech | src/App.tsx:770-786 | the new state is `AfterStopSpeech` of the old one |
| Playback.Player.ToggleSpeech | src/App.tsx:1059-1112 | pause, resume or start on either engine, and the ticket of the Edge play it starts |
| Playback.Player.JumpToChunk | src/App.tsx:1114-1125 | the new state is `AfterJumpToChunk` of the old one |
| Playback.Player.RunScheduledSpeak | src/App.tsx:1124 | a pending delayed `speakNextChunk` fires |
| Playback.Player.AutoStart | src/App.tsx:1341-1343 | in auto mode, a translated chapter not being read starts from chunk 0 |
| Playback.Player.SetEngine | src/App.tsx:1662-1666 | switching engines stops what is playing first |
| Playback.Player.SetChunks | src/App.tsx:1332 | only the chunks change: the cursor, the play token and the audio cache are kept; the loader calls `stopSpeech` before it (lines 861, 1187, 1207) |
| Playback.Player.ChangeChunkSize | src/App.tsx:1711-1718 | the chunk-size slider stops reading only while speaking or paused, then installs the re-split translation when there is one |
| Playback.Player.WatchdogTick | src/App.tsx:1001-1057 | the watchdog runs only while the browser engine speaks unpaused; a hard restart cancels and schedules a speak |
| Playback.Player.FirePendingNav | src/App.tsx:946 | the delayed `loadChapter(next, true)` fires with the URL queued first, and begins with `stopSpeech` (`loadChapter`, line 861) |
| Playback.Player.PlayChunk | src/App.tsx:922-952 | the head chunk starts (the chunk `onstart` reports is returned) and ends: the window slides by one, and the chapter ends after the last chunk |
| Playback.Player.PlayOut | src/App.tsx:935-952 | a queue left to play without interruption plays out: the chunks start in order from the start index, the queue ends empty, and the chapter end is taken |
| Playback.Player.PlayThrough | src/App.tsx:975-998 | from `speakNextChunk`, uninterrupted playback speaks every chunk from the start index in order, then ends the chapter (each chunk ended by `onend`, lines 935-952) |
| Loader.FindCached | src/App.tsx:874 | `find`: there is a result exactly when some entry has the URL, and the result is such an entry |
| Loader.FindCachedIsFirst | src/App.tsx:874 | the entry found is the first one with that URL |
| Loader.BeginFetchAsWritten | src/App.tsx:1183-1187 | as written: with no URL at all nothing happens; otherwise step 1, the slot emptied, the counter reset, and the session's URL left as it was |
| Loader.BeginFetch | src/App.tsx:1183-1187 | (corrected) the same route, and the URL fetched becomes the session's URL |
| Loader.FinishFetch | src/App.tsx:1189-1197 | the scrape settles: the page at step 2, or its error; loading ends, and the URL, the slot and the cache stay |
| Loader.TranslateChapter | src/App.tsx:1200-1215 | translating never moves the URL, the slot or the counter; it keeps the scraped text and either stays at its step or reaches step 3; without scraped text nothing happens |
| Loader.LoadChapterAsWritten | src/App.tsx:860-907 | as written: it stops exactly at the limit of an automatic navigation; a cache or preload hit shows the target at step 3, and a cold fetch leaves the previous URL current |
| Loader.LoadChapter | src/App.tsx:860-907 | (corrected) it stops exactly at the limit of an automatic navigation; otherwise a non-empty target becomes the current URL on every route |
| Loader.LoadChapterCorrectsOnlyUrl | src/App.tsx:860-907 | the correction changes only the URL a cold fetch leaves, which becomes the target |
| Loader.ShouldPreload | src/App.tsx:720-725 | the guard fires only in auto mode, on a translated chapter, with a next link that is not already in the slot |
| Loader.BeginPreload | src/App.tsx:727-743 | nothing without a next link or a usable key; a cached next chapter fills the slot at once; otherwise a fetch starts and is marked running |
| Loader.FinishPreload | src/App.tsx:744-765 | the preload ends; only a fetched page with a non-empty translation fills the slot and is cached first; the chapter shown is untouched |
| Loader.LimitStopsAutoNav | src/App.tsx:863-867 | at the chapter limit, an automatic navigation only turns auto mode off and reports the limit, and no preload starts after it |
| Loader.ManualNavIgnoresLimit | src/App.tsx:863-871 | a manual navigation never stops at the limit and does not count |
| Loader.AutoNavCounts | src/App.tsx:869-871 | an automatic navigation counts one chapter before the cache is consulted |
| Loader.CacheHitServes | src/App.tsx:873-887 | a cached chapter is served from the cache, whatever the preloaded slot holds; the cache is not reordered; the visit goes first in the history |
| Loader.PreloadHitServes | src/App.tsx:889-904 | an uncached preloaded chapter is shown, cached, and the slot emptied |
| Loader.ColdFetchResets | src/App.tsx:1183-1187 | (corrected) otherwise a fetch begins: step 1, the slot emptied, the counter reset, and the fetched URL becomes current (reached from `loadChapter`, line 906) |
| Loader.FetchThenScraped | src/App.tsx:1189-1197 | a successful scrape shows the page at step 2, untranslated |
| Loader.TranslateFilesChapter | src/App.tsx:1200-1215 | a translation is shown at step 3 and filed first in the history and the cache under `url \|\| nextChapterUrl` |
| Loader.TranslateFailureReports | src/App.tsx:1201-1214 | without keys, or on failure, only the error changes |
| Loader.CacheFrontServed | src/App.tsx:874-878 | the chapter at the front of the cache is what a visit to its URL shows |
| Loader.ColdFetchMisfilesChapter | src/App.tsx:1183-1213 | as written, a cold navigation files the new chapter under the previous chapter's URL |
| Loader.ScrapedAfterColdNav | src/App.tsx:1183-1197 | after the corrected cold navigation, the scraped page is current under the URL fetched (reached from `loadChapter`, line 906) |
| Loader.ColdFetchFilesUnderTarget | src/App.tsx:1183-1215 | corrected: a chapter reached by a cold fetch and translated is cached under its own URL and served from there (reached from `loadChapter`, line 906) |
| Loader.GuardRespectsLimit | src/App.tsx:720-725 | the preload never fires at the limit, nor while one is running |
| Loader.PreloadFiresOnce | src/App.tsx:720-743 | a preload that begins either fills the slot for the next chapter or marks itself running, so the guard stays off |
| Loader.PreloadFromCacheCopies | src/App.tsx:730-741 | a cached next chapter fills the slot with the cached texts, and nothing else changes |
| Loader.FailedPreloadKeepsSlot | src/App.tsx:744-765 | a failed scrape, an empty page, or a failed or empty translation only ends the preload |
| Loader.PreloadedChapterServedFromCache | src/App.tsx:748-758 | a completed preload is also cached, so the navigation to it is served from the cache and leaves the slot filled (found by the cache check, lines 873-887) |
| EdgeTts.RateString | src/services/edgeTTS.ts:10-11 | `+p%` from 0 up, `-p%` below |
| EdgeTts.RateRoundTrip | src/services/edgeTTS.ts:10-11 | the rate string determines the percentage |
| EdgeTts.RateExamples | src/services/edgeTTS.ts:8-9 | rate 1.5 gives `+50%`, 0.8 gives `-20%`, 1.0 gives `+0%` |
| EdgeTts.CreateSsml | src/services/edgeTTS.ts:7-20 | the text inside prosody, inside voice, inside the `vi-VN` speak element |
| EdgeTts.SsmlTrim | src/services/edgeTTS.ts:13-19 | `trim` removes only the template's outer indentation, whatever the text holds |
| EdgeTts.AudioPayload | src/services/edgeTTS.ts:139-145 | audio exactly when the frame is longer than the big-endian header length plus 2; it is the rest of the frame |
| EdgeTts.MakeBinaryFrame | src/services/edgeTTS.ts:130 | the frame layout: a 2-byte length, the headers, the audio |
| EdgeTts.FrameRoundTrip | src/services/edgeTTS.ts:139-145 | header stripping recovers the audio of any frame built that way |
| EdgeTts.MetadataPayload | src/services/edgeTTS.ts:100-105 | a metadata frame's JSON body is what follows the first blank line |
| EdgeTts.IndexOfContains | src/services/edgeTTS.ts:103-104 | `indexOf` finds the separator exactly when it is present |
| EdgeTts.WordBoundariesOf | src/services/edgeTTS.ts:113-117 | exactly the data of the `WordBoundary` entries |
| EdgeTts.WordBoundariesAppend | src/services/edgeTTS.ts:113-117 | boundaries are collected in order |
| EdgeTts.FrameAudio | src/services/edgeTTS.ts:124-146 | a frame adds at most one non-empty audio chunk |
| EdgeTts.AudioOf | src/services/edgeTTS.ts:144 | every collected chunk is non-empty |
| EdgeTts.NoAudioIff | src/services/edgeTTS.ts:138-146 | no chunk is collected exactly when no frame carried audio |
| EdgeTts.JoinNonEmpty | src/services/edgeTTS.ts:159 | the blob is empty exactly when no chunk arrived |
| EdgeTts.CloseDecision | src/services/edgeTTS.ts:154-161 | reject exactly when no audio arrived and the close code is not 1000; otherwise resolve with all the audio and boundaries |
| EdgeTts.SilentResolveNeedsNormalClose | src/services/edgeTTS.ts:156-160 | an empty blob is resolved only after a normal close |
| EdgeTts.SynthesisSession.constructor | src/services/edgeTTS.ts:56-57 | nothing collected, nothing settled |
| EdgeTts.SynthesisSession.OnMessage | src/services/edgeTTS.ts:95-147 | audio and boundaries are appended; a turn end requests the close |
| EdgeTts.SynthesisSession.OnError | src/services/edgeTTS.ts:149-152 | the first settlement is a connection error |
| EdgeTts.SynthesisSession.OnClose | src/services/edgeTTS.ts:154-162 | the first settlement is `CloseDecision` |
| EdgeTts.OfSnoc | src/services/edgeTTS.ts:95-147 | one more frame extends the collected audio, boundaries and close request |
| EdgeTts.Receive | src/services/edgeTTS.ts:95-147 | a fresh session handed every frame in order holds the audio and the word boundaries of all of them, has requested the close exactly when a turn-end frame came, and has not settled |
| EdgeTts.Synthesize | src/services/edgeTTS.ts:42-163 | an error rejects; otherwise the outcome is the close decision over all frames, and the close was requested exactly when a turn-end frame came |

## Findings

| source | as written | input that shows it | evidently intended | confidence | as-written member | corrected member |
|---|---|---|---|---|---|---|
| src/App.tsx:1183-1197 | `fetchContent(targetUrl)` never sets `url`; `translateContent` then files the chapter under `url \|\| nextChapterUrl` (src/App.tsx:1211-1213) | reading chapter "a" (`url` = "a") whose next chapter "b" is neither cached nor preloaded; go to "b", which is fetched, then translated: the cache entry for "a" now holds "b", and a later visit to "a" shows "b" | the fetched URL becomes `url`, so every chapter is cached and logged under its own URL | not executed; high | Loader.ColdFetchMisfilesChapter | Loader.ColdFetchFilesUnderTarget |

`Loader.LoadChapterAsWritten` and `Loader.BeginFetchAsWritten` are the code as written,
and `Loader.ColdFetchMisfilesChapter` is stated through them. `Loader.LoadChapter` and
`Loader.BeginFetch`, which the rest of the model uses, also set `url` to the fetched URL;
`Loader.LoadChapterCorrectsOnlyUrl` shows that nothing else differs.

With `url` empty, for example when a history entry is opened first, the chapter is filed
under its own scraped next link instead.

## Left out

- Chunker.Sentences: models only the regular-expression fallback of `splitToSentences`. The `Intl.Segmenter` path is a platform facility, and its sentence boundaries are not specified.
- Lengths are counted in Unicode code points, whereas JavaScript counts UTF-16 code units, so LIMIT, the title's 50 characters and the 100-character title test differ for characters outside the Basic Multilingual Plane.
- Chunker.SoftTarget: `Math.floor(LIMIT * 0.85)` is computed as `LIMIT * 85 / 100` on integers, which is the same value for every integer LIMIT.
- EdgeTts.RateString: takes the percentage, which is already rounded. `Math.round((rate - 1) * 100)` on floating point is not modelled.
- Case mapping (`toLowerCase`, the `i` flag) is the parameter `lower` or `canon`. Unicode's case tables are not modelled.
- `localStorage` persistence, the scraper (`fetchRawStoryData`), and the Gemini HTTP exchange and its prompt texts are left out. The latter are replies given per key.
- `saveToCache`'s `webName`: the host name that `new URL` parses is not modelled.
- Asynchrony is left out. Each `await`, timer and callback is an atomic step: a method of `Playback.Player` or a function of `Loader`. Interleavings and stale React closures are not modelled.
- Playback.Player.Rewatch: renders caused by state outside the playback model (the sleep timer's countdown, translation progress, the loader's flags) also re-run the watchdog effect and restart its count; the model restarts it only after a change to the playback state it holds.
- The WebSocket connection set-up, the configuration and SSML messages sent on open, and the 10-second open timeout are left out. So are the Blob to ArrayBuffer conversion and the ordering it could change.
- Playback.Player: utterances cancelled by `speechSynthesis.cancel()` are assumed to deliver no further events. The platform's queue is modelled as a FIFO that the platform events take from. `audio.src` is the string last assigned, not the absolute URL the browser reports.
- The rate and voice change handlers, `analyzeContent`, `wakeUpSpeechEngine`, scrolling and the sleep timer are left out. They are UI around the core.
- Loader: manual input mode of `fetchContent`, the `translating` and `analysisType` flags, the mobile tab and scrolling are left out. The auto-translate effect that calls `translateContent` is left out too; `Loader.TranslateChapter` is that call.
- Loader.Present: `nextChapterUrl` is `Option<string>`, and the values JavaScript treats as absent (`null` and `""`) are `None` and `Some("")`.
