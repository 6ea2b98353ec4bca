/**
 * The reader's bounded most-recent-first lists: the translated-chapter cache (20 entries),
 * the reading history (50) and the bookmarks (20). Each update drops the entries with the
 * new item's URL, puts the new item in front and truncates to the cap; removing a
 * bookmark drops every entry with its URL. Timestamps (`Date.now()`) are parameters.
 */
module RecentLists {
  import opened Wrappers
  import opened Text

  const CacheCap: nat := 20
  const HistoryCap: nat := 50
  const BookmarkCap: nat := 20
  /** Titles are the first line of the text, cut to this many characters. */
  const TitleLength: nat := 50
  /** "Chương không tên", the bookmark title when there is no translated text. */
  const UntitledChapter: string := "Ch\U{1B0}\U{1A1}ng kh\U{F4}ng t\U{EA}n"

  datatype Style = Modern | Ancient

  datatype CacheEntry = CacheEntry(url: string, title: string, content: string,
                                   translated: string, nextUrl: Option<string>,
                                   prevUrl: Option<string>, timestamp: int, style: Style)

  datatype HistoryItem = HistoryItem(url: string, title: string, timestamp: int)

  datatype Bookmark = Bookmark(url: string, title: string, chunkIndex: nat, timestamp: int)

  function CacheUrl(e: CacheEntry): string { e.url }
  function HistoryUrl(h: HistoryItem): string { h.url }
  function BookmarkUrl(b: Bookmark): string { b.url }

  function Min(a: nat, b: nat): nat { if a <= b then a else b }

  // ---- the shared list shape ----

  /** `items.filter(x => key(x) !== k)`. */
  function WithoutKey<T(==,!new)>(items: seq<T>, key: T -> string, k: string): (r: seq<T>)
    ensures |r| <= |items|
    ensures forall i :: 0 <= i < |r| ==> key(r[i]) != k
    ensures forall x :: x in r <==> x in items && key(x) != k
  {
    if items == [] then []
    else
      var rest := WithoutKey(items[1..], key, k);
      assert forall x :: x in items <==> x == items[0] || x in items[1..];
      if key(items[0]) == k then rest else [items[0]] + rest
  }

  /** `[item, ...items.filter(x => key(x) !== key(item))].slice(0, cap)`. */
  function PutFront<T(==,!new)>(items: seq<T>, item: T, key: T -> string, cap: nat): (r: seq<T>)
    ensures |r| == Min(cap, 1 + |WithoutKey(items, key, key(item))|) && |r| <= cap
    ensures cap >= 1 ==> r[0] == item
    ensures forall i :: 1 <= i < |r| ==> key(r[i]) != key(item) && r[i] in items
    ensures cap >= 1 ==> r[1..] == WithoutKey(items, key, key(item))[..|r| - 1]
  {
    var front := [item] + WithoutKey(items, key, key(item));
    var r := front[..Min(cap, |front|)];
    assert forall i :: 1 <= i < |r| ==> r[i] == WithoutKey(items, key, key(item))[i - 1];
    r
  }

  /** `a` is `b` with some elements left out: the elements of `a` appear in `b` in order. */
  predicate IsSubsequence<T(==)>(a: seq<T>, b: seq<T>)
    decreases |b|
  {
    if a == [] then true
    else if b == [] then false
    else (a[0] == b[0] && IsSubsequence(a[1..], b[1..])) || IsSubsequence(a, b[1..])
  }

  lemma {:induction false} SubsequenceOfSelf<T>(a: seq<T>)
    ensures IsSubsequence(a, a)
    decreases |a|
  {
    if a != [] {
      SubsequenceOfSelf(a[1..]);
    }
  }

  lemma {:induction false} WithoutKeyIsSubsequence<T(!new)>(items: seq<T>, key: T -> string, k: string)
    ensures IsSubsequence(WithoutKey(items, key, k), items)
    decreases |items|
  {
    if items != [] {
      WithoutKeyIsSubsequence(items[1..], key, k);
      var rest := WithoutKey(items[1..], key, k);
      if key(items[0]) != k {
        assert ([items[0]] + rest)[1..] == rest;
      } else if rest != [] {
        assert IsSubsequence(rest, items[1..]);
      }
    }
  }

  /** A prefix of a subsequence is a subsequence. */
  lemma {:induction false} PrefixIsSubsequence<T>(a: seq<T>, b: seq<T>, m: nat)
    requires IsSubsequence(a, b) && m <= |a|
    ensures IsSubsequence(a[..m], b)
    decreases |b|
  {
    if m > 0 {
      assert b != [];
      if a[0] == b[0] && IsSubsequence(a[1..], b[1..]) {
        PrefixIsSubsequence(a[1..], b[1..], m - 1);
        assert a[..m][0] == b[0] && a[..m][1..] == a[1..][..m - 1];
      } else {
        PrefixIsSubsequence(a, b[1..], m);
      }
    }
  }

  /** The items that stay behind the new one keep their relative order. */
  lemma {:induction false} PutFrontKeepsOrder<T(!new)>(items: seq<T>, item: T, key: T -> string, cap: nat)
    requires cap >= 1
    ensures IsSubsequence(PutFront(items, item, key, cap)[1..], items)
  {
    var w := WithoutKey(items, key, key(item));
    var r := PutFront(items, item, key, cap);
    WithoutKeyIsSubsequence(items, key, key(item));
    PrefixIsSubsequence(w, items, |r| - 1);
  }

  lemma {:induction false} WithoutKeyAppend<T(!new)>(a: seq<T>, b: seq<T>, key: T -> string, k: string)
    ensures WithoutKey(a + b, key, k) == WithoutKey(a, key, k) + WithoutKey(b, key, k)
    decreases |a|
  {
    if a == [] {
      assert a + b == b;
    } else {
      assert (a + b)[0] == a[0] && (a + b)[1..] == a[1..] + b;
      WithoutKeyAppend(a[1..], b, key, k);
    }
  }

  /** Filtering out a key nobody has changes nothing. */
  lemma {:induction false} WithoutAbsentKey<T(!new)>(items: seq<T>, key: T -> string, k: string)
    requires forall i :: 0 <= i < |items| ==> key(items[i]) != k
    ensures WithoutKey(items, key, k) == items
    decreases |items|
  {
    if items != [] {
      WithoutAbsentKey(items[1..], key, k);
      assert [items[0]] + items[1..] == items;
    }
  }

  /** Saving the same item twice in a row is the same as saving it once. */
  lemma {:induction false} PutFrontIdempotent<T(!new)>(items: seq<T>, item: T, key: T -> string, cap: nat)
    requires cap >= 1
    ensures PutFront(PutFront(items, item, key, cap), item, key, cap) == PutFront(items, item, key, cap)
  {
    var r := PutFront(items, item, key, cap);
    var k := key(item);
    assert r == [r[0]] + r[1..];
    WithoutKeyAppend([r[0]], r[1..], key, k);
    WithoutAbsentKey(r[1..], key, k);
    assert WithoutKey([r[0]], key, k) == [];
    assert WithoutKey(r, key, k) == r[1..];
  }

  // ---- titles ----

  /** `s.split('\n')[0]`: the text before the first line feed. */
  function FirstLine(s: string): (r: string)
    ensures '\n' !in r
    ensures StartsWith(s, r)
    ensures |r| < |s| ==> s[|r|] == '\n'
  {
    var i := IndexOf(s, "\n");
    if i < 0 then
      assert forall j :: 0 <= j < |s| && s[j] == '\n' ==> OccursAt(s, "\n", j) by {
        forall j | 0 <= j < |s| && s[j] == '\n' ensures OccursAt(s, "\n", j) {
          assert s[j..j + 1] == [s[j]];
        }
      }
      assert s[..|s|] == s;
      s
    else
      assert s[i..i + 1] == "\n";
      assert forall j :: 0 <= j < i && s[j] == '\n' ==> OccursAt(s, "\n", j) by {
        forall j | 0 <= j < i && s[j] == '\n' ensures OccursAt(s, "\n", j) {
          assert s[j..j + 1] == [s[j]];
        }
      }
      assert s[..i][..i] == s[..i];
      s[..i]
  }

  /** `lines[0].substring(0, 50)`: the title stored for a chapter. */
  function Title(s: string): (r: string)
    ensures |r| <= TitleLength && '\n' !in r
    ensures StartsWith(FirstLine(s), r)
    ensures |FirstLine(s)| <= TitleLength ==> r == FirstLine(s)
  {
    var line := FirstLine(s);
    line[..Min(TitleLength, |line|)]
  }

  // ---- the three lists ----

  /**
   * `saveToCache`: nothing happens without a URL or a translation; otherwise the new entry
   * is first, followed by the older entries for other URLs in their order, as many as fit
   * in 20.
   */
  function SaveToCache(cache: seq<CacheEntry>, url: string, content: string, translated: string,
                       nextUrl: Option<string>, prevUrl: Option<string>, now: int,
                       style: Style): (r: seq<CacheEntry>)
    ensures url == [] || translated == [] ==> r == cache
    ensures url != [] && translated != [] ==>
      && r != [] && |r| <= CacheCap
      && r[0] == CacheEntry(url, Title(translated), content, translated, nextUrl, prevUrl, now, style)
      && (forall i :: 1 <= i < |r| ==> r[i].url != url && r[i] in cache)
      && IsSubsequence(r[1..], cache)
      && |r| == Min(CacheCap, 1 + |WithoutKey(cache, CacheUrl, url)|)
      && r[1..] == WithoutKey(cache, CacheUrl, url)[..|r| - 1]
  {
    if url == [] || translated == [] then cache
    else
      var entry := CacheEntry(url, Title(translated), content, translated, nextUrl, prevUrl, now, style);
      PutFrontKeepsOrder(cache, entry, CacheUrl, CacheCap);
      PutFront(cache, entry, CacheUrl, CacheCap)
  }

  /**
   * `saveToHistory`: nothing happens without a URL; otherwise the visit is first (titled
   * after the first line of the text), followed by the older items for other URLs in
   * their order, as many as fit in 50.
   */
  function SaveToHistory(history: seq<HistoryItem>, url: string, snippet: string, now: int)
    : (r: seq<HistoryItem>)
    ensures url == [] ==> r == history
    ensures url != [] ==>
      && r != [] && |r| <= HistoryCap
      && r[0] == HistoryItem(url, Title(snippet), now)
      && (forall i :: 1 <= i < |r| ==> r[i].url != url && r[i] in history)
      && IsSubsequence(r[1..], history)
      && |r| == Min(HistoryCap, 1 + |WithoutKey(history, HistoryUrl, url)|)
      && r[1..] == WithoutKey(history, HistoryUrl, url)[..|r| - 1]
  {
    if url == [] then history
    else
      var item := HistoryItem(url, Title(snippet), now);
      PutFrontKeepsOrder(history, item, HistoryUrl, HistoryCap);
      PutFront(history, item, HistoryUrl, HistoryCap)
  }

  /** `url || nextChapterUrl`: the page a bookmark is for, if any. */
  function BookmarkTarget(url: string, nextUrl: Option<string>): (r: Option<string>)
    ensures r.Some? ==> r.value != []
    ensures r.None? <==> url == [] && (nextUrl.None? || nextUrl.value == [])
    ensures url != [] ==> r == Some(url)
  {
    if url != [] then Some(url)
    else if nextUrl.Some? && nextUrl.value != [] then nextUrl
    else None
  }

  /**
   * `addBookmark`: nothing happens when neither the current nor the next URL is set;
   * otherwise a bookmark for the current (else the next) URL at the active chunk (0 when
   * none) is put first, followed by the older bookmarks for other URLs in their order, as
   * many as fit in 20.
   */
  function AddBookmark(bookmarks: seq<Bookmark>, url: string, nextUrl: Option<string>,
                       translated: string, activeChunk: Option<nat>, now: int): (r: seq<Bookmark>)
    ensures BookmarkTarget(url, nextUrl).None? ==> r == bookmarks
    ensures BookmarkTarget(url, nextUrl).Some? ==>
      var target := BookmarkTarget(url, nextUrl).value;
      && r != [] && |r| <= BookmarkCap
      && r[0].url == target
      && r[0].chunkIndex == (if activeChunk.Some? then activeChunk.value else 0)
      && r[0].title == (if translated == [] then UntitledChapter else Title(translated))
      && (forall i :: 1 <= i < |r| ==> r[i].url != target && r[i] in bookmarks)
      && IsSubsequence(r[1..], bookmarks)
      && |r| == Min(BookmarkCap, 1 + |WithoutKey(bookmarks, BookmarkUrl, target)|)
      && r[1..] == WithoutKey(bookmarks, BookmarkUrl, target)[..|r| - 1]
  {
    match BookmarkTarget(url, nextUrl)
    case None => bookmarks
    case Some(target) =>
      var title := if translated == [] then UntitledChapter else Title(translated);
      var chunkIndex := if activeChunk.Some? then activeChunk.value else 0;
      var b := Bookmark(target, title, chunkIndex, now);
      PutFrontKeepsOrder(bookmarks, b, BookmarkUrl, BookmarkCap);
      PutFront(bookmarks, b, BookmarkUrl, BookmarkCap)
  }

  /** `removeBookmark`: every bookmark for the URL goes, the others stay in order. */
  function RemoveBookmark(bookmarks: seq<Bookmark>, url: string): (r: seq<Bookmark>)
    ensures forall b :: b in r <==> b in bookmarks && b.url != url
    ensures IsSubsequence(r, bookmarks)
  {
    WithoutKeyIsSubsequence(bookmarks, BookmarkUrl, url);
    WithoutKey(bookmarks, BookmarkUrl, url)
  }

  /** Removing the bookmark just added leaves the older bookmarks for other URLs. */
  lemma {:induction false} RemoveAfterAdd(bookmarks: seq<Bookmark>, url: string, translated: string,
                       activeChunk: Option<nat>, now: int)
    requires url != []
    ensures var added := AddBookmark(bookmarks, url, None, translated, activeChunk, now);
      RemoveBookmark(added, url) == added[1..]
      && IsSubsequence(RemoveBookmark(added, url), RemoveBookmark(bookmarks, url))
  {
    var added := AddBookmark(bookmarks, url, None, translated, activeChunk, now);
    DropFrontKey(added, BookmarkUrl, url);
    var w := WithoutKey(bookmarks, BookmarkUrl, url);
    SubsequenceOfSelf(w);
    PrefixIsSubsequence(w, w, |added| - 1);
  }

  /** Filtering out the key of the front item, held by no other item, drops just the front. */
  lemma DropFrontKey<T(!new)>(items: seq<T>, key: T -> string, k: string)
    requires items != [] && key(items[0]) == k
    requires forall i :: 1 <= i < |items| ==> key(items[i]) != k
    ensures WithoutKey(items, key, k) == items[1..]
  {
    WithoutAbsentKey(items[1..], key, k);
  }

  /** Saving the same chapter twice in a row leaves the cache as after the first save. */
  lemma {:induction false} SaveToCacheIdempotent(cache: seq<CacheEntry>, url: string, content: string,
                              translated: string, nextUrl: Option<string>,
                              prevUrl: Option<string>, now: int, style: Style)
    ensures var once := SaveToCache(cache, url, content, translated, nextUrl, prevUrl, now, style);
      SaveToCache(once, url, content, translated, nextUrl, prevUrl, now, style) == once
  {
    if url != [] && translated != [] {
      var entry := CacheEntry(url, Title(translated), content, translated, nextUrl, prevUrl, now, style);
      PutFrontIdempotent(cache, entry, CacheUrl, CacheCap);
    }
  }
}
