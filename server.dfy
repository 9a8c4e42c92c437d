/**
 * The movie search of server/app.py.
 *
 * `search_movies` turns an optional movie name and an optional category into
 * a list of YouTube search terms, asks the YouTube Data API for each term in
 * turn and keeps, in order, the videos whose title looks like a movie, never
 * the same video twice. The API is an input of the model: `api` gives, for a
 * search term, either the list of result items, an HTTP error status, or a
 * failure of another kind; `clientAvailable` says whether the API client
 * could be built at all.
 */
module MovieServer {
  import opened Wrappers
  import opened Text
  import opened Movies

  // ---------------------------------------------------------------------
  // Constants
  // ---------------------------------------------------------------------

  /** Extra search keywords per category, in table order (server/app.py:28-36). */
  const CategoryKeywords: map<string, seq<string>> := map[
    "comedy" := ["comedy movie", "funny movie", "comedy film", "humorous movie"],
    "action" := ["action movie", "action film", "adventure movie", "thriller movie"],
    "animation" := ["animated movie", "animation film", "animated feature"],
    "cartoon" := ["cartoon movie", "animated film", "family movie"],
    "sci-fi" := ["science fiction movie", "sci-fi film", "sci fi movie"],
    "fantasy" := ["fantasy movie", "fantasy film", "magical movie"],
    "history" := ["historical movie", "history film", "biography movie"]
  ]

  /** The only search term when neither a name nor a known category is given. */
  const DefaultTerm := "full movie"

  /** Appended to a movie name to form its search term. */
  const NameSuffix := " full movie"

  /** A title is kept when, lower-cased, it contains one of these words. */
  const MovieWords := ["movie", "film", "full"]

  const WatchPrefix := "https://www.youtube.com/watch?v="

  /** Within one term, item processing stops once this many results are gathered. */
  const ResultThreshold := 10

  /** HTTP statuses that end the whole search: quota exceeded, too many requests. */
  predicate IsRateLimited(status: int) {
    status == 403 || status == 429
  }

  lemma KeywordCounts()
    ensures forall category :: category in CategoryKeywords ==> 3 <= |CategoryKeywords[category]| <= 4
  {
  }

  // ---------------------------------------------------------------------
  // Search terms
  // ---------------------------------------------------------------------

  /**
   * The search terms for a name and a category. The empty string stands for
   * a parameter that is absent (Python's `None`), which is equally falsy.
   */
  function SearchTerms(query: string, category: string): (terms: seq<string>)
    ensures 1 <= |terms| <= 5
    ensures query != "" ==> terms[0] == query + NameSuffix
    ensures query != "" || category in CategoryKeywords ==>
      |terms| == (if query != "" then 1 else 0) + (if category in CategoryKeywords then |CategoryKeywords[category]| else 0)
    ensures category in CategoryKeywords ==>
      terms[|terms| - |CategoryKeywords[category]|..] == CategoryKeywords[category]
    ensures query == "" && category !in CategoryKeywords ==> terms == [DefaultTerm]
  {
    var named := if query != "" then [query + NameSuffix] else [];
    var keyed := if category in CategoryKeywords then CategoryKeywords[category] else [];
    KeywordCounts();
    if named + keyed == [] then [DefaultTerm] else named + keyed
  }

  // ---------------------------------------------------------------------
  // The API's answers
  // ---------------------------------------------------------------------

  /** The URLs under `snippet.thumbnails`; `None` when the size or its `url` key is absent. */
  datatype Thumbnails = Thumbnails(high: Option<string>, medium: Option<string>, default: Option<string>)

  /**
   * One search result item. A field the code reads with `[...]` is `None`
   * when its key is missing, which raises a `KeyError`.
   */
  datatype Item = Item(videoId: Option<string>, title: Option<string>, thumbnails: Option<Thumbnails>)

  /** What `youtube.search().list(...).execute()` does for one term. */
  datatype TermResponse =
    | Items(items: seq<Item>)   // the `items` of the response (empty when the key is absent)
    | HttpError(status: int)    // an `HttpError` with this status
    | Failure                   // any other exception

  /** A URL is present when it is there and non-empty (Python truthiness). */
  predicate Present(url: Option<string>) {
    url.Some? && url.value != ""
  }

  /** The `high or medium or default` chain: the first present URL, else whatever `default` is. */
  function PickThumbnail(t: Thumbnails): (r: Option<string>)
    ensures Present(t.high) ==> r == t.high
    ensures !Present(t.high) && Present(t.medium) ==> r == t.medium
    ensures !Present(t.high) && !Present(t.medium) ==> r == t.default
    ensures Present(r) ==> r == t.high || r == t.medium || r == t.default
  {
    if Present(t.high) then t.high
    else if Present(t.medium) then t.medium
    else t.default
  }

  predicate IsWatchUrl(url: string) {
    |WatchPrefix| <= |url| && url[..|WatchPrefix|] == WatchPrefix
  }

  /** The video id of a watch-page URL. */
  function VideoIdOf(url: string): string
    requires IsWatchUrl(url)
  {
    url[|WatchPrefix|..]
  }

  /** The watch-page URL of a video. */
  function WatchUrl(videoId: string): (url: string)
    ensures IsWatchUrl(url) && VideoIdOf(url) == videoId
  {
    WatchPrefix + videoId
  }

  /** The `{title, url, thumbnail}` record for a kept item. */
  function ToMovie(videoId: string, title: string, thumbnails: Thumbnails): (m: Movie)
    ensures m.title == title && IsWatchUrl(m.url) && VideoIdOf(m.url) == videoId
    ensures m.thumbnail == PickThumbnail(thumbnails)
  {
    Movie(title, WatchUrl(videoId), PickThumbnail(thumbnails))
  }

  /**
   * The title filter: the lower-cased title contains "movie", "film" or
   * "full", that is, one of the words occurs in it at some position.
   */
  function LooksLikeMovie(title: string): (keep: bool)
    ensures keep <==> exists w, i :: w in MovieWords && OccursAt(Lower(title), w, i)
  {
    ContainsIff(Lower(title), "movie");
    ContainsIff(Lower(title), "film");
    ContainsIff(Lower(title), "full");
    exists w :: w in MovieWords && Contains(Lower(title), w)
  }

  /** The filter ignores case: a title and its lower-cased form are kept alike. */
  lemma LooksLikeMovieIgnoresCase(title: string)
    ensures LooksLikeMovie(Lower(title)) <==> LooksLikeMovie(title)
  {
    LowerIdempotent(title);
  }

  // ---------------------------------------------------------------------
  // The specification of the aggregation loop
  // ---------------------------------------------------------------------

  /** The loop's state: `all_results` and `seen_video_ids`. */
  datatype Scan = Scan(results: seq<Movie>, seen: set<string>)

  /**
   * Processing one term's items from `s`: `None` when an item lacks a key
   * the code reads (the `KeyError` ends the whole search).
   */
  function ScanItems(s: Scan, items: seq<Item>): (r: Option<Scan>)
    ensures r.None? ==> exists i :: 0 <= i < |items| && !Complete(items[i])
    decreases |items|
  {
    if items == [] then Some(s)
    else
      var item := items[0];
      match item.videoId
      case None => None
      case Some(id) =>
        if id in s.seen then ScanItems(s, items[1..])
        else if item.title.None? || item.thumbnails.None? then None
        else
          var s' := Step(s, item);
          if |s'.results| >= ResultThreshold then Some(s') else ScanItems(s', items[1..])
  }

  /** The outcome of walking the terms: the results, or the failure that empties them. */
  datatype Run = Finished(results: seq<Movie>) | Crashed

  /**
   * A response that can make `search_movies` raise: an exception other than
   * `HttpError`, or an item without one of the keys the code reads.
   */
  predicate MayRaise(resp: TermResponse) {
    resp.Failure? || (resp.Items? && exists i :: 0 <= i < |resp.items| && !Complete(resp.items[i]))
  }

  function ScanTerms(s: Scan, terms: seq<string>, api: string -> TermResponse): (r: Run)
    ensures r.Crashed? ==> exists k :: 0 <= k < |terms| && MayRaise(api(terms[k]))
    decreases |terms|
  {
    if terms == [] then Finished(s.results)
    else
      match api(terms[0])
      case Failure => Crashed
      case HttpError(status) =>
        if IsRateLimited(status) then Finished(s.results) else ScanTerms(s, terms[1..], api)
      case Items(items) =>
        match ScanItems(s, items)
        case None => Crashed
        case Some(s') => ScanTerms(s', terms[1..], api)
  }

  const Start := Scan([], {})

  /**
   * What `search_movies(query, category)` returns. Every result is the
   * record of a complete item the API returned for one of the terms.
   */
  function SearchResult(query: string, category: string, clientAvailable: bool,
                        api: string -> TermResponse): (r: seq<Movie>)
    ensures forall i :: 0 <= i < |r| ==> r[i] in Candidates(SearchTerms(query, category), api)
  {
    var terms := SearchTerms(query, category);
    if !clientAvailable then []
    else
      match ScanTerms(Start, terms, api)
      case Crashed => []
      case Finished(r) =>
        ScanTermsOrder(Start, terms, api);
        assert r[|Start.results|..] == r;
        assert forall i :: 0 <= i < |r| ==> r[i] in Candidates(terms, api) by {
          forall i | 0 <= i < |r| ensures r[i] in Candidates(terms, api) {
            SubsequenceMember(r, Candidates(terms, api), i);
          }
        }
        r
  }

  // ---------------------------------------------------------------------
  // search_movies
  // ---------------------------------------------------------------------

  /**
   * `search_movies`: the outer loop over the terms; the inner loop over a
   * page's items is `ScanPage`.
   */
  method SearchMovies(query: string, category: string, clientAvailable: bool,
                      api: string -> TermResponse) returns (results: seq<Movie>)
    ensures results == SearchResult(query, category, clientAvailable, api)
  {
    if !clientAvailable {
      return [];
    }
    var terms := SearchTerms(query, category);
    var all: seq<Movie> := [];
    var seen: set<string> := {};
    var k := 0;
    while k < |terms|
      invariant k <= |terms|
      invariant ScanTerms(Scan(all, seen), terms[k..], api) == ScanTerms(Start, terms, api)
    {
      assert terms[k..][0] == terms[k] && terms[k..][1..] == terms[k + 1..];
      ghost var before := Scan(all, seen);
      match api(terms[k]) {
        case Failure =>
          assert ScanTerms(before, terms[k..], api) == Crashed;
          return [];
        case HttpError(status) =>
          if IsRateLimited(status) {
            assert ScanTerms(before, terms[k..], api) == Finished(all);
            break;
          }
          assert ScanTerms(before, terms[k..], api) == ScanTerms(before, terms[k + 1..], api);
        case Items(items) =>
          var crashed;
          crashed, all, seen := ScanPage(items, all, seen);
          if crashed {
            assert ScanTerms(before, terms[k..], api) == Crashed;
            return [];
          }
          assert ScanTerms(before, terms[k..], api) == ScanTerms(Scan(all, seen), terms[k + 1..], api);
      }
      k := k + 1;
    }
    return all;
  }

  /**
   * The inner loop of `search_movies` over one page of items: `crashed`
   * when an item lacks a key the code reads (the exception that empties the
   * whole search), and otherwise the results and seen ids after the page,
   * stopping early once the threshold is reached.
   */
  method ScanPage(items: seq<Item>, all: seq<Movie>, seen: set<string>)
    returns (crashed: bool, all': seq<Movie>, seen': set<string>)
    ensures crashed <==> ScanItems(Scan(all, seen), items).None?
    ensures !crashed ==> ScanItems(Scan(all, seen), items) == Some(Scan(all', seen'))
  {
    all', seen' := all, seen;
    var j := 0;
    while j < |items|
      invariant j <= |items|
      invariant ScanItems(Scan(all', seen'), items[j..]) == ScanItems(Scan(all, seen), items)
    {
      ghost var before := Scan(all', seen');
      assert items[j..][0] == items[j] && items[j..][1..] == items[j + 1..];
      var item := items[j];
      if item.videoId.None? {
        return true, all', seen';
      }
      var videoId := item.videoId.value;
      if videoId in seen' {
        j := j + 1;
        continue;
      }
      if item.title.None? || item.thumbnails.None? {
        return true, all', seen';
      }
      var title := item.title.value;
      if LooksLikeMovie(title) {
        all' := all' + [ToMovie(videoId, title, item.thumbnails.value)];
        seen' := seen' + {videoId};
      }
      if |all'| >= ResultThreshold {
        assert ScanItems(before, items[j..]) == Some(Scan(all', seen'));
        break;
      }
      j := j + 1;
    }
    crashed := false;
  }

  // ---------------------------------------------------------------------
  // Properties of the results
  // ---------------------------------------------------------------------

  /** Every result is a watch-page URL, no two for the same video, every title passes the filter. */
  predicate WellFormedResults(r: seq<Movie>) {
    && (forall i :: 0 <= i < |r| ==> IsWatchUrl(r[i].url) && LooksLikeMovie(r[i].title))
    && (forall i, j :: 0 <= i < j < |r| ==> VideoIdOf(r[i].url) != VideoIdOf(r[j].url))
  }

  /** The loop invariant behind the dedup: every kept video's id is in `seen`. */
  predicate Consistent(s: Scan) {
    && WellFormedResults(s.results)
    && (forall i :: 0 <= i < |s.results| ==> VideoIdOf(s.results[i].url) in s.seen)
  }

  lemma {:induction false} ScanItemsConsistent(s: Scan, items: seq<Item>)
    requires Consistent(s) && ScanItems(s, items).Some?
    ensures Consistent(ScanItems(s, items).value)
    decreases |items|
  {
    if items != [] {
      var item := items[0];
      var id := item.videoId.value;
      if id in s.seen {
        ScanItemsConsistent(s, items[1..]);
      } else {
        var s' := Step(s, item);
        assert Consistent(s') by {
          if LooksLikeMovie(item.title.value) {
            var m := ToMovie(id, item.title.value, item.thumbnails.value);
            assert s'.results == s.results + [m];
            forall i | 0 <= i < |s.results| ensures VideoIdOf(s'.results[i].url) != VideoIdOf(m.url) {
              assert VideoIdOf(s.results[i].url) in s.seen;
            }
          }
        }
        if |s'.results| < ResultThreshold {
          ScanItemsConsistent(s', items[1..]);
        }
      }
    }
  }

  lemma {:induction false} ScanTermsConsistent(s: Scan, terms: seq<string>, api: string -> TermResponse)
    requires Consistent(s) && ScanTerms(s, terms, api).Finished?
    ensures WellFormedResults(ScanTerms(s, terms, api).results)
    decreases |terms|
  {
    if terms != [] {
      match api(terms[0])
      case Failure =>
      case HttpError(status) =>
        if !IsRateLimited(status) {
          ScanTermsConsistent(s, terms[1..], api);
        }
      case Items(items) =>
        ScanItemsConsistent(s, items);
        ScanTermsConsistent(ScanItems(s, items).value, terms[1..], api);
    }
  }

  /**
   * No two results share a video id; every result's URL is a watch-page URL
   * and every title contains "movie", "film" or "full" in some case.
   */
  lemma SearchResultWellFormed(query: string, category: string, clientAvailable: bool,
                               api: string -> TermResponse)
    ensures var r := SearchResult(query, category, clientAvailable, api);
      && (forall i :: 0 <= i < |r| ==> IsWatchUrl(r[i].url) && LooksLikeMovie(r[i].title))
      && (forall i, j :: 0 <= i < j < |r| ==> VideoIdOf(r[i].url) != VideoIdOf(r[j].url))
  {
    if clientAvailable && ScanTerms(Start, SearchTerms(query, category), api).Finished? {
      ScanTermsConsistent(Start, SearchTerms(query, category), api);
    }
  }

  // ---------------------------------------------------------------------
  // The bound on the number of results
  // ---------------------------------------------------------------------

  /**
   * One term's items: a term that starts below the threshold ends at most at
   * it, and a term that starts at or above it adds at most one result (the
   * stop is checked only after an item has been examined).
   */
  lemma {:induction false} ScanItemsGrowth(s: Scan, items: seq<Item>)
    requires ScanItems(s, items).Some?
    ensures |s.results| <= |ScanItems(s, items).value.results|
    ensures |s.results| < ResultThreshold ==> |ScanItems(s, items).value.results| <= ResultThreshold
    ensures |s.results| >= ResultThreshold ==> |ScanItems(s, items).value.results| <= |s.results| + 1
    decreases |items|
  {
    if items != [] {
      var item := items[0];
      var id := item.videoId.value;
      if id in s.seen {
        ScanItemsGrowth(s, items[1..]);
      } else {
        var s' := Step(s, item);
        if |s'.results| < ResultThreshold {
          ScanItemsGrowth(s', items[1..]);
        }
      }
    }
  }

  lemma {:induction false} ScanTermsBound(s: Scan, terms: seq<string>, api: string -> TermResponse)
    requires ScanTerms(s, terms, api).Finished?
    ensures |ScanTerms(s, terms, api).results| <=
      (if |s.results| < ResultThreshold then ResultThreshold - 1 else |s.results|) + |terms|
    decreases |terms|
  {
    if terms != [] {
      match api(terms[0])
      case Failure =>
      case HttpError(status) =>
        if !IsRateLimited(status) {
          ScanTermsBound(s, terms[1..], api);
        }
      case Items(items) =>
        ScanItemsGrowth(s, items);
        ScanTermsBound(ScanItems(s, items).value, terms[1..], api);
    }
  }

  /**
   * The threshold of 10 is per term, not a global cap: the results number at
   * most 9 plus the number of search terms, so at most 14 since there are at
   * most five terms, and at most 10 for a single term.
   */
  lemma SearchResultBound(query: string, category: string, clientAvailable: bool,
                          api: string -> TermResponse)
    ensures |SearchResult(query, category, clientAvailable, api)| <= 9 + |SearchTerms(query, category)|
    ensures |SearchResult(query, category, clientAvailable, api)| <= 14
  {
    if clientAvailable && ScanTerms(Start, SearchTerms(query, category), api).Finished? {
      ScanTermsBound(Start, SearchTerms(query, category), api);
    }
  }

  // ---------------------------------------------------------------------
  // Order and provenance of the results
  // ---------------------------------------------------------------------

  /** `xs` is `ys` with some elements left out, the rest in their order. */
  ghost predicate IsSubsequence<T>(xs: seq<T>, ys: seq<T>)
    decreases |ys|
  {
    if xs == [] then true
    else if ys == [] then false
    else (xs[0] == ys[0] && IsSubsequence(xs[1..], ys[1..])) || IsSubsequence(xs, ys[1..])
  }

  lemma {:induction false} SubsequenceConcat<T>(a: seq<T>, b: seq<T>, c: seq<T>, d: seq<T>)
    requires IsSubsequence(a, b) && IsSubsequence(c, d)
    ensures IsSubsequence(a + c, b + d)
    decreases |b|
  {
    if b == [] {
      assert a == [];
      assert a + c == c && b + d == d;
    } else {
      assert (b + d)[1..] == b[1..] + d;
      if a != [] && a[0] == b[0] && IsSubsequence(a[1..], b[1..]) {
        SubsequenceConcat(a[1..], b[1..], c, d);
        assert (a + c)[1..] == a[1..] + c;
      } else if a == [] {
        SubsequenceSkip(c, b, d);
        assert a + c == c;
      } else {
        SubsequenceConcat(a, b[1..], c, d);
      }
    }
  }

  /** Elements may be added in front of the larger sequence. */
  lemma {:induction false} SubsequenceSkip<T>(c: seq<T>, b: seq<T>, d: seq<T>)
    requires IsSubsequence(c, d)
    ensures IsSubsequence(c, b + d)
    decreases |b|
  {
    if b != [] {
      SubsequenceSkip(c, b[1..], d);
      assert (b + d)[1..] == b[1..] + d;
    } else {
      assert b + d == d;
    }
  }

  lemma {:induction false} SubsequenceMember<T>(xs: seq<T>, ys: seq<T>, i: int)
    requires IsSubsequence(xs, ys) && 0 <= i < |xs|
    ensures xs[i] in ys
    decreases |ys|
  {
    if xs[0] == ys[0] && IsSubsequence(xs[1..], ys[1..]) {
      if i > 0 {
        SubsequenceMember(xs[1..], ys[1..], i - 1);
      }
    } else {
      SubsequenceMember(xs, ys[1..], i);
    }
  }

  /** An item that has every key the code reads. */
  predicate Complete(item: Item) {
    item.videoId.Some? && item.title.Some? && item.thumbnails.Some?
  }

  /** The records of the complete items, in item order. */
  function Conversions(items: seq<Item>): (ms: seq<Movie>)
    ensures forall m :: m in ms ==>
      exists item :: (item in items && Complete(item) &&
                      m == ToMovie(item.videoId.value, item.title.value, item.thumbnails.value))
    decreases |items|
  {
    if items == [] then []
    else
      var rest := Conversions(items[1..]);
      assert forall item :: item in items[1..] ==> item in items;
      var item := items[0];
      if Complete(item) then
        [ToMovie(item.videoId.value, item.title.value, item.thumbnails.value)] + rest
      else rest
  }

  /** The records of every complete item the API returned, in term order then item order. */
  function Candidates(terms: seq<string>, api: string -> TermResponse): seq<Movie>
    decreases |terms|
  {
    if terms == [] then []
    else
      (match api(terms[0]) case Items(items) => Conversions(items) case _ => [])
      + Candidates(terms[1..], api)
  }

  lemma {:induction false} ScanItemsOrder(s: Scan, items: seq<Item>)
    requires ScanItems(s, items).Some?
    ensures var r := ScanItems(s, items).value.results;
      |s.results| <= |r| && r[..|s.results|] == s.results &&
      IsSubsequence(r[|s.results|..], Conversions(items))
    decreases |items|, 1
  {
    var r := ScanItems(s, items).value.results;
    if items == [] {
      assert r[|s.results|..] == [];
    } else if items[0].videoId.value in s.seen {
      var conv := Conversions(items);
      ScanItemsOrder(s, items[1..]);
      if Complete(items[0]) {
        SubsequenceSkip(r[|s.results|..], conv[..1], Conversions(items[1..]));
        assert conv[..1] + Conversions(items[1..]) == conv;
      }
    } else if LooksLikeMovie(items[0].title.value) {
      ScanItemsOrderKept(s, items);
    } else {
      ScanItemsOrderDropped(s, items);
    }
  }

  /** `ScanItemsOrder` when the first item is new and passes the filter. */
  lemma {:induction false} ScanItemsOrderKept(s: Scan, items: seq<Item>)
    requires ScanItems(s, items).Some? && items != [] && items[0].videoId.Some?
    requires items[0].videoId.value !in s.seen && items[0].title.Some? && LooksLikeMovie(items[0].title.value)
    ensures var r := ScanItems(s, items).value.results;
      |s.results| <= |r| && r[..|s.results|] == s.results &&
      IsSubsequence(r[|s.results|..], Conversions(items))
    decreases |items|, 0
  {
    var item := items[0];
    var id := item.videoId.value;
    var m := ToMovie(id, item.title.value, item.thumbnails.value);
    var s' := Scan(s.results + [m], s.seen + {id});
    var r := ScanItems(s, items).value.results;
    assert Conversions(items) == [m] + Conversions(items[1..]);
    assert ScanItems(s, items) ==
      if |s'.results| >= ResultThreshold then Some(s') else ScanItems(s', items[1..]);
    if |s'.results| < ResultThreshold {
      ScanItemsOrder(s', items[1..]);
      assert r[..|s'.results|] == s.results + [m];
      assert r[..|s.results|] == (s.results + [m])[..|s.results|];
      assert r[|s.results|..] == [m] + r[|s'.results|..];
      SubsequenceConcat([m], [m], r[|s'.results|..], Conversions(items[1..]));
    } else {
      assert r[|s.results|..] == [m] + [];
      SubsequenceConcat([m], [m], [], Conversions(items[1..]));
    }
  }

  /** `ScanItemsOrder` when the first item is new but fails the filter. */
  lemma {:induction false} ScanItemsOrderDropped(s: Scan, items: seq<Item>)
    requires ScanItems(s, items).Some? && items != [] && items[0].videoId.Some?
    requires items[0].videoId.value !in s.seen && items[0].title.Some? && !LooksLikeMovie(items[0].title.value)
    ensures var r := ScanItems(s, items).value.results;
      |s.results| <= |r| && r[..|s.results|] == s.results &&
      IsSubsequence(r[|s.results|..], Conversions(items))
    decreases |items|, 0
  {
    var item := items[0];
    var m := ToMovie(item.videoId.value, item.title.value, item.thumbnails.value);
    var r := ScanItems(s, items).value.results;
    assert Conversions(items) == [m] + Conversions(items[1..]);
    if |s.results| < ResultThreshold {
      ScanItemsOrder(s, items[1..]);
    } else {
      assert r[|s.results|..] == [];
    }
    SubsequenceSkip(r[|s.results|..], [m], Conversions(items[1..]));
  }

  lemma {:induction false} ScanTermsOrder(s: Scan, terms: seq<string>, api: string -> TermResponse)
    requires ScanTerms(s, terms, api).Finished?
    ensures var r := ScanTerms(s, terms, api).results;
      |s.results| <= |r| && r[..|s.results|] == s.results &&
      IsSubsequence(r[|s.results|..], Candidates(terms, api))
    decreases |terms|
  {
    var r := ScanTerms(s, terms, api).results;
    if terms == [] {
      assert r[|s.results|..] == [];
    } else {
      var here := match api(terms[0]) case Items(items) => Conversions(items) case _ => [];
      assert Candidates(terms, api) == here + Candidates(terms[1..], api);
      match api(terms[0])
      case Failure =>
      case HttpError(status) =>
        if IsRateLimited(status) {
          assert r[|s.results|..] == [];
        } else {
          ScanTermsOrder(s, terms[1..], api);
          SubsequenceSkip(r[|s.results|..], here, Candidates(terms[1..], api));
        }
      case Items(items) =>
        var s' := ScanItems(s, items).value;
        ScanItemsOrder(s, items);
        ScanTermsOrder(s', terms[1..], api);
        assert r[|s.results|..] == s'.results[|s.results|..] + r[|s'.results|..];
        SubsequenceConcat(s'.results[|s.results|..], here, r[|s'.results|..], Candidates(terms[1..], api));
    }
  }

  /**
   * The results are records of items the API returned, in the order of the
   * search terms and, within one term, in item order. Each is therefore the
   * `ToMovie` record of a complete item: the watch-page URL of its video id
   * and the first present thumbnail.
   */
  lemma SearchResultOrder(query: string, category: string, clientAvailable: bool,
                          api: string -> TermResponse)
    ensures IsSubsequence(SearchResult(query, category, clientAvailable, api),
                          Candidates(SearchTerms(query, category), api))
  {
    var terms := SearchTerms(query, category);
    if clientAvailable && ScanTerms(Start, terms, api).Finished? {
      ScanTermsOrder(Start, terms, api);
      assert ScanTerms(Start, terms, api).results[|Start.results|..] == ScanTerms(Start, terms, api).results;
    }
  }

  // ---------------------------------------------------------------------
  // What happens to one item
  // ---------------------------------------------------------------------

  /** The update for an unseen item with every key: kept when its title passes the filter. */
  function Step(s: Scan, item: Item): Scan
    requires Complete(item)
  {
    if LooksLikeMovie(item.title.value) then
      Scan(s.results + [ToMovie(item.videoId.value, item.title.value, item.thumbnails.value)],
           s.seen + {item.videoId.value})
    else s
  }

  /**
   * The walk over `items` from `s` gets as far as item `i`: no item before
   * it raises, and after every unseen one the stop at 10 has not fired (a
   * seen item is left by `continue`, before that check).
   */
  predicate Reaches(s: Scan, items: seq<Item>, i: nat)
    decreases i
  {
    i <= |items| &&
    (i == 0 ||
     (items[0].videoId.Some? &&
      if items[0].videoId.value in s.seen then Reaches(s, items[1..], i - 1)
      else
        Complete(items[0]) && |Step(s, items[0]).results| < ResultThreshold &&
        Reaches(Step(s, items[0]), items[1..], i - 1)))
  }

  /** The loop state just before item `i` is examined. */
  function Before(s: Scan, items: seq<Item>, i: nat): Scan
    requires Reaches(s, items, i)
    decreases i
  {
    if i == 0 then s
    else if items[0].videoId.value in s.seen then Before(s, items[1..], i - 1)
    else Before(Step(s, items[0]), items[1..], i - 1)
  }

  /**
   * A walk that reaches item `i` has gathered `Before` over the items before
   * it, and goes on from there with that state.
   */
  lemma {:induction false} ScanItemsSplit(s: Scan, items: seq<Item>, i: nat)
    requires Reaches(s, items, i)
    ensures ScanItems(s, items[..i]) == Some(Before(s, items, i))
    ensures ScanItems(s, items) == ScanItems(Before(s, items, i), items[i..])
    decreases i
  {
    if i > 0 {
      assert items[..i][0] == items[0] && items[..i][1..] == items[1..][..i - 1];
      assert items[1..][i - 1..] == items[i..];
      if items[0].videoId.value in s.seen {
        ScanItemsSplit(s, items[1..], i - 1);
      } else {
        ScanItemsSplit(Step(s, items[0]), items[1..], i - 1);
      }
    } else {
      assert items[..i] == [] && items[i..] == items;
    }
  }

  /**
   * An item the walk reaches that has every key, an unseen video id and a
   * title that passes the filter is kept: its record comes right after the
   * results gathered before it and stays there, unless a later item raises.
   */
  lemma ScanItemsKeeps(s: Scan, items: seq<Item>, i: nat)
    requires Reaches(s, items, i) && i < |items| && Complete(items[i])
    requires items[i].videoId.value !in Before(s, items, i).seen
    requires LooksLikeMovie(items[i].title.value)
    requires ScanItems(s, items).Some?
    ensures var n := |Before(s, items, i).results|;
      var r := ScanItems(s, items).value.results;
      n < |r| && r[n] == ToMovie(items[i].videoId.value, items[i].title.value, items[i].thumbnails.value)
  {
    var t := Before(s, items, i);
    var item := items[i];
    var m := ToMovie(item.videoId.value, item.title.value, item.thumbnails.value);
    ScanItemsSplit(s, items, i);
    assert items[i..][0] == item && items[i..][1..] == items[i + 1..];
    var t' := Scan(t.results + [m], t.seen + {item.videoId.value});
    if |t'.results| < ResultThreshold {
      ScanItemsOrder(t', items[i + 1..]);
      assert ScanItems(s, items).value.results[|t.results|] == ScanItems(s, items).value.results[..|t'.results|][|t.results|];
    }
  }

  /**
   * An item the walk reaches whose video id was already kept is skipped with
   * `continue`, before the stop is checked: the walk goes on with the next
   * item in the same state.
   */
  lemma ScanItemsSkipsSeen(s: Scan, items: seq<Item>, i: nat)
    requires Reaches(s, items, i) && i < |items| && items[i].videoId.Some?
    requires items[i].videoId.value in Before(s, items, i).seen
    ensures ScanItems(s, items) == ScanItems(Before(s, items, i), items[i + 1..])
  {
    ScanItemsSplit(s, items, i);
    assert items[i..][0] == items[i] && items[i..][1..] == items[i + 1..];
  }

  /**
   * A complete, unseen item whose title fails the filter adds nothing, but
   * the stop is still checked after it.
   */
  lemma ScanItemsDropsNonMovie(s: Scan, items: seq<Item>, i: nat)
    requires Reaches(s, items, i) && i < |items| && Complete(items[i])
    requires items[i].videoId.value !in Before(s, items, i).seen
    requires !LooksLikeMovie(items[i].title.value)
    ensures var t := Before(s, items, i);
      ScanItems(s, items) == if |t.results| >= ResultThreshold then Some(t) else ScanItems(t, items[i + 1..])
  {
    ScanItemsSplit(s, items, i);
    assert items[i..][0] == items[i] && items[i..][1..] == items[i + 1..];
  }

  /**
   * An item the walk reaches without a video id, or unseen and without a
   * title or thumbnails, raises `KeyError`: the term yields no state at all.
   */
  lemma ScanItemsRejectsIncomplete(s: Scan, items: seq<Item>, i: nat)
    requires Reaches(s, items, i) && i < |items|
    requires items[i].videoId.None? ||
      (items[i].videoId.value !in Before(s, items, i).seen && !Complete(items[i]))
    ensures ScanItems(s, items).None?
  {
    ScanItemsSplit(s, items, i);
    assert items[i..][0] == items[i];
  }

  /**
   * For a search with a single term (a name alone, or the default term), a
   * qualifying item the walk reaches is among the results, provided no item
   * the walk examines raises (items after the stop are never read).
   */
  lemma SearchResultKeeps(query: string, category: string, api: string -> TermResponse, i: nat)
    requires |SearchTerms(query, category)| == 1 && api(SearchTerms(query, category)[0]).Items?
    requires var items := api(SearchTerms(query, category)[0]).items;
      && Reaches(Start, items, i) && i < |items| && Complete(items[i])
      && ScanItems(Start, items).Some?
      && items[i].videoId.value !in Before(Start, items, i).seen
      && LooksLikeMovie(items[i].title.value)
    ensures var item := api(SearchTerms(query, category)[0]).items[i];
      ToMovie(item.videoId.value, item.title.value, item.thumbnails.value) in SearchResult(query, category, true, api)
  {
    var terms := SearchTerms(query, category);
    var items := api(terms[0]).items;
    assert terms[1..] == [];
    assert ScanTerms(Start, terms, api) == Finished(ScanItems(Start, items).value.results);
    ScanItemsKeeps(Start, items, i);
  }

  /** For a single-term search, an incomplete item the walk reaches makes the whole result empty. */
  lemma SearchResultRejectsIncomplete(query: string, category: string, api: string -> TermResponse, i: nat)
    requires |SearchTerms(query, category)| == 1 && api(SearchTerms(query, category)[0]).Items?
    requires var items := api(SearchTerms(query, category)[0]).items;
      && Reaches(Start, items, i) && i < |items|
      && (items[i].videoId.None? || (items[i].videoId.value !in Before(Start, items, i).seen && !Complete(items[i])))
    ensures SearchResult(query, category, true, api) == []
  {
    ScanItemsRejectsIncomplete(Start, api(SearchTerms(query, category)[0]).items, i);
  }

  // ---------------------------------------------------------------------
  // Error handling
  // ---------------------------------------------------------------------

  /** A 403 or 429 on term `k` keeps what was gathered before it and consults no later term. */
  lemma {:induction false} RateLimitStopsSearch(s: Scan, terms: seq<string>, api: string -> TermResponse, k: nat)
    requires k < |terms| && api(terms[k]).HttpError? && IsRateLimited(api(terms[k]).status)
    ensures ScanTerms(s, terms, api) == ScanTerms(s, terms[..k], api)
    decreases k
  {
    if k > 0 {
      assert terms[..k][0] == terms[0] && terms[..k][1..] == terms[1..][..k - 1];
      match api(terms[0])
      case Failure =>
      case HttpError(status) =>
        if !IsRateLimited(status) {
          RateLimitStopsSearch(s, terms[1..], api, k - 1);
        }
      case Items(items) =>
        if ScanItems(s, items).Some? {
          RateLimitStopsSearch(ScanItems(s, items).value, terms[1..], api, k - 1);
        }
    } else {
      assert terms[..k] == [];
    }
  }

  /** Any other HTTP error on term `k` is the same as leaving that term out. */
  lemma {:induction false} HttpErrorSkipsTerm(s: Scan, terms: seq<string>, api: string -> TermResponse, k: nat)
    requires k < |terms| && api(terms[k]).HttpError? && !IsRateLimited(api(terms[k]).status)
    ensures ScanTerms(s, terms, api) == ScanTerms(s, terms[..k] + terms[k + 1..], api)
    decreases k
  {
    var rest := terms[..k] + terms[k + 1..];
    if k > 0 {
      assert rest[0] == terms[0] && rest[1..] == terms[1..][..k - 1] + terms[1..][k..];
      match api(terms[0])
      case Failure =>
      case HttpError(status) =>
        if !IsRateLimited(status) {
          HttpErrorSkipsTerm(s, terms[1..], api, k - 1);
        }
      case Items(items) =>
        if ScanItems(s, items).Some? {
          HttpErrorSkipsTerm(ScanItems(s, items).value, terms[1..], api, k - 1);
        }
    } else {
      assert rest == terms[1..];
    }
  }

  /**
   * Any other failure on term `k`, when no earlier term was rate-limited,
   * discards everything: the whole search yields no results.
   */
  lemma {:induction false} FailureDiscardsResults(s: Scan, terms: seq<string>, api: string -> TermResponse, k: nat)
    requires k < |terms| && api(terms[k]).Failure?
    requires forall j :: 0 <= j < k ==> !(api(terms[j]).HttpError? && IsRateLimited(api(terms[j]).status))
    ensures ScanTerms(s, terms, api) == Crashed
    decreases k
  {
    if k > 0 {
      assert forall j :: 0 <= j < k - 1 ==> terms[1..][j] == terms[j + 1];
      match api(terms[0])
      case Failure =>
      case HttpError(status) =>
        FailureDiscardsResults(s, terms[1..], api, k - 1);
      case Items(items) =>
        if ScanItems(s, items).Some? {
          FailureDiscardsResults(ScanItems(s, items).value, terms[1..], api, k - 1);
        }
    }
  }

  lemma SearchFailureYieldsNothing(query: string, category: string, api: string -> TermResponse, k: nat)
    requires k < |SearchTerms(query, category)|
    requires api(SearchTerms(query, category)[k]).Failure?
    requires forall j :: 0 <= j < k ==> !(api(SearchTerms(query, category)[j]).HttpError? &&
                                          IsRateLimited(api(SearchTerms(query, category)[j]).status))
    ensures SearchResult(query, category, true, api) == []
  {
    FailureDiscardsResults(Start, SearchTerms(query, category), api, k);
  }

  // ---------------------------------------------------------------------
  // The endpoints
  // ---------------------------------------------------------------------

  const NoMoviesMessage := "No movies found matching your criteria"
  const SearchErrorMessage := "An error occurred while searching for movies"

  /** A JSON response body with its HTTP status; absent keys are `None`. */
  datatype ApiResponse = ApiResponse(
    status: int,
    movies: seq<Movie>,
    count: Option<int>,
    message: Option<string>,
    error: Option<string>,
    details: Option<string>)

  /** A query parameter as `request.args.get(key, '').strip()` reads it: absent is the empty string. */
  function ServerArg(param: Option<string>): string {
    PyStrip(if param.Some? then param.value else "")
  }

  /**
   * `GET /search_movie`. `fault` is an exception raised by the framework inside the
   * handler (it carries `str(e)`): `search_movies` itself never raises.
   */
  function SearchMovieApi(name: Option<string>, category: Option<string>, clientAvailable: bool,
                          api: string -> TermResponse, fault: Option<string>): (resp: ApiResponse)
    ensures resp.status == 200
    ensures fault.None? ==>
      && resp.movies == SearchResult(ServerArg(name), ServerArg(category), clientAvailable, api)
      && resp.count == Some(|resp.movies|)
      && (resp.message.Some? <==> resp.movies == [])
      && (resp.message.Some? ==> resp.message.value == NoMoviesMessage)
      && resp.error.None? && resp.details.None?
    ensures fault.Some? ==>
      resp.movies == [] && resp.count.None? && resp.message.None? &&
      resp.error == Some(SearchErrorMessage) && resp.details == fault
  {
    if fault.Some? then
      ApiResponse(200, [], None, None, Some(SearchErrorMessage), fault)
    else
      var movieName := ServerArg(name);
      var cat := ServerArg(category);
      var results := SearchResult(movieName, cat, clientAvailable, api);
      ApiResponse(200, results, Some(|results|), if results == [] then Some(NoMoviesMessage) else None, None, None)
  }

  /** `GET /popular_movies`: the default search, at most ten results. */
  function PopularMovies(clientAvailable: bool, api: string -> TermResponse, fault: Option<string>): (resp: ApiResponse)
    ensures resp.status == 200 && resp.message.None? && resp.details.None?
    ensures fault.None? ==>
      resp.movies == SearchResult("", "", clientAvailable, api) &&
      resp.count == Some(|resp.movies|) && |resp.movies| <= 10 && resp.error.None?
    ensures fault.Some? ==> resp.movies == [] && resp.count.None? && resp.error == fault
  {
    if fault.Some? then
      ApiResponse(200, [], None, None, fault, None)
    else
      var results := SearchResult("", "", clientAvailable, api);
      assert "" !in CategoryKeywords;
      assert |SearchTerms("", "")| == 1;
      SearchResultBound("", "", clientAvailable, api);
      ApiResponse(200, results, Some(|results|), None, None, None)
  }
}
