/**
 * What the browser client and the server promise each other: the
 * drop-down offers exactly the server's categories, a request built from
 * the form yields the expected search terms, and the results of a search
 * reach the page as "No movies found" or as a grid of embeddable videos.
 */
module EndToEnd {
  import opened Wrappers
  import opened Text
  import opened Movies
  import S = MovieServer
  import C = MovieSearchApp

  const EmbedPrefix := "https://www.youtube.com/embed/"

  /** The drop-down's categories are exactly the keys of the server's keyword table. */
  lemma CategoriesMatchServer()
    ensures forall c :: c in C.Categories <==> c in S.CategoryKeywords
  {
  }

  /** The category names have no surrounding white space, so the server's `strip()` keeps them. */
  lemma CategoriesSurviveStrip(c: string)
    requires c in C.Categories
    ensures PyStrip(c) == c
  {
    assert c[0] != ' ' && c[|c| - 1] != ' ';
    assert !PyIsSpace(c[0]) && !PyIsSpace(c[|c| - 1]);
    assert LeadingSpace(c, PyIsSpace) == 0 && TrailingSpace(c, PyIsSpace) == 0;
  }

  /** A category from the drop-down is searched by its keywords alone. */
  lemma CategoryRequestTerms(category: string)
    requires category in C.Categories
    ensures S.SearchTerms(S.ServerArg(None), S.ServerArg(Some(category))) == S.CategoryKeywords[category]
  {
    CategoriesSurviveStrip(category);
    CategoriesMatchServer();
    assert S.ServerArg(None) == "";
  }

  /**
   * A name is searched by the one term "<name> full movie", unless the
   * server's white space (a wider set than the browser's) strips it to
   * nothing, and then by the default term.
   */
  lemma NameRequestTerms(name: string)
    ensures S.SearchTerms(S.ServerArg(Some(name)), S.ServerArg(None)) ==
      if PyStrip(name) != "" then [PyStrip(name) + S.NameSuffix] else [S.DefaultTerm]
  {
    assert S.ServerArg(None) == "";
    assert "" !in S.CategoryKeywords;
  }

  /** The request of a valid, non-blank form carries exactly one parameter, which the server reads as above. */
  lemma RequestTerms(searchQuery: string, category: string)
    requires C.FormExclusive(searchQuery, category) && C.Offered(category)
    requires C.WillSend(searchQuery, category)
    ensures var p := C.BuildParams(searchQuery, category);
      (p.name.Some? || p.category.Some?) &&
      (p.category.Some? ==> p.name.None? && p.category.value == category && category in C.Categories) &&
      (p.name.Some? ==> p.category.None? && p.name.value == JsTrim(searchQuery))
  {
    C.ExclusiveFormSendsOneParam(searchQuery, category);
  }

  /** A server URL plays in the embedded player at `embed/<video id>`. */
  lemma EmbedOfWatchUrl(videoId: string)
    ensures C.EmbedUrl(S.WatchUrl(videoId)) == EmbedPrefix + videoId
  {
    var url := S.WatchUrl(videoId);
    var host := "https://www.youtube.com/";
    assert url == host + C.WatchMarker + videoId;
    assert OccursAt(url, C.WatchMarker, |host|) by {
      assert url[|host|..|host| + |C.WatchMarker|] == C.WatchMarker;
    }
    var lead := host + "w";
    assert 'a' !in lead;
    assert url[..|lead|] == lead;
    forall j | 0 <= j < |host| ensures !OccursAt(url, C.WatchMarker, j) {
      assert url[j + 1] == lead[j + 1] && lead[j + 1] in lead;
      assert C.WatchMarker[1] == 'a';
    }
    assert url[..|host|] + EmbedPrefix[|host|..] + url[|host| + |C.WatchMarker|..] == EmbedPrefix + videoId;
  }

  /** Every card of a well-formed result list plays at `embed/<video id>`. */
  lemma ResultsPlayable(r: seq<Movie>)
    requires S.WellFormedResults(r)
    ensures forall i :: 0 <= i < |r| ==> C.EmbedUrl(r[i].url) == EmbedPrefix + S.VideoIdOf(r[i].url)
  {
    forall i | 0 <= i < |r| ensures C.EmbedUrl(r[i].url) == EmbedPrefix + S.VideoIdOf(r[i].url) {
      var id := S.VideoIdOf(r[i].url);
      assert r[i].url == S.WatchUrl(id);
      EmbedOfWatchUrl(id);
    }
  }

  /**
   * Every answer of `GET /search_movie` without a framework fault: status
   * 200, at most 14 movies, each a distinct video with a watch-page URL, and
   * the no-results message exactly when the list is empty.
   */
  lemma SearchAnswerShape(name: Option<string>, category: Option<string>, clientAvailable: bool,
                          api: string -> S.TermResponse)
    ensures var resp := S.SearchMovieApi(name, category, clientAvailable, api, None);
      && resp.status == 200
      && |resp.movies| <= 14
      && S.WellFormedResults(resp.movies)
      && (resp.message.Some? <==> resp.movies == [])
  {
    var r := S.SearchResult(S.ServerArg(name), S.ServerArg(category), clientAvailable, api);
    assert S.SearchMovieApi(name, category, clientAvailable, api, None).movies == r;
    S.SearchResultBound(S.ServerArg(name), S.ServerArg(category), clientAvailable, api);
    S.SearchResultWellFormed(S.ServerArg(name), S.ServerArg(category), clientAvailable, api);
  }

  /**
   * The page once such an answer has arrived: it takes the client's success
   * path; the page shows "No movies found" exactly when the server added its
   * no-results message, and otherwise a grid of its movies, at most 14
   * cards, each a distinct video whose player URL is `embed/<video id>`.
   */
  lemma PageForSearchAnswer(resp: S.ApiResponse)
    requires resp.status == 200 && |resp.movies| <= 14 && S.WellFormedResults(resp.movies)
    requires resp.message.Some? <==> resp.movies == []
    ensures var outcome := C.Response(resp.status, C.Json(Some(resp.movies)));
      !C.IsFailure(outcome) && C.ReceivedMovies(outcome) == resp.movies
    ensures var v := C.ResultsView(true, false, None, resp.movies);
      && (v.NoMovies? <==> resp.message.Some?)
      && (v.Grid? <==> resp.message.None?)
      && (v.Grid? ==> v.cards == resp.movies && |v.cards| <= 14)
      && (v.Grid? ==> forall i :: 0 <= i < |v.cards| ==>
            C.EmbedUrl(v.cards[i].url) == EmbedPrefix + S.VideoIdOf(v.cards[i].url))
  {
    ResultsPlayable(resp.movies);
  }
}
