# MovieFlix search, modelled in Dafny

MovieFlix is a small client–server application for finding full-length
movies on YouTube.

- **Server.** The Flask server (`server/app.py`) turns a movie name or a
  category into a list of YouTube search terms. It asks the YouTube Data API
  about each term in turn and keeps, in order, the videos whose title looks
  like a movie, never the same video twice. It answers `GET /search_movie`
  and `GET /popular_movies` with a JSON body.
- **Client.** The React component `MovieSearchApp`
  (`client/src/Components/MovieSearchApp.jsx`) has seven state cells. It
  restricts the form to a name or a category, validates it, sends the
  request, and turns the outcome into a welcome text, a spinner, an error,
  "No movies found" or a grid of cards. Clicking a card opens a preview that
  embeds the video.

The model has six files:

- `wrappers.dfy`: the `Option` type.
- `movies.dfy`: the `{title, url, thumbnail}` record the two sides exchange.
- `text.dfy`: the string operations the code relies on. These are ASCII
  lower-casing, substring search, JavaScript's first-occurrence
  `replace`, and trimming with Python's and with JavaScript's white-space
  sets.
- `server.dfy` (module `MovieServer`): the server.
  - The YouTube API is an input: a total function from a search term to
    that term's items, an HTTP error status, or another failure.
  - A flag says whether the API client could be built.
  - `search_movies` is imperative, with the source's `break` and `continue`.
    Its outer loop over the terms is `SearchMovies` and its inner loop over
    one page of items is `ScanPage`. Together they are proved equal to a
    recursive specification, `ScanTerms`/`ScanItems`. Its properties are lemmas about that
    specification.
- `client.dfy` (module `MovieSearchApp`): the component. It is a class
  `App` with the seven state cells as fields and the handlers as methods.
  The HTTP outcome of the search request is a datatype argument.
- `endtoend.dfy` (module `EndToEnd`): lemmas that join the two sides.
  - The drop-down offers exactly the server's categories.
  - A request built from the form yields the expected search terms.
  - A server answer reaches the page as "No movies found" or as a grid of
    embeddable videos.

Two behaviours of the client are easy to misread:

- After a transport failure, a non-ok status other than 404, or an
  unreadable body, `fetchMovies` sets only `error`. The previous `movies`
  stay as they were.
- A form whose trimmed name and category are both empty is rejected with
  the validation message before any request is made.

## Model

| member | source | states |
|---|---|---|
| MovieServer.KeywordCounts | server/app.py:28-36 | every category of the keyword table has three or four search keywords |
| MovieServer.SearchTerms | server/app.py:63-70 | a non-empty name gives the first term, `"<name> full movie"`; a known category contributes its keywords, in table order, as the last terms; the length is the sum of the two parts; with neither, the terms are exactly `["full movie"]`; always 1 to 5 terms |
| MovieServer.PickThumbnail | server/app.py:95-97 | the `or` chain picks the first present (non-empty) URL among high and medium, otherwise whatever default holds; a present result is one of the three |
| MovieServer.WatchUrl | server/app.py:103 | the URL is a watch-page URL whose video id is exactly the given id |
| MovieServer.ToMovie | server/app.py:101-105 | the kept record has the item's title, the watch-page URL of its video id and the picked thumbnail |
| MovieServer.LooksLikeMovie | server/app.py:100 | an item is kept exactly when one of "movie", "film", "full" occurs somewhere in its lower-cased title (Python's `in`) |
| MovieServer.LooksLikeMovieIgnoresCase | server/app.py:100 | the title filter gives the same verdict for a title and its lower-cased form |
| MovieServer.ScanItems | server/app.py:87-110 | the recursive specification of one term's inner loop; it yields no state (the `KeyError`) only when some item lacks a key the code reads |
| MovieServer.ScanTerms | server/app.py:75-118 | the recursive specification of the outer loop over the terms; it ends in a failure only when some term's response is a non-HTTP exception or has an item without a key |
| MovieServer.SearchResult | server/app.py:59-122 | what `search_movies` returns (`[]` without a client or after a failure, else the gathered results); every result is the record of a complete item the API returned for one of the terms |
| MovieServer.SearchMovies | server/app.py:48-122 | the imperative loop over the terms (break on 403/429, skip on other HTTP errors, `[]` on any other exception or on a page with a missing key) returns exactly the recursive specification's result |
| MovieServer.ScanPage | server/app.py:87-110 | the inner loop over one page (dedup check, filter, stop at 10) reports a crash exactly when the specification yields no state, and otherwise ends in exactly the specification's results and seen ids |
| MovieServer.ScanItemsConsistent | server/app.py:87-106 | walking one term's items keeps the invariant: results are watch URLs that pass the filter, pairwise distinct video ids, every id in the seen set |
| MovieServer.ScanTermsConsistent | server/app.py:75-116 | walking all terms from a consistent state yields well-formed results |
| MovieServer.SearchResultWellFormed | server/app.py:73-106 | every result of `search_movies` has a watch-page URL and a title containing "movie", "film" or "full" (ignoring case), and no two results share a video id |
| MovieServer.ScanItemsGrowth | server/app.py:87-110 | one term never removes results; it stops growing them at 10 when it starts below 10, and adds at most one when it starts at 10 or more |
| MovieServer.ScanTermsBound | server/app.py:75-116 | after walking the terms, the count is at most 9 (or the starting count, if larger) plus the number of terms |
| MovieServer.SearchResultBound | server/app.py:108-110 | the cap of 10 is per term: `search_movies` returns at most 9 + (number of terms) results, hence at most 14 |
| MovieServer.ScanItemsOrder | server/app.py:87-106 | one term's walk keeps the earlier results as a prefix and appends a subsequence of that term's item records, in item order |
| MovieServer.ScanTermsOrder | server/app.py:75-116 | the walk over the terms keeps the earlier results as a prefix and appends a subsequence of all terms' item records, in term then item order |
| MovieServer.SearchResultOrder | server/app.py:75-106 | the results of `search_movies` are a subsequence of the records of the API's items, in term order then item order |
| MovieServer.Conversions | server/app.py:94-105 | each record in a term's candidate list is the `ToMovie` record of one of that term's complete items |
| MovieServer.ScanItemsSplit | server/app.py:87-110 | a walk reaches item i when no earlier item raises and the stop at 10 has not fired after any earlier unseen item (a seen item is left by `continue`, before the check); such a walk has gathered exactly the state before item i over the earlier items, and continues from item i with it |
| MovieServer.ScanItemsKeeps | server/app.py:88-106 | a reached item with every key, an unseen video id and a title passing the filter is kept: its record comes right after the results gathered before it, and stays in the term's final results |
| MovieServer.ScanItemsSkipsSeen | server/app.py:88-92 | a reached item whose video id was already kept is skipped with `continue`, before the stop check: the walk goes on with the next item in the same state |
| MovieServer.ScanItemsDropsNonMovie | server/app.py:99-110 | a reached complete, unseen item whose title fails the filter adds nothing, but the stop at 10 is still checked after it |
| MovieServer.ScanItemsRejectsIncomplete | server/app.py:88-97 | a reached item without a video id, or unseen and without a title or thumbnails, raises `KeyError`: the term yields no state |
| MovieServer.SearchResultKeeps | server/app.py:75-118 | for a single-term search whose walk raises nothing, every reached complete, unseen item whose title passes the filter has its record among the results (items after the stop may lack keys) |
| MovieServer.SearchResultRejectsIncomplete | server/app.py:88-122 | for a single-term search, a reached incomplete item makes `search_movies` return `[]` |
| MovieServer.RateLimitStopsSearch | server/app.py:112-115 | a 403 or 429 on a term gives the same outcome as stopping before that term: the results gathered so far, and no later term consulted |
| MovieServer.HttpErrorSkipsTerm | server/app.py:112-116 | any other HTTP error on a term gives the same outcome as leaving that term out |
| MovieServer.FailureDiscardsResults | server/app.py:120-122 | any other exception on a term, with no earlier term rate-limited, ends the walk as a failure |
| MovieServer.SearchFailureYieldsNothing | server/app.py:59-122 | such a failure makes `search_movies` return `[]`, whatever earlier terms gathered |
| MovieServer.SearchMovieApi | server/app.py:142-174 | status is always 200; both parameters are stripped, an absent one reads as empty; `movies` is the search result and `count` its length; the no-results message is present exactly when `movies` is empty; on an exception, `movies` is empty and the error text and details are set |
| MovieServer.PopularMovies | server/app.py:176-190 | status 200; `movies` is the default search with its count and at most 10 entries (the single default term); on an exception, `movies` is empty and `error` carries the exception text |
| Text.FindFirst | client/src/Components/MovieSearchApp.jsx:37 | the result is an occurrence with no earlier occurrence; `None` means the pattern occurs nowhere |
| Text.ReplaceFirst | client/src/Components/MovieSearchApp.jsx:37 | a string replace with a string pattern: without an occurrence the string is unchanged, otherwise only the first occurrence is replaced |
| Text.PyStrip | server/app.py:149-150 | Python's `strip()`: the result is the input with a run of Python white space removed at each end, and neither end of the result is white space |
| Text.JsTrim | client/src/Components/MovieSearchApp.jsx:113-114 | JavaScript's `trim()`: the same, with JavaScript's white-space and line-terminator characters |
| MovieSearchApp.BuildParams | client/src/Components/MovieSearchApp.jsx:110-118 | `name` is appended exactly when the trimmed query is non-empty, with the trimmed value; `category` is appended exactly when it is non-empty, unchanged |
| MovieSearchApp.NameSentIffNotBlank | client/src/Components/MovieSearchApp.jsx:113-115 | the name is sent exactly when the query has a character that is not JavaScript white space |
| MovieSearchApp.ExclusiveFormSendsOneParam | client/src/Components/MovieSearchApp.jsx:110-118 | a form with at most one field filled in never sends both parameters |
| MovieSearchApp.IsFailure | client/src/Components/MovieSearchApp.jsx:129-146 | an outcome avoids the `catch` block exactly when it is a response with status 404, or an ok (200-299) status with a readable JSON body |
| MovieSearchApp.ReceivedMovies | client/src/Components/MovieSearchApp.jsx:129-143 | the list set on the non-failure path: a non-empty list only comes from an ok response's `movies`, and an ok response with `movies` gives exactly that list |
| MovieSearchApp.NotFoundEmptiesList | client/src/Components/MovieSearchApp.jsx:129-133 | a 404 is not a failure, and it empties the list |
| MovieSearchApp.ResultsView | client/src/Components/MovieSearchApp.jsx:210-236 | the view is Welcome iff no search was made; else Spinner iff loading; else the error text iff the error is set; else "No movies found" iff the list is empty; else a grid whose cards are exactly the movies, in order |
| MovieSearchApp.EmbedUrl | client/src/Components/MovieSearchApp.jsx:37 | the first `watch?v=` becomes `embed/`; a URL without it is kept unchanged |
| MovieSearchApp.DownloadFilename | client/src/Components/MovieSearchApp.jsx:93 | the file name is the title followed by `.mp4` |
| MovieSearchApp.DownloadFilenameInjective | client/src/Components/MovieSearchApp.jsx:93 | different titles never get the same file name |
| MovieSearchApp.App.constructor | client/src/Components/MovieSearchApp.jsx:74-80 | the initial state: empty fields and list, not loading, no error, no search made, nothing selected; the view is Welcome and the preview is closed |
| MovieSearchApp.App.EditName | client/src/Components/MovieSearchApp.jsx:175-178 | typing sets the name and clears the category, so at most one field is filled in |
| MovieSearchApp.App.EditCategory | client/src/Components/MovieSearchApp.jsx:186-188 | choosing an offered category sets it and clears the name, so at most one field is filled in |
| MovieSearchApp.App.BeginSearch | client/src/Components/MovieSearchApp.jsx:104-127 | the search is marked as made; a blank form sends nothing and shows the validation message with loading off; otherwise it returns exactly the built parameters with the spinner shown and the error cleared |
| MovieSearchApp.App.FinishSearch | client/src/Components/MovieSearchApp.jsx:127-149 | loading ends on every path; a 404 or a readable success replaces the list (`data.movies`, or `[]` without it); a network error, another non-ok status or an unreadable body sets the fixed failure message and keeps the list |
| MovieSearchApp.App.FetchMovies | client/src/Components/MovieSearchApp.jsx:104-150 | on every path loading is off and a search is marked as made; a request is sent exactly when the form is not blank, with the built parameters; the final view is the validation error, the failure error, "No movies found" or the grid of received movies |
| MovieSearchApp.App.ModalOpen | client/src/Components/MovieSearchApp.jsx:240-245 | the modal is open exactly when the player inside it has a URL, which happens when a movie is selected |
| MovieSearchApp.App.PlayerUrl | client/src/Components/MovieSearchApp.jsx:245 | a player URL exists exactly when a movie is selected, and it is that movie's embed URL |
| MovieSearchApp.App.SelectCard | client/src/Components/MovieSearchApp.jsx:227-233 | clicking the i-th card selects that movie and opens the preview, whose player URL is the movie's embed URL |
| MovieSearchApp.App.CloseModal | client/src/Components/MovieSearchApp.jsx:240-245 | closing clears the selection, so the preview is closed with no player, and the results view is unchanged |
| EndToEnd.CategoriesMatchServer | client/src/Components/MovieSearchApp.jsx:82-84 | the drop-down's categories are exactly the keys of the server's keyword table |
| EndToEnd.CategoriesSurviveStrip | server/app.py:150 | the server's `strip()` leaves every offered category unchanged |
| EndToEnd.CategoryRequestTerms | server/app.py:66-67 | a category-only request is searched with exactly that category's keywords |
| EndToEnd.NameRequestTerms | server/app.py:149 | a name-only request is searched with `"<stripped name> full movie"`, or with the default term when the server's wider white-space set strips the name to nothing |
| EndToEnd.RequestTerms | client/src/Components/MovieSearchApp.jsx:110-125 | a valid form that passes validation sends exactly one parameter: an offered category, or the trimmed name |
| EndToEnd.EmbedOfWatchUrl | client/src/Components/MovieSearchApp.jsx:37 | the embed rewrite turns the server's watch-page URL of a video into `https://www.youtube.com/embed/<video id>` |
| EndToEnd.ResultsPlayable | server/app.py:103 | every card of a well-formed result list plays at the embed URL of its own video id |
| EndToEnd.SearchAnswerShape | server/app.py:155-166 | every `/search_movie` answer without a framework fault has status 200, at most 14 movies, distinct videos with watch-page URLs, and the message exactly when the list is empty |
| EndToEnd.PageForSearchAnswer | client/src/Components/MovieSearchApp.jsx:137-143 | such an answer takes the client's success path; the page shows "No movies found" exactly when the server added its message, otherwise a grid of its movies with at most 14 cards, each playing at its own video's embed URL |

## Left out

- The YouTube client (`create_youtube_client`, `build`, `search().list(...).execute()`): foreign API calls. They are modelled as the per-term response input and the client-available flag. The request options (`maxResults=25`, duration, definition, language) therefore only shape what that input returns.
- The Flask application, routing, CORS, `jsonify`, logging, environment variables and the `__main__` block: framework and I/O plumbing. A JSON body is the `ApiResponse` datatype. An exception raised inside a handler is the `fault` input.
- The `/health` endpoint: it reads the wall clock and only checks that the client can be built.
- The browser side of `handleDownload` (`fetch`, blob, object URLs, anchor click, `alert`): DOM and I/O. Only the file-name rule is kept.
- JSX markup, styling, icons, the capitalised category labels and the modal title: presentation only.
- Overlapping `fetchMovies` calls: a concurrency concern. Each call is one atomic transition (`FetchMovies`), or `BeginSearch` followed by `FinishSearch`. Nothing is claimed about two searches in flight at once.
- The encoding of the query string by `URLSearchParams` and its decoding by Flask: a parameter reaches the server as the same string.
- MovieServer.LooksLikeMovie: lower-cases ASCII letters only, where Python's `str.lower()` folds all of Unicode. The verdict should still agree for the three filter words. The only non-ASCII characters whose lower-case form contains an ASCII letter are the Kelvin sign (to `k`) and capital I with dot above (to `i` followed by a combining dot), and neither can complete "movie", "film" or "full". This argument is not proved.
- MovieSearchApp.App.FinishSearch: a `data.movies` that is truthy but not an array (a number, a string, an object) is not modelled. The body's `movies` field is either a list of records or absent/falsy.
- JSON values of unexpected types in an item (a non-string title, a `thumbnails` that is not an object) are not modelled. A field is either present with the expected type or missing, and a missing field raises `KeyError`.
- MovieServer.SearchResultKeeps: stated for single-term searches (a name alone, or the default term). For several terms the item-level lemmas (`ScanItemsKeeps` and the others) hold for each term's walk, but are not lifted through the terms before it.
- MovieServer.SearchResultRejectsIncomplete: likewise stated for single-term searches only.
- The server's exception text (`str(e)`) is not derived. It is the content of the `fault` input.
