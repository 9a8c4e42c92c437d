/**
 * The search page of client/src/Components/MovieSearchApp.jsx.
 *
 * The component keeps seven state cells: the two form fields, the result
 * list, the loading and error flags, whether a search has been made, and
 * the movie chosen for preview. The form handlers, the search request and
 * the preview's open/close are the methods of `App`; what the page shows is
 * a function of the state. The HTTP exchange is an input: the outcome of the
 * request is passed to the method that consumes it.
 */
module MovieSearchApp {
  import opened Wrappers
  import opened Text
  import opened Movies

  const ValidationMessage := "Please enter a search term or select a category"
  const FetchFailedMessage := "Failed to fetch movies. Please try again."

  /** The values of the category drop-down besides the empty "Select Category" option. */
  const Categories := ["comedy", "action", "animation", "cartoon", "sci-fi", "fantasy", "history"]

  /** A value the drop-down can produce. */
  predicate Offered(category: string) {
    category == "" || category in Categories
  }

  /** The form rule: at most one of the name and the category is filled in. */
  predicate FormExclusive(searchQuery: string, category: string) {
    searchQuery == "" || category == ""
  }

  // ---------------------------------------------------------------------
  // The request
  // ---------------------------------------------------------------------

  /** The query parameters of `GET /search_movie`; `None` for a parameter not appended. */
  datatype SearchParams = SearchParams(name: Option<string>, category: Option<string>)

  /** The parameters `fetchMovies` appends for the given form fields. */
  function BuildParams(searchQuery: string, category: string): (p: SearchParams)
    ensures p.name.Some? <==> JsTrim(searchQuery) != ""
    ensures p.name.Some? ==> p.name.value == JsTrim(searchQuery)
    ensures p.category.Some? <==> category != ""
    ensures p.category.Some? ==> p.category.value == category
  {
    var trimmed := JsTrim(searchQuery);
    SearchParams(if trimmed != "" then Some(trimmed) else None, if category != "" then Some(category) else None)
  }

  /** The name is sent exactly when the query has a character that is not white space. */
  lemma NameSentIffNotBlank(searchQuery: string, category: string)
    ensures BuildParams(searchQuery, category).name.Some? <==>
      exists k :: 0 <= k < |searchQuery| && !JsIsSpace(searchQuery[k])
  {
    TrimEmptyIff(searchQuery, JsIsSpace);
  }

  /** A form that obeys the rule never sends both parameters. */
  lemma ExclusiveFormSendsOneParam(searchQuery: string, category: string)
    requires FormExclusive(searchQuery, category)
    ensures !(BuildParams(searchQuery, category).name.Some? && BuildParams(searchQuery, category).category.Some?)
  {
  }

  /** Whether `fetchMovies` sends a request at all: a non-blank name or a category. */
  predicate WillSend(searchQuery: string, category: string) {
    JsTrim(searchQuery) != "" || category != ""
  }

  // ---------------------------------------------------------------------
  // The response
  // ---------------------------------------------------------------------

  /**
   * The body as `response.json()` and `data.movies` read it: `Json` carries
   * the `movies` field of a JSON object (absent or falsy is `None`), and
   * `Unreadable` is a body that is not JSON or whose `data.movies` access
   * throws, such as the JSON value `null`; both of those land in `catch`.
   */
  datatype Payload = Json(movies: Option<seq<Movie>>) | Unreadable

  /** What the `fetch` of the search URL yields. */
  datatype HttpOutcome = Response(status: int, payload: Payload) | NetworkError

  /** `response.ok`: a status in the range 200-299. */
  predicate IsOk(status: int) {
    200 <= status <= 299
  }

  /**
   * The outcomes that land in the `catch` block: a rejected `fetch`, a
   * non-ok status other than 404, or a body that cannot be read as JSON.
   */
  function IsFailure(outcome: HttpOutcome): (failed: bool)
    ensures !failed <==>
      (outcome.Response? && (outcome.status == 404 || (IsOk(outcome.status) && outcome.payload.Json?)))
  {
    match outcome
    case NetworkError => true
    case Response(status, payload) =>
      if !IsOk(status) then status != 404 else payload.Unreadable?
  }

  /** The list the results become for an outcome that is not a failure. */
  function ReceivedMovies(outcome: HttpOutcome): (movies: seq<Movie>)
    requires !IsFailure(outcome)
    ensures movies != [] ==> IsOk(outcome.status) && outcome.payload.movies == Some(movies)
    ensures IsOk(outcome.status) && outcome.payload.movies.Some? ==> movies == outcome.payload.movies.value
  {
    match outcome
    case Response(status, payload) =>
      if !IsOk(status) then []
      else if payload.movies.Some? then payload.movies.value
      else []
  }

  /** Not-found is not an error: a 404 empties the list. */
  lemma NotFoundEmptiesList(payload: Payload)
    ensures !IsFailure(Response(404, payload)) && ReceivedMovies(Response(404, payload)) == []
  {
  }

  // ---------------------------------------------------------------------
  // What the page shows
  // ---------------------------------------------------------------------

  /** The results section. */
  datatype View = Welcome | Spinner | ErrorText(message: string) | NoMovies | Grid(cards: seq<Movie>)

  /** JavaScript truthiness of the `error` cell: a non-empty string. */
  predicate Truthy(error: Option<string>) {
    error.Some? && error.value != ""
  }

  /**
   * The render chain: welcome before any search, then the spinner while
   * loading, then the error, then "No movies found", else one card per
   * movie in list order.
   */
  function ResultsView(hasSearched: bool, loading: bool, error: Option<string>, movies: seq<Movie>): (v: View)
    ensures v.Welcome? <==> !hasSearched
    ensures v.Spinner? <==> hasSearched && loading
    ensures v.ErrorText? <==> hasSearched && !loading && Truthy(error)
    ensures v.ErrorText? ==> v.message == error.value
    ensures v.NoMovies? <==> hasSearched && !loading && !Truthy(error) && movies == []
    ensures v.Grid? <==> hasSearched && !loading && !Truthy(error) && movies != []
    ensures v.Grid? ==> v.cards == movies
  {
    if !hasSearched then Welcome
    else if loading then Spinner
    else if Truthy(error) then ErrorText(error.value)
    else if |movies| == 0 then NoMovies
    else Grid(movies)
  }

  /** Once a search has been made and is no longer loading, the error text wins over the list. */
  lemma SettledView(error: Option<string>, movies: seq<Movie>)
    ensures ResultsView(true, false, error, movies) ==
      if Truthy(error) then ErrorText(error.value) else if movies == [] then NoMovies else Grid(movies)
  {
  }

  const WatchMarker := "watch?v="
  const EmbedMarker := "embed/"

  /** The player's URL: the first `watch?v=` becomes `embed/`; a URL without it is kept as it is. */
  function EmbedUrl(url: string): (r: string)
    ensures (forall j :: !OccursAt(url, WatchMarker, j)) ==> r == url
    ensures forall i :: OccursAt(url, WatchMarker, i) && (forall j :: 0 <= j < i ==> !OccursAt(url, WatchMarker, j)) ==>
      r == url[..i] + EmbedMarker + url[i + |WatchMarker|..]
  {
    ReplaceFirst(url, WatchMarker, EmbedMarker)
  }

  /** The name the browser saves a download under. */
  function DownloadFilename(title: string): (name: string)
    ensures |name| == |title| + 4 && name[..|title|] == title && name[|title|..] == ".mp4"
  {
    title + ".mp4"
  }

  /** Removing the extension gives back the title, so different titles never share a file name. */
  lemma DownloadFilenameInjective(a: string, b: string)
    requires DownloadFilename(a) == DownloadFilename(b)
    ensures a == b
  {
    assert |a| == |b|;
    assert a == DownloadFilename(a)[..|a|];
  }

  // ---------------------------------------------------------------------
  // The component
  // ---------------------------------------------------------------------

  class App {
    var searchQuery: string
    var category: string
    var movies: seq<Movie>
    var loading: bool
    var error: Option<string>
    var hasSearched: bool
    var selectedMovie: Option<Movie>

    /**
     * The form rule; the category is one the drop-down offers; the spinner
     * is only ever shown after a search has started.
     */
    ghost predicate Valid()
      reads this
    {
      && FormExclusive(searchQuery, category)
      && Offered(category)
      && (loading ==> hasSearched)
    }

    /** The `useState` initial values. */
    constructor ()
      ensures Valid()
      ensures searchQuery == "" && category == "" && movies == []
      ensures !loading && error.None? && !hasSearched && selectedMovie.None?
      ensures CurrentView() == Welcome && !ModalOpen()
    {
      searchQuery := "";
      category := "";
      movies := [];
      loading := false;
      error := None;
      hasSearched := false;
      selectedMovie := None;
    }

    function CurrentView(): View
      reads this
    {
      ResultsView(hasSearched, loading, error, movies)
    }

    /** The preview is open exactly when a movie is selected (a movie object is always truthy). */
    function ModalOpen(): (open: bool)
      reads this
      ensures open <==> PlayerUrl().Some?
    {
      selectedMovie.Some?
    }

    /** The URL of the player inside the preview: the selected movie's embed URL, if one is selected. */
    function PlayerUrl(): (url: Option<string>)
      reads this
      ensures url.Some? <==> selectedMovie.Some?
      ensures url.Some? ==> url.value == EmbedUrl(selectedMovie.value.url)
    {
      if selectedMovie.Some? then Some(EmbedUrl(selectedMovie.value.url)) else None
    }

    /** Typing in the name field: sets it and clears the category. */
    method EditName(value: string)
      requires Valid()
      modifies this`searchQuery, this`category
      ensures Valid()
      ensures searchQuery == value && category == ""
    {
      searchQuery := value;
      category := "";
    }

    /** Choosing in the drop-down: sets the category and clears the name. */
    method EditCategory(value: string)
      requires Valid()
      requires Offered(value)
      modifies this`searchQuery, this`category
      ensures Valid()
      ensures category == value && searchQuery == ""
    {
      category := value;
      searchQuery := "";
    }

    /**
     * The synchronous start of `fetchMovies`, up to the `fetch`: it marks a
     * search as made and either returns the request to send, leaving the
     * spinner up, or rejects an empty form with the validation message.
     */
    method BeginSearch() returns (request: Option<SearchParams>)
      requires Valid()
      modifies this`loading, this`error, this`hasSearched
      ensures Valid() && hasSearched
      ensures request.Some? <==> WillSend(searchQuery, category)
      ensures request.Some? ==> request.value == BuildParams(searchQuery, category)
      ensures request.Some? ==> loading && error.None? && CurrentView() == Spinner
      ensures request.None? ==> !loading && error == Some(ValidationMessage)
      ensures request.None? ==> CurrentView() == ErrorText(ValidationMessage)
    {
      loading := true;
      error := None;
      hasSearched := true;
      if JsTrim(searchQuery) == "" && category == "" {
        error := Some(ValidationMessage);
        loading := false;
        return None;
      }
      request := Some(BuildParams(searchQuery, category));
    }

    /**
     * The rest of `fetchMovies`, once the request has been answered: a 404
     * or a readable success replaces the list and keeps the error cell,
     * every failure sets the fixed message and keeps the list; the `finally`
     * clears the loading flag on every path.
     */
    method FinishSearch(outcome: HttpOutcome)
      requires Valid()
      modifies this`movies, this`error, this`loading
      ensures Valid() && !loading
      ensures IsFailure(outcome) ==> movies == old(movies) && error == Some(FetchFailedMessage)
      ensures !IsFailure(outcome) ==> movies == ReceivedMovies(outcome) && error == old(error)
    {
      match outcome {
        case NetworkError =>
          error := Some(FetchFailedMessage);
        case Response(status, payload) =>
          if !IsOk(status) {
            if status == 404 {
              movies := [];
            } else {
              error := Some(FetchFailedMessage);
            }
          } else if payload.Unreadable? {
            error := Some(FetchFailedMessage);
          } else if payload.movies.Some? {
            movies := payload.movies.value;
          } else {
            movies := [];
          }
      }
      loading := false;
    }

    /**
     * `fetchMovies` as one step: the request it sends (if any) and the state
     * it leaves, with the view that results.
     */
    method FetchMovies(outcome: HttpOutcome) returns (request: Option<SearchParams>)
      requires Valid()
      modifies this`movies, this`loading, this`error, this`hasSearched
      ensures Valid() && !loading && hasSearched
      ensures request.Some? <==> WillSend(searchQuery, category)
      ensures request.Some? ==> request.value == BuildParams(searchQuery, category)
      ensures request.None? ==> movies == old(movies) && error == Some(ValidationMessage)
      ensures request.Some? && IsFailure(outcome) ==> movies == old(movies) && error == Some(FetchFailedMessage)
      ensures request.Some? && !IsFailure(outcome) ==> movies == ReceivedMovies(outcome) && error.None?
      ensures CurrentView() ==
        if request.None? then ErrorText(ValidationMessage)
        else if IsFailure(outcome) then ErrorText(FetchFailedMessage)
        else if ReceivedMovies(outcome) == [] then NoMovies
        else Grid(ReceivedMovies(outcome))
    {
      request := BeginSearch();
      if request.Some? {
        FinishSearch(outcome);
      }
      SettledView(error, movies);
    }

    /** Clicking the card of the `i`-th movie of the grid opens its preview. */
    method SelectCard(i: nat)
      requires Valid() && CurrentView().Grid? && i < |CurrentView().cards|
      modifies this`selectedMovie
      ensures Valid()
      ensures selectedMovie == Some(movies[i]) && ModalOpen()
      ensures PlayerUrl() == Some(EmbedUrl(movies[i].url))
    {
      selectedMovie := Some(movies[i]);
    }

    /** Closing the preview clears the selection and nothing else. */
    method CloseModal()
      requires Valid()
      modifies this`selectedMovie
      ensures Valid()
      ensures selectedMovie.None? && !ModalOpen() && PlayerUrl().None?
      ensures CurrentView() == old(CurrentView())
    {
      selectedMovie := None;
    }
  }
}
