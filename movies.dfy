/**
 * The movie record exchanged between the server and the browser client:
 * the JSON object `{title, url, thumbnail}` built in server/app.py and
 * rendered by client/src/Components/MovieSearchApp.jsx.
 */
module Movies {
  import opened Wrappers

  /** `thumbnail` is `None` when the server found no thumbnail URL (JSON null). */
  datatype Movie = Movie(title: string, url: string, thumbnail: Option<string>)
}
