/** The one entity shared by the web API and the single-page client, and the
    small wrappers both sides use for "maybe a value" and "a request's outcome". */
module TodoModel {

  /** A to-do item: `{ "id": integer, "title": string, "isComplete": boolean }`.
      An id of 0 means "not yet assigned by the server". */
  datatype Todo = Todo(id: int, title: string, isComplete: bool)

  datatype Option<+T> = None | Some(value: T)

  /** The outcome of one HTTP request as the client sees it: the response body
      on a 2xx status, or a failure (network error or error status). */
  datatype Reply<+T> = Success(data: T) | Failure
}
