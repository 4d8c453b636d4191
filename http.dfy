/** The shape of an Express response as the handlers produce it. */
module Http {

  /** One response: `res.status(s).json(body)`, `res.status(s).json({ message })`,
      the fallback handler's `res.status(s).json({ error })`, or
      `res.status(204).send()`. */
  datatype Reply<+T> =
    | Json(code: int, body: T)
    | Message(code: int, message: string)
    | ErrorJson(code: int, error: string)
    | NoContent
  {
    /** The HTTP status line of the response. */
    function Status(): int {
      match this
      case Json(c, _) => c
      case Message(c, _) => c
      case ErrorJson(c, _) => c
      case NoContent => 204
    }
  }

  /** The application-wide error middleware (backend/src/index.ts): an error
      passed to `next(err)` without a `status` property becomes a 500 whose
      body is `{ error: err.message }`. Multer's errors carry no `status`. */
  function FallbackHandler<T>(errorMessage: string): (r: Reply<T>)
    ensures r.Status() == 500 && r.ErrorJson?
  {
    ErrorJson(500, if errorMessage == "" then "Erro interno do servidor" else errorMessage)
  }
}
