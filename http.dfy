/** What the HTTP handlers send back: a status code and a body that is
    empty, plain text, a `{ error }` object or a JSON payload. Headers
    are not part of the model. */
module Http {

  datatype Body<T> =
    | NoContent            // `res.status(s).end()`
    | Text(text: string)   // `res.sendStatus(s)`, whose body is the status text
    | Error(error: string) // `res.status(s).json({ error })`
    | Json(value: T)       // `res.json(value)`

  datatype Response<T> = Response(status: nat, body: Body<T>)
}
