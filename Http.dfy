/** The response a route handler returns: a status code and a JSON body. */
module Http {
  import opened JsonData

  datatype Response = Response(status: int, body: Json)

  /** `NextResponse.json({ error: message }, { status })` */
  function Error(status: int, message: string): Response {
    Response(status, JObj([("error", JStr(message))]))
  }

  /** `NextResponse.json(body)` with the default status. */
  function Ok(body: Json): Response {
    Response(200, body)
  }

  /** What the framework sends when a handler throws outside any `try`: a 500 whose body
      is not one the handler wrote. */
  const Uncaught: Response := Response(500, JNull)
}
