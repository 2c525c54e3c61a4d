/** The JSON responses the route handlers return: a status code and a body. */
module Http {
  import Schema
  import Queries

  datatype Body =
    | ErrorBody(error: string)
    | RowBody(row: Schema.Correspondence)
    | ListBody(rows: seq<Queries.Listed>)
    | StatsBody(stats: Queries.Stats)

  /** `NextResponse.json(body, { status })`; the status defaults to 200. */
  datatype Response = Response(status: nat, body: Body)
}
