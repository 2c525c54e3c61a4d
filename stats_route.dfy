/** `GET /api/correspondence/stats`: the per-status and per-priority counts over the table. */
module StatsRoute {
  import opened Http
  import Queries
  import Store

  method Get(store: Store.CorrespondenceStore) returns (resp: Response)
    ensures resp == Response(200, StatsBody(Queries.StatsOf(store.db.correspondence)))
  {
    var st := store.Stats();
    resp := Response(200, StatsBody(st));
  }
}
