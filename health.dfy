/**
 * The `/healthz` handler of app.js: reject any query string, then any body,
 * with 400; otherwise probe the backing store and answer 200 when it is
 * reachable and 503 when it is not. Every branch sets the same two
 * cache-prevention headers and sends an empty body.
 */
module Health {
  import opened Wrappers

  /** The parts of a request the handler looks at: the keys of `req.query` and of `req.body`, either possibly absent. */
  datatype HealthRequest = HealthRequest(query: Option<set<string>>, body: Option<set<string>>)

  datatype HealthResponse = HealthResponse(status: int, headers: map<string, string>, body: string)

  const NoCacheHeaders: map<string, string> :=
    map["Cache-Control" := "no-cache, no-store, must-revalidate", "Pragma" := "no-cache"]

  /** `o && Object.keys(o).length > 0` */
  predicate HasKeys(o: Option<set<string>>) {
    o.Some? && |o.value| > 0
  }

  /** The handler's decision; `storeReachable` is the outcome of `sequelize.authenticate()`. */
  function Healthz(req: HealthRequest, storeReachable: bool): (r: HealthResponse)
    ensures r.headers == NoCacheHeaders && r.body == ""
    ensures r.status == 200 || r.status == 400 || r.status == 503
  {
    if HasKeys(req.query) then HealthResponse(400, NoCacheHeaders, "")
    else if HasKeys(req.body) then HealthResponse(400, NoCacheHeaders, "")
    else if storeReachable then HealthResponse(200, NoCacheHeaders, "")
    else HealthResponse(503, NoCacheHeaders, "")
  }

  /** A query string is rejected whatever the body and whether or not the store is reachable. */
  lemma QueryRejectedFirst(req: HealthRequest, storeReachable: bool)
    requires HasKeys(req.query)
    ensures Healthz(req, storeReachable).status == 400
    ensures forall b: Option<set<string>>, up: bool ::
      Healthz(HealthRequest(req.query, b), up) == Healthz(req, storeReachable)
  {
  }

  /** Without a query string, a body is rejected whether or not the store is reachable. */
  lemma BodyRejectedSecond(req: HealthRequest, storeReachable: bool)
    requires !HasKeys(req.query) && HasKeys(req.body)
    ensures Healthz(req, storeReachable).status == 400
  {
  }

  /** A well-shaped request is answered by the probe alone: 200 when reachable, 503 otherwise. */
  lemma ProbeDecidesWellShaped(req: HealthRequest, storeReachable: bool)
    requires !HasKeys(req.query) && !HasKeys(req.body)
    ensures Healthz(req, storeReachable).status == (if storeReachable then 200 else 503)
  {
  }

  /** 200 is answered exactly for a well-shaped request to a reachable store. */
  lemma OkExactly(req: HealthRequest, storeReachable: bool)
    ensures Healthz(req, storeReachable).status == 200
        <==> !HasKeys(req.query) && !HasKeys(req.body) && storeReachable
  {
  }
}
