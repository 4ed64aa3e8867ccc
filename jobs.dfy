/**
 * The `optimizations` job table of the optimization backend and its four
 * HTTP handlers: `optimize` starts a job, the worker completes it, and the
 * status, results and save handlers look it up.
 */
module Jobs {
  import opened Wrappers
  import opened Grid
  import opened Paths

  /** An entry of the job table. */
  datatype Job =
    | Running(params: Params)
    | Completed(params: Params, results: seq<Row>, best: Row)
  {
    /** The entry's `"status"` field. */
    function Status(): (s: string)
      ensures s == "running" || s == "completed"
      ensures s == "completed" <==> Completed?
    {
      if Running? then "running" else "completed"
    }
  }

  /** The JSON body of a handler's response. */
  datatype Body =
    | OptimizationId(id: string)
    | StatusBody(status: string)
    | ErrorBody(error: string)
    | ResultsBody(results: seq<Row>, best: Row)
    | SavedBody(mdPath: string, htmlPath: string)
    | InternalServerError   // Flask's reply to an uncaught exception

  /** An HTTP status code with its body. */
  datatype Response = Response(code: int, body: Body)

  /** The JSON body of a `save_results` request; `None` is an absent key. */
  datatype SaveRequest = SaveRequest(optimizationId: Option<string>, eaName: Option<string>, format: Option<string>)

  /** The reply of `save_results` and the report files it writes, in order. */
  datatype SaveOutcome = SaveOutcome(response: Response, written: seq<string>)

  /** `data.get("ea_name", "EA")`. */
  function EaName(data: SaveRequest): (name: string)
    ensures data.eaName.None? ==> name == "EA"
    ensures data.eaName.Some? ==> name == data.eaName.value
  {
    if data.eaName.Some? then data.eaName.value else "EA"
  }

  /** The optional extra report chosen by `format`: only "csv" and "json" produce one. */
  function ExtraReports(eaName: string, format: Option<string>): (extra: seq<string>)
    ensures |extra| <= 1
    ensures TuningPath(eaName, "csv") in extra <==> format == Some("csv")
    ensures TuningPath(eaName, "json") in extra <==> format == Some("json")
    ensures extra == [] <==> format != Some("csv") && format != Some("json")
  {
    TuningPathsDistinct(eaName);
    (if format == Some("csv") then [TuningPath(eaName, "csv")] else [])
    + (if format == Some("json") then [TuningPath(eaName, "json")] else [])
  }

  /**
   * The report files a successful `save_results` writes, in order: the
   * markdown report, the HTML report, then the extra one `format` asks for.
   */
  function Reports(eaName: string, format: Option<string>): (written: seq<string>)
    ensures 2 <= |written| <= 3
    ensures written[0] == TuningPath(eaName, "md") && written[1] == TuningPath(eaName, "html")
    ensures TuningPath(eaName, "csv") in written <==> format == Some("csv")
    ensures TuningPath(eaName, "json") in written <==> format == Some("json")
    ensures |written| == 3 <==> format == Some("csv") || format == Some("json")
    ensures |written| == 3 ==> written[2] != written[0] && written[2] != written[1]
    ensures written[0] != written[1]
  {
    TuningPathsDistinct(eaName);
    [TuningPath(eaName, "md"), TuningPath(eaName, "html")] + ExtraReports(eaName, format)
  }

  /** The module-level `optimizations` dictionary, keyed by job id. */
  class OptimizationTable {
    var jobs: map<string, Job>

    constructor ()
      ensures jobs == map[]
    {
      jobs := map[];
    }

    /** True when the id names a job whose status is "completed". */
    predicate Ready(id: string)
      reads this
      ensures Ready(id) <==> id in jobs && jobs[id].Completed?
    {
      id in jobs && jobs[id].Status() == "completed"
    }

    /**
     * `optimize`: registers a running job under a fresh id (the uuid the
     * source draws) and replies with that id.
     */
    method Optimize(freshId: string, params: Params) returns (r: Response)
      requires freshId !in jobs
      modifies this
      ensures jobs == old(jobs)[freshId := Running(params)]
      ensures |jobs| == |old(jobs)| + 1
      ensures r == Response(200, OptimizationId(freshId))
      ensures OptimizationStatus(freshId) == Response(200, StatusBody("running"))
      ensures !Ready(freshId)
      ensures forall id :: id != freshId ==> OptimizationStatus(id) == old(OptimizationStatus(id))
    {
      jobs := jobs[freshId := Running(params)];
      r := Response(200, OptimizationId(freshId));
    }

    /** The worker's final write: the job under id becomes completed. */
    method Complete(id: string, params: Params, results: seq<Row>, best: Row)
      modifies this
      ensures jobs == old(jobs)[id := Completed(params, results, best)]
      ensures Ready(id)
      ensures OptimizationResults(id) == Response(200, ResultsBody(results, best))
    {
      jobs := jobs[id := Completed(params, results, best)];
    }

    /**
     * `run_mt5_optimization`: simulates the grid and, unless that raises,
     * records the rows and the best row under id. On an exception the
     * thread dies and the table is unchanged, so a job left by `optimize`
     * stays "running".
     */
    method RunOptimization(id: string, params: Params) returns (outcome: Result<Outcome, Failure>)
      modifies this
      ensures outcome == Optimization(params)
      ensures outcome.Ok? ==>
        jobs == old(jobs)[id := Completed(params, outcome.value.results, outcome.value.best)]
      ensures outcome.Err? ==> jobs == old(jobs)
    {
      var rows := SimulateResults(params);
      if rows.Err? {
        return Err(rows.error);
      }
      var best := BestRow(rows.value);
      if best.Err? {
        return Err(best.error);
      }
      Complete(id, params, rows.value, best.value);
      return Ok(Outcome(rows.value, best.value));
    }

    /**
     * `optimize` with its worker thread run to the end before the next
     * request: the new job ends "completed" when the simulation succeeds
     * and stays "running" when it raises.
     */
    method OptimizeAndRun(freshId: string, params: Params) returns (r: Response)
      requires freshId !in jobs
      modifies this
      ensures r == Response(200, OptimizationId(freshId))
      ensures freshId in jobs && jobs.Keys == old(jobs).Keys + {freshId}
      ensures forall id :: id in old(jobs) ==> id in jobs && jobs[id] == old(jobs)[id]
      ensures Optimization(params).Ok? ==>
        && OptimizationStatus(freshId) == Response(200, StatusBody("completed"))
        && OptimizationResults(freshId)
           == Response(200, ResultsBody(Optimization(params).value.results, Optimization(params).value.best))
      ensures Optimization(params).Err? ==>
        && OptimizationStatus(freshId) == Response(200, StatusBody("running"))
        && OptimizationResults(freshId) == Response(400, ErrorBody("not ready"))
    {
      r := Optimize(freshId, params);
      var _ := RunOptimization(freshId, params);
    }

    /** `optimization_status`: 404 for an unknown id, else the stored status. */
    function OptimizationStatus(id: string): (r: Response)
      reads this
      ensures r.code == 404 <==> id !in jobs
      ensures id !in jobs ==> r.body == StatusBody("not_found")
      ensures id in jobs ==> r.code == 200 && r.body == StatusBody(jobs[id].Status())
    {
      if id !in jobs then Response(404, StatusBody("not_found"))
      else Response(200, StatusBody(jobs[id].Status()))
    }

    /**
     * `optimization_results`: 400 "not ready" unless the job is completed,
     * else exactly the stored results and best row.
     */
    function OptimizationResults(id: string): (r: Response)
      reads this
      ensures r.code == 400 <==> !Ready(id)
      ensures !Ready(id) ==> r.body == ErrorBody("not ready")
      ensures Ready(id) ==> r.code == 200 && r.body == ResultsBody(jobs[id].results, jobs[id].best)
    {
      if !Ready(id) then Response(400, ErrorBody("not ready"))
      else Response(200, ResultsBody(jobs[id].results, jobs[id].best))
    }

    /**
     * `save_results` without the file contents: a request without an id
     * raises (a 500 reply), one for a job that is not completed gets 400
     * "not ready", and otherwise the markdown and HTML reports are written,
     * then a CSV or JSON one when `format` asks for it.
     */
    function SaveResults(data: SaveRequest): (o: SaveOutcome)
      reads this
      ensures data.optimizationId.None? ==> o == SaveOutcome(Response(500, InternalServerError), [])
      ensures data.optimizationId.Some? && !Ready(data.optimizationId.value) ==>
        o == SaveOutcome(Response(400, ErrorBody("not ready")), [])
      ensures o.written != [] <==> data.optimizationId.Some? && Ready(data.optimizationId.value)
      ensures o.written != [] ==>
        && o.response == Response(200, SavedBody(TuningPath(EaName(data), "md"), TuningPath(EaName(data), "html")))
        && o.written == Reports(EaName(data), data.format)
    {
      if data.optimizationId.None? then SaveOutcome(Response(500, InternalServerError), [])
      else
        var id := data.optimizationId.value;
        var eaName := EaName(data);
        if !Ready(id) then
          SaveOutcome(Response(400, ErrorBody("not ready")), [])
        else
          SaveOutcome(Response(200, SavedBody(TuningPath(eaName, "md"), TuningPath(eaName, "html"))),
                      Reports(eaName, data.format))
    }
  }
}
