/**
 * `TileServer.handle_request` and `__call__`: the decision of what to serve
 * and which background tasks to schedule, given what the collaborators
 * (health checker, store, fetcher and tile processor) answer.
 */
module Server {
  import opened Wrappers
  import opened Coords
  import opened RequestPath
  import opened Layers
  import opened Background

  /** What reading the composite tile of a coordinate from the store gives. */
  datatype CacheLookup = Absent | Found | Undecodable

  /** A background task handed to the worker pool. */
  datatype Task =
    | StoreTask(tile: Payload, coord: Coordinate, format: Format)  // async_store
    | IndexTask(coord: Coordinate)                                 // async_update_tiles_of_interest

  datatype Outcome =
    | HealthCheck
    | NotFound
      /** the cached composite tile of `coord`, pruned to `layers`, formatted as `format` */
    | ServeFromCache(coord: Coordinate, format: Format, layers: seq<LayerDatum>)
      /** the freshly processed tile, and the tasks scheduled after it */
    | Fetch(tile: Payload, format: Format, tasks: seq<Task>)
    | InternalError

  predicate IsHealthCheck(healthUrl: Option<string>, path: string)
  {
    healthUrl.Some? && path == healthUrl.value
  }

  /** Whether a request tries the store before fetching. */
  predicate ReadsStore(rd: RequestData, storeConfigured: bool)
  {
    storeConfigured && rd.layerSpec != "all" && rd.coord.zoom <= 20
  }

  /** Whether a fetched tile is written back to the store. */
  predicate WritesStore(rd: RequestData, storeConfigured: bool)
  {
    storeConfigured && rd.layerSpec == "all" && rd.coord.zoom <= 20
  }

  function ScheduledTasks(tile: Payload, rd: RequestData, storeConfigured: bool, indexConfigured: bool): seq<Task>
  {
    (if WritesStore(rd, storeConfigured) then [StoreTask(tile, rd.coord, rd.format)] else [])
    + (if indexConfigured then [IndexTask(rd.coord)] else [])
  }

  /**
   * The decision `handle_request` takes. `request` is what the path parses
   * to, `layers` what its layer spec resolves to, `cached` what the store
   * holds for the coordinate (consulted only when the store is read) and
   * `processed` the list the fetch-and-process pipeline returns (`None`
   * when a collaborator raises; consulted only when fetching).
   */
  function Decide(healthCheck: bool, request: Option<RequestData>, layers: Option<seq<LayerDatum>>,
                  storeConfigured: bool, indexConfigured: bool,
                  cached: CacheLookup, processed: Option<seq<Payload>>): (o: Outcome)
    ensures o.HealthCheck? <==> healthCheck
    ensures o.NotFound? <==> !healthCheck && (request.None? || layers.None?)
    ensures o.ServeFromCache? <==>
              !healthCheck && request.Some? && layers.Some?
              && ReadsStore(request.value, storeConfigured) && cached.Found?
    ensures o.ServeFromCache? ==>
              o.coord == request.value.coord && o.format == request.value.format && o.layers == layers.value
    ensures o.Fetch? ==> request.Some? && processed == Some([o.tile]) && o.format == request.value.format
    ensures o.Fetch? <==>
              !healthCheck && request.Some? && layers.Some?
              && !(ReadsStore(request.value, storeConfigured) && !cached.Absent?)
              && processed.Some? && |processed.value| == 1
    ensures o.Fetch? ==>
              |o.tasks| == (if WritesStore(request.value, storeConfigured) then 1 else 0) + (if indexConfigured then 1 else 0)
    ensures o.Fetch? ==> forall t :: t in o.tasks ==> t.coord == request.value.coord
    ensures o.Fetch? ==>
              (StoreTask(o.tile, request.value.coord, o.format) in o.tasks <==> WritesStore(request.value, storeConfigured))
    ensures o.Fetch? ==> (IndexTask(request.value.coord) in o.tasks <==> indexConfigured)
    ensures o.InternalError? <==>
              !healthCheck && request.Some? && layers.Some?
              && ((ReadsStore(request.value, storeConfigured) && cached.Undecodable?)
                  || (!(ReadsStore(request.value, storeConfigured) && !cached.Absent?)
                      && (processed.None? || |processed.value| != 1)))
  {
    if healthCheck then HealthCheck
    else if request.None? then NotFound
    else if layers.None? then NotFound
    else
      var rd := request.value;
      if ReadsStore(rd, storeConfigured) && cached.Found? then
        ServeFromCache(rd.coord, rd.format, layers.value)
      else if ReadsStore(rd, storeConfigured) && cached.Undecodable? then
        InternalError
      else if processed.None? || |processed.value| != 1 then
        // a collaborator raised, or the "exactly one tile" assertion failed
        InternalError
      else
        var tile := processed.value[0];
        assert processed.value == [tile];
        Fetch(tile, rd.format, ScheduledTasks(tile, rd, storeConfigured, indexConfigured))
  }

  /** The layers the parsed path's spec resolves to. */
  ghost function ResolvedLayers(path: string, formats: map<string, Format>, cfg: LayerConfig): Option<seq<LayerDatum>>
  {
    match ParseRequestPath(path, formats)
    case None => None
    case Some(rd) => ResolveLayerSpec(rd.layerSpec, cfg)
  }

  /** `handle_request`: health check first, then parse, resolve, and decide. */
  method HandleRequest(path: string, healthUrl: Option<string>, formats: map<string, Format>, cfg: LayerConfig,
                       storeConfigured: bool, indexConfigured: bool,
                       cached: CacheLookup, processed: Option<seq<Payload>>)
    returns (o: Outcome)
    ensures o == Decide(IsHealthCheck(healthUrl, path), ParseRequestPath(path, formats),
                        ResolvedLayers(path, formats, cfg), storeConfigured, indexConfigured, cached, processed)
  {
    if IsHealthCheck(healthUrl, path) {
      return HealthCheck;
    }
    var requestData := ParseRequestPath(path, formats);
    if requestData.None? {
      return NotFound;
    }
    var layerData := ParseLayerSpec(requestData.value.layerSpec, cfg);
    o := Decide(false, requestData, layerData, storeConfigured, indexConfigured, cached, processed);
  }

  /**
   * The store is read only for a request that is not `all`, at zoom 20 or
   * less, with a store configured: otherwise what it holds cannot change the
   * outcome.
   */
  lemma StoreReadOnlyWhenAllowed(healthCheck: bool, rd: RequestData, layers: Option<seq<LayerDatum>>,
                                 storeConfigured: bool, indexConfigured: bool,
                                 cached1: CacheLookup, cached2: CacheLookup, processed: Option<seq<Payload>>)
    requires !ReadsStore(rd, storeConfigured)
    ensures Decide(healthCheck, Some(rd), layers, storeConfigured, indexConfigured, cached1, processed)
         == Decide(healthCheck, Some(rd), layers, storeConfigured, indexConfigured, cached2, processed)
  {
  }

  /**
   * A cache hit does not call the fetcher (what it would return cannot
   * change the outcome) and schedules neither write-back nor indexing.
   */
  lemma CacheHitSkipsFetch(healthCheck: bool, request: Option<RequestData>, layers: Option<seq<LayerDatum>>,
                           storeConfigured: bool, indexConfigured: bool, cached: CacheLookup,
                           processed1: Option<seq<Payload>>, processed2: Option<seq<Payload>>)
    requires Decide(healthCheck, request, layers, storeConfigured, indexConfigured, cached, processed1).ServeFromCache?
    ensures Decide(healthCheck, request, layers, storeConfigured, indexConfigured, cached, processed1)
         == Decide(healthCheck, request, layers, storeConfigured, indexConfigured, cached, processed2)
  {
  }

  /**
   * Only tiles of `all` requests are written back, and those requests never
   * read the store: a fetch that schedules a write-back has the same outcome
   * whatever the store holds, so a tile reconstructed from the cache always
   * comes from a full-layer tile and is never itself cached.
   */
  lemma WriteBackOnlyForFullTiles(healthCheck: bool, rd: RequestData, layers: Option<seq<LayerDatum>>,
                                  storeConfigured: bool, indexConfigured: bool,
                                  cached1: CacheLookup, cached2: CacheLookup, processed: Option<seq<Payload>>)
    requires Decide(healthCheck, Some(rd), layers, storeConfigured, indexConfigured, cached1, processed).Fetch?
    requires var o := Decide(healthCheck, Some(rd), layers, storeConfigured, indexConfigured, cached1, processed);
             StoreTask(o.tile, rd.coord, o.format) in o.tasks
    ensures rd.layerSpec == "all"
    ensures Decide(healthCheck, Some(rd), layers, storeConfigured, indexConfigured, cached1, processed)
         == Decide(healthCheck, Some(rd), layers, storeConfigured, indexConfigured, cached2, processed)
  {
  }

  /** The reply `__call__` sends, or the re-raise when errors propagate. */
  datatype Reply = Reply(status: int, mimetype: string) | Reraised

  /** Whether handling raised: an internal error, or a failed health probe. */
  predicate Failed(o: Outcome, healthProbeOk: bool)
  {
    o.InternalError? || (o.HealthCheck? && !healthProbeOk)
  }

  /**
   * `__call__`: any exception becomes a plain-text 500 unless
   * `propagate_errors` is set; a 404 is plain text; a tile carries its
   * format's mimetype. Conditional GET (a 304) is not modelled.
   */
  function Respond(o: Outcome, healthProbeOk: bool, propagateErrors: bool): (r: Reply)
    ensures r.Reraised? <==> propagateErrors && Failed(o, healthProbeOk)
    ensures r.Reply? && r.status == 500 <==> !propagateErrors && Failed(o, healthProbeOk)
    ensures r.Reply? && r.status == 404 <==> o.NotFound?
    ensures r.Reply? && r.status == 200 <==> !Failed(o, healthProbeOk) && !o.NotFound?
    ensures o.ServeFromCache? || o.Fetch? ==> r == Reply(200, o.format.mimetype)
    ensures r.Reply? && !(o.ServeFromCache? || o.Fetch?) ==> r.mimetype == "text/plain"
  {
    if Failed(o, healthProbeOk) then
      if propagateErrors then Reraised else Reply(500, "text/plain")
    else
      match o
      case NotFound => Reply(404, "text/plain")
      case HealthCheck => Reply(200, "text/plain")
      case ServeFromCache(_, format, _) => Reply(200, format.mimetype)
      case Fetch(_, format, _) => Reply(200, format.mimetype)
  }
}
