# Tile server request resolution, in Dafny

This project models the part of the tile server that decides what to serve
for a request `GET /<layer-spec>/<zoom>/<column>/<row>.<ext>`, before any
database, storage or encoding work is done:

- **coordinates** (`coords.dfy`): `coord_is_valid` and the zoom-18
  container of a tile (`zoomTo(18).container()`);
- **request paths** (`request_path.dfy`, with `text.dfy` for Python's
  `str.split` and `int()`): `parse_request_path`, proved to invert the
  rendering of a request as a path;
- **layer specs** (`layers.dfy`, with `string_order.dfy` for Python's string
  order and `sorted`): the `LayerConfig` registry and `parse_layer_spec`,
  written as the original loops over a set and a sorted list and proved equal
  to a set-based specification;
- **cache re-slicing** (`cached_tile.dfy`): `decode_json_tile_for_layers`
  as its nested loops over an already decoded composite tile;
- **background tasks** (`background.dfy`): the store and the tiles-of-interest
  index as classes, `async_store` and `async_update_tiles_of_interest` as
  methods that update them;
- **dispatch** (`server.dfy`): the decision `handle_request` takes (health
  check, 404, cache reconstruction, fetch with the tasks it schedules, internal
  error) as a pure function. `HandleRequest` composes parsing, resolution and
  that decision. `Respond` maps the outcome to the reply `__call__` sends.

Collaborators are inputs. The health probe's result is a boolean. What the
store holds for a coordinate is a `CacheLookup` (absent, decodable,
undecodable). What the fetch-and-process pipeline returns is a list of
payloads, or `None` when it raises. `store.read_tile` at
`tileserver/__init__.py:177` has no handler around it, so a read that raises
ends in a 500 just as an undecodable payload does: both are the `Undecodable`
lookup. The geometry-to-WKB conversion is a
function parameter. The format registry is a `map` from extension to
`Format`.

Two consequences of the code that its own comments do not spell out:
- The docstring of `async_update_tiles_of_interest`
  (`tileserver/__init__.py:238-244`) gives the policy as caching tiles up to
  zoom 20. The `zoom > 18` test at line 249 is not nested under the
  `zoom <= 20` test at line 247, so a request above zoom 20 still records its
  zoom-18 container. `InterestEntries` and `InterestEntriesByZoom` state this.
- A write-back is keyed by the request's own format, while the cache read uses
  the JSON format. So only `all` requests for JSON feed later reconstructions.
  `TileStore` keys tiles by coordinate and format to keep this visible.

## Model

| member | source | states |
|---|---|---|
| Coords.CoordIsValid | tileserver/__init__.py:24-30 | a coordinate is valid iff zoom >= 0 and 0 <= column, row < 2^zoom |
| Coords.ContainerAt | tileserver/__init__.py:249-250 | the container is at the target zoom, and the tile lies inside the container's 2^(zoom-z) span on both axes |
| Coords.ContainerIsValid | tileserver/__init__.py:249-250 | the container of a valid tile is a valid tile |
| Text.Split | tileserver/__init__.py:38-45 | `split` gives one piece more than there are separators, and no piece holds the separator |
| Text.JoinSplit | tileserver/__init__.py:38 | joining the pieces of a split gives back the string |
| Text.SplitJoin | tileserver/__init__.py:38-45 | splitting a join of separator-free pieces gives back the pieces |
| Text.DecimalRoundTrip | tileserver/__init__.py:49-54 | `int()` parses the decimal rendering of every integer back to that integer |
| RequestPath.ParseRequestPath | tileserver/__init__.py:36-59 | a parsed path has exactly four slashes and a last piece with exactly one `.`; its layer spec is the second piece (slash-free), its format is the one registered for the extension, its zoom, column and row are what `int()` makes of their pieces, and the coordinate is valid; conversely a path passing every check (numerals in any form `int()` accepts) parses to exactly (second piece, coordinate, registered format) |
| RequestPath.RequestPathRoundTrip | tileserver/__init__.py:36-59 | `/spec/z/x/y.ext` parses back to exactly (spec, coordinate, format) when spec has no `/`, ext is registered and has no `/` or `.`, and the coordinate is valid |
| RequestPath.ParseRequestPathRejects | tileserver/__init__.py:38-54 | a wrong number of `/`, a last piece without exactly one `.`, an unknown extension, an unparsable zoom, column or row, or numbers that parse to an off-grid coordinate each yield `None` |
| StringOrder.SortNames | tileserver/__init__.py:261 | `sorted` of a list is ordered and a permutation of its input |
| StringOrder.SortedNames | tileserver/__init__.py:77 | `sorted` of a set is strictly ascending and holds exactly the set's elements |
| StringOrder.StrictlySortedUnique | tileserver/__init__.py:77 | a set has exactly one strictly ascending enumeration, so the sorted names depend only on the set |
| Layers.IndexByName | tileserver/__init__.py:263-264 | the index's keys are exactly the data's names, and each maps to a datum of that name |
| Layers.IndexByNameLastWins | tileserver/__init__.py:263-264 | a name maps to the last datum carrying it |
| Layers.MakeLayerConfig | tileserver/__init__.py:260-266 | construction succeeds iff every listed name has a datum; the names are sorted (a permutation of the input), and `all_layers` holds each name's datum in that order |
| Layers.ParseLayerSpec | tileserver/__init__.py:62-86 | the loops compute exactly the set-based resolution `ResolveLayerSpec` |
| Layers.ResolveAllIsAllLayers | tileserver/__init__.py:67-68 | `all` resolves to `all_layers`, whose names are `all_layer_names` in ascending order |
| Layers.ResolvedLayersSorted | tileserver/__init__.py:69-86 | any other spec resolves to layers in strictly ascending name order, named by exactly the tokens plus, if `all` is a token, every layer, minus `all` |
| Layers.AllTokenCoversRegistry | tileserver/__init__.py:72-76 | an `all` token brings in every registered layer name |
| Layers.ResolveRejectsUnknown | tileserver/__init__.py:79-84 | one unknown token other than `all` makes the whole result `None`, even next to `all` |
| Layers.ResolveIgnoresTokenOrder | tileserver/__init__.py:69-77 | two specs with the same set of tokens resolve alike, whatever the order and repetition |
| CachedTile.KeptLayersExact | tileserver/__init__.py:90-95 | a cached layer is kept iff its name is among the requested layers' names |
| CachedTile.DecodeTileForLayers | tileserver/__init__.py:89-111 | the output is the kept layers in cached order, each with every feature converted to WKB, its properties kept and its id `None` |
| CachedTile.PrunedTileProperties | tileserver/__init__.py:89-111 | the output holds only requested layers, every requested cached layer with as many features as cached, and no feature id |
| Background.TileStore.WriteTile | tileserver/__init__.py:227 | a write replaces the tile stored under (coordinate, format) and nothing else |
| Background.AsyncStore | tileserver/__init__.py:224-231 | one write when the store accepts it; a failing write is swallowed and leaves the store unchanged |
| Background.TilesOfInterest.IndexCoord | tileserver/__init__.py:248 | indexing appends the coordinate and changes nothing else |
| Background.AsyncUpdateTilesOfInterest | tileserver/__init__.py:234-255 | appends the tile (zoom <= 20) and then its zoom-18 container (zoom > 18), stopping at the first failing write, and changes nothing else |
| Background.InterestEntriesByZoom | tileserver/__init__.py:246-251 | zoom <= 18 records the tile alone; zooms 19-20 record the tile and its zoom-18 container; above 20 only the container |
| Background.InterestEntriesCover | tileserver/__init__.py:246-251 | a valid tile up to zoom 20 is recorded itself; above 18 its container is recorded; everything recorded is a valid tile no deeper than the request |
| Server.Decide | tileserver/__init__.py:156-221 | a health check iff the path is the health URL; 404 iff the path does not parse or its spec does not resolve; cache reconstruction iff store configured, spec not `all`, zoom <= 20 and the tile present; an undecodable cache entry or a pipeline that raises or returns other than one tile is an internal error; a fetch iff the store is not read or misses, and the pipeline returns exactly one tile; a fetch schedules one write-back task iff store, `all` and zoom <= 20, one indexing task iff an index is configured, and nothing else |
| Server.HandleRequest | tileserver/__init__.py:156-167 | parses and resolves only after the health check, and decides as `Decide` on the parsed request and resolved layers |
| Server.StoreReadOnlyWhenAllowed | tileserver/__init__.py:172-178 | without a store, for an `all` spec, or above zoom 20, the store's contents cannot change the outcome |
| Server.CacheHitSkipsFetch | tileserver/__init__.py:178-194 | on a cache hit the fetcher's answer cannot change the outcome, and no task is scheduled |
| Server.WriteBackOnlyForFullTiles | tileserver/__init__.py:172-213 | a fetch that schedules a write-back is for an `all` spec, and its outcome is the same whatever the store holds |
| Server.Respond | tileserver/__init__.py:130-145 | a failure (internal error, failed health probe) is re-raised with `propagate_errors` and otherwise a plain-text 500; a 404 stays a 404; a tile is a 200 with its format's mimetype; every other reply (500, 404, health check) is `text/plain` |

## Left out

- WSGI request and response objects, the ETag and conditional GET (304) of `create_response`: the reply is reduced to a status and a mimetype.
- JSON decoding of the cached tile and shapely's `shape`: the tile arrives decoded. A payload is the `Undecodable` cache lookup, which dispatch treats as an internal error, when it does not decode, is not an object of layers, has a requested layer that lacks `features`, or has a feature of a requested layer that lacks `geometry` or `properties` or holds a geometry shapely rejects. Layers that were not requested are never inspected (the `continue` at `tileserver/__init__.py:94-95` comes before the lookups), so their contents never make a payload `Undecodable`.
- The shapely geometry-to-WKB conversion: the function parameter `toWkb`.
- The Mercator and WGS84 bounds of a cache reconstruction and the call to `format.format_tile`: floating-point projection and encoding; `ServeFromCache` names the coordinate, format and layers they are applied to, and the encoder is taken not to raise.
- `DataFetcher`, `process_coord` and the padded/unpadded bounds: the pipeline is reduced to the list of tiles it returns, or `None` when it raises.
- The thread pool: tasks are returned as a list; their concurrency, order and interleaving are not modelled.
- `HealthChecker.__call__` (database connection, random database choice): its result is the boolean `healthProbeOk`; `is_health_check` is path equality.
- `make_store`, `create_tileserver_from_config`, `wsgi_server` and the `__main__` block: configuration and client construction.
- Python's `dict` iteration order in `decode_json_tile_for_layers`: the decoded tile is a sequence in the order the dictionary yields its layers.
- Text.ParseInt: simplified Python 2.7 `int()` of the unicode path text. It skips the white space unicode `int()` skips around the numeral (including `\x1c`-`\x1f`, the no-break space and the other unicode spaces), then accepts one sign and ASCII digits only. It does not convert non-ASCII decimal digits (such as Arabic-Indic digits) to their values, and it does not skip white space between the sign and the digits; both make `int()` succeed where the model gives `None`.
- Coords.ContainerAt: uses exact integer division. ModestMaps converts the column and row to floats, scales by a power of two and takes the floor. The two agree up to zoom 53, where every column and row is exactly representable. Above zoom 53 the float conversion can round up: at zoom 72, column 2^72-1 gives container column 262144, outside the zoom-18 grid, where the model gives 262143. At zooms deep enough that the conversion overflows, the `OverflowError` is swallowed by lines 252-255 and nothing further is recorded. `coord_is_valid` does not exclude such zooms, so `Background.InterestEntriesCover`'s "everything recorded is a valid tile" holds for the model, and for the source only up to zoom 53.
- Background.AsyncUpdateTilesOfInterest: the index's failure is the count `acceptedWrites` of calls that succeed before one raises; what the failure is, and its logging, are not modelled.
- Layers.MakeLayerConfig: the `KeyError` that aborts startup when a listed name has no datum is the result `None`.
- Background.InterestEntriesCover: "everything recorded is a valid tile" rests on the exact `Coords.ContainerAt`; for the float computation of the source it holds only up to zoom 53 (see the `Coords.ContainerAt` line above).
