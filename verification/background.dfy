/**
 * The two background tasks a fetch schedules: writing the tile to the
 * store (`async_store`) and recording interest in the tile
 * (`async_update_tiles_of_interest`). Both swallow their collaborator's
 * failures; here a failure is an input saying how far the collaborator got.
 */
module Background {
  import opened Wrappers
  import opened Coords
  import opened RequestPath

  type Payload = seq<bv8>

  datatype StoreKey = StoreKey(coord: Coordinate, format: Format)

  /** The persistent tile store, keyed by coordinate and format. */
  class TileStore {
    var tiles: map<StoreKey, Payload>

    constructor ()
      ensures tiles == map[]
    {
      tiles := map[];
    }

    function ReadTile(coord: Coordinate, format: Format): Option<Payload>
      reads this
    {
      var key := StoreKey(coord, format);
      if key in tiles then Some(tiles[key]) else None
    }

    /** Overwrites the stored tile wholesale: the last writer wins. */
    method WriteTile(tile: Payload, coord: Coordinate, format: Format)
      modifies this
      ensures tiles == old(tiles)[StoreKey(coord, format) := tile]
    {
      tiles := tiles[StoreKey(coord, format) := tile];
    }
  }

  /**
   * `async_store`: one write; when the store fails (`writeSucceeds` false)
   * the error is logged and the store is left as it was.
   */
  method AsyncStore(store: TileStore, tile: Payload, coord: Coordinate, format: Format, writeSucceeds: bool)
    modifies store
    ensures store.tiles == if writeSucceeds then old(store.tiles)[StoreKey(coord, format) := tile]
                           else old(store.tiles)
    ensures writeSucceeds ==> store.ReadTile(coord, format) == Some(tile)
  {
    if writeSucceeds {
      store.WriteTile(tile, coord, format);
    }
  }

  /** The tiles-of-interest index: coordinates in the order they were recorded. */
  class TilesOfInterest {
    var entries: seq<Coordinate>

    constructor ()
      ensures entries == []
    {
      entries := [];
    }

    method IndexCoord(coord: Coordinate)
      modifies this
      ensures entries == old(entries) + [coord]
    {
      entries := entries + [coord];
    }
  }

  /**
   * The coordinates `async_update_tiles_of_interest` records for `coord`:
   * the tile itself up to zoom 20, then its zoom-18 container above zoom 18.
   * The second test is not nested in the first, so a tile above zoom 20
   * still records its container.
   */
  function InterestEntries(coord: Coordinate): seq<Coordinate>
  {
    (if coord.zoom <= 20 then [coord] else [])
    + (if coord.zoom > 18 then [ContainerAt(coord, 18)] else [])
  }

  /**
   * `async_update_tiles_of_interest`. The index accepts `acceptedWrites`
   * calls and then raises; the exception ends the task (it is logged and
   * swallowed), so the calls after it are not made.
   */
  method AsyncUpdateTilesOfInterest(index: TilesOfInterest, coord: Coordinate, acceptedWrites: nat)
    modifies index
    ensures var recorded := InterestEntries(coord);
      index.entries == old(index.entries)
        + recorded[..if acceptedWrites < |recorded| then acceptedWrites else |recorded|]
  {
    ghost var before := index.entries;
    var accepted := acceptedWrites;
    if coord.zoom <= 20 {
      if accepted == 0 {
        return;
      }
      index.IndexCoord(coord);
      accepted := accepted - 1;
    }
    if coord.zoom > 18 {
      var coordAtZ18 := ContainerAt(coord, 18);
      if accepted == 0 {
        return;
      }
      index.IndexCoord(coordAtZ18);
    }
  }

  /**
   * How many entries a request records by zoom: one up to zoom 18, the tile
   * and its zoom-18 container at zooms 19 and 20, only the container above.
   */
  lemma InterestEntriesByZoom(coord: Coordinate)
    ensures coord.zoom <= 18 ==> InterestEntries(coord) == [coord]
    ensures 18 < coord.zoom <= 20 ==> InterestEntries(coord) == [coord, ContainerAt(coord, 18)]
    ensures coord.zoom > 20 ==> InterestEntries(coord) == [ContainerAt(coord, 18)]
  {
  }

  /**
   * Every valid tile up to zoom 20 is represented in what it records, and
   * everything it records is a valid tile no deeper than itself.
   */
  lemma InterestEntriesCover(coord: Coordinate)
    requires CoordIsValid(coord)
    ensures coord.zoom <= 20 ==> coord in InterestEntries(coord)
    ensures coord.zoom > 18 ==> ContainerAt(coord, 18) in InterestEntries(coord)
    ensures forall e :: e in InterestEntries(coord) ==> CoordIsValid(e) && e.zoom <= coord.zoom
  {
    if coord.zoom > 18 {
      ContainerIsValid(coord, 18);
    }
  }
}
