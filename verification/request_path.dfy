/** `parse_request_path`: `/<layer-spec>/<zoom>/<column>/<row>.<ext>` to a request. */
module RequestPath {
  import opened Wrappers
  import opened Text
  import opened Coords

  /** An output format; the registry maps each extension to one of these. */
  datatype Format = Format(extension: string, mimetype: string)

  datatype RequestData = RequestData(layerSpec: string, coord: Coordinate, format: Format)

  /**
   * The five `/`-pieces of the path: the first is dropped unchecked, then
   * the layer spec, zoom, column, and `<row>.<ext>`. `None` when the path
   * is malformed, the extension is not registered, a number does not parse
   * or the coordinate is outside the grid.
   */
  function ParseRequestPath(path: string, formats: map<string, Format>): (r: Option<RequestData>)
    ensures r.Some? ==> CountChar(path, '/') == 4
    ensures r.Some? ==> '/' !in r.value.layerSpec && CoordIsValid(r.value.coord)
    ensures r.Some? ==> r.value.format in formats.Values
    ensures r.Some? ==>
              var parts := Split(path, '/');
              var rowFields := Split(parts[4], '.');
              |rowFields| == 2 && r.value.layerSpec == parts[1] && rowFields[1] in formats && r.value.format == formats[rowFields[1]]
              && ParseInt(parts[2]) == Some(r.value.coord.zoom)
              && ParseInt(parts[3]) == Some(r.value.coord.column)
              && ParseInt(rowFields[0]) == Some(r.value.coord.row)
    ensures var parts := Split(path, '/');
            |parts| == 5 && |Split(parts[4], '.')| == 2 && Split(parts[4], '.')[1] in formats
            && ParseInt(parts[2]).Some? && ParseInt(parts[3]).Some? && ParseInt(Split(parts[4], '.')[0]).Some?
            && CoordIsValid(Coordinate(ParseInt(parts[2]).value, ParseInt(parts[3]).value,
                                       ParseInt(Split(parts[4], '.')[0]).value))
            ==> r == Some(RequestData(parts[1],
                                      Coordinate(ParseInt(parts[2]).value, ParseInt(parts[3]).value,
                                                 ParseInt(Split(parts[4], '.')[0]).value),
                                      formats[Split(parts[4], '.')[1]]))
  {
    var parts := Split(path, '/');
    if |parts| != 5 then None
    else
      var layerSpec := parts[1];
      var rowFields := Split(parts[4], '.');
      if |rowFields| != 2 then None
      else
        var ext := rowFields[1];
        if ext !in formats then None
        else
          var zoom := ParseInt(parts[2]);
          var column := ParseInt(parts[3]);
          var row := ParseInt(rowFields[0]);
          if zoom.None? || column.None? || row.None? then None
          else
            var coord := Coordinate(zoom.value, column.value, row.value);
            if !CoordIsValid(coord) then None
            else Some(RequestData(layerSpec, coord, formats[ext]))
  }

  /** The path a client writes for `rd` when `ext` is the extension of its format. */
  function RequestPathOf(rd: RequestData, ext: string): string
  {
    var c := rd.coord;
    Join(["", rd.layerSpec, ToDecimal(c.zoom), ToDecimal(c.column),
          Join([ToDecimal(c.row), ext], '.')], '/')
  }

  /** Every well-formed request path parses back to exactly the request it was written for. */
  lemma RequestPathRoundTrip(rd: RequestData, ext: string, formats: map<string, Format>)
    requires ext in formats && formats[ext] == rd.format
    requires '/' !in rd.layerSpec && '/' !in ext && '.' !in ext
    requires CoordIsValid(rd.coord)
    ensures ParseRequestPath(RequestPathOf(rd, ext), formats) == Some(rd)
  {
    var c := rd.coord;
    var last := [ToDecimal(c.row), ext];
    SplitJoin(last, '.');
    JoinAvoids(last, '.', '/');
    var parts := ["", rd.layerSpec, ToDecimal(c.zoom), ToDecimal(c.column), Join(last, '.')];
    SplitJoin(parts, '/');
    DecimalRoundTrip(c.zoom);
    DecimalRoundTrip(c.column);
    DecimalRoundTrip(c.row);
  }

  /**
   * The grounds on which a path is refused, one clause per check. Each is a
   * corollary of `ParseRequestPath`'s contract, which states acceptance and
   * refusal together; the lemma lists the refusals case by case.
   */
  lemma ParseRequestPathRejects(path: string, formats: map<string, Format>)
    ensures CountChar(path, '/') != 4 ==> ParseRequestPath(path, formats) == None
    ensures CountChar(path, '/') == 4 && CountChar(Split(path, '/')[4], '.') != 1
            ==> ParseRequestPath(path, formats) == None
    ensures CountChar(path, '/') == 4 && CountChar(Split(path, '/')[4], '.') == 1
            && Split(Split(path, '/')[4], '.')[1] !in formats
            ==> ParseRequestPath(path, formats) == None
    ensures CountChar(path, '/') == 4 && ParseInt(Split(path, '/')[2]).None?
            ==> ParseRequestPath(path, formats) == None
    ensures CountChar(path, '/') == 4 && ParseInt(Split(path, '/')[3]).None?
            ==> ParseRequestPath(path, formats) == None
    ensures CountChar(path, '/') == 4 && CountChar(Split(path, '/')[4], '.') == 1
            && ParseInt(Split(Split(path, '/')[4], '.')[0]).None?
            ==> ParseRequestPath(path, formats) == None
    ensures CountChar(path, '/') == 4 && CountChar(Split(path, '/')[4], '.') == 1
            && ParseInt(Split(path, '/')[2]).Some? && ParseInt(Split(path, '/')[3]).Some?
            && ParseInt(Split(Split(path, '/')[4], '.')[0]).Some?
            && !CoordIsValid(Coordinate(ParseInt(Split(path, '/')[2]).value, ParseInt(Split(path, '/')[3]).value,
                                        ParseInt(Split(Split(path, '/')[4], '.')[0]).value))
            ==> ParseRequestPath(path, formats) == None
  {
  }
}
