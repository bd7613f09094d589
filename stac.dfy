/**
 * STAC records for the land-cover dataset: the values `create_item` and
 * `create_collection` derive from the metadata, and the pystac objects they
 * build step by step.
 */
module Stac {
  import opened Json
  import opened Io
  import opened Strings
  import Constants
  import Utils

  /** A position of the exterior ring; only the two horizontal coordinates matter. */
  datatype Point = Point(x: real, y: real)

  /** `json.loads(metadata["geojson_geom"]["@value"])`: geometry type and rings of positions. */
  datatype Geometry = Geometry(kind: string, coordinates: seq<seq<Point>>)

  /** `(minx, miny, maxx, maxy)` */
  datatype BBox = BBox(minX: real, minY: real, maxX: real, maxY: real)

  predicate Within(p: Point, b: BBox) {
    b.minX <= p.x <= b.maxX && b.minY <= p.y <= b.maxY
  }

  function Min(a: real, b: real): real { if a <= b then a else b }
  function Max(a: real, b: real): real { if a >= b then a else b }

  /** The smallest box holding every position of `ring`: shapely's `bounds`. */
  function Bounds(ring: seq<Point>): (b: BBox)
    requires |ring| > 0
    ensures b.minX <= b.maxX && b.minY <= b.maxY
    ensures forall i :: 0 <= i < |ring| ==> Within(ring[i], b)
    ensures exists i :: 0 <= i < |ring| && ring[i].x == b.minX
    ensures exists i :: 0 <= i < |ring| && ring[i].y == b.minY
    ensures exists i :: 0 <= i < |ring| && ring[i].x == b.maxX
    ensures exists i :: 0 <= i < |ring| && ring[i].y == b.maxY
  {
    var p := ring[0];
    if |ring| == 1 then BBox(p.x, p.y, p.x, p.y)
    else
      var rest := Bounds(ring[1..]);
      assert forall i :: 1 <= i < |ring| ==> ring[i] == ring[1..][i - 1];
      BBox(Min(p.x, rest.minX), Min(p.y, rest.minY), Max(p.x, rest.maxX), Max(p.y, rest.maxY))
  }

  /**
   * `Polygon(geometry.get("coordinates")[0]).bounds`: the first ring is the
   * exterior; no ring raises IndexError, and shapely refuses a ring that is
   * not a linear ring. The empty ring is refused here too, although shapely
   * would build an empty polygon, whose bounds have no numbers.
   */
  function ExteriorBounds(g: Geometry): (r: Result<BBox>)
    ensures r.Ok? <==> |g.coordinates| > 0 &&
                       (|g.coordinates[0]| >= 4 || (|g.coordinates[0]| == 3 && g.coordinates[0][0] != g.coordinates[0][2]))
    ensures r.Ok? ==> r.value == Bounds(g.coordinates[0])
  {
    if |g.coordinates| == 0 then Err(Malformed("coordinates"))
    else if !ClosesToLinearRing(g.coordinates[0]) then Err(BadGeometry)
    else Ok(Bounds(g.coordinates[0]))
  }

  /**
   * shapely closes an open ring by repeating its first position, and a linear
   * ring needs at least four positions once closed.
   */
  predicate ClosesToLinearRing(ring: seq<Point>) {
    |ring| > 0 && |ring| + (if ring[0] == ring[|ring| - 1] then 0 else 1) >= 4
  }

  /** `metadata.get("tiff_metadata").get("dct:title")`, which must be a string to be split. */
  function Title(md: Utils.Metadata): (r: Result<string>)
    ensures r.Ok? <==> Get(md.tiffMetadata, "dct:title").JStr?
    ensures r.Ok? ==> Get(md.tiffMetadata, "dct:title") == JStr(r.value)
  {
    match Get(md.tiffMetadata, "dct:title")
    case JStr(t) => Ok(t)
    case _ => Err(Malformed("dct:title"))
  }

  /** `metadata.get("description_metadata").get("dct:description")`: any value, `None` when absent. */
  function Description(md: Utils.Metadata): Json {
    Get(md.descriptionMetadata, "dct:description")
  }

  /**
   * `datetime.strptime(title.split(" ")[0], "%Y")`: the first token must be
   * exactly four digits, and year 0 is outside the datetime range.
   */
  function DatasetYear(title: string): (r: Result<int>)
    ensures r.Ok? <==> (var token := FirstToken(title, ' ');
                        |token| == 4 && AllDigits(token) && DigitsValue(token) >= 1)
    ensures r.Ok? ==> 1 <= r.value <= 9999 && r.value == DigitsValue(FirstToken(title, ' '))
  {
    var token := FirstToken(title, ' ');
    if |token| == 4 && AllDigits(token) && DigitsValue(token) >= 1 then
      assert DigitsValue(token) <= 9999 by { FourDigitsBound(token); }
      Ok(DigitsValue(token))
    else Err(BadYear(token))
  }

  lemma FourDigitsBound(s: string)
    requires |s| == 4 && AllDigits(s)
    ensures DigitsValue(s) <= 9999
  {
    assert s[..1][..0] == [];
    assert DigitsValue(s[..1]) <= 9;
    assert s[..2][..1] == s[..1];
    assert DigitsValue(s[..2]) <= 99;
    assert s[..3][..2] == s[..2];
    assert DigitsValue(s[..3]) <= 999;
    assert s[..3] == s[..|s| - 1];
  }

  /** `dataset_datetime + relativedelta(years=5)`: five years on, within the datetime range. */
  function EndYear(start: int): (r: Result<int>)
    ensures r.Ok? <==> start + 5 <= 9999
    ensures r.Ok? ==> r.value == start + 5
  {
    if start + 5 <= 9999 then Ok(start + 5) else Err(YearOutOfRange(start + 5))
  }

  /** `title.replace(" ", "-")` */
  function ItemId(title: string): (id: string)
    ensures |id| == |title|
    ensures ' ' !in id
    ensures forall i :: 0 <= i < |title| && title[i] != ' ' ==> id[i] == title[i]
    ensures forall i :: 0 <= i < |title| && title[i] == ' ' ==> id[i] == '-'
  {
    ReplaceChar(title, ' ', '-')
  }

  /** What the item and the collection derive alike from the metadata and its parsed geometry. */
  datatype Dataset = Dataset(title: string, start: int, end: int, bbox: BBox)

  /**
   * The title, the year range `[Jan 1 of Y, Jan 1 of Y+5]` (as years) and the
   * bounding box, failing where the source raises, in the order it computes them.
   */
  function DatasetOf(md: Utils.Metadata, geometry: Geometry): (r: Result<Dataset>)
    ensures r.Ok? <==> Title(md).Ok? && DatasetYear(Title(md).value).Ok?
                       && EndYear(DatasetYear(Title(md).value).value).Ok? && ExteriorBounds(geometry).Ok?
    ensures r.Ok? ==> Title(md) == Ok(r.value.title) && DatasetYear(r.value.title) == Ok(r.value.start)
    ensures r.Ok? ==> r.value.end == r.value.start + 5 && 1 <= r.value.start <= 9994
    ensures r.Ok? ==> ExteriorBounds(geometry) == Ok(r.value.bbox)
  {
    var title :- Title(md);
    var start :- DatasetYear(title);
    var end :- EndYear(start);
    var bbox :- ExteriorBounds(geometry);
    Ok(Dataset(title, start, end, bbox))
  }

  /** A title starting with a four-digit year gives that year back. */
  lemma YearRoundTrip(year: nat, rest: string)
    requires 1000 <= year <= 9999
    ensures DatasetYear(NatToString(year) + " " + rest) == Ok(year)
  {
    var token := NatToString(year);
    FirstTokenBeforeSeparator(token, ' ', rest);
    assert token + " " + rest == token + [' '] + rest;
    NatToStringRoundTrip(year);
    NatToStringLength(year);
  }

  /** The bounding box of the exterior ring contains all of it and is ordered on both axes. */
  lemma BoundsContainRing(g: Geometry)
    requires ExteriorBounds(g).Ok?
    ensures var b := ExteriorBounds(g).value;
            b.minX <= b.maxX && b.minY <= b.maxY && forall p :: p in g.coordinates[0] ==> Within(p, b)
  {
    var ring := g.coordinates[0];
    forall p | p in ring ensures Within(p, ExteriorBounds(g).value) {
      var i :| 0 <= i < |ring| && ring[i] == p;
    }
  }

  const PublishedTitle: string := "2015 Land Cover of Canada"

  lemma Value2015()
    ensures AllDigits("2015") && DigitsValue("2015") == 2015
  {
    assert "2"[..0] == [];
    assert DigitsValue("2") == 2;
    assert "20"[..1] == "2";
    assert DigitsValue("20") == 20;
    assert "201"[..2] == "20";
    assert DigitsValue("201") == 201;
    assert "2015"[..3] == "201";
  }

  lemma PublishedTitleParts()
    ensures PublishedTitle == "2015" + [' '] + "Land Cover of Canada"
  {
  }

  /** The published title gives the published years, 2015 to 2020. */
  lemma PublishedYears()
    ensures DatasetYear(PublishedTitle) == Ok(2015)
    ensures EndYear(2015) == Ok(2020)
  {
    PublishedTitleParts();
    FirstTokenBeforeSeparator("2015", ' ', "Land Cover of Canada");
    Value2015();
  }

  /** A STAC asset. */
  datatype Asset = Asset(href: string, mediaType: string, roles: seq<string>, title: string)

  const JsonMediaType: string := "application/json"
  const CogMediaType: string := "image/tiff; application=geotiff; profile=cloud-optimized"
  const ProjectionExtension: string := "projection"

  const MetadataAssetTitle: string := "Land cover of Canada metadata"
  const CogAssetTitle: string := "Land cover of Canada COGs"

  /** A `pystac.Item` as `create_item` fills it in; dates are years, meaning Jan 1, 00:00 UTC. */
  class Item {
    var id: string
    var geometry: Geometry
    var bbox: BBox
    var datetime: int
    var properties: map<string, Json>
    var stacExtensions: seq<string>
    var startDatetime: Option<int>
    var endDatetime: Option<int>
    var projEpsg: Option<int>
    var assets: map<string, Asset>

    constructor (id: string, geometry: Geometry, bbox: BBox, datetime: int, properties: map<string, Json>)
      ensures this.id == id && this.geometry == geometry && this.bbox == bbox
      ensures this.datetime == datetime && this.properties == properties
      ensures stacExtensions == [] && startDatetime == None && endDatetime == None
      ensures projEpsg == None && assets == map[]
    {
      this.id := id;
      this.geometry := geometry;
      this.bbox := bbox;
      this.datetime := datetime;
      this.properties := properties;
      stacExtensions := [];
      startDatetime := None;
      endDatetime := None;
      projEpsg := None;
      assets := map[];
    }

    /** `item.common_metadata.start_datetime = ...; ... end_datetime = ...` */
    method SetTimeRange(start: int, end: int)
      modifies this`startDatetime, this`endDatetime
      ensures startDatetime == Some(start) && endDatetime == Some(end)
    {
      startDatetime := Some(start);
      endDatetime := Some(end);
    }

    /** `item.ext.enable(name)`: listed once, in the order enabled. */
    method EnableExtension(name: string)
      modifies this`stacExtensions
      ensures stacExtensions == if name in old(stacExtensions) then old(stacExtensions) else old(stacExtensions) + [name]
    {
      if name !in stacExtensions {
        stacExtensions := stacExtensions + [name];
      }
    }

    /** `item.ext.projection.epsg = code`; the extension must be enabled first. */
    method SetProjectionEpsg(code: int)
      requires ProjectionExtension in stacExtensions
      modifies this`projEpsg
      ensures projEpsg == Some(code)
    {
      projEpsg := Some(code);
    }

    /** `item.add_asset(key, asset)`: a later asset under the same key replaces the earlier one. */
    method AddAsset(key: string, asset: Asset)
      modifies this`assets
      ensures assets == old(assets)[key := asset]
    {
      assets := assets[key := asset];
    }
  }

  /** The assets of the item: metadata always, the COG exactly when one is given. */
  ghost predicate HasItemAssets(it: Item, metadataUrl: string, cogHref: Option<string>)
    reads it
  {
    && it.assets.Keys == (if cogHref.Some? then {"metadata", "landcover"} else {"metadata"})
    && it.assets["metadata"] == Asset(metadataUrl, JsonMediaType, ["metadata"], MetadataAssetTitle)
    && (cogHref.Some? ==> it.assets["landcover"] == Asset(cogHref.value, CogMediaType, ["data"], CogAssetTitle))
  }

  /** The fields `create_item` derives from the dataset, with the projection extension set to EPSG:3978. */
  ghost predicate DescribesDataset(it: Item, d: Dataset, description: Json, geometry: Geometry)
    reads it
  {
    && it.id == ItemId(d.title)
    && it.geometry == geometry && it.bbox == d.bbox
    && it.datetime == d.start
    && it.startDatetime == Some(d.start) && it.endDatetime == Some(d.end)
    && it.properties == map["title" := JStr(d.title), "description" := description]
    && it.stacExtensions == [ProjectionExtension]
    && it.projEpsg == Some(Constants.LandcoverEpsg)
  }

  /** `create_item(metadata, metadata_url, cog_href)` */
  method CreateItem(md: Utils.Metadata, metadataUrl: string, cogHref: Option<string>, geometry: Geometry)
    returns (r: Result<Item>)
    ensures r.Err? <==> DatasetOf(md, geometry).Err?
    ensures r.Err? ==> r.error == DatasetOf(md, geometry).error
    ensures r.Ok? ==> fresh(r.value) && DescribesDataset(r.value, DatasetOf(md, geometry).value, Description(md), geometry)
    ensures r.Ok? ==> HasItemAssets(r.value, metadataUrl, cogHref)
  {
    var d :- DatasetOf(md, geometry);
    var item := BuildItem(d, Description(md), metadataUrl, cogHref, geometry);
    r := Ok(item);
  }

  /** The `pystac.Item` construction and updates of `create_item`, once the dataset is derived. */
  method BuildItem(d: Dataset, description: Json, metadataUrl: string, cogHref: Option<string>, geometry: Geometry)
    returns (item: Item)
    ensures fresh(item) && DescribesDataset(item, d, description, geometry)
    ensures HasItemAssets(item, metadataUrl, cogHref)
  {
    var properties := map["title" := JStr(d.title), "description" := description];
    item := new Item(ItemId(d.title), geometry, d.bbox, d.start, properties);
    item.SetTimeRange(d.start, d.end);
    item.EnableExtension(ProjectionExtension);
    item.SetProjectionEpsg(Constants.LandcoverEpsg);
    item.AddAsset("metadata", Asset(metadataUrl, JsonMediaType, ["metadata"], MetadataAssetTitle));
    if cogHref.Some? {
      item.AddAsset("landcover", Asset(cogHref.value, CogMediaType, ["data"], CogAssetTitle));
    }
  }

  const RelativePublished: string := "RELATIVE_PUBLISHED"

  /** A `pystac.Collection` as `create_collection` fills it in. */
  class Collection {
    var id: string
    var title: string
    var description: string
    var providers: seq<Constants.Provider>
    var license: string
    var spatial: BBox
    var temporal: (int, int)
    var catalogType: string
    var links: seq<Constants.Link>

    constructor (id: string, title: string, description: string, providers: seq<Constants.Provider>,
                 license: string, spatial: BBox, temporal: (int, int), catalogType: string)
      ensures this.id == id && this.title == title && this.description == description
      ensures this.providers == providers && this.license == license
      ensures this.spatial == spatial && this.temporal == temporal && this.catalogType == catalogType
      ensures links == []
    {
      this.id := id;
      this.title := title;
      this.description := description;
      this.providers := providers;
      this.license := license;
      this.spatial := spatial;
      this.temporal := temporal;
      this.catalogType := catalogType;
      links := [];
    }

    /** `collection.add_link(link)` */
    method AddLink(link: Constants.Link)
      modifies this`links
      ensures links == old(links) + [link]
    {
      links := links + [link];
    }
  }

  /**
   * `create_collection(metadata)`: fixed identity and licence; extent from
   * the same derivation as the item, so for equal metadata the collection's
   * box and interval are the item's `bbox` and `[start, end]`.
   */
  method CreateCollection(md: Utils.Metadata, geometry: Geometry) returns (r: Result<Collection>)
    ensures r.Err? <==> DatasetOf(md, geometry).Err?
    ensures r.Err? ==> r.error == DatasetOf(md, geometry).error
    ensures r.Ok? ==>
              var d := DatasetOf(md, geometry).value;
              var c := r.value;
              && fresh(c)
              && c.id == Constants.LandcoverId && c.title == Constants.LandcoverTitle
              && c.description == Constants.Description && c.license == Constants.License
              && c.providers == [Constants.NrcanProvider] && c.catalogType == RelativePublished
              && c.spatial == d.bbox && c.temporal == (d.start, d.end)
              && c.links == [Constants.LicenseLink]
  {
    var d :- DatasetOf(md, geometry);
    var c := new Collection(Constants.LandcoverId, Constants.LandcoverTitle, Constants.Description,
                            [Constants.NrcanProvider], Constants.License, d.bbox, (d.start, d.end), RelativePublished);
    c.AddLink(Constants.LicenseLink);
    r := Ok(c);
  }
}
