/**
 * The extent asset: a GeoJSON FeatureCollection holding the dataset's
 * footprint geometry as its single feature.
 */
module Extent {
  import opened Json
  import opened Io
  import Utils

  /** A GeoJSON Feature object: exactly `type`, `geometry` and `properties`, the last an object. */
  predicate IsFeature(j: Json) {
    && j.JObj?
    && j.fields.Keys == {"type", "geometry", "properties"}
    && j.fields["type"] == JStr("Feature")
    && j.fields["properties"].JObj?
  }

  /** A GeoJSON FeatureCollection object: exactly `type` and `features`, every feature a Feature. */
  predicate IsFeatureCollection(doc: Json) {
    && doc.JObj?
    && doc.fields.Keys == {"type", "features"}
    && doc.fields["type"] == JStr("FeatureCollection")
    && doc.fields["features"].JArr?
    && var features := doc.fields["features"].items;
       forall i :: 0 <= i < |features| ==> IsFeature(features[i])
  }

  /** Reads a document back as the list of its features' geometries; None for anything that is not a FeatureCollection. */
  function FeatureGeometries(doc: Json): (r: Option<seq<Json>>)
    ensures r.Some? <==> IsFeatureCollection(doc)
    ensures r.Some? ==> |r.value| == |doc.fields["features"].items|
    ensures r.Some? ==> forall i :: 0 <= i < |r.value| ==> r.value[i] == doc.fields["features"].items[i].fields["geometry"]
  {
    if IsFeatureCollection(doc) then
      var features := doc.fields["features"].items;
      Some(seq(|features|, i requires 0 <= i < |features| => features[i].fields["geometry"]))
    else
      None
  }

  /** The document `create_extent_asset` serialises. */
  function ExtentDocument(md: Utils.Metadata): Json {
    JObj(map[
      "type" := JStr("FeatureCollection"),
      "features" := JArr([JObj(map[
        "type" := JStr("Feature"),
        "geometry" := JObj(md.geomMetadata),
        "properties" := JObj(map[])])])])
  }

  /** The extent document is a FeatureCollection with one feature whose geometry is `geom_metadata`, with empty properties. */
  lemma ExtentRoundTrip(md: Utils.Metadata)
    ensures FeatureGeometries(ExtentDocument(md)) == Some([JObj(md.geomMetadata)])
    ensures ExtentDocument(md).fields["features"].items[0].fields["properties"] == JObj(map[])
  {
    var doc := ExtentDocument(md);
    var feature := doc.fields["features"].items[0];
    assert feature.fields.Keys == {"type", "geometry", "properties"};
    assert IsFeature(feature);
    assert doc.fields.Keys == {"type", "features"};
    assert IsFeatureCollection(doc);
    var r := FeatureGeometries(doc).value;
    assert r[0] == JObj(md.geomMetadata);
    assert r == [JObj(md.geomMetadata)];
  }

  /** `create_extent_asset`: the single effect is writing the extent document to `output_path`. */
  function CreateExtentAsset(md: Utils.Metadata, outputPath: string): (trace: seq<Effect>)
    ensures |trace| == 1 && trace[0].WriteText? && trace[0].path == outputPath
    ensures FeatureGeometries(trace[0].document) == Some([JObj(md.geomMetadata)])
    ensures trace[0].document.fields["features"].items[0].fields["properties"] == JObj(map[])
  {
    ExtentRoundTrip(md);
    [WriteText(outputPath, ExtentDocument(md))]
  }

  /** Only the geometry node of the metadata is read. */
  lemma ExtentReadsOnlyGeometry(md1: Utils.Metadata, md2: Utils.Metadata, outputPath: string)
    requires md1.geomMetadata == md2.geomMetadata
    ensures CreateExtentAsset(md1, outputPath) == CreateExtentAsset(md2, outputPath)
  {
  }

  /** Distinct geometries give distinct extent documents. */
  lemma ExtentDeterminesGeometry(md1: Utils.Metadata, md2: Utils.Metadata, outputPath: string)
    requires CreateExtentAsset(md1, outputPath) == CreateExtentAsset(md2, outputPath)
    ensures md1.geomMetadata == md2.geomMetadata
  {
    var t := CreateExtentAsset(md1, outputPath);
    assert FeatureGeometries(t[0].document) == Some([JObj(md1.geomMetadata)]);
    assert FeatureGeometries(t[0].document) == Some([JObj(md2.geomMetadata)]);
    assert [JObj(md1.geomMetadata)][0] == [JObj(md2.geomMetadata)][0];
  }
}
