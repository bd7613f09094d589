/**
 * Metadata selection from the JSON-LD record NRCan publishes, and the
 * download of the asset package it points at.
 */
module Utils {
  import opened Json
  import opened Io
  import opened Strings
  import Paths

  /** The record `get_metadata` returns: exactly the four selected nodes. */
  datatype Metadata = Metadata(
    tiffMetadata: Node,
    geomMetadata: Node,
    geojsonGeom: Node,
    descriptionMetadata: Node)

  /** `x` is the first element of `s` satisfying `p`. */
  ghost predicate IsFirstMatch<T>(s: seq<T>, p: T -> bool, x: T) {
    exists k :: 0 <= k < |s| && s[k] == x && p(s[k]) && forall j :: 0 <= j < k ==> !p(s[j])
  }

  /** The index of the first element of `s` satisfying `p`: what `[i for i in s if p(i)][0]` picks. */
  function FirstIndex<T>(s: seq<T>, p: T -> bool): (r: Option<nat>)
    ensures r.Some? ==> r.value < |s| && p(s[r.value]) && forall j :: 0 <= j < r.value ==> !p(s[j])
    ensures r.None? <==> forall j :: 0 <= j < |s| ==> !p(s[j])
  {
    if s == [] then None
    else if p(s[0]) then Some(0)
    else match FirstIndex(s[1..], p)
      case None => None
      case Some(k) => Some(k + 1)
  }

  /** `i.get("dct:format") == "TIFF"` */
  predicate IsTiffNode(n: Node) {
    Get(n, "dct:format") == JStr("TIFF")
  }

  /** `"locn:geometry" in i.keys()` */
  predicate HasGeometry(n: Node) {
    "locn:geometry" in n
  }

  /** `"dct:description" in i.keys()` */
  predicate HasDescription(n: Node) {
    "dct:description" in n
  }

  /**
   * Iterating `v` and treating every item as a dict. Only a list of objects
   * succeeds with items; an empty string or empty object iterates to nothing;
   * anything else raises (a scalar is not iterable, and the items of a
   * non-empty string or object are strings, which have no `.get`).
   */
  function AsNodes(v: Json, what: string): (r: Result<seq<Node>>)
    ensures r.Ok? <==> (v.JArr? && forall i :: 0 <= i < |v.items| ==> v.items[i].JObj?) || v == JStr("") || v == JObj(map[])
    ensures r.Ok? && v.JArr? ==>
              |r.value| == |v.items| && forall i :: 0 <= i < |v.items| ==> v.items[i] == JObj(r.value[i])
    ensures r.Ok? && !v.JArr? ==> r.value == []
  {
    match v
    case JArr(xs) =>
      if forall i :: 0 <= i < |xs| ==> xs[i].JObj? then Ok(seq(|xs|, i requires 0 <= i < |xs| => xs[i].fields))
      else Err(Malformed(what))
    case JStr(s) => if s == "" then Ok([]) else Err(Malformed(what))
    case JObj(m) => if m == map[] then Ok([]) else Err(Malformed(what))
    case _ => Err(Malformed(what))
  }

  /**
   * `"geo+json" in i.get("@type")`: substring test on a string, membership on
   * a list, key test on an object; `None` or a scalar raises TypeError.
   */
  function MentionsGeoJson(n: Node): (r: Result<bool>)
    ensures r.Ok? <==> Get(n, "@type").JStr? || Get(n, "@type").JArr? || Get(n, "@type").JObj?
    ensures Get(n, "@type").JStr? ==> r == Ok(Contains(Get(n, "@type").s, "geo+json"))
    ensures Get(n, "@type").JArr? ==> r == Ok(exists i :: 0 <= i < |Get(n, "@type").items| && Get(n, "@type").items[i] == JStr("geo+json"))
    ensures Get(n, "@type").JObj? ==> r == Ok("geo+json" in Get(n, "@type").fields)
  {
    match Get(n, "@type")
    case JStr(s) => Ok(Contains(s, "geo+json"))
    case JArr(xs) => Ok(JStr("geo+json") in xs)
    case JObj(m) => Ok("geo+json" in m)
    case _ => Err(Malformed("@type"))
  }

  predicate IsGeoJsonEntry(n: Node) {
    MentionsGeoJson(n) == Ok(true)
  }

  /** The `@graph` list of the document, every node a dict. */
  function GraphNodes(doc: Json): (r: Result<seq<Node>>)
    ensures r.Ok? <==> doc.JObj? && AsNodes(Get(doc.fields, "@graph"), "@graph").Ok?
    ensures r.Ok? && Get(doc.fields, "@graph").JArr? ==>
              var items := Get(doc.fields, "@graph").items;
              |r.value| == |items| && forall i :: 0 <= i < |items| ==> items[i] == JObj(r.value[i])
  {
    if doc.JObj? then AsNodes(Get(doc.fields, "@graph"), "@graph") else Err(Malformed("document"))
  }

  /** The entries of `geom_metadata["locn:geometry"]`, each with an `@type` the membership test accepts. */
  function GeometryEntries(geom: Node): (r: Result<seq<Node>>)
    ensures var listed := AsNodes(Get(geom, "locn:geometry"), "locn:geometry");
            r.Ok? <==> listed.Ok? && forall i :: 0 <= i < |listed.value| ==> MentionsGeoJson(listed.value[i]).Ok?
    ensures r.Ok? ==> AsNodes(Get(geom, "locn:geometry"), "locn:geometry") == Ok(r.value)
  {
    match AsNodes(Get(geom, "locn:geometry"), "locn:geometry")
    case Err(e) => Err(e)
    case Ok(entries) =>
      if forall i :: 0 <= i < |entries| ==> MentionsGeoJson(entries[i]).Ok? then Ok(entries)
      else Err(Malformed("@type"))
  }

  /** The four first-match selections, in the order the source evaluates them. */
  function SelectMetadata(doc: Json): (r: Result<Metadata>)
    ensures r.Ok? ==> GraphNodes(doc).Ok?
    ensures r.Ok? ==>
              (var nodes := GraphNodes(doc).value;
               && IsFirstMatch(nodes, IsTiffNode, r.value.tiffMetadata)
               && IsFirstMatch(nodes, HasGeometry, r.value.geomMetadata)
               && IsFirstMatch(nodes, HasDescription, r.value.descriptionMetadata))
    ensures r.Ok? ==>
              && GeometryEntries(r.value.geomMetadata).Ok?
              && IsFirstMatch(GeometryEntries(r.value.geomMetadata).value, IsGeoJsonEntry, r.value.geojsonGeom)
  {
    var nodes :- GraphNodes(doc);
    match FirstIndex(nodes, IsTiffNode)
    case None => Err(NoMatchingNode("tiff_metadata"))
    case Some(t) =>
      match FirstIndex(nodes, HasGeometry)
      case None => Err(NoMatchingNode("geom_metadata"))
      case Some(g) =>
        var entries :- GeometryEntries(nodes[g]);
        match FirstIndex(entries, IsGeoJsonEntry)
        case None => Err(NoMatchingNode("geojson_geom"))
        case Some(j) =>
          match FirstIndex(nodes, HasDescription)
          case None => Err(NoMatchingNode("description_metadata"))
          case Some(d) =>
            Ok(Metadata(nodes[t], nodes[g], entries[j], nodes[d]))
  }

  /** What `get_metadata` returned, and the effects it attempted. */
  datatype Loaded = Loaded(result: Result<Metadata>, trace: seq<Effect>)

  /**
   * `get_metadata(metadata_url)`: a JSON-LD source is fetched with
   * `requests.get` when it starts with "http" and read with `json.load`
   * otherwise; either load can raise before anything is selected.
   */
  function GetMetadata(url: string, env: Env): (r: Loaded)
    ensures !EndsWith(url, ".jsonld") ==> r == Loaded(Err(NotImplemented), [])
    ensures EndsWith(url, ".jsonld") && StartsWith(url, "http") ==>
              && r.trace == [Fetch(url)]
              && (env.fetchFails(url) ==> r.result == Err(FetchFailed(url)))
              && (!env.fetchFails(url) ==> r.result == SelectMetadata(env.httpJson(url)))
    ensures EndsWith(url, ".jsonld") && !StartsWith(url, "http") ==>
              && r.trace == []
              && (env.readFails(url) ==> r.result == Err(ReadFailed(url)))
              && (!env.readFails(url) ==> r.result == SelectMetadata(env.fileJson(url)))
  {
    if !EndsWith(url, ".jsonld") then Loaded(Err(NotImplemented), [])
    else if StartsWith(url, "http") then
      Loaded(if env.fetchFails(url) then Err(FetchFailed(url)) else SelectMetadata(env.httpJson(url)), [Fetch(url)])
    else
      Loaded(if env.readFails(url) then Err(ReadFailed(url)) else SelectMetadata(env.fileJson(url)), [])
  }

  /** A source that is not JSON-LD is refused before anything is read, whatever it would contain. */
  lemma NonJsonLdRefused(url: string, env1: Env, env2: Env)
    requires !EndsWith(url, ".jsonld")
    ensures GetMetadata(url, env1) == GetMetadata(url, env2) == Loaded(Err(NotImplemented), [])
  {
  }

  /** The selection depends on the document only: an HTTP source and a local file with equal contents, both loaded, give equal results. */
  lemma SelectionIgnoresOrigin(httpUrl: string, path: string, env: Env)
    requires EndsWith(httpUrl, ".jsonld") && EndsWith(path, ".jsonld")
    requires StartsWith(httpUrl, "http") && !StartsWith(path, "http")
    requires !env.fetchFails(httpUrl) && !env.readFails(path)
    requires env.httpJson(httpUrl) == env.fileJson(path)
    ensures GetMetadata(httpUrl, env).result == GetMetadata(path, env).result
  {
  }

  /** The default source is JSON-LD, so the format check lets it through. */
  lemma DefaultSourceIsJsonLd()
    ensures EndsWith(Constants.JsonldHref, ".jsonld")
  {
  }

  /** A well-formed graph without a TIFF node fails the first lookup. */
  lemma MissingTiffNodeFails(doc: Json)
    requires GraphNodes(doc).Ok?
    requires forall n :: n in GraphNodes(doc).value ==> !IsTiffNode(n)
    ensures SelectMetadata(doc) == Err(NoMatchingNode("tiff_metadata"))
  {
    var nodes := GraphNodes(doc).value;
    assert forall j :: 0 <= j < |nodes| ==> nodes[j] in nodes;
  }

  /** A well-formed graph with a TIFF node but no geometry node fails the second lookup. */
  lemma MissingGeometryNodeFails(doc: Json)
    requires GraphNodes(doc).Ok?
    requires exists n :: n in GraphNodes(doc).value && IsTiffNode(n)
    requires forall n :: n in GraphNodes(doc).value ==> !HasGeometry(n)
    ensures SelectMetadata(doc) == Err(NoMatchingNode("geom_metadata"))
  {
    var nodes := GraphNodes(doc).value;
    assert forall j :: 0 <= j < |nodes| ==> nodes[j] in nodes;
    var n :| n in nodes && IsTiffNode(n);
    var k :| 0 <= k < |nodes| && nodes[k] == n;
    assert FirstIndex(nodes, IsTiffNode).Some?;
  }

  /**
   * Only the FIRST geometry node is searched for a GeoJSON entry: when its
   * entries have none, the call fails, whatever later nodes hold.
   */
  lemma OnlyFirstGeometryNodeSearched(doc: Json, g: nat)
    requires GraphNodes(doc).Ok?
    requires exists n :: n in GraphNodes(doc).value && IsTiffNode(n)
    requires g < |GraphNodes(doc).value| && HasGeometry(GraphNodes(doc).value[g])
    requires forall j :: 0 <= j < g ==> !HasGeometry(GraphNodes(doc).value[j])
    requires GeometryEntries(GraphNodes(doc).value[g]).Ok?
    requires forall e :: e in GeometryEntries(GraphNodes(doc).value[g]).value ==> !IsGeoJsonEntry(e)
    ensures SelectMetadata(doc) == Err(NoMatchingNode("geojson_geom"))
  {
    var nodes := GraphNodes(doc).value;
    var n :| n in nodes && IsTiffNode(n);
    var k :| 0 <= k < |nodes| && nodes[k] == n;
    assert FirstIndex(nodes, IsTiffNode).Some?;
    FirstIndexAt(nodes, HasGeometry, g);
    var entries := GeometryEntries(nodes[g]).value;
    assert FirstIndex(entries, IsGeoJsonEntry).None? by {
      assert forall j :: 0 <= j < |entries| ==> entries[j] in entries;
    }
  }

  /** Past an element that does not match, the first match is one further on than in the tail. */
  lemma FirstIndexPastHead<T>(s: seq<T>, p: T -> bool)
    requires s != [] && !p(s[0])
    ensures FirstIndex(s, p) == (if FirstIndex(s[1..], p).None? then None else Some(FirstIndex(s[1..], p).value + 1))
  {
  }

  lemma FirstIndexAt<T>(s: seq<T>, p: T -> bool, g: nat)
    requires g < |s| && p(s[g])
    requires forall j :: 0 <= j < g ==> !p(s[j])
    ensures FirstIndex(s, p) == Some(g)
  {
  }

  /** The first node holding `locn:geometry` lists its entries well, and one of them is GeoJSON; later geometry nodes do not matter. */
  predicate FirstGeometryUsable(nodes: seq<Node>) {
    match FirstIndex(nodes, HasGeometry)
    case None => false
    case Some(g) => GeometryEntries(nodes[g]).Ok? && exists e :: e in GeometryEntries(nodes[g]).value && IsGeoJsonEntry(e)
  }

  /** When the graph is well formed, has a TIFF and a description node, and its first geometry node is usable, the selection succeeds. */
  lemma AllSlotsFoundSucceeds(doc: Json)
    requires GraphNodes(doc).Ok?
    requires exists n :: n in GraphNodes(doc).value && IsTiffNode(n)
    requires exists n :: n in GraphNodes(doc).value && HasDescription(n)
    requires FirstGeometryUsable(GraphNodes(doc).value)
    ensures SelectMetadata(doc).Ok?
  {
    var nodes := GraphNodes(doc).value;
    var t := FirstMatchExists(nodes, IsTiffNode);
    var d := FirstMatchExists(nodes, HasDescription);
    var g := FirstIndex(nodes, HasGeometry).value;
    var entries := GeometryEntries(nodes[g]).value;
    var j := FirstMatchExists(entries, IsGeoJsonEntry);
    SelectionOfMatches(doc, nodes, t, g, entries, j, d);
  }

  /** A graph whose TIFF and geometry lookups succeed but which has no description node fails with the last lookup. */
  lemma MissingDescriptionNodeFails(doc: Json)
    requires GraphNodes(doc).Ok?
    requires exists n :: n in GraphNodes(doc).value && IsTiffNode(n)
    requires FirstGeometryUsable(GraphNodes(doc).value)
    requires forall n :: n in GraphNodes(doc).value ==> !HasDescription(n)
    ensures SelectMetadata(doc) == Err(NoMatchingNode("description_metadata"))
  {
    var nodes := GraphNodes(doc).value;
    var t := FirstMatchExists(nodes, IsTiffNode);
    var g := FirstIndex(nodes, HasGeometry).value;
    var entries := GeometryEntries(nodes[g]).value;
    var j := FirstMatchExists(entries, IsGeoJsonEntry);
    assert FirstIndex(nodes, HasDescription).None? by {
      assert forall k :: 0 <= k < |nodes| ==> nodes[k] in nodes;
    }
    SelectionWithoutDescription(doc, nodes, t, g, entries, j);
  }

  /** The selection once the first three lookups have found their index and the last has none. */
  lemma SelectionWithoutDescription(doc: Json, nodes: seq<Node>, t: nat, g: nat, entries: seq<Node>, j: nat)
    requires GraphNodes(doc) == Ok(nodes)
    requires FirstIndex(nodes, IsTiffNode) == Some(t) && FirstIndex(nodes, HasDescription) == None
    requires FirstIndex(nodes, HasGeometry) == Some(g)
    requires GeometryEntries(nodes[g]) == Ok(entries) && FirstIndex(entries, IsGeoJsonEntry) == Some(j)
    ensures SelectMetadata(doc) == Err(NoMatchingNode("description_metadata"))
  {
  }

  /** The selection once every lookup has found its index. */
  lemma SelectionOfMatches(doc: Json, nodes: seq<Node>, t: nat, g: nat, entries: seq<Node>, j: nat, d: nat)
    requires GraphNodes(doc) == Ok(nodes)
    requires FirstIndex(nodes, IsTiffNode) == Some(t) && FirstIndex(nodes, HasDescription) == Some(d)
    requires FirstIndex(nodes, HasGeometry) == Some(g)
    requires GeometryEntries(nodes[g]) == Ok(entries) && FirstIndex(entries, IsGeoJsonEntry) == Some(j)
    ensures SelectMetadata(doc) == Ok(Metadata(nodes[t], nodes[g], entries[j], nodes[d]))
  {
  }

  /** When some element satisfies `p`, the first-match lookup finds one. */
  lemma FirstMatchExists<T>(s: seq<T>, p: T -> bool) returns (k: nat)
    requires exists x :: x in s && p(x)
    ensures FirstIndex(s, p) == Some(k)
  {
    var x :| x in s && p(x);
    var i :| 0 <= i < |s| && s[i] == x;
    k := FirstIndex(s, p).value;
  }

  /** A GeoJSON geometry entry and a node that is at once the TIFF, geometry and description node. */
  const SampleEntry: Node := map["@type" := JStr("vnd.geo+json")]
  const SampleNode: Node := map[
    "dct:format" := JStr("TIFF"),
    "locn:geometry" := JArr([JObj(SampleEntry)]),
    "dct:description" := JStr("Land cover")]

  lemma SampleEntryIsGeoJson()
    ensures IsGeoJsonEntry(SampleEntry)
  {
    assert Get(SampleEntry, "@type") == JStr("vnd.geo+json");
    assert Contains("vnd.geo+json", "geo+json") by {
      ContainsIsOccurrence("vnd.geo+json", "geo+json");
      assert OccursAt("vnd.geo+json", "geo+json", 4);
    }
  }

  lemma SampleNodeShape()
    ensures IsTiffNode(SampleNode) && HasGeometry(SampleNode) && HasDescription(SampleNode)
    ensures GeometryEntries(SampleNode) == Ok([SampleEntry])
  {
    SampleEntryIsGeoJson();
    assert Get(SampleNode, "dct:format") == JStr("TIFF");
    assert Get(SampleNode, "locn:geometry") == JArr([JObj(SampleEntry)]);
    SingletonNodes(SampleEntry, "locn:geometry");
  }

  lemma SingletonNodes(n: Node, what: string)
    ensures AsNodes(JArr([JObj(n)]), what) == Ok([n])
  {
    var xs := [JObj(n)];
    assert forall i :: 0 <= i < |xs| ==> xs[i].JObj?;
    var r := AsNodes(JArr(xs), what);
    assert r.Ok?;
    assert xs[0] == JObj(r.value[0]);
    assert r.value == [n];
  }

  /** One node can fill several slots: the first match wins each lookup independently, so a graph of one node fills three slots with it. */
  lemma OneNodeFillsSeveralSlots()
    ensures SelectMetadata(JObj(map["@graph" := JArr([JObj(SampleNode)])]))
            == Ok(Metadata(SampleNode, SampleNode, SampleEntry, SampleNode))
  {
    var doc := JObj(map["@graph" := JArr([JObj(SampleNode)])]);
    SampleEntryIsGeoJson();
    SampleNodeShape();
    SingletonNodes(SampleNode, "@graph");
    assert GraphNodes(doc) == Ok([SampleNode]);
    assert FirstIndex([SampleNode], IsTiffNode) == Some(0);
    assert FirstIndex([SampleNode], HasGeometry) == Some(0);
    assert FirstIndex([SampleNode], HasDescription) == Some(0);
    assert FirstIndex([SampleEntry], IsGeoJsonEntry) == Some(0);
  }

  /** `metadata["tiff_metadata"]["dcat:accessURL"].get("@id")`, which must be a string to be used. */
  function AccessUrl(md: Metadata): (r: Result<string>)
    ensures r.Ok? <==> ("dcat:accessURL" in md.tiffMetadata && md.tiffMetadata["dcat:accessURL"].JObj?
                        && Get(md.tiffMetadata["dcat:accessURL"].fields, "@id").JStr?)
  {
    if "dcat:accessURL" !in md.tiffMetadata then Err(Malformed("dcat:accessURL"))
    else match md.tiffMetadata["dcat:accessURL"]
      case JObj(link) =>
        (match Get(link, "@id")
         case JStr(url) => Ok(url)
         case _ => Err(Malformed("@id")))
      case _ => Err(Malformed("dcat:accessURL"))
  }

  /** What an I/O step returned, and the effects it attempted. */
  datatype Attempt = Attempt(result: Result<string>, trace: seq<Effect>)

  /**
   * `download_asset_package(metadata)`: an http(s) URL is fetched into
   * `file.zip` and unzipped; any other URL is taken as a local zip. Either way
   * the package lands in the `mkdtemp` directory, which is returned.
   */
  function DownloadAssetPackage(md: Metadata, env: Env): (r: Attempt)
    ensures r.result.Ok? ==> r.result.value == env.packageDir
    ensures r.result.Ok? ==> |r.trace| > 0 && r.trace[|r.trace| - 1].Unzip? && r.trace[|r.trace| - 1].into == env.packageDir
    ensures AccessUrl(md).Ok? ==>
      (StartsWith(AccessUrl(md).value, "http") <==> Fetch(AccessUrl(md).value) in r.trace)
    ensures AccessUrl(md).Err? ==> r == Attempt(Err(AccessUrl(md).error), [])
    ensures AccessUrl(md).Ok? && StartsWith(AccessUrl(md).value, "http") ==>
              var url := AccessUrl(md).value;
              var zip := Paths.Join(env.packageDir, "file.zip");
              && (r.result.Ok? <==> !env.fetchFails(url) && !env.writeFails(zip) && !env.unzipFails(zip))
              && (env.fetchFails(url) ==> r.result == Err(FetchFailed(url)))
              && (!env.fetchFails(url) && env.writeFails(zip) ==> r.result == Err(WriteFailed(zip)))
              && (!env.fetchFails(url) && !env.writeFails(zip) && env.unzipFails(zip) ==> r.result == Err(UnzipFailed(zip)))
              && (r.result.Ok? ==> r.trace == [Fetch(url), WriteFile(zip), Unzip(zip, env.packageDir)])
    ensures AccessUrl(md).Ok? && !StartsWith(AccessUrl(md).value, "http") ==>
              var url := AccessUrl(md).value;
              && (r.result.Ok? <==> !env.unzipFails(url))
              && (env.unzipFails(url) ==> r.result == Err(UnzipFailed(url)))
              && r.trace == [Unzip(url, env.packageDir)]
  {
    match AccessUrl(md)
    case Err(e) => Attempt(Err(e), [])
    case Ok(url) =>
      var dir := env.packageDir;
      if StartsWith(url, "http") then
        var zip := Paths.Join(dir, "file.zip");
        if env.fetchFails(url) then Attempt(Err(FetchFailed(url)), [Fetch(url)])
        else if env.writeFails(zip) then Attempt(Err(WriteFailed(zip)), [Fetch(url), WriteFile(zip)])
        else if env.unzipFails(zip) then Attempt(Err(UnzipFailed(zip)), [Fetch(url), WriteFile(zip), Unzip(zip, dir)])
        else Attempt(Ok(dir), [Fetch(url), WriteFile(zip), Unzip(zip, dir)])
      else if env.unzipFails(url) then Attempt(Err(UnzipFailed(url)), [Unzip(url, dir)])
      else Attempt(Ok(dir), [Unzip(url, dir)])
  }
}
