# nrcan-landcover, modelled in Dafny

This project models the core of the stactools package for the Natural Resources Canada (NRCan) Land Cover of Canada product. The package:
- reads the JSON-LD record NRCan publishes;
- picks four nodes out of its `@graph`;
- derives a STAC Item and a STAC Collection from them;
- writes a one-feature GeoJSON extent document;
- turns the downloaded GeoTIFF into Cloud-Optimized GeoTIFFs (COGs). It does this either as one file or tile by tile, skipping tiles that hold no data.

The model is organised one module per concern:

| module | file | models |
|---|---|---|
| `Json` | json.dfy | decoded JSON values and `dict.get` |
| `Io` | io.dfy | results and errors, the effects the package attempts, and the world `Env` that answers them |
| `Strings` | strings.dfy | the `str` methods used: `split(...)[0]`, `split('/').pop()`, `replace`, `in`, `str(int)` |
| `Paths` | paths.dfy | `os.path.join` and `os.path.basename` (POSIX), and the `<stem>_cog.tif` naming rule |
| `Constants` | constants.dfy | the colour map, the classification labels, and the fixed ids, EPSG code, licence and provider |
| `Utils` | utils.dfy | `get_metadata` and `download_asset_package` |
| `Stac` | stac.dfy | `create_item` and `create_collection`, with pystac's Item and Collection as classes updated in place |
| `Extent` | extent.dfy | `create_extent_asset` |
| `Cog` | cog.dfy | `create_cog`, `create_retiled_cogs` and `download_create_cog` |

Everything outside the process is an oracle, `Io.Env`:
- HTTP, files, zip archives and GDAL subprocesses;
- rasterio reads, and temporary-directory names.

For each path or argument vector, `Env` says whether that step fails. It also says what was fetched, listed or read.

An operation that touches the world returns its result together with the trace of effects it attempted, in order. The result is a value, or the exception that escapes. The pair is `Utils.Attempt` for the conversion steps and `Utils.Loaded` for `get_metadata`. An effect that raises is the last one in its trace.

Reads of local files change nothing, so they are not recorded as effects. These are the metadata file `get_metadata` opens and the tiles rasterio reads. A read can still fail (`Env.readFails`), and that exception then ends the operation like any other.

The pystac objects are mutated in the source, so `Stac.Item` and `Stac.Collection` are classes, and their methods update fields. The tile loop of `create_retiled_cogs` is a `while` loop, `Cog.CreateRetiledCogs`. It is proved equal to a recursive specification, `Cog.SweepTiles`, and the filter and stopping properties are proved about that specification.

Dates are integer years, each meaning Jan 1, 00:00 UTC. Coordinates are `real`.

Points of the code's behaviour that are easy to misread:
- `download_create_cog` converts the LAST `.tif` the directory listing returns, because `glob(...).pop()` takes the last element.
- In `create_cog`, the copy and the colour-map write run even in a dry run. They sit outside the `try`, so their failures escape whatever `raise_on_fail` says. Only the `gdal_translate` call is skipped by `dry_run`.
- In `create_retiled_cogs`, the `except` lies outside the tile loop. So an exception from one tile ends the loop even when `raise_on_fail` is false; the function then returns `output_directory` normally. The exception can come from that tile's conversion or from reading the tile.
- `cog.py` imports `NO_DATA_VALUE` and `TILING_PIXEL_SIZE`, but `constants.py` defines neither. The model takes them as the parameter `Cog.Settings`.

## Model

| member | source | states |
|---|---|---|
| Json.Get | src/stactools/nrcan_landcover/stac.py:30-31 | `dict.get`: the stored value for a present key, `None` (JNull) for an absent one |
| Strings.ContainsIsOccurrence | src/stactools/nrcan_landcover/utils.py:67 | the substring test `"geo+json" in s` holds exactly when the pattern occurs at some position of `s` |
| Strings.ReplaceChar | src/stactools/nrcan_landcover/stac.py:43 | `replace` on one character: same length; each position is replaced exactly where it held `from`; the old character no longer occurs |
| Strings.RemoveAll | src/stactools/nrcan_landcover/cog.py:59 | `replace(pat, "")` never lengthens the string and adds no character |
| Strings.RemoveAllAbsent | src/stactools/nrcan_landcover/cog.py:59 | removing a pattern that does not occur leaves the string unchanged |
| Strings.RemoveTifSuffix | src/stactools/nrcan_landcover/cog.py:112-114 | for a stem without ".tif", removing ".tif" from `stem + ".tif"` gives back the stem |
| Strings.FirstToken | src/stactools/nrcan_landcover/stac.py:35 | `split(" ")[0]` is a prefix free of the separator, ending at the end of the string or just before a separator |
| Strings.FirstTokenBeforeSeparator | src/stactools/nrcan_landcover/stac.py:35 | a separator-free `t` followed by the separator splits back to `t` |
| Strings.LastSegment | src/stactools/nrcan_landcover/cog.py:38 | `split('/').pop()` is a separator-free suffix, starting at the beginning or just after a separator |
| Strings.LastSegmentSnoc | src/stactools/nrcan_landcover/cog.py:38 | appending a separator empties the last segment; appending another character extends it |
| Strings.LastSegmentAfterSeparator | src/stactools/nrcan_landcover/cog.py:38 | `pre + "/" + t` with `t` free of '/' has last segment `t` |
| Strings.LastSegmentWhole | src/stactools/nrcan_landcover/cog.py:38 | a string without the separator is its own last segment |
| Strings.NatToString | src/stactools/nrcan_landcover/cog.py:96-97 | `str(n)` for a natural number is non-empty, all digits, and has no leading zero except for 0 itself |
| Strings.IntToString | src/stactools/nrcan_landcover/cog.py:190 | `str(i)` is the digits of `i`, with a leading '-' for negative `i` |
| Strings.NatToStringRoundTrip | src/stactools/nrcan_landcover/stac.py:36 | reading back the digits of `str(n)` gives `n` |
| Strings.NatToStringLength | src/stactools/nrcan_landcover/stac.py:36 | `str(n)` has four digits exactly when 1000 <= n <= 9999, which is what `%Y` needs |
| Paths.JoinShape | src/stactools/nrcan_landcover/cog.py:160 | `os.path.join(a, b)` ends with `b`; an absolute `b` discards `a`; otherwise the result starts with `a` |
| Paths.Join | src/stactools/nrcan_landcover/cog.py:160 | no contract of its own: `Paths.JoinShape` and `Paths.BasenameOfJoin` state its properties |
| Paths.Basename | src/stactools/nrcan_landcover/cog.py:160 | no contract of its own: `Paths.BasenameOfJoin`, `Strings.LastSegment` and `Cog.ScratchCopyKeepsName` state its properties |
| Paths.BasenameOfJoin | src/stactools/nrcan_landcover/cog.py:160 | the basename of `join(a, b)` is `b` when `b` holds no '/' |
| Paths.CogFileNameShape | src/stactools/nrcan_landcover/cog.py:57-59 | the COG file name always ends in "_cog.tif" and is a single path component |
| Paths.CogFileName | src/stactools/nrcan_landcover/cog.py:57-59 | no contract of its own: `Paths.CogFileNameShape` and `Paths.CogFileNameOfTif` state its properties |
| Paths.CogOutputPath | src/stactools/nrcan_landcover/cog.py:112-114 | no contract of its own: `Paths.CogOutputPathShape` states its properties |
| Paths.CogOutputPathShape | src/stactools/nrcan_landcover/cog.py:112-114 | the output path is `output_directory` joined with the COG file name, so it starts with `output_directory`; it ends in "_cog.tif", and its basename is the COG file name of the input |
| Paths.CogFileNameOfTif | src/stactools/nrcan_landcover/cog.py:57-59 | a file `<stem>.tif` is converted to `<stem>_cog.tif` |
| Constants.BackgroundIsTransparent | src/stactools/nrcan_landcover/constants.py:30-31 | colour-map value 0 is fully transparent (0,0,0,0) and is not a classification value |
| Constants.ClassesAreColouredValues | src/stactools/nrcan_landcover/constants.py:30-65 | the classification values are exactly the colour-map values minus 0, and exactly the listed class values |
| Constants.TableSizes | src/stactools/nrcan_landcover/constants.py:30-65 | there are 15 classes and 16 colours |
| Constants.ClassValuesIncrease | src/stactools/nrcan_landcover/constants.py:49-65 | the class values are listed in strictly increasing order |
| Constants.ColoursAreBytesAndAlphaRule | src/stactools/nrcan_landcover/constants.py:32-46 | every RGBA component is in 0..255; every class is opaque except Urban (17), at alpha 155 |
| Utils.FirstIndex | src/stactools/nrcan_landcover/utils.py:57-60 | `[i for i in s if p(i)][0]`: the index found satisfies `p` and no earlier element does; there is none exactly when no element satisfies `p` |
| Utils.IsTiffNode | src/stactools/nrcan_landcover/utils.py:59 | no contract of its own: the TIFF-node filter, whose first match `Utils.SelectMetadata` and `Utils.MissingTiffNodeFails` state |
| Utils.HasGeometry | src/stactools/nrcan_landcover/utils.py:63 | no contract of its own: the geometry-node filter, whose first match `Utils.SelectMetadata` and `Utils.OnlyFirstGeometryNodeSearched` state |
| Utils.HasDescription | src/stactools/nrcan_landcover/utils.py:71 | no contract of its own: the description-node filter, whose first match `Utils.SelectMetadata` and `Utils.MissingDescriptionNodeFails` state |
| Utils.AsNodes | src/stactools/nrcan_landcover/utils.py:58 | iterating succeeds exactly on a list of objects, an empty string or an empty object; a list yields exactly its objects, in order, and the other two yield nothing |
| Utils.MentionsGeoJson | src/stactools/nrcan_landcover/utils.py:67 | the `"geo+json" in i.get("@type")` test answers exactly when `@type` is a string, list or object: on a string it is the substring test, on a list membership of the string "geo+json", on an object the key test |
| Utils.GraphNodes | src/stactools/nrcan_landcover/utils.py:58 | the `@graph` list can be iterated exactly when the document is an object whose `@graph` iterates as nodes; when it is a list, its nodes are exactly its objects, in order |
| Utils.GeometryEntries | src/stactools/nrcan_landcover/utils.py:66-67 | the geometry entries are usable exactly when `locn:geometry` iterates as nodes and every entry has an `@type` the membership test accepts; they are those nodes |
| Utils.SelectMetadata | src/stactools/nrcan_landcover/utils.py:57-79 | on success: the TIFF, geometry and description nodes are each the first graph node matching their test; `geojson_geom` is the first GeoJSON entry of the selected geometry node |
| Utils.GetMetadata | src/stactools/nrcan_landcover/utils.py:49-84 | a source not ending in ".jsonld" raises NotImplementedError and attempts nothing. An http source is fetched, and a fetch failure escapes; a local source is read, and a read failure escapes. A loaded document is selected |
| Utils.NonJsonLdRefused | src/stactools/nrcan_landcover/utils.py:82-84 | the refusal of a non-JSON-LD source attempts nothing and does not depend on anything the world holds |
| Utils.SelectionIgnoresOrigin | src/stactools/nrcan_landcover/utils.py:50-55 | an HTTP source and a local file with the same content, both loaded, give the same metadata |
| Utils.DefaultSourceIsJsonLd | src/stactools/nrcan_landcover/constants.py:26 | the default metadata URL passes the ".jsonld" check |
| Utils.MissingTiffNodeFails | src/stactools/nrcan_landcover/utils.py:57-60 | a graph with no TIFF node fails with the `tiff_metadata` lookup |
| Utils.MissingGeometryNodeFails | src/stactools/nrcan_landcover/utils.py:61-64 | a graph with a TIFF node but no geometry node fails with the `geom_metadata` lookup |
| Utils.OnlyFirstGeometryNodeSearched | src/stactools/nrcan_landcover/utils.py:61-68 | when the first geometry node has no GeoJSON entry the call fails, whatever later nodes hold |
| Utils.AllSlotsFoundSucceeds | src/stactools/nrcan_landcover/utils.py:57-81 | when the graph is well formed, has a TIFF node and a description node, and its FIRST geometry node has a GeoJSON entry, the selection succeeds; later geometry nodes play no part |
| Utils.MissingDescriptionNodeFails | src/stactools/nrcan_landcover/utils.py:69-72 | a graph whose TIFF and geometry lookups succeed but which has no description node fails with the `description_metadata` lookup |
| Utils.SampleEntryIsGeoJson | src/stactools/nrcan_landcover/utils.py:65-68 | an entry whose `@type` is "vnd.geo+json" passes the "geo+json" test |
| Utils.SampleNodeShape | src/stactools/nrcan_landcover/utils.py:57-72 | a node can pass the TIFF, geometry and description tests at once |
| Utils.OneNodeFillsSeveralSlots | src/stactools/nrcan_landcover/utils.py:74-79 | a graph of one such node fills the TIFF, geometry and description slots with that same node |
| Utils.AccessUrl | src/stactools/nrcan_landcover/utils.py:18 | the access URL exists exactly when `dcat:accessURL` is an object whose `@id` is a string |
| Utils.DownloadAssetPackage | src/stactools/nrcan_landcover/utils.py:16-33 | success returns the package directory and ends with an unzip into it; an http URL is fetched exactly when it starts with "http"; a bad access URL attempts nothing. The call succeeds exactly when no fetch, write or unzip on its path fails, and each failure escapes with its own error. A successful http download fetches, writes `file.zip` and unzips that file; a local zip is unzipped directly |
| Stac.Bounds | src/stactools/nrcan_landcover/stac.py:45 | the bounds are ordered on both axes, contain every position of the ring, and each bound is attained by some position |
| Stac.ExteriorBounds | src/stactools/nrcan_landcover/stac.py:45 | the bbox exists exactly when there is an exterior ring that closes to a linear ring: four or more positions, or three whose first and last differ. It is that ring's bounds |
| Stac.BoundsContainRing | src/stactools/nrcan_landcover/stac.py:44-45 | min <= max on both axes, and every exterior position lies in the bbox |
| Stac.DatasetYear | src/stactools/nrcan_landcover/stac.py:35-36 | the year parses exactly when the title's first token is four digits with a value of at least 1; the year is that value |
| Stac.YearRoundTrip | src/stactools/nrcan_landcover/stac.py:35-36 | a title starting with a four-digit year and a space gives that year back |
| Stac.PublishedYears | src/stactools/nrcan_landcover/stac.py:35-38 | "2015 Land Cover of Canada" gives the range 2015 to 2020 |
| Stac.Title | src/stactools/nrcan_landcover/stac.py:30 | the title is available exactly when `dct:title` of the TIFF node is a string, and it is that string |
| Stac.Description | src/stactools/nrcan_landcover/stac.py:31 | no contract of its own: `dct:description` of the description node, `None` when absent; `Stac.CreateItem` states that it becomes the item's `description` property |
| Stac.EndYear | src/stactools/nrcan_landcover/stac.py:38 | the end is exactly five years on, and fails only past year 9999 |
| Stac.ItemId | src/stactools/nrcan_landcover/stac.py:43 | the id has the title's length and no spaces; each space becomes '-' and every other character is unchanged |
| Stac.DatasetOf | src/stactools/nrcan_landcover/stac.py:30-45 | succeeds exactly when title, year, end year and bbox all succeed; gives the title, start year, end = start + 5 and the exterior bbox |
| Stac.Item.constructor | src/stactools/nrcan_landcover/stac.py:52-59 | a new item holds the given id, geometry, bbox, datetime and properties, with no extensions, dates, EPSG or assets |
| Stac.Item.SetTimeRange | src/stactools/nrcan_landcover/stac.py:61-63 | sets the start and end datetimes and nothing else |
| Stac.Item.EnableExtension | src/stactools/nrcan_landcover/stac.py:65 | lists the extension once, appended if it was absent |
| Stac.Item.SetProjectionEpsg | src/stactools/nrcan_landcover/stac.py:66 | sets the EPSG code once the projection extension is enabled |
| Stac.Item.AddAsset | src/stactools/nrcan_landcover/stac.py:69-77 | binds the key to the asset and leaves other assets as they were |
| Stac.BuildItem | src/stactools/nrcan_landcover/stac.py:46-89 | the item has an id from the title; the start year as datetime and start; end five years on; properties exactly {title, description}; projection EPSG 3978; and its assets |
| Stac.CreateItem | src/stactools/nrcan_landcover/stac.py:17-91 | fails exactly when the derivation fails, with its error. On success, the "metadata" asset is always present, and the "landcover" asset (roles ["data"]) is present if and only if `cog_href` is given |
| Stac.Collection.constructor | src/stactools/nrcan_landcover/stac.py:111-121 | a new collection holds the given identity, extent and catalog type, with no links |
| Stac.Collection.AddLink | src/stactools/nrcan_landcover/stac.py:122 | appends the link |
| Stac.CreateCollection | src/stactools/nrcan_landcover/stac.py:94-124 | fixed id, title, description, licence, provider and RELATIVE_PUBLISHED; extent equal to the item's bbox and `[start, start + 5]`; exactly the licence link |
| Extent.FeatureGeometries | src/stactools/nrcan_landcover/extent.py:13-21 | a document reads back as geometries exactly when it is a FeatureCollection of Features, one geometry per feature, in order |
| Extent.ExtentDocument | src/stactools/nrcan_landcover/extent.py:13-21 | no contract of its own: `Extent.ExtentRoundTrip` and `Extent.FeatureGeometries` state what the document holds |
| Extent.ExtentRoundTrip | src/stactools/nrcan_landcover/extent.py:13-21 | the document is a FeatureCollection with exactly one Feature; its geometry is the whole `geom_metadata` node and its properties are empty |
| Extent.CreateExtentAsset | src/stactools/nrcan_landcover/extent.py:10-21 | writes once, to `output_path`, a FeatureCollection whose only geometry is `geom_metadata` and whose feature has empty `properties` |
| Extent.ExtentReadsOnlyGeometry | src/stactools/nrcan_landcover/extent.py:18 | metadata agreeing on `geom_metadata` gives the same write |
| Extent.ExtentDeterminesGeometry | src/stactools/nrcan_landcover/extent.py:18 | equal writes imply equal geometry nodes: the node is copied unchanged |
| Cog.TranslateArgsShape | src/stactools/nrcan_landcover/cog.py:173-193 | 19 arguments: COG output, all six creation options, `-a_nodata str(NO_DATA_VALUE)`, then the source, then the destination; every other argument is fixed |
| Cog.TranslateArgs | src/stactools/nrcan_landcover/cog.py:173-193 | no contract of its own: `Cog.TranslateArgsShape` states its properties |
| Cog.RetileArgsShape | src/stactools/nrcan_landcover/cog.py:93-101 | the retiler gets the tile size and the target directory, and the input comes last |
| Cog.RetileArgs | src/stactools/nrcan_landcover/cog.py:93-101 | no contract of its own: `Cog.RetileArgsShape` states its properties |
| Cog.ScratchCopyKeepsName | src/stactools/nrcan_landcover/cog.py:160 | the coloured copy keeps the input's file name |
| Cog.ScratchCopy | src/stactools/nrcan_landcover/cog.py:160 | no contract of its own: `Cog.ScratchCopyKeepsName` states that the copy keeps the input's name |
| Cog.ColourAndConvert | src/stactools/nrcan_landcover/cog.py:154-209 | always copies first, then writes the colour map, then runs the converter only when not a dry run. It fails exactly on a copy or colour-map failure, or a converter failure under `raise_on_fail`, each with its own error; otherwise it returns `output_path` |
| Cog.CreateCog | src/stactools/nrcan_landcover/cog.py:134-209 | no contract of its own: it is `Cog.ColourAndConvert` with the coloured copy in its temporary directory, and `Cog.ScratchCopyKeepsName` says the copy keeps the input name |
| Cog.DryRunSkipsOnlyConverter | src/stactools/nrcan_landcover/cog.py:161-168 | a dry run attempts exactly what a real run attempts, minus the converter call |
| Cog.ConverterFailureRule | src/stactools/nrcan_landcover/cog.py:195-209 | a converter failure is re-raised if and only if `raise_on_fail`; swallowed, the call returns its path |
| Cog.UnguardedFailureIgnoresFlags | src/stactools/nrcan_landcover/cog.py:160-163 | a copy or colour-map failure escapes identically whatever the flags |
| Cog.ConverterReadsColouredCopy | src/stactools/nrcan_landcover/cog.py:160-193 | the converter reads the copy that got the colour map, writes the output, and is never passed the original input |
| Cog.DataTiles | src/stactools/nrcan_landcover/cog.py:115-118 | a tile is kept exactly when it is listed and some sample is non-zero |
| Cog.ContainsData | src/stactools/nrcan_landcover/cog.py:115-116 | no contract of its own: the `dataset.read().any()` test, by which `Cog.DataTiles` keeps a tile |
| Cog.TileInput | src/stactools/nrcan_landcover/cog.py:111 | no contract of its own: the path a tile is read and converted from, used by `Cog.TileReader` and `Cog.TileCog` |
| Cog.TileReader | src/stactools/nrcan_landcover/cog.py:115-116 | no contract of its own: the tile read that may raise; `Cog.SweepStopsAtFirstFailure` states that such a failure ends the loop |
| Cog.TileCog | src/stactools/nrcan_landcover/cog.py:120-121 | no contract of its own: `create_cog` for a data tile, whose effects `Cog.SweepConvertsDataTiles` and `Cog.RetiledConvertsDataTiles` state |
| Cog.TileStep | src/stactools/nrcan_landcover/cog.py:110-123 | no contract of its own: one iteration of the loop, whose properties `Cog.SweepConvertsDataTiles` and `Cog.SweepStopsAtFirstFailure` state through `Cog.SweepTiles` |
| Cog.SweepTiles | src/stactools/nrcan_landcover/cog.py:109-123 | no contract of its own: the specification of the tile loop; `Cog.SweepConvertsDataTiles`, `Cog.SweepStopsAtFirstFailure` and `Cog.SweepCompletes` state its properties, and `Cog.CreateRetiledCogs` is proved equal to it |
| Cog.SweepConvertsDataTiles | src/stactools/nrcan_landcover/cog.py:109-123 | the tiles converted are a prefix of the data tiles in listing order, and all of them when nothing raises, whether in a read or in a conversion; the effects are exactly those conversions |
| Cog.SweepStopsAtFirstFailure | src/stactools/nrcan_landcover/cog.py:109-129 | the loop stops at the first tile whose read raises or, for a tile with data, whose conversion raises, and it stops with that exception. It has then converted exactly the data tiles before that tile, plus the tile itself when only the conversion raised. With no such tile, nothing is raised |
| Cog.SweepCompletes | src/stactools/nrcan_landcover/cog.py:109-123 | when every tile reads and every data tile converts normally, the loop runs to the end |
| Cog.SwallowedConverterFailures | src/stactools/nrcan_landcover/cog.py:109-129 | with `raise_on_fail` false, converter failures do not stop the loop; only a failed tile read, copy or colour map can |
| Cog.RetiledPlan | src/stactools/nrcan_landcover/cog.py:82-131 | the retiler runs first; a normal return gives `output_directory`, and without `raise_on_fail` it always returns normally |
| Cog.RetiledRaiseRule | src/stactools/nrcan_landcover/cog.py:102-131 | the call raises if and only if `raise_on_fail` is set and either the retiler, a tile read or a tile conversion raised. The bare `raise` re-raises the original exception: the retiler's when it failed, else the first failing tile's |
| Cog.RetiledConvertsDataTiles | src/stactools/nrcan_landcover/cog.py:109-131 | after a successful retile with no raise, the effects are the retile followed by one conversion per data tile, in order |
| Cog.CreateRetiledCogs | src/stactools/nrcan_landcover/cog.py:63-131 | a dry run returns `output_directory` and attempts nothing. Otherwise the loop, with its tile reads and conversions, gives the result and effects of the retile-then-sweep specification |
| Cog.ConvertDownload | src/stactools/nrcan_landcover/cog.py:52-60 | an empty listing raises. Otherwise the LAST listed `.tif` is used: it is retiled, or `create_cog` converts it to `output_directory/<stem>_cog.tif` with the caller's `raise_on_fail`; the first effect is retiling it, or copying it for conversion |
| Cog.ConvertsLastTif | src/stactools/nrcan_landcover/cog.py:52-60 | without retiling, a normal return gives `output_directory/<stem>_cog.tif` for the last listed `.tif`, after copying it, colouring the copy and converting the copy into that path |
| Cog.SingleFileFailureRule | src/stactools/nrcan_landcover/cog.py:52-60 | without retiling, a converter failure on the last `.tif` is re-raised when `raise_on_fail` is set and swallowed otherwise, the call then returning the COG path |
| Cog.RetiledDownloadReturnsDirectory | src/stactools/nrcan_landcover/cog.py:53-55 | with retiling, a normal return gives `output_directory`, and without `raise_on_fail` the call always returns |
| Cog.FetchSteps | src/stactools/nrcan_landcover/cog.py:38-51 | fetch first, then write to the temporary file, then unzip for a ".zip" URL; each failure stops there with its exception and no later effect. After those steps succeed, the conversion's result comes through and its effects end the trace |
| Cog.UnzipExactlyForZip | src/stactools/nrcan_landcover/cog.py:48-51 | an unzip follows the write exactly when the URL ends in ".zip" |
| Cog.DownloadNamedAfterUrl | src/stactools/nrcan_landcover/cog.py:38 | the downloaded file is named after the URL's last "/" segment |
| Cog.DownloadTarget | src/stactools/nrcan_landcover/cog.py:38 | no contract of its own: `Cog.DownloadNamedAfterUrl` states that the target is named after the URL |
| Cog.FetchAndConvert | src/stactools/nrcan_landcover/cog.py:36-60 | no contract of its own: `Cog.FetchSteps` applied to `Cog.ConvertDownload`, whose contracts state it; `Cog.DownloadCreateCog` names it for the access URL |
| Cog.DownloadCreateCog | src/stactools/nrcan_landcover/cog.py:23-60 | a dry run returns at once. Otherwise the metadata load comes first in the trace, and a load, selection or access-URL error stops there; else the access URL is fetched and converted, and its effects follow the load |
| Cog.DryRunDoesNothing | src/stactools/nrcan_landcover/cog.py:30-32 | a dry run returns `output_directory` and attempts nothing, whatever the world holds |

## Left out

- I/O: HTTP requests, file reads and writes, zip extraction, `glob` listings, rasterio reads and `copyfile`. The oracle `Io.Env` answers each one. Its answers are whether the operation fails, the decoded documents, the directory listings and the tile samples. A `glob` listing cannot fail. Reads of local files may fail but are not recorded in the trace.
- `TemporaryDirectory` and `mkdtemp` are `Env` fields naming the directory. Their clean-up, and `remove_asset_package`'s `rmtree`, are not modelled.
- JSON decoding failures are not modelled. The documents arrive already decoded, and the geometry arrives as parsed coordinates; the `json.loads` of `@value` is not modelled.
- The JSON text `json.dumps` produces is not modelled; the extent write is modelled as the document it serialises.
- A failure of the extent write is not modelled.
- GDAL: `gdal_translate` and `gdal_retile.py` are modelled only as argument vectors that may fail. What they write is not modelled.
- Logging is not modelled.
- pystac internals, `normalize_hrefs`, `save` and `validate` are not modelled. The Item and Collection hold only the fields `create_item` and `create_collection` set.
- Library calls:
  - pyproj `CRS` is not modelled; only the EPSG integer is.
  - pytz and dateutil are not modelled; datetimes are integer years, each meaning Jan 1, 00:00 UTC.
  - shapely is not modelled. `Polygon.bounds` is modelled as min and max over the exterior ring. shapely's refusal of a ring that does not close to a linear ring is modelled: a ring of one or two positions, or of three whose first and last positions coincide (shapely closes an open ring, then needs four positions). Its other validity checks are not.
  - The Provider and Link objects are records of their literal fields.
- Stac.ExteriorBounds: an empty exterior ring (`coordinates == [[]]`) is refused with `BadGeometry`. shapely would instead build the empty polygon, whose `bounds` hold no numbers; the model has no such box, since its coordinates are reals with no NaN.
- `Stac.DatasetYear`: `strptime`'s acceptance of non-ASCII digits is not modelled. Only ASCII digits are treated as digits.
- The click command line (`commands.py`) and the plugin registration (`__init__.py`) are not part of this model; the command line's call of `create_item` with four arguments is therefore not modelled either.
- `_unzip_dir` is not a member of its own. It is the `Unzip` effect inside `Utils.DownloadAssetPackage`.
