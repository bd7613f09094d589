/**
 * The COG pipeline of `cog.py`: converter and retiler argument vectors, the
 * copy-colormap-convert sequence of `create_cog` with its `raise_on_fail`
 * rule, the empty-tile filter of `create_retiled_cogs`, and the download
 * driver `download_create_cog`. GDAL and rasterio answer through `Io.Env`.
 */
module Cog {
  import opened Io
  import opened Strings
  import Paths
  import Constants
  import Utils

  /** `NO_DATA_VALUE` and `TILING_PIXEL_SIZE`, which the package imports but never defines. */
  datatype Settings = Settings(noDataValue: int, tileWidth: int, tileHeight: int)

  /** `flag value` appears as two consecutive arguments. */
  predicate PassesOption(argv: seq<string>, flag: string, value: string) {
    exists i :: 0 <= i < |argv| - 1 && argv[i] == flag && argv[i + 1] == value
  }

  const CreationOptions: seq<string> :=
    ["NUM_THREADS=ALL_CPUS", "BLOCKSIZE=512", "COMPRESS=DEFLATE", "LEVEL=9", "PREDICTOR=YES", "OVERVIEWS=IGNORE_EXISTING"]

  /** The arguments of the converter call that are neither the nodata value nor a path. */
  const FixedTranslateArgs: set<string> :=
    {"gdal_translate", "-of", "COG", "-co", "-a_nodata"} + set o | o in CreationOptions

  /** The `gdal_translate` call of `create_cog`, reading `source` and writing `dest`. */
  function TranslateArgs(s: Settings, source: string, dest: string): seq<string> {
    ["gdal_translate", "-of", "COG",
     "-co", "NUM_THREADS=ALL_CPUS", "-co", "BLOCKSIZE=512", "-co", "COMPRESS=DEFLATE",
     "-co", "LEVEL=9", "-co", "PREDICTOR=YES", "-co", "OVERVIEWS=IGNORE_EXISTING",
     "-a_nodata", IntToString(s.noDataValue), source, dest]
  }

  /**
   * The converter call writes a COG with every creation option, marks the
   * configured nodata value, reads `source` and writes `dest`; every other
   * argument is fixed.
   */
  lemma TranslateArgsShape(s: Settings, source: string, dest: string)
    ensures var argv := TranslateArgs(s, source, dest);
            && |argv| == 19 && argv[0] == "gdal_translate"
            && PassesOption(argv, "-of", "COG")
            && (forall o :: o in CreationOptions ==> PassesOption(argv, "-co", o))
            && PassesOption(argv, "-a_nodata", IntToString(s.noDataValue))
            && argv[17] == source && argv[18] == dest
            && (forall k :: 0 <= k < 17 ==> argv[k] in FixedTranslateArgs || argv[k] == IntToString(s.noDataValue))
  {
    var argv := TranslateArgs(s, source, dest);
    assert argv[1] == "-of" && argv[2] == "COG";
    assert argv[15] == "-a_nodata" && argv[16] == IntToString(s.noDataValue);
    assert forall k :: 0 <= k < |CreationOptions| ==> argv[3 + 2 * k] == "-co" && argv[4 + 2 * k] == CreationOptions[k];
  }

  /** The `gdal_retile.py` call of `create_retiled_cogs`, writing tiles of the configured size into `targetDir`. */
  function RetileArgs(s: Settings, targetDir: string, input: string): seq<string> {
    ["gdal_retile.py", "-ps", IntToString(s.tileWidth), IntToString(s.tileHeight), "-targetDir", targetDir, input]
  }

  /** The retiler gets the tile size, the target directory and, last, the input. */
  lemma RetileArgsShape(s: Settings, targetDir: string, input: string)
    ensures var argv := RetileArgs(s, targetDir, input);
            && |argv| == 7 && argv[0] == "gdal_retile.py"
            && PassesOption(argv, "-ps", IntToString(s.tileWidth)) && argv[3] == IntToString(s.tileHeight)
            && PassesOption(argv, "-targetDir", targetDir)
            && argv[|argv| - 1] == input
  {
    var argv := RetileArgs(s, targetDir, input);
    assert argv[1] == "-ps" && argv[2] == IntToString(s.tileWidth);
    assert argv[4] == "-targetDir" && argv[5] == targetDir;
  }

  /** `os.path.join(tmp_dir, os.path.basename(input_path))`: the copy that gets the colour map. */
  function ScratchCopy(env: Env, input: string): string {
    Paths.Join(env.cogScratch(input), Paths.Basename(input))
  }

  /** The coloured copy keeps the input's file name. */
  lemma ScratchCopyKeepsName(env: Env, input: string)
    ensures Paths.Basename(ScratchCopy(env, input)) == Paths.Basename(input)
  {
    Paths.BasenameOfJoin(env.cogScratch(input), Paths.Basename(input));
  }

  /**
   * `create_cog(input_path, output_path, raise_on_fail, dry_run)` once the
   * coloured copy's path `tmp` is chosen. The copy and the colour map lie
   * outside the guarded block, so their failures escape whatever the flags
   * say, and they happen even in a dry run; only the converter is skipped by
   * `dry_run`, and only its failure is subject to `raise_on_fail`.
   */
  function ColourAndConvert(s: Settings, env: Env, input: string, tmp: string, output: string, raiseOnFail: bool, dryRun: bool)
    : (r: Utils.Attempt)
    ensures r.result.Ok? ==> r.result.value == output
    ensures 1 <= |r.trace| <= 3 && r.trace[0] == Copy(input, tmp)
    ensures env.copyFails(input) ==> r == Utils.Attempt(Err(CopyFailed(input)), [Copy(input, tmp)])
    ensures !env.copyFails(input) ==> |r.trace| >= 2 && r.trace[1] == WriteColormap(tmp, 1, Constants.ColourMap)
    ensures !env.copyFails(input) && env.colormapFails(tmp) ==> r.result == Err(ColormapFailed(tmp))
    ensures |r.trace| == 3 <==> !dryRun && !env.copyFails(input) && !env.colormapFails(tmp)
    ensures |r.trace| == 3 ==> r.trace[2] == Run(TranslateArgs(s, tmp, output))
    ensures r.result.Err? <==>
              (|| env.copyFails(input)
               || env.colormapFails(tmp)
               || (!dryRun && raiseOnFail && env.runFails(TranslateArgs(s, tmp, output))))
  {
    var copy := Copy(input, tmp);
    var colour := WriteColormap(tmp, 1, Constants.ColourMap);
    if env.copyFails(input) then Utils.Attempt(Err(CopyFailed(input)), [copy])
    else if env.colormapFails(tmp) then Utils.Attempt(Err(ColormapFailed(tmp)), [copy, colour])
    else if dryRun then Utils.Attempt(Ok(output), [copy, colour])
    else
      var cmd := TranslateArgs(s, tmp, output);
      if env.runFails(cmd) && raiseOnFail then Utils.Attempt(Err(CommandFailed(cmd)), [copy, colour, Run(cmd)])
      else Utils.Attempt(Ok(output), [copy, colour, Run(cmd)])
  }

  /** `create_cog`, with the coloured copy in its temporary directory under the input's file name. */
  function CreateCog(s: Settings, env: Env, input: string, output: string, raiseOnFail: bool, dryRun: bool): Utils.Attempt {
    ColourAndConvert(s, env, input, ScratchCopy(env, input), output, raiseOnFail, dryRun)
  }

  /** A dry run attempts exactly what a real run attempts, minus the converter call. */
  lemma DryRunSkipsOnlyConverter(s: Settings, env: Env, input: string, tmp: string, output: string, raiseOnFail: bool)
    ensures var full := ColourAndConvert(s, env, input, tmp, output, raiseOnFail, false).trace;
            ColourAndConvert(s, env, input, tmp, output, raiseOnFail, true).trace == full[..if |full| == 3 then 2 else |full|]
  {
  }

  /** A converter failure is re-raised if and only if `raise_on_fail`; swallowed, the call still returns its path. */
  lemma ConverterFailureRule(s: Settings, env: Env, input: string, tmp: string, output: string)
    requires !env.copyFails(input) && !env.colormapFails(tmp)
    requires env.runFails(TranslateArgs(s, tmp, output))
    ensures ColourAndConvert(s, env, input, tmp, output, true, false).result == Err(CommandFailed(TranslateArgs(s, tmp, output)))
    ensures ColourAndConvert(s, env, input, tmp, output, false, false).result == Ok(output)
  {
  }

  /** A failed copy or colour-map write escapes with the same error whatever the flags. */
  lemma UnguardedFailureIgnoresFlags(s: Settings, env: Env, input: string, tmp: string, output: string,
                                     raise1: bool, dry1: bool, raise2: bool, dry2: bool)
    requires env.copyFails(input) || env.colormapFails(tmp)
    ensures ColourAndConvert(s, env, input, tmp, output, raise1, dry1) == ColourAndConvert(s, env, input, tmp, output, raise2, dry2)
    ensures ColourAndConvert(s, env, input, tmp, output, raise1, dry1).result.Err?
  {
  }

  /** The converter reads the coloured copy, never the original input, and writes `output`. */
  lemma ConverterReadsColouredCopy(s: Settings, env: Env, input: string, tmp: string, output: string, raiseOnFail: bool)
    requires input != tmp && input != output
    requires input !in FixedTranslateArgs && input != IntToString(s.noDataValue)
    requires !env.copyFails(input) && !env.colormapFails(tmp)
    ensures var t := ColourAndConvert(s, env, input, tmp, output, raiseOnFail, false).trace;
            && |t| == 3 && t[2].Run?
            && t[2].argv[17] == t[0].target == t[1].path
            && t[2].argv[18] == output
            && input !in t[2].argv
  {
    var argv := TranslateArgs(s, tmp, output);
    TranslateArgsShape(s, tmp, output);
    forall k | 0 <= k < |argv| ensures argv[k] != input {
      if k < 17 {
        assert argv[k] in FixedTranslateArgs || argv[k] == IntToString(s.noDataValue);
      }
    }
  }

  /** `dataset.read().any()`: some sample of some band is non-zero. */
  predicate ContainsData(samples: seq<int>) {
    exists i :: 0 <= i < |samples| && samples[i] != 0
  }

  /** The tiles worth converting, in listing order. */
  function DataTiles(tiles: seq<Tile>): (r: seq<Tile>)
    ensures |r| <= |tiles|
    ensures forall t :: t in r <==> t in tiles && ContainsData(t.samples)
  {
    if tiles == [] then []
    else if ContainsData(tiles[0].samples) then [tiles[0]] + DataTiles(tiles[1..])
    else DataTiles(tiles[1..])
  }

  /** `os.path.join(tmp_dir, f)` for a listed tile. */
  function TileInput(env: Env, t: Tile): string {
    Paths.Join(env.retileDir, t.path)
  }

  /** The `create_cog` call made for a tile with data; `dry_run` is false on this path. */
  function TileCog(s: Settings, env: Env, outDir: string, raiseOnFail: bool, t: Tile): Utils.Attempt {
    CreateCog(s, env, TileInput(env, t), Paths.CogOutputPath(outDir, t.path), raiseOnFail, false)
  }

  /** `rasterio.open(input_file)` and `dataset.read()` for a listed tile: the exception they raise, if any. */
  function TileReader(env: Env): Tile -> Option<Error> {
    t => if env.readFails(TileInput(env, t)) then Some(ReadFailed(TileInput(env, t))) else None
  }

  /** `TileCog` for fixed settings, world, directory and flag. */
  function TileConverter(s: Settings, env: Env, outDir: string, raiseOnFail: bool): Tile -> Utils.Attempt {
    t => TileCog(s, env, outDir, raiseOnFail, t)
  }

  /** Progress through the tile list: tiles handed to `create_cog`, effects so far, and the exception that ended the loop. */
  datatype Sweep = Sweep(converted: seq<Tile>, trace: seq<Effect>, failure: Option<Error>)

  const NoProgress: Sweep := Sweep([], [], None)

  /** Run `b` after `a`, unless `a` ended in an exception. */
  function Then(a: Sweep, b: Sweep): Sweep {
    if a.failure.Some? then a else Sweep(a.converted + b.converted, a.trace + b.trace, b.failure)
  }

  lemma ThenAssociative(a: Sweep, b: Sweep, c: Sweep)
    ensures Then(Then(a, b), c) == Then(a, Then(b, c))
  {
    if a.failure.None? && b.failure.None? {
      assert (a.converted + b.converted) + c.converted == a.converted + (b.converted + c.converted);
      assert (a.trace + b.trace) + c.trace == a.trace + (b.trace + c.trace);
    }
  }

  lemma ThenNoProgress(a: Sweep)
    ensures Then(a, NoProgress) == a
  {
    if a.failure.None? {
      assert a.converted + [] == a.converted;
      assert a.trace + [] == a.trace;
    }
  }

  lemma NoProgressThen(b: Sweep)
    ensures Then(NoProgress, b) == b
  {
    assert [] + b.converted == b.converted;
    assert [] + b.trace == b.trace;
  }

  /** One iteration of the tile loop: read the tile (which may raise), skip it if empty, otherwise convert it. */
  function TileStep(readFailure: Tile -> Option<Error>, convert: Tile -> Utils.Attempt, t: Tile): Sweep {
    if readFailure(t).Some? then Sweep([], [], readFailure(t))
    else if !ContainsData(t.samples) then NoProgress
    else
      var a := convert(t);
      Sweep([t], a.trace, if a.result.Err? then Some(a.result.error) else None)
  }

  /** The whole tile loop: every step in listing order, up to the first conversion that raises. */
  function SweepTiles(readFailure: Tile -> Option<Error>, convert: Tile -> Utils.Attempt, tiles: seq<Tile>): Sweep
    decreases |tiles|
  {
    if tiles == [] then NoProgress
    else Then(TileStep(readFailure, convert, tiles[0]), SweepTiles(readFailure, convert, tiles[1..]))
  }

  /** The effects of converting `tiles`, one call after another. */
  function CogTraces(convert: Tile -> Utils.Attempt, tiles: seq<Tile>): seq<Effect> {
    if tiles == [] then []
    else convert(tiles[0]).trace + CogTraces(convert, tiles[1..])
  }

  predicate IsPrefix<T(==)>(p: seq<T>, s: seq<T>) {
    |p| <= |s| && s[..|p|] == p
  }

  /**
   * Conversion is attempted for the tiles with data in listing order, all of
   * them unless the loop raises, and the effects are exactly those calls' effects.
   */
  lemma {:induction false} SweepConvertsDataTiles(readFailure: Tile -> Option<Error>, convert: Tile -> Utils.Attempt, tiles: seq<Tile>)
    ensures var sw := SweepTiles(readFailure, convert, tiles);
            && IsPrefix(sw.converted, DataTiles(tiles))
            && (sw.failure.None? ==> sw.converted == DataTiles(tiles))
            && sw.trace == CogTraces(convert, sw.converted)
    decreases |tiles|
  {
    if tiles != [] {
      SweepConvertsDataTiles(readFailure, convert, tiles[1..]);
      var t := tiles[0];
      var rest := SweepTiles(readFailure, convert, tiles[1..]);
      var sw := SweepTiles(readFailure, convert, tiles);
      if readFailure(t).Some? {
        assert sw.converted == [];
      } else if ContainsData(t.samples) {
        assert DataTiles(tiles) == [t] + DataTiles(tiles[1..]);
        if convert(t).result.Err? {
          assert sw.converted == [t];
          assert CogTraces(convert, [t]) == convert(t).trace + [];
        } else {
          assert sw.converted == [t] + rest.converted;
          assert ([t] + rest.converted)[1..] == rest.converted;
        }
      } else {
        NoProgressThen(rest);
      }
    }
  }

  /** The tiles at which the loop stops: one whose read raises, or one with data whose conversion raises. */
  function StopsAt(readFailure: Tile -> Option<Error>, convert: Tile -> Utils.Attempt): Tile -> bool {
    t => readFailure(t).Some? || (ContainsData(t.samples) && convert(t).result.Err?)
  }

  /** The exception a stopping tile raises: its read's, else its conversion's. */
  function StopError(readFailure: Tile -> Option<Error>, convert: Tile -> Utils.Attempt, t: Tile): Error
    requires StopsAt(readFailure, convert)(t)
  {
    if readFailure(t).Some? then readFailure(t).value else convert(t).result.error
  }

  /**
   * `sw` stopped where `tiles` says it must: at the first stopping tile, with
   * its exception, having converted exactly the data tiles before it (and the
   * stopping tile itself when only its conversion raised); with no stopping
   * tile, it raised nothing.
   */
  predicate StoppedAtFirst(readFailure: Tile -> Option<Error>, convert: Tile -> Utils.Attempt, tiles: seq<Tile>, sw: Sweep) {
    match Utils.FirstIndex(tiles, StopsAt(readFailure, convert))
    case None => sw.failure.None?
    case Some(k) =>
      && sw.failure == Some(StopError(readFailure, convert, tiles[k]))
      && sw.converted == DataTiles(tiles[..k]) + (if readFailure(tiles[k]).Some? then [] else [tiles[k]])
  }

  /** Past a tile that does not stop the loop: its conversion, if any, is prepended and the outcome is the rest's. */
  lemma SweepPastTile(readFailure: Tile -> Option<Error>, convert: Tile -> Utils.Attempt, tiles: seq<Tile>)
    requires tiles != [] && !StopsAt(readFailure, convert)(tiles[0])
    ensures var rest := SweepTiles(readFailure, convert, tiles[1..]);
            var sw := SweepTiles(readFailure, convert, tiles);
            && sw.failure == rest.failure
            && sw.converted == (if ContainsData(tiles[0].samples) then [tiles[0]] else []) + rest.converted
  {
    var rest := SweepTiles(readFailure, convert, tiles[1..]);
    if !ContainsData(tiles[0].samples) {
      NoProgressThen(rest);
    }
  }

  /** Stopping where `tiles[1..]` says carries over to `tiles` past a non-stopping first tile. */
  lemma StoppedAtFirstShift(readFailure: Tile -> Option<Error>, convert: Tile -> Utils.Attempt, tiles: seq<Tile>, rest: Sweep, sw: Sweep)
    requires tiles != [] && !StopsAt(readFailure, convert)(tiles[0])
    requires StoppedAtFirst(readFailure, convert, tiles[1..], rest)
    requires sw.failure == rest.failure
    requires sw.converted == (if ContainsData(tiles[0].samples) then [tiles[0]] else []) + rest.converted
    ensures StoppedAtFirst(readFailure, convert, tiles, sw)
  {
    var p := StopsAt(readFailure, convert);
    Utils.FirstIndexPastHead(tiles, p);
    match Utils.FirstIndex(tiles[1..], p)
    case None =>
    case Some(j) =>
      assert tiles[1..][j] == tiles[j + 1];
      DataTilesPrefixCons(tiles, j);
  }

  /** The data tiles of a non-empty prefix: the first tile's, then those of the rest of the prefix. */
  lemma DataTilesPrefixCons(tiles: seq<Tile>, j: nat)
    requires j < |tiles|
    ensures DataTiles(tiles[..j + 1]) == (if ContainsData(tiles[0].samples) then [tiles[0]] else []) + DataTiles(tiles[1..][..j])
  {
    var pre := tiles[..j + 1];
    assert pre[0] == tiles[0];
    assert pre[1..] == tiles[1..][..j];
  }

  /** The loop stops at the first tile whose read or conversion raises, with that exception, or runs to the end. */
  lemma {:induction false} SweepStopsAtFirstFailure(readFailure: Tile -> Option<Error>, convert: Tile -> Utils.Attempt, tiles: seq<Tile>)
    ensures StoppedAtFirst(readFailure, convert, tiles, SweepTiles(readFailure, convert, tiles))
    decreases |tiles|
  {
    if tiles != [] {
      var p := StopsAt(readFailure, convert);
      if p(tiles[0]) {
        assert Utils.FirstIndex(tiles, p) == Some(0);
        assert tiles[..0] == [];
      } else {
        SweepStopsAtFirstFailure(readFailure, convert, tiles[1..]);
        SweepPastTile(readFailure, convert, tiles);
        StoppedAtFirstShift(readFailure, convert, tiles, SweepTiles(readFailure, convert, tiles[1..]), SweepTiles(readFailure, convert, tiles));
      }
    }
  }

  /** When no tile's read raises and every tile with data converts normally, the loop runs to the end. */
  lemma {:induction false} SweepCompletes(readFailure: Tile -> Option<Error>, convert: Tile -> Utils.Attempt, tiles: seq<Tile>)
    requires forall t :: t in tiles ==> readFailure(t).None?
    requires forall t :: t in tiles && ContainsData(t.samples) ==> convert(t).result.Ok?
    ensures SweepTiles(readFailure, convert, tiles).failure.None?
    decreases |tiles|
  {
    if tiles != [] {
      SweepCompletes(readFailure, convert, tiles[1..]);
      assert tiles[0] in tiles;
      if !ContainsData(tiles[0].samples) {
        NoProgressThen(SweepTiles(readFailure, convert, tiles[1..]));
      }
    }
  }

  /**
   * With `raise_on_fail` false a converter failure is swallowed inside
   * `create_cog`, so only an unreadable tile, a failed copy or a failed
   * colour map can end the loop early.
   */
  lemma SwallowedConverterFailures(s: Settings, env: Env, outDir: string, tiles: seq<Tile>)
    requires forall t :: t in tiles ==> !env.readFails(TileInput(env, t))
    requires forall t :: t in tiles ==> (!env.copyFails(TileInput(env, t))
                                         && !env.colormapFails(ScratchCopy(env, TileInput(env, t))))
    ensures SweepTiles(TileReader(env), TileConverter(s, env, outDir, false), tiles).failure.None?
  {
    var convert := TileConverter(s, env, outDir, false);
    forall t | t in tiles && ContainsData(t.samples) ensures convert(t).result.Ok? {
      assert convert(t) == TileCog(s, env, outDir, false, t);
    }
    SweepCompletes(TileReader(env), convert, tiles);
  }

  /**
   * `create_retiled_cogs` once past the dry-run check: retile, then sweep the
   * listed tiles. Any exception reaches the outer handler, which re-raises
   * it only under `raise_on_fail`; otherwise the directory is returned.
   */
  function RetiledPlan(s: Settings, env: Env, input: string, outDir: string, raiseOnFail: bool): (r: Utils.Attempt)
    ensures |r.trace| >= 1 && r.trace[0] == Run(RetileArgs(s, env.retileDir, input))
    ensures r.result.Ok? ==> r.result.value == outDir
    ensures !raiseOnFail ==> r.result == Ok(outDir)
  {
    var cmd := RetileArgs(s, env.retileDir, input);
    if env.runFails(cmd) then
      Utils.Attempt(if raiseOnFail then Err(CommandFailed(cmd)) else Ok(outDir), [Run(cmd)])
    else
      var sw := SweepTiles(TileReader(env), TileConverter(s, env, outDir, raiseOnFail), env.retiledTiles);
      Utils.Attempt(if sw.failure.Some? && raiseOnFail then Err(sw.failure.value) else Ok(outDir), [Run(cmd)] + sw.trace)
  }

  /** An exception from the retiler, a tile read or a tile conversion is re-raised if and only if `raise_on_fail` is set. */
  lemma RetiledRaiseRule(s: Settings, env: Env, input: string, outDir: string)
    ensures var cmd := RetileArgs(s, env.retileDir, input);
            var failed := env.runFails(cmd) || SweepTiles(TileReader(env), TileConverter(s, env, outDir, true), env.retiledTiles).failure.Some?;
            RetiledPlan(s, env, input, outDir, true).result.Err? <==> failed
    ensures var cmd := RetileArgs(s, env.retileDir, input);
            var r := RetiledPlan(s, env, input, outDir, true).result;
            r.Err? ==> r.error == (if env.runFails(cmd) then CommandFailed(cmd)
                                   else SweepTiles(TileReader(env), TileConverter(s, env, outDir, true), env.retiledTiles).failure.value)
    ensures RetiledPlan(s, env, input, outDir, false).result == Ok(outDir)
  {
  }

  /** After a successful retile with no exception, the converted tiles are the data tiles and the effects are their conversions. */
  lemma RetiledConvertsDataTiles(s: Settings, env: Env, input: string, outDir: string, raiseOnFail: bool)
    requires !env.runFails(RetileArgs(s, env.retileDir, input))
    requires SweepTiles(TileReader(env), TileConverter(s, env, outDir, raiseOnFail), env.retiledTiles).failure.None?
    ensures RetiledPlan(s, env, input, outDir, raiseOnFail)
            == Utils.Attempt(Ok(outDir), [Run(RetileArgs(s, env.retileDir, input))]
                                         + CogTraces(TileConverter(s, env, outDir, raiseOnFail), DataTiles(env.retiledTiles)))
  {
    SweepConvertsDataTiles(TileReader(env), TileConverter(s, env, outDir, raiseOnFail), env.retiledTiles);
  }

  /** `create_retiled_cogs(input_path, output_directory, raise_on_fail, dry_run)` */
  method CreateRetiledCogs(s: Settings, env: Env, input: string, outDir: string, raiseOnFail: bool, dryRun: bool)
    returns (r: Result<string>, trace: seq<Effect>)
    ensures dryRun ==> r == Ok(outDir) && trace == []
    ensures !dryRun ==> Utils.Attempt(r, trace) == RetiledPlan(s, env, input, outDir, raiseOnFail)
    ensures r.Ok? ==> r.value == outDir
  {
    if dryRun {
      return Ok(outDir), [];
    }
    var cmd := RetileArgs(s, env.retileDir, input);
    trace := [Run(cmd)];
    if env.runFails(cmd) {
      r := if raiseOnFail then Err(CommandFailed(cmd)) else Ok(outDir);
      return;
    }
    var files := env.retiledTiles;
    ghost var reader := TileReader(env);
    ghost var convert := TileConverter(s, env, outDir, raiseOnFail);
    ghost var whole := SweepTiles(reader, convert, files);
    var converted: seq<Tile> := [];
    var done: seq<Effect> := [];
    var failure: Option<Error> := None;
    var i := 0;
    while i < |files| && failure.None?
      invariant 0 <= i <= |files|
      invariant Then(Sweep(converted, done, failure), SweepTiles(reader, convert, files[i..])) == whole
    {
      var t := files[i];
      assert files[i..][1..] == files[i + 1..];
      ThenAssociative(Sweep(converted, done, failure), TileStep(reader, convert, t), SweepTiles(reader, convert, files[i + 1..]));
      var tileInput := TileInput(env, t);
      if env.readFails(tileInput) {
        assert reader(t) == Some(ReadFailed(tileInput));
        assert converted + [] == converted && done + [] == done;
        failure := Some(ReadFailed(tileInput));
      } else if ContainsData(t.samples) {
        var a := CreateCog(s, env, tileInput, Paths.CogOutputPath(outDir, t.path), raiseOnFail, false);
        assert a == convert(t);
        converted := converted + [t];
        done := done + a.trace;
        if a.result.Err? {
          failure := Some(a.result.error);
        }
      } else {
        assert converted + [] == converted && done + [] == done;
      }
      i := i + 1;
    }
    if i == |files| {
      assert files[i..] == [];
      ThenNoProgress(Sweep(converted, done, failure));
    }
    assert Sweep(converted, done, failure) == whole;
    trace := trace + done;
    r := if failure.Some? && raiseOnFail then Err(failure.value) else Ok(outDir);
  }

  /**
   * The end of `download_create_cog`: `glob(...).pop()` takes the last
   * listed ".tif" (an empty listing raises), which is retiled, or converted
   * to `output_directory/<stem>_cog.tif`.
   */
  function ConvertDownload(s: Settings, env: Env, outDir: string, retile: bool, raiseOnFail: bool): (r: Utils.Attempt)
    ensures env.downloadedTifs == [] ==> r == Utils.Attempt(Err(NoTiffFound), [])
    ensures env.downloadedTifs != [] ==>
              var last := env.downloadedTifs[|env.downloadedTifs| - 1];
              && |r.trace| > 0
              && r.trace[0] == (if retile then Run(RetileArgs(s, env.retileDir, last)) else Copy(last, ScratchCopy(env, last)))
    ensures env.downloadedTifs != [] ==>
              var last := env.downloadedTifs[|env.downloadedTifs| - 1];
              r == (if retile then RetiledPlan(s, env, last, outDir, raiseOnFail)
                    else CreateCog(s, env, last, Paths.CogOutputPath(outDir, last), raiseOnFail, false))
  {
    if env.downloadedTifs == [] then Utils.Attempt(Err(NoTiffFound), [])
    else
      var file := env.downloadedTifs[|env.downloadedTifs| - 1];
      if retile then RetiledPlan(s, env, file, outDir, raiseOnFail)
      else CreateCog(s, env, file, Paths.CogOutputPath(outDir, file), raiseOnFail, false)
  }

  /** Without retiling, the last listed ".tif" is converted to `output_directory/<stem>_cog.tif`, which is returned. */
  lemma ConvertsLastTif(s: Settings, env: Env, outDir: string, raiseOnFail: bool)
    requires ConvertDownload(s, env, outDir, false, raiseOnFail).result.Ok?
    ensures env.downloadedTifs != []
    ensures var file := env.downloadedTifs[|env.downloadedTifs| - 1];
            var a := ConvertDownload(s, env, outDir, false, raiseOnFail);
            && a.result.value == Paths.CogOutputPath(outDir, file)
            && EndsWith(a.result.value, "_cog.tif")
            && a.trace[0] == Copy(file, ScratchCopy(env, file))
    ensures var file := env.downloadedTifs[|env.downloadedTifs| - 1];
            var tmp := ScratchCopy(env, file);
            ConvertDownload(s, env, outDir, false, raiseOnFail).trace
              == [Copy(file, tmp), WriteColormap(tmp, 1, Constants.ColourMap), Run(TranslateArgs(s, tmp, Paths.CogOutputPath(outDir, file)))]
  {
    var file := env.downloadedTifs[|env.downloadedTifs| - 1];
    var tmp := ScratchCopy(env, file);
    var output := Paths.CogOutputPath(outDir, file);
    var a := ColourAndConvert(s, env, file, tmp, output, raiseOnFail, false);
    assert ConvertDownload(s, env, outDir, false, raiseOnFail) == a;
    assert |a.trace| == 3;
    assert a.trace == [a.trace[0], a.trace[1], a.trace[2]];
    Paths.CogOutputPathShape(outDir, file);
  }

  /**
   * Without retiling, `raise_on_fail` reaches the converter of the last ".tif":
   * its failure is re-raised when the flag is set and swallowed otherwise.
   */
  lemma SingleFileFailureRule(s: Settings, env: Env, outDir: string)
    requires env.downloadedTifs != []
    requires var file := env.downloadedTifs[|env.downloadedTifs| - 1];
             var tmp := ScratchCopy(env, file);
             && !env.copyFails(file) && !env.colormapFails(tmp)
             && env.runFails(TranslateArgs(s, tmp, Paths.CogOutputPath(outDir, file)))
    ensures var file := env.downloadedTifs[|env.downloadedTifs| - 1];
            var cmd := TranslateArgs(s, ScratchCopy(env, file), Paths.CogOutputPath(outDir, file));
            && ConvertDownload(s, env, outDir, false, true).result == Err(CommandFailed(cmd))
            && ConvertDownload(s, env, outDir, false, false).result == Ok(Paths.CogOutputPath(outDir, file))
  {
  }

  /** With retiling, a normal return always gives back `output_directory`, and with `raise_on_fail` false it always returns. */
  lemma RetiledDownloadReturnsDirectory(s: Settings, env: Env, outDir: string, raiseOnFail: bool)
    requires env.downloadedTifs != []
    ensures var r := ConvertDownload(s, env, outDir, true, raiseOnFail).result;
            && (r.Ok? ==> r.value == outDir)
            && (!raiseOnFail ==> r == Ok(outDir))
  {
  }

  /** `os.path.join(tmp_dir, access_url.split('/').pop())`: where the downloaded body is written. */
  function DownloadTarget(env: Env, url: string): string {
    Paths.Join(env.downloadDir, LastSegment(url, '/'))
  }

  /**
   * The middle of `download_create_cog`: fetch `url`, write the body to
   * `tmpFile`, unzip it into the download directory when the URL ends in
   * ".zip", then carry on with `convert`.
   */
  function FetchSteps(env: Env, url: string, tmpFile: string, convert: Utils.Attempt): (r: Utils.Attempt)
    ensures |r.trace| >= 1 && r.trace[0] == Fetch(url)
    ensures env.fetchFails(url) ==> r == Utils.Attempt(Err(FetchFailed(url)), [Fetch(url)])
    ensures !env.fetchFails(url) ==> |r.trace| >= 2 && r.trace[1] == WriteFile(tmpFile)
    ensures !env.fetchFails(url) && env.writeFails(tmpFile) ==> r == Utils.Attempt(Err(WriteFailed(tmpFile)), [Fetch(url), WriteFile(tmpFile)])
    ensures !env.fetchFails(url) && !env.writeFails(tmpFile) && EndsWith(url, ".zip") && env.unzipFails(tmpFile) ==>
              r == Utils.Attempt(Err(UnzipFailed(tmpFile)), [Fetch(url), WriteFile(tmpFile), Unzip(tmpFile, env.downloadDir)])
    ensures !env.fetchFails(url) && !env.writeFails(tmpFile) && !(EndsWith(url, ".zip") && env.unzipFails(tmpFile)) ==>
              && r.result == convert.result
              && |r.trace| == (if EndsWith(url, ".zip") then 3 else 2) + |convert.trace|
              && r.trace[|r.trace| - |convert.trace|..] == convert.trace
    ensures r.result.Ok? ==> r.result == convert.result
  {
    if env.fetchFails(url) then Utils.Attempt(Err(FetchFailed(url)), [Fetch(url)])
    else if env.writeFails(tmpFile) then Utils.Attempt(Err(WriteFailed(tmpFile)), [Fetch(url), WriteFile(tmpFile)])
    else
      var zipped := EndsWith(url, ".zip");
      var unzip := Unzip(tmpFile, env.downloadDir);
      if zipped && env.unzipFails(tmpFile) then
        Utils.Attempt(Err(UnzipFailed(tmpFile)), [Fetch(url), WriteFile(tmpFile), unzip])
      else
        var fetched := [Fetch(url), WriteFile(tmpFile)] + (if zipped then [unzip] else []);
        Utils.Attempt(convert.result, fetched + convert.trace)
  }

  /** An unzip follows the write exactly when the URL ends in ".zip". */
  lemma UnzipExactlyForZip(env: Env, url: string, tmpFile: string, convert: Utils.Attempt)
    requires !env.fetchFails(url) && !env.writeFails(tmpFile)
    requires convert.trace == [] || !convert.trace[0].Unzip?
    ensures var t := FetchSteps(env, url, tmpFile, convert).trace;
            |t| >= 3 && t[2] == Unzip(tmpFile, env.downloadDir) <==> EndsWith(url, ".zip")
  {
    var zipped := EndsWith(url, ".zip");
    if !zipped && convert.trace != [] {
      var fetched := [Fetch(url), WriteFile(tmpFile)];
      assert (fetched + convert.trace)[2] == convert.trace[0];
    }
  }

  /** The downloaded body is named after the URL's last "/" segment, which holds no '/'. */
  lemma DownloadNamedAfterUrl(env: Env, url: string)
    ensures Paths.Basename(DownloadTarget(env, url)) == LastSegment(url, '/')
  {
    Paths.BasenameOfJoin(env.downloadDir, LastSegment(url, '/'));
  }

  /** Fetch, write, unzip and convert, for the URL found in the metadata. */
  function FetchAndConvert(s: Settings, env: Env, outDir: string, retile: bool, url: string, raiseOnFail: bool): Utils.Attempt {
    FetchSteps(env, url, DownloadTarget(env, url), ConvertDownload(s, env, outDir, retile, raiseOnFail))
  }

  /**
   * `download_create_cog(output_directory, retile, metadata_url,
   * raise_on_fail, dry_run)`: a dry run returns at once; otherwise load the
   * metadata, take the access URL from its TIFF node, then fetch and convert.
   */
  function DownloadCreateCog(s: Settings, env: Env, outDir: string, retile: bool, metadataUrl: string,
                             raiseOnFail: bool, dryRun: bool): (r: Utils.Attempt)
    ensures dryRun ==> r == Utils.Attempt(Ok(outDir), [])
    ensures !dryRun ==> IsPrefix(Utils.GetMetadata(metadataUrl, env).trace, r.trace)
    ensures !dryRun && Utils.GetMetadata(metadataUrl, env).result.Err? ==>
              var loaded := Utils.GetMetadata(metadataUrl, env);
              r == Utils.Attempt(Err(loaded.result.error), loaded.trace)
    ensures !dryRun && Utils.GetMetadata(metadataUrl, env).result.Ok? ==>
              var loaded := Utils.GetMetadata(metadataUrl, env);
              var access := Utils.AccessUrl(loaded.result.value);
              && (access.Err? ==> r == Utils.Attempt(Err(access.error), loaded.trace))
              && (access.Ok? ==>
                    var a := FetchAndConvert(s, env, outDir, retile, access.value, raiseOnFail);
                    r == Utils.Attempt(a.result, loaded.trace + a.trace))
  {
    if dryRun then Utils.Attempt(Ok(outDir), [])
    else
      var loaded := Utils.GetMetadata(metadataUrl, env);
      match loaded.result
      case Err(e) => Utils.Attempt(Err(e), loaded.trace)
      case Ok(md) =>
        match Utils.AccessUrl(md)
        case Err(e) => Utils.Attempt(Err(e), loaded.trace)
        case Ok(url) =>
          var a := FetchAndConvert(s, env, outDir, retile, url, raiseOnFail);
          Utils.Attempt(a.result, loaded.trace + a.trace)
  }

  /** With `dry_run`, the output directory comes back and nothing is read, fetched or written, whatever the world holds. */
  lemma DryRunDoesNothing(s: Settings, env1: Env, env2: Env, outDir: string, retile: bool, metadataUrl: string, raiseOnFail: bool)
    ensures DownloadCreateCog(s, env1, outDir, retile, metadataUrl, raiseOnFail, true)
            == DownloadCreateCog(s, env2, outDir, retile, metadataUrl, raiseOnFail, true)
            == Utils.Attempt(Ok(outDir), [])
  {
  }
}
