/**
 * The vocabulary shared by the package: the exceptions it can raise, the side
 * effects it performs, and the outside world (HTTP, the file system, GDAL,
 * rasterio) as an oracle whose answers are given.
 */
module Io {
  import opened Json
  import Constants

  datatype Option<T> = None | Some(value: T)

  /** The exceptions the package lets escape, by cause. */
  datatype Error =
    | NotImplemented                     // get_metadata: source is not JSON-LD
    | NoMatchingNode(slot: string)       // `[...][0]` on an empty list comprehension (IndexError)
    | Malformed(what: string)            // AttributeError / TypeError / KeyError on an unexpected JSON shape
    | BadYear(token: string)             // strptime(token, "%Y") rejects the token
    | YearOutOfRange(year: int)          // the datetime range 1..9999 is exceeded
    | BadGeometry                        // shapely refuses the exterior ring
    | CommandFailed(argv: seq<string>)   // CalledProcessError from check_output
    | CopyFailed(path: string)           // shutil.copyfile
    | ColormapFailed(path: string)       // rasterio write_colormap
    | FetchFailed(url: string)           // requests.get
    | WriteFailed(path: string)          // writing a downloaded body
    | UnzipFailed(archive: string)       // ZipFile.extractall
    | NoTiffFound                        // glob(...).pop() on an empty list
    | ReadFailed(path: string)           // open / json.load of a local file, or a rasterio open / read

  /** A value or the exception raised instead. */
  datatype Result<T> = Ok(value: T) | Err(error: Error) {
    predicate IsFailure() { Err? }
    function PropagateFailure<U>(): Result<U>
      requires Err?
    {
      Err(error)
    }
    function Extract(): T
      requires Ok?
    {
      value
    }
  }

  /** One raster tile as listed by `glob` and read by rasterio: its path and every sample of every band. */
  datatype Tile = Tile(path: string, samples: seq<int>)

  /**
   * An observable side effect, in the order it is attempted. Reads of local
   * files change nothing and are not recorded; they can still fail (`Env.readFails`).
   */
  datatype Effect =
    | Fetch(url: string)                                          // requests.get
    | WriteFile(path: string)                                     // open(path, 'wb').write(body)
    | Unzip(archive: string, into: string)                        // ZipFile(archive).extractall(into)
    | Copy(source: string, target: string)                        // shutil.copyfile
    | WriteColormap(path: string, band: int, colours: map<int, Constants.Rgba>)  // rasterio write_colormap
    | Run(argv: seq<string>)                                      // subprocess.check_output
    | WriteText(path: string, document: Json)                     // write_text_to_href(path, json.dumps(document))

  /**
   * The outside world: what each call answers. Temporary directory names are
   * whatever `mkdtemp` / `TemporaryDirectory` return; listings are `glob`'s.
   */
  datatype Env = Env(
    httpJson: string -> Json,        // requests.get(url).json()
    fileJson: string -> Json,        // json.load(open(path))
    fetchFails: string -> bool,
    readFails: string -> bool,       // reading a local file: the metadata file, or a raster tile
    writeFails: string -> bool,
    unzipFails: string -> bool,
    copyFails: string -> bool,
    colormapFails: string -> bool,
    runFails: seq<string> -> bool,   // non-zero exit status of the command
    packageDir: string,              // mkdtemp() in download_asset_package
    downloadDir: string,             // TemporaryDirectory() in download_create_cog
    retileDir: string,               // TemporaryDirectory() in create_retiled_cogs
    cogScratch: string -> string,    // TemporaryDirectory() in create_cog, for a given input path
    downloadedTifs: seq<string>,     // glob(f"{tmp_dir}/*.tif") after the download
    retiledTiles: seq<Tile>          // glob(f"{tmp_dir}/*.tif") after gdal_retile.py, with each tile's samples
  )
}
