/** Values shared by every stage of the ingest pipeline of upload_data.py. */
module Domain {

  /** A directory, as the sequence of its path components. */
  type Dir = seq<string>

  /** A file path: pathlib's `parent` and `name`. */
  datatype Path = Path(parent: Dir, name: string)

  /** One row of a measurement file as `pd.read_csv` returns it: the row index and the value. */
  datatype Sample = Sample(time: int, value: real)

  /** The files on disk: each path with the rows its CSV holds. */
  type Files = map<Path, seq<Sample>>

  /** One row of the table `meas_values`. */
  datatype Record = Record(time: int, value: real, tool: string, runTimestamp: string,
                           filename: string, outlier: bool)

  /** The exceptions the pipeline can raise and does not catch. */
  datatype Error =
    | IndexOutOfRange(name: string)  // a file name with fewer than three `_`-parts
    | FileNotFound(path: Path)       // reading or renaming a path that does not exist

  datatype Result<T> = Ok(value: T) | Err(error: Error)

  datatype Outcome = Pass | Fail(error: Error)

  /** The extension that both the directory scan and the file-name parser look for. */
  const CsvSuffix: string := ".csv"
}
