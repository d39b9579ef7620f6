/**
 * The record builder `make_df`: one file's rows, tagged with the tool, run
 * timestamp and file name parsed from its name, then flagged for outliers.
 */
module RecordBuilder {
  import opened Domain
  import opened FilenameCodec
  import opened DataFrames
  import opened FileSystems
  import opened Database

  /** The record set `make_df` produces from a file's rows and its parsed name. */
  function Assemble(samples: seq<Sample>, meta: Parsed, name: string): (rs: seq<Record>)
    ensures |rs| == |samples|
  {
    seq(|samples|, i requires 0 <= i < |samples| =>
      Record(samples[i].time, samples[i].value, meta.tool, meta.runTimestamp, name, IsOutlier(samples[i].value)))
  }

  /** The rows of a record set with the metadata taken off: position and value. */
  function Samples(rs: seq<Record>): (s: seq<Sample>)
    ensures |s| == |rs|
  {
    seq(|rs|, i requires 0 <= i < |rs| => Sample(rs[i].time, rs[i].value))
  }

  /**
   * A record set in the sense of the pipeline: every row carries the same tool,
   * run timestamp and file name, and its outlier flag agrees with its value.
   */
  predicate IsRecordSet(rs: seq<Record>, meta: Parsed, name: string) {
    forall r :: r in rs ==>
      r.tool == meta.tool && r.runTimestamp == meta.runTimestamp && r.filename == name &&
      r.outlier == IsOutlier(r.value)
  }

  /** Assembling keeps every input row, in order, and yields a record set. */
  lemma AssembleRoundTrip(samples: seq<Sample>, meta: Parsed, name: string)
    ensures Samples(Assemble(samples, meta, name)) == samples
    ensures IsRecordSet(Assemble(samples, meta, name), meta, name)
  {
  }

  /** A record set built from one file adds that file's row count to its name's count, and nothing to any other name. */
  lemma {:induction false} CountAssembled(samples: seq<Sample>, meta: Parsed, name: string, f: string)
    ensures CountRows(Assemble(samples, meta, name), f) == if f == name then |samples| else 0
    decreases |samples|
  {
    var rs := Assemble(samples, meta, name);
    if samples != [] {
      CountAssembled(samples[1..], meta, name, f);
      assert rs[1..] == Assemble(samples[1..], meta, name);
    }
  }

  /**
   * `make_df` as a function of the disk: parse the name first (IndexError),
   * then read the file (FileNotFoundError), then assemble.
   */
  function BuildRecords(files: Files, fp: Path): (r: Result<seq<Record>>)
    ensures r.Ok? <==> ParseFilename(fp.name).Ok? && fp in files
    ensures r.Err? ==> r.error == if ParseFilename(fp.name).Err? then IndexOutOfRange(fp.name) else FileNotFound(fp)
    ensures r.Ok? ==> |r.value| == |files[fp]|
  {
    match ParseFilename(fp.name)
    case Err(e) => Err(e)
    case Ok(meta) =>
      if fp !in files then Err(FileNotFound(fp)) else Ok(Assemble(files[fp], meta, fp.name))
  }

  /** The rows of a frame whose columns hold what `make_df` put there are the assembled record set. */
  lemma FilledColumns(samples: seq<Sample>, meta: Parsed, name: string,
                      t: seq<int>, v: seq<real>, to: seq<string>, ts: seq<string>, f: seq<string>, o: seq<bool>)
    requires t == seq(|samples|, i requires 0 <= i < |samples| => samples[i].time)
    requires v == seq(|samples|, i requires 0 <= i < |samples| => samples[i].value)
    requires to == seq(|t|, _ => meta.tool) && ts == seq(|t|, _ => meta.runTimestamp)
    requires f == seq(|t|, _ => name) && |o| == |v|
    requires forall i :: 0 <= i < |v| ==> (o[i] <==> IsOutlier(v[i]))
    ensures seq(|t|, i requires 0 <= i < |t| => Record(t[i], v[i], to[i], ts[i], f[i], o[i]))
            == Assemble(samples, meta, name)
  {
    var rs := seq(|t|, i requires 0 <= i < |t| => Record(t[i], v[i], to[i], ts[i], f[i], o[i]));
    var expected := Assemble(samples, meta, name);
    forall i | 0 <= i < |rs| ensures rs[i] == expected[i] {
      assert t[i] == samples[i].time && v[i] == samples[i].value;
    }
  }

  /**
   * The body of `make_df` after the name is parsed: read the rows into a frame,
   * assign the tool, run timestamp and file name columns, flag the outliers.
   */
  method FillFrame(samples: seq<Sample>, meta: Parsed, name: string) returns (rs: seq<Record>)
    ensures rs == Assemble(samples, meta, name)
  {
    var df := new Frame.FromCsv(samples);
    df.AssignText(Tool, meta.tool);
    df.AssignText(RunTimestamp, meta.runTimestamp);
    df.AssignText(Filename, name);
    df.FlagOutliers();
    rs := df.Records();
    FilledColumns(samples, meta, name, df.time, df.value, df.tool, df.runTimestamp, df.filename, df.outlier);
  }

  /**
   * `make_df`: it succeeds exactly when the name parses and the file exists,
   * and then returns one row per CSV row, in file order with the file's
   * values, all carrying the parsed tool and timestamp and the file's name.
   */
  method MakeDf(fs: FileSystem, fp: Path) returns (r: Result<seq<Record>>)
    ensures r == BuildRecords(fs.files, fp)
    ensures r.Ok? <==> ParseFilename(fp.name).Ok? && fp in fs.files
    ensures r.Err? && ParseFilename(fp.name).Ok? ==> r.error == FileNotFound(fp)
    ensures r.Ok? ==> Samples(r.value) == fs.files[fp]
    ensures r.Ok? ==> IsRecordSet(r.value, ParseFilename(fp.name).value, fp.name)
  {
    var parsed := ParseFilename(fp.name);
    if parsed.Err? {
      return Err(parsed.error);
    }
    if fp !in fs.files {
      return Err(FileNotFound(fp));
    }
    var rs := FillFrame(fs.files[fp], parsed.value, fp.name);
    AssembleRoundTrip(fs.files[fp], parsed.value, fp.name);
    r := Ok(rs);
  }
}
