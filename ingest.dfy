/**
 * The ingest orchestration of upload_data.py: `make_df_list` routes each
 * scanned file either into `duplicate/` or into a record set, `upload_dfs`
 * appends the record sets, `move_uploaded_files` moves files into `uploaded/`,
 * and the `__main__` block runs these in turn.
 */
module Ingest {
  import opened Domain
  import opened FilenameCodec
  import opened FileSystems
  import opened Database
  import opened RecordBuilder

  /**
   * The files of `ps` whose name the store already holds (`dup`) or does not
   * hold (`!dup`), in list order.
   */
  function Routed(conn: seq<Record>, ps: seq<Path>, dup: bool): (qs: seq<Path>)
    ensures forall p :: p in qs <==> p in ps && CheckIfExists(conn, p.name) == dup
    ensures Distinct(ps) ==> Distinct(qs)
    decreases |ps|
  {
    if ps == [] then []
    else
      var rest := Routed(conn, ps[1..], dup);
      if CheckIfExists(conn, ps[0].name) == dup then [ps[0]] + rest else rest
  }

  /** Where a scanned file belongs once the run is over. */
  function Disposition(conn: seq<Record>, p: Path): string {
    if CheckIfExists(conn, p.name) then Duplicate else Uploaded
  }

  /** Every file that is not already in the store has a name `parse_filename` accepts. */
  predicate Buildable(conn: seq<Record>, ps: seq<Path>) {
    forall p :: p in ps && !CheckIfExists(conn, p.name) ==> ParseFilename(p.name).Ok?
  }

  /** The record sets `make_df` builds for `ps`, in list order. */
  function Built(files: Files, ps: seq<Path>): (dfs: seq<seq<Record>>)
    requires forall p :: p in ps ==> BuildRecords(files, p).Ok?
    ensures |dfs| == |ps|
    decreases |ps|
  {
    if ps == [] then [] else [BuildRecords(files, ps[0]).value] + Built(files, ps[1..])
  }

  /** The disk after `make_df_list`, the record sets it collected, and whether it raised. */
  datatype Routing = Routing(files: Files, dfs: seq<seq<Record>>, outcome: Outcome)

  /**
   * `make_df_list` as a function of the disk and the store: a file whose name
   * is in the store is renamed into `duplicate/` and contributes nothing; any
   * other file contributes `make_df`'s record set. The first exception stops
   * the loop; `dfs` then holds the sets built before it, which the caller
   * never sees.
   */
  function DfList(files: Files, conn: seq<Record>, ps: seq<Path>): (r: Routing)
    ensures |r.dfs| <= |ps|
    ensures r.outcome.Fail? ==> exists p :: p in ps && r.outcome.error in {IndexOutOfRange(p.name), FileNotFound(p)}
    decreases |ps|
  {
    if ps == [] then Routing(files, [], Pass)
    else
      var fp := ps[0];
      if CheckIfExists(conn, fp.name) then
        var moved := AfterRename(files, fp, Into(fp, Duplicate));
        if moved.outcome.Fail? then Routing(files, [], moved.outcome)
        else DfList(moved.files, conn, ps[1..])
      else
        match BuildRecords(files, fp)
        case Err(e) => Routing(files, [], Fail(e))
        case Ok(df) =>
          var rest := DfList(files, conn, ps[1..]);
          Routing(rest.files, [df] + rest.dfs, rest.outcome)
  }

  /** `make_df_list(file_list)`, the global connection passed as the store's rows. */
  method MakeDfList(fs: FileSystem, conn: seq<Record>, fileList: seq<Path>)
    returns (dfs: seq<seq<Record>>, r: Outcome)
    modifies fs
    ensures Routing(fs.files, dfs, r) == DfList(old(fs.files), conn, fileList)
  {
    dfs := [];
    var i := 0;
    while i < |fileList|
      invariant 0 <= i <= |fileList|
      invariant var rest := DfList(fs.files, conn, fileList[i..]);
                DfList(old(fs.files), conn, fileList) == Routing(rest.files, dfs + rest.dfs, rest.outcome)
    {
      var fp := fileList[i];
      assert fileList[i..][0] == fp && fileList[i..][1..] == fileList[i + 1..];
      var exists_ := CheckIfExists(conn, fp.name);
      if exists_ {
        var moved := fs.Rename(fp, Into(fp, Duplicate));
        if moved.Fail? {
          return dfs, moved;
        }
      }
      if !exists_ {
        var df := MakeDf(fs, fp);
        if df.Err? {
          return dfs, Fail(df.error);
        }
        dfs := dfs + [df.value];
      }
      i := i + 1;
    }
    assert dfs + [] == dfs;
    r := Pass;
  }

  /** The disk, the table and whether the run raised. */
  datatype Final = Final(files: Files, rows: seq<Record>, outcome: Outcome)

  /**
   * The `__main__` sequence as written: route, upload, then move every scanned
   * file, duplicates included, into `uploaded/`.
   */
  function PipelineAsWritten(files: Files, conn: seq<Record>, ps: seq<Path>): (r: Final)
    ensures |conn| <= |r.rows| && r.rows[..|conn|] == conn
    ensures r.outcome.Fail? ==> exists p :: p in ps && r.outcome.error in {IndexOutOfRange(p.name), FileNotFound(p)}
  {
    var s := DfList(files, conn, ps);
    if s.outcome.Fail? then Final(s.files, conn, s.outcome)
    else
      var m := MoveAll(s.files, ps, Uploaded);
      Final(m.files, conn + Flatten(s.dfs), m.outcome)
  }

  /**
   * The `__main__` sequence with the move restricted to the files that were
   * uploaded, as `move_uploaded_files`' own description says.
   */
  function Pipeline(files: Files, conn: seq<Record>, ps: seq<Path>): (r: Final)
    ensures |conn| <= |r.rows| && r.rows[..|conn|] == conn
    ensures r.outcome.Fail? ==> exists p :: p in ps && r.outcome.error in {IndexOutOfRange(p.name), FileNotFound(p)}
  {
    var s := DfList(files, conn, ps);
    if s.outcome.Fail? then Final(s.files, conn, s.outcome)
    else
      var m := MoveAll(s.files, Routed(conn, ps, false), Uploaded);
      Final(m.files, conn + Flatten(s.dfs), m.outcome)
  }

  /** The `__main__` block as written, on the directory `dir`. */
  method RunAsWritten(fs: FileSystem, store: Store, dir: Dir) returns (fileList: seq<Path>, r: Outcome)
    modifies fs, store
    ensures Scanned(old(fs.files), dir, fileList)
    ensures Final(fs.files, store.rows, r) == PipelineAsWritten(old(fs.files), old(store.rows), fileList)
  {
    fileList := fs.ScanDir(dir);
    var dfs, made := MakeDfList(fs, store.rows, fileList);
    if made.Fail? {
      return fileList, made;
    }
    store.UploadDfs(dfs);
    r := fs.MoveUploadedFiles(fileList);
  }

  /** The `__main__` block, moving only the files whose rows were uploaded. */
  method Run(fs: FileSystem, store: Store, dir: Dir) returns (fileList: seq<Path>, r: Outcome)
    modifies fs, store
    ensures Scanned(old(fs.files), dir, fileList)
    ensures Final(fs.files, store.rows, r) == Pipeline(old(fs.files), old(store.rows), fileList)
  {
    fileList := fs.ScanDir(dir);
    var uploaded := Routed(store.rows, fileList, false);
    var dfs, made := MakeDfList(fs, store.rows, fileList);
    if made.Fail? {
      return fileList, made;
    }
    store.UploadDfs(dfs);
    r := fs.MoveUploadedFiles(uploaded);
  }

  /** `make_df` reads a file's content only: two disks that agree on the listed files build the same sets. */
  lemma {:induction false} BuiltFrame(f1: Files, f2: Files, qs: seq<Path>)
    requires forall p :: p in qs ==> BuildRecords(f1, p).Ok? && p in f2 && f2[p] == f1[p]
    ensures forall p :: p in qs ==> BuildRecords(f2, p).Ok?
    ensures Built(f1, qs) == Built(f2, qs)
    decreases |qs|
  {
    if qs != [] {
      BuiltFrame(f1, f2, qs[1..]);
    }
  }

  /**
   * On distinct files of one directory, all present, whose new members all
   * parse, `make_df_list` does not raise: it moves exactly the files already in
   * the store into `duplicate/` and returns the record sets of the others, in
   * list order.
   */
  lemma {:induction false} DfListRoutes(files: Files, conn: seq<Record>, d: Dir, ps: seq<Path>)
    requires Placed(files, d, ps) && Buildable(conn, ps)
    ensures forall p :: p in Routed(conn, ps, false) ==> BuildRecords(files, p).Ok?
    ensures DfList(files, conn, ps)
            == Routing(MoveAll(files, Routed(conn, ps, true), Duplicate).files,
                       Built(files, Routed(conn, ps, false)), Pass)
    decreases |ps|
  {
    if ps != [] {
      var p0, rest := ps[0], ps[1..];
      DistinctTail(ps);
      var newRest := Routed(conn, rest, false);
      if CheckIfExists(conn, p0.name) {
        var files1 := AfterRename(files, p0, Into(p0, Duplicate)).files;
        forall p | p in rest ensures p in files1 && files1[p] == files[p] {
          assert p != p0 && p != Into(p0, Duplicate);
        }
        DfListRoutes(files1, conn, d, rest);
        BuiltFrame(files1, files, newRest);
        var dups := Routed(conn, ps, true);
        assert dups == [p0] + Routed(conn, rest, true);
        assert dups[0] == p0 && dups[1..] == Routed(conn, rest, true);
      } else {
        DfListRoutes(files, conn, d, rest);
        var news := Routed(conn, ps, false);
        assert news == [p0] + newRest;
        assert news[0] == p0 && news[1..] == newRest;
      }
    }
  }

  /**
   * The corrected run on distinct files of one directory, all present, whose
   * new members all parse: it does not raise; the table gains the record sets
   * of the new files in list order; every file ends in `duplicate/` or
   * `uploaded/` according to whether its name was already in the table; no
   * other path changes.
   */
  lemma RunDisposesEveryFile(files: Files, conn: seq<Record>, d: Dir, ps: seq<Path>)
    requires Placed(files, d, ps) && Buildable(conn, ps)
    ensures forall p :: p in Routed(conn, ps, false) ==> BuildRecords(files, p).Ok?
    ensures Pipeline(files, conn, ps).outcome == Pass
    ensures Pipeline(files, conn, ps).rows == conn + Flatten(Built(files, Routed(conn, ps, false)))
    ensures var after := Pipeline(files, conn, ps).files;
            forall p :: p in ps ==>
              p !in after && Into(p, Disposition(conn, p)) in after &&
              after[Into(p, Disposition(conn, p))] == files[p]
    ensures var after := Pipeline(files, conn, ps).files;
            forall q :: Unaffected(q, Routed(conn, ps, true), d, Duplicate) &&
                        Unaffected(q, Routed(conn, ps, false), d, Uploaded) ==>
              (q in after <==> q in files) && (q in files ==> after[q] == files[q])
  {
    var dups, news := Routed(conn, ps, true), Routed(conn, ps, false);
    DfListRoutes(files, conn, d, ps);
    if ps != [] {
      MoveAllRelocates(files, dups, d, Duplicate);
      var files1 := MoveAll(files, dups, Duplicate).files;
      forall p | p in news ensures p in files1 && files1[p] == files[p] {
        assert Unaffected(p, dups, d, Duplicate);
      }
      MoveAllRelocates(files1, news, d, Uploaded);
      var after := MoveAll(files1, news, Uploaded).files;
      assert Pipeline(files, conn, ps).files == after;
      assert Duplicate[0] != Uploaded[0];
      forall p | p in ps
        ensures p !in after && Into(p, Disposition(conn, p)) in after &&
                after[Into(p, Disposition(conn, p))] == files[p]
      {
        if CheckIfExists(conn, p.name) {
          assert Unaffected(p, news, d, Uploaded);
          assert Unaffected(Into(p, Duplicate), news, d, Uploaded);
        }
      }
      forall q | Unaffected(q, dups, d, Duplicate) && Unaffected(q, news, d, Uploaded)
        ensures (q in after <==> q in files) && (q in files ==> after[q] == files[q])
      {
      }
    }
  }

  /**
   * The defect of the `__main__` block as written: when a scanned file is
   * already in the store, `make_df_list` moves it to `duplicate/`, and
   * `move_uploaded_files` then raises FileNotFoundError on the first such file,
   * after the new files' rows were uploaded and the new files before it moved.
   */
  lemma AsWrittenFailsOnDuplicate(files: Files, conn: seq<Record>, d: Dir, ps: seq<Path>, k: nat)
    requires Placed(files, d, ps) && Buildable(conn, ps)
    requires k < |ps| && CheckIfExists(conn, ps[k].name)
    requires forall j :: 0 <= j < k ==> !CheckIfExists(conn, ps[j].name)
    ensures forall p :: p in Routed(conn, ps, false) ==> BuildRecords(files, p).Ok?
    ensures PipelineAsWritten(files, conn, ps).outcome == Fail(FileNotFound(ps[k]))
    ensures PipelineAsWritten(files, conn, ps).rows == conn + Flatten(Built(files, Routed(conn, ps, false)))
  {
    var dups := Routed(conn, ps, true);
    DfListRoutes(files, conn, d, ps);
    MoveAllRelocates(files, dups, d, Duplicate);
    var files1 := MoveAll(files, dups, Duplicate).files;
    assert ps[k] in dups;
    forall j | 0 <= j < k ensures ps[j] in files1 {
      assert Unaffected(ps[j], dups, d, Duplicate);
    }
    MoveAllStopsAtMissing(files1, ps, d, Uploaded, k);
  }

  /**
   * A new file whose name `parse_filename` rejects aborts `make_df_list` with
   * IndexError at that file, when every new file before it parses; the run
   * then never reaches `upload_dfs`, so the table is unchanged, whichever
   * files the run would have moved.
   */
  lemma {:induction false} MalformedNameAborts(files: Files, conn: seq<Record>, d: Dir, ps: seq<Path>, k: nat)
    requires Placed(files, d, ps)
    requires k < |ps| && !CheckIfExists(conn, ps[k].name) && ParseFilename(ps[k].name).Err?
    requires forall j :: 0 <= j < k && !CheckIfExists(conn, ps[j].name) ==> ParseFilename(ps[j].name).Ok?
    ensures DfList(files, conn, ps).outcome == Fail(IndexOutOfRange(ps[k].name))
    ensures PipelineAsWritten(files, conn, ps).rows == conn
    ensures Pipeline(files, conn, ps).rows == conn
    decreases k
  {
    if k > 0 {
      var p0, rest := ps[0], ps[1..];
      DistinctTail(ps);
      assert rest[k - 1] == ps[k];
      forall j | 0 <= j < k - 1 && !CheckIfExists(conn, rest[j].name)
        ensures ParseFilename(rest[j].name).Ok?
      {
        assert rest[j] == ps[j + 1];
      }
      if CheckIfExists(conn, p0.name) {
        var files1 := AfterRename(files, p0, Into(p0, Duplicate)).files;
        forall p | p in rest ensures p in files1 {
          assert p != p0 && p.parent != Into(p0, Duplicate).parent;
        }
        MalformedNameAborts(files1, conn, d, rest, k - 1);
      } else {
        MalformedNameAborts(files, conn, d, rest, k - 1);
      }
    }
  }

  /** The uploaded rows count, per file name, each new file's rows once and nothing for any other file. */
  lemma {:induction false} CountBuilt(files: Files, d: Dir, qs: seq<Path>, p: Path)
    requires InDir(d, qs) && p.parent == d
    requires forall q :: q in qs ==> BuildRecords(files, q).Ok?
    ensures CountRows(Flatten(Built(files, qs)), p.name) == if p in qs then |files[p]| else 0
    decreases |qs|
  {
    if qs != [] {
      var q0, rest := qs[0], qs[1..];
      DistinctTail(qs);
      CountBuilt(files, d, rest, p);
      var dfs := Built(files, qs);
      assert dfs[0] == BuildRecords(files, q0).value && dfs[1..] == Built(files, rest);
      CountAppend(dfs[0], Flatten(dfs[1..]), p.name);
      CountAssembled(files[q0], ParseFilename(q0.name).value, q0.name, p.name);
      assert p.name == q0.name <==> p == q0;
    }
  }

  /**
   * Idempotence of ingestion: on distinct files of one directory, all present,
   * whose new members all parse, either run adds to each file's name exactly
   * that file's row count when the name was new and nothing when it was a
   * duplicate; so a file whose rows reached the table is a duplicate next time.
   */
  lemma RunRowCounts(files: Files, conn: seq<Record>, d: Dir, ps: seq<Path>, p: Path)
    requires Placed(files, d, ps) && Buildable(conn, ps) && p in ps
    ensures PipelineAsWritten(files, conn, ps).rows == Pipeline(files, conn, ps).rows
    ensures CountRows(Pipeline(files, conn, ps).rows, p.name)
            == CountRows(conn, p.name) + if CheckIfExists(conn, p.name) then 0 else |files[p]|
    ensures CheckIfExists(conn, p.name) || |files[p]| > 0 ==> CheckIfExists(Pipeline(files, conn, ps).rows, p.name)
  {
    var news := Routed(conn, ps, false);
    DfListRoutes(files, conn, d, ps);
    CountBuilt(files, d, news, p);
    CountAppend(conn, Flatten(Built(files, news)), p.name);
  }
}
