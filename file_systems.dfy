/**
 * The part of the file system the pipeline touches: listing `*.csv` files of
 * a directory (`scan_dir`), renaming a file (`Path.rename`, `Path.replace`) and
 * moving a list of files into a sub-directory (`move_uploaded_files`).
 */
module FileSystems {
  import opened Domain

  const Duplicate: string := "duplicate"
  const Uploaded: string := "uploaded"

  /** `fp.parent / sub / fp.name`. */
  function Into(p: Path, sub: string): (q: Path)
    ensures q.name == p.name && q.parent == p.parent + [sub]
    ensures q != p
  {
    Path(p.parent + [sub], p.name)
  }

  /** The glob pattern `*.csv`: any name ending in ".csv". */
  predicate IsCsvName(name: string): (b: bool)
    ensures b <==> exists stem :: name == stem + CsvSuffix
  {
    CsvStem(name);
    |CsvSuffix| <= |name| && name[|name| - |CsvSuffix|..] == CsvSuffix
  }

  /** A name ends in ".csv" exactly when it is some stem followed by ".csv". */
  lemma CsvStem(name: string)
    ensures (exists stem :: name == stem + CsvSuffix) <==>
            |CsvSuffix| <= |name| && name[|name| - |CsvSuffix|..] == CsvSuffix
  {
    if |CsvSuffix| <= |name| && name[|name| - |CsvSuffix|..] == CsvSuffix {
      var stem := name[..|name| - |CsvSuffix|];
      assert name == stem + CsvSuffix;
    }
    if exists stem :: name == stem + CsvSuffix {
      var stem :| name == stem + CsvSuffix;
      assert name[|name| - |CsvSuffix|..] == CsvSuffix;
    }
  }

  predicate Distinct(ps: seq<Path>) {
    forall i, j :: 0 <= i < j < |ps| ==> ps[i] != ps[j]
  }

  /** The tail of a list without repeats has no repeats and lacks the head. */
  lemma DistinctTail(ps: seq<Path>)
    requires Distinct(ps) && ps != []
    ensures Distinct(ps[1..]) && ps[0] !in ps[1..]
  {
    forall j | 0 <= j < |ps| - 1 ensures ps[1..][j] != ps[0] {
      assert ps[1..][j] == ps[j + 1];
    }
    forall i, j | 0 <= i < j < |ps| - 1 ensures ps[1..][i] != ps[1..][j] {
      assert ps[1..][i] == ps[i + 1] && ps[1..][j] == ps[j + 1];
    }
  }

  /** Distinct files, all in directory `d`. */
  predicate InDir(d: Dir, ps: seq<Path>) {
    Distinct(ps) && forall p :: p in ps ==> p.parent == d
  }

  /** Distinct files of directory `d`, all present on disk. */
  predicate Placed(files: Files, d: Dir, ps: seq<Path>) {
    InDir(d, ps) && forall p :: p in ps ==> p in files
  }

  /** `ps` lists, once each, exactly the `*.csv` files directly inside `d`. */
  predicate Scanned(files: Files, d: Dir, ps: seq<Path>) {
    Distinct(ps) &&
    (forall p :: p in ps ==> p in files && p.parent == d && IsCsvName(p.name)) &&
    (forall p :: p in files && p.parent == d && IsCsvName(p.name) ==> p in ps)
  }

  /** The disk after an operation, and whether it raised. */
  datatype FsResult = FsResult(files: Files, outcome: Outcome)

  /**
   * `src.rename(dst)` (and `src.replace(dst)`, the same on POSIX): a missing
   * source raises FileNotFoundError and changes nothing; otherwise the content
   * moves to `dst`, replacing whatever was there.
   */
  function AfterRename(files: Files, src: Path, dst: Path): (r: FsResult)
    ensures r.outcome.Pass? <==> src in files
    ensures r.outcome.Fail? ==> r.files == files && r.outcome.error == FileNotFound(src)
    ensures r.outcome.Pass? ==> dst in r.files && r.files[dst] == files[src]
    ensures r.outcome.Pass? && src != dst ==> src !in r.files
    ensures forall q :: q != src && q != dst ==> (q in r.files <==> q in files) && (q in files ==> r.files[q] == files[q])
  {
    if src in files then FsResult((files - {src})[dst := files[src]], Pass)
    else FsResult(files, Fail(FileNotFound(src)))
  }

  /**
   * Renaming each listed file into `sub` in list order, as the loop of
   * `move_uploaded_files` does; the first missing file raises and stops the
   * loop, leaving the earlier moves done.
   */
  function MoveAll(files: Files, ps: seq<Path>, sub: string): (r: FsResult)
    ensures r.outcome.Fail? ==> exists p :: p in ps && r.outcome.error == FileNotFound(p)
    decreases |ps|
  {
    if ps == [] then FsResult(files, Pass)
    else
      var step := AfterRename(files, ps[0], Into(ps[0], sub));
      if step.outcome.Fail? then step else MoveAll(step.files, ps[1..], sub)
  }

  /** `q` is neither one of the moved files nor the place one of them is moved to. */
  predicate Unaffected(q: Path, moved: seq<Path>, d: Dir, sub: string) {
    q !in moved && !(q.parent == d + [sub] && Path(d, q.name) in moved)
  }

  /**
   * `after` is `before` with each file of `moved` (all in directory `d`)
   * relocated into `d/sub` under its own name, and every other path as it was.
   */
  ghost predicate Relocated(before: Files, after: Files, moved: seq<Path>, d: Dir, sub: string) {
    (forall p :: p in moved ==>
       p in before && p !in after && Into(p, sub) in after && after[Into(p, sub)] == before[p]) &&
    (forall q :: Unaffected(q, moved, d, sub) ==>
       (q in after <==> q in before) && (q in before ==> after[q] == before[q]))
  }

  /** Moving distinct files of one directory, all present, succeeds and relocates exactly them. */
  lemma {:induction false} MoveAllRelocates(files: Files, ps: seq<Path>, d: Dir, sub: string)
    requires Placed(files, d, ps)
    ensures MoveAll(files, ps, sub).outcome == Pass
    ensures Relocated(files, MoveAll(files, ps, sub).files, ps, d, sub)
    decreases |ps|
  {
    if ps != [] {
      var p0, rest := ps[0], ps[1..];
      var files1 := AfterRename(files, p0, Into(p0, sub)).files;
      DistinctTail(ps);
      MoveAllRelocates(files1, rest, d, sub);
      var after := MoveAll(files, ps, sub).files;
      assert after == MoveAll(files1, rest, sub).files;
      assert p0 == Path(d, p0.name);
      forall p | p in ps
        ensures p in files && p !in after && Into(p, sub) in after && after[Into(p, sub)] == files[p]
      {
        if p == p0 {
          assert Unaffected(p0, rest, d, sub);
          assert Unaffected(Into(p0, sub), rest, d, sub);
        } else {
          assert p in rest;
        }
      }
      forall q | Unaffected(q, ps, d, sub)
        ensures (q in after <==> q in files) && (q in files ==> after[q] == files[q])
      {
        assert Unaffected(q, rest, d, sub);
        assert q != p0 && q != Into(p0, sub);
      }
    }
  }

  /** Moving files of one directory stops with FileNotFoundError at the first one missing. */
  lemma {:induction false} MoveAllStopsAtMissing(files: Files, ps: seq<Path>, d: Dir, sub: string, k: nat)
    requires InDir(d, ps)
    requires k < |ps| && ps[k] !in files
    requires forall j :: 0 <= j < k ==> ps[j] in files
    ensures MoveAll(files, ps, sub).outcome == Fail(FileNotFound(ps[k]))
    decreases k
  {
    if k > 0 {
      var p0, rest := ps[0], ps[1..];
      var files1 := AfterRename(files, p0, Into(p0, sub)).files;
      DistinctTail(ps);
      forall j | 0 <= j < k - 1 ensures rest[j] in files1 {
        assert rest[j] == ps[j + 1] && ps[j + 1] != p0;
      }
      assert rest[k - 1] == ps[k] && ps[k] != p0;
      assert ps[k] != Into(p0, sub) by {
        assert ps[k].parent == d && Into(p0, sub).parent == d + [sub];
      }
      MoveAllStopsAtMissing(files1, rest, d, sub, k - 1);
    }
  }

  /** The disk, as the pipeline sees it. */
  class FileSystem {
    var files: Files

    constructor (initial: Files)
      ensures files == initial
    {
      files := initial;
    }

    /** `src.rename(dst)`, or `src.replace(dst)`. */
    method Rename(src: Path, dst: Path) returns (r: Outcome)
      modifies this
      ensures FsResult(files, r) == AfterRename(old(files), src, dst)
    {
      if src !in files {
        return Fail(FileNotFound(src));
      }
      files := (files - {src})[dst := files[src]];
      r := Pass;
    }

    /**
     * `scan_dir`: `data_dir.glob("*.csv")`, every `*.csv` file directly in
     * `dir` once, in an order the file system chooses.
     */
    method ScanDir(dir: Dir) returns (ps: seq<Path>)
      ensures Scanned(files, dir, ps)
    {
      ps := [];
      var todo := files.Keys;
      while todo != {}
        invariant todo <= files.Keys
        invariant Distinct(ps)
        invariant forall p :: p in ps <==> p in files && p !in todo && p.parent == dir && IsCsvName(p.name)
        decreases todo
      {
        var p :| p in todo;
        if p.parent == dir && IsCsvName(p.name) {
          ps := ps + [p];
        }
        todo := todo - {p};
      }
    }

    /** `move_uploaded_files`: `fp.replace(fp.parent / "uploaded" / fp.name)` for each listed file. */
    method MoveUploadedFiles(fileList: seq<Path>) returns (r: Outcome)
      modifies this
      ensures FsResult(files, r) == MoveAll(old(files), fileList, Uploaded)
    {
      var i := 0;
      while i < |fileList|
        invariant 0 <= i <= |fileList|
        invariant MoveAll(files, fileList[i..], Uploaded) == MoveAll(old(files), fileList, Uploaded)
      {
        var fp := fileList[i];
        assert fileList[i..][0] == fp && fileList[i..][1..] == fileList[i + 1..];
        r := Rename(fp, Into(fp, Uploaded));
        if r.Fail? {
          return;
        }
        i := i + 1;
      }
      r := Pass;
    }
  }
}
