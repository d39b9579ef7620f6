# Ingest pipeline of `upload_data.py`, modelled in Dafny

The project models the batch ingest pipeline of the Tesla demo repository. `upload_data.py` performs these steps:

- It lists the `*.csv` files of a data directory.
- For each file, it checks whether the file's name already has rows in table `meas_values`.
- A known file is moved into `duplicate/`. Its name is never parsed.
- For a new file, it parses the name into a tool and a run timestamp, reads the rows, tags them with the tool, the run timestamp and the file name, and flags values outside [97, 103] as outliers.
- It appends the record sets to the table and moves the scanned files into `uploaded/`.

The model is split into one module per file:

- `Domain` (`domain.dfy`) holds the shared vocabulary:
  - a path is a parent directory and a name;
  - the disk is a map from paths to the parsed rows of each file;
  - a table row is a `Record`;
  - Python's exceptions become `Result` and `Outcome` values that keep the state reached when the exception was raised.
- `FilenameCodec` covers `parse_filename`. It defines `str.replace` and `str.split` character by character and proves that `split` and `join` are inverses.
- `DataFrames` holds the DataFrame `make_df` fills. `Frame` is a class with one field per column; `FromCsv`, `AssignText` and `FlagOutliers` update it in place.
- `RecordBuilder` covers `make_df`. `FillFrame` drives a `Frame` step by step and is proved equal to the function `Assemble`.
- `Database` covers `check_if_exists` (a count over the table's rows) and `upload_dfs` (a `Store` class whose rows the upload loop extends).
- `FileSystems` covers `scan_dir` as a `*.csv` filter, `Path.rename` and `Path.replace`, and `move_uploaded_files`. The disk is a `FileSystem` class with a `files` map.
- `Ingest` covers `make_df_list` and the `__main__` sequence:
  - each loop is a method proved against a specification function;
  - lemmas state where every file ends up and how many rows the table gains.

The model follows the code:

- `duplicate/` and `uploaded/` are sub-directories of the scanned directory (`fp.parent / "duplicate" / fp.name`, upload_data.py:79 and :133).
- A rename onto an existing path replaces that path's file, as POSIX `rename` and `Path.replace` do (upload_data.py:81 and :133).
- The `__main__` block moves every scanned file into `uploaded/`, not only the uploaded ones (upload_data.py:153).

## Model

| member | source | states |
|---|---|---|
| FilenameCodec.RemoveAll | upload_data.py:39 | `name.replace(".csv", "")` never lengthens the name, and leaves a name without ".csv" unchanged |
| FilenameCodec.Split | upload_data.py:39 | `split("_")` yields at least one part, and no part contains the separator |
| FilenameCodec.ParseFilename | upload_data.py:29-44 | a failure is always the IndexError of line 41 on this name; a parsed tool never contains '_' |
| FilenameCodec.SplitCount | upload_data.py:39 | `split` yields one more part than there are separators |
| FilenameCodec.JoinSplit | upload_data.py:39 | joining the parts of a split with the separator gives back the string |
| FilenameCodec.SplitJoin | upload_data.py:39 | splitting a join of separator-free parts gives back the parts |
| FilenameCodec.StripSuffix | upload_data.py:39 | removing ".csv" from a stem without ".csv", followed by ".csv", gives the stem |
| FilenameCodec.MissingCharNoOccurrence | upload_data.py:39 | a name lacking one character of ".csv" contains no ".csv" to strip |
| FilenameCodec.ParseJoined | upload_data.py:38-41 | a name of three or more '_'-joined parts plus ".csv" parses to part 0 and "part1 part2"; further parts are ignored |
| FilenameCodec.ParseFailsIff | upload_data.py:39-41 | parsing fails exactly when the stripped name holds fewer than two '_' |
| FilenameCodec.ParseExample | upload_data.py:38-41 | "A_20240101_120000.000.csv" parses to tool "A" and timestamp "20240101 120000.000" |
| DataFrames.IsOutlier | upload_data.py:143 | the mask flags a value exactly when it lies outside the closed band [97, 103] |
| DataFrames.BandIsInclusive | upload_data.py:142-144 | the boundaries 97 and 103 are not flagged; values just past them are |
| DataFrames.WithColumn | upload_data.py:57-60 | after `df[c] = ...` the frame has column `c`, the earlier columns keep their places, and at most one column is added |
| DataFrames.Frame.FromCsv | upload_data.py:56-57 | the frame has columns time and value, one row per CSV row, in file order |
| DataFrames.Frame.AssignText | upload_data.py:58-60 | assigning a string broadcasts it to every row of that column and adds the column once; the other columns are unchanged |
| DataFrames.Frame.FlagOutliers | upload_data.py:136-145 | `outlier` is true exactly on rows whose value is > 103 or < 97; time, value, tool, run timestamp and filename are unchanged; only `outlier` is added |
| RecordBuilder.Assemble | upload_data.py:55-61 | one record per input row |
| RecordBuilder.Samples | upload_data.py:57 | one (time, value) pair per record |
| RecordBuilder.AssembleRoundTrip | upload_data.py:55-61 | the assembled rows give back the input rows, in order; every row carries the tool, the timestamp and the file name; each outlier flag matches its value |
| RecordBuilder.CountAssembled | upload_data.py:60 | a file's record set has the file's row count under its own name, and zero rows under any other name |
| RecordBuilder.BuildRecords | upload_data.py:55-61 | `make_df` on a disk succeeds exactly when the name parses and the file exists; otherwise IndexError on the name comes before FileNotFoundError on the path; on success there is one record per CSV row |
| RecordBuilder.FilledColumns | upload_data.py:56-61 | a frame holding the file's rows, the three constant columns and the flags yields the assembled record set |
| RecordBuilder.FillFrame | upload_data.py:56-61 | the column-by-column filling of the frame yields the assembled record set |
| RecordBuilder.MakeDf | upload_data.py:47-63 | succeeds exactly when the name parses and the file exists (IndexError first, then FileNotFoundError); it then returns the file's rows in order, every row tagged with the parsed tool and timestamp and the file name, outliers flagged |
| Database.CountRows | upload_data.py:101-105 | the `COUNT(*)` of rows with a filename is at most the table's size |
| Database.CountZeroIff | upload_data.py:101-105 | the filename count is zero exactly when no row carries that filename |
| Database.CheckIfExists | upload_data.py:91-110 | true exactly when some row of the table carries filename `f` |
| Database.CountAppend | upload_data.py:122 | appending rows adds their count per filename |
| Database.FlattenAppend | upload_data.py:120-122 | uploading two batches in turn appends the first batch's rows, then the second's |
| Database.Store.UploadDfs | upload_data.py:113-122 | the table becomes the old table followed by each record set's rows, in list order; no existing row changes |
| FileSystems.Into | upload_data.py:79 | `fp.parent / sub / fp.name` keeps the name, is one level below `fp`'s directory and differs from `fp` |
| FileSystems.IsCsvName | upload_data.py:25 | `glob('*.csv')` matches a name exactly when it is some stem followed by ".csv" |
| FileSystems.AfterRename | upload_data.py:81 | a rename passes exactly when the source exists, and otherwise raises FileNotFoundError and changes nothing; the content lands at the target, the source disappears, and other paths stay as they were |
| FileSystems.MoveAll | upload_data.py:132-133 | the loop of renames into `sub/` fails only with FileNotFoundError on one of the listed files |
| FileSystems.MoveAllRelocates | upload_data.py:132-133 | moving distinct present files of one directory does not raise; it relocates each of them to `sub/` with its content and leaves every other path alone |
| FileSystems.MoveAllStopsAtMissing | upload_data.py:132-133 | the move raises FileNotFoundError at the first listed file that is no longer at its path |
| FileSystems.FileSystem.Rename | upload_data.py:81 | the disk and outcome after `rename`/`replace` are those of `AfterRename` |
| FileSystems.FileSystem.ScanDir | upload_data.py:13-26 | lists once each exactly the files directly in the directory whose name ends in ".csv" |
| FileSystems.FileSystem.MoveUploadedFiles | upload_data.py:125-133 | the disk and outcome after the loop are those of `MoveAll` into `uploaded/` |
| Ingest.Routed | upload_data.py:77-85 | keeps exactly the listed files whose name is (or is not) in the table, without adding repeats |
| Ingest.Built | upload_data.py:84-85 | one record set per new file |
| Ingest.DfList | upload_data.py:74-88 | `make_df_list` collects at most one record set per file, and fails only with IndexError on a listed file's name or FileNotFoundError on a listed file |
| Ingest.MakeDfList | upload_data.py:66-88 | the disk, the collected record sets and the outcome after the loop are those of `DfList` |
| Ingest.BuiltFrame | upload_data.py:84 | `make_df` depends only on the listed files' contents |
| Ingest.DfListRoutes | upload_data.py:75-85 | on distinct present files whose new members parse, `make_df_list` does not raise; it moves exactly the known files into `duplicate/` and returns one record set per new file, in list order |
| Ingest.PipelineAsWritten | upload_data.py:148-153 | the run as written only appends to the table, and fails only with IndexError on a scanned name or FileNotFoundError on a scanned file |
| Ingest.Pipeline | upload_data.py:148-153 | the corrected run only appends to the table, and fails only with IndexError on a scanned name or FileNotFoundError on a scanned file |
| Ingest.RunAsWritten | upload_data.py:148-153 | scans the directory, then the disk, the table and the outcome are those of `PipelineAsWritten` (moves every scanned file) |
| Ingest.Run | upload_data.py:148-153 | scans the directory, then the disk, the table and the outcome are those of `Pipeline` (moves only the uploaded files) |
| Ingest.RunDisposesEveryFile | upload_data.py:148-153 | the corrected run does not raise; the table gains the new files' record sets in order; each file ends in `duplicate/` or `uploaded/` with its content, by whether its name was known; no other path changes |
| Ingest.AsWrittenFailsOnDuplicate | upload_data.py:148-153 | the run as written raises FileNotFoundError at the first already-known file, after the new rows were appended |
| Ingest.MalformedNameAborts | upload_data.py:83-85 | a new file whose name has fewer than three '_'-parts, after new files that all parse, makes `make_df_list` raise IndexError on that name (through `make_df` at line 55 and line 41); the run never reaches line 152, so either run leaves the table unchanged |
| Ingest.CountBuilt | upload_data.py:120-122 | the uploaded rows hold each new file's row count under its name and nothing under other names |
| Ingest.RunRowCounts | upload_data.py:148-153 | both runs append the same rows; a new file's name gains its row count, a known one gains nothing; a name with rows is known on the next run |

## Left out

- `pd.read_csv`: a file's contents are given as its parsed (time, value) rows. Malformed CSV, a wrong column count and headers are not modelled.
- `pd.to_datetime` at line 59: the run timestamp is kept as the text `parse_filename` returns. A timestamp that fails to parse is not modelled as an error.
- NaN and floating-point values: values are exact reals, and the flagger only compares them.
- `check_if_exists`' SQL text: it is modelled as a count over the table's rows. The injection risk of the f-string query is out of scope.
- The database connection (`define_conn`, the global `conn` at line 77, the `engine`): the table is passed as a parameter. Connection and query errors, and a failing `to_sql`, are not modelled.
- The default directory at line 22 is a parameter of the runs. Passing a plain string to `scan_dir` (which has no `glob`) is not modelled.
- The order `glob` lists files in: `ScanDir` may return any order. The lemmas hold for every order.
- Missing `duplicate/` or `uploaded/` directories are not modelled: a rename into them always succeeds when the source exists.
- Windows rename semantics: `Path.rename` onto an existing file is modelled as POSIX replace.
- The `print` at line 80 is not modelled.
- `test_connection.py`, `generate_data.py` and `outliers.py` are not part of this model.

## Findings

| source | as written | input that shows it | evidently intended | confidence | as-written member | corrected member |
|---|---|---|---|---|---|---|
| upload_data.py:153 | `move_uploaded_files(file_l)` moves every scanned file, including those line 81 already moved into `duplicate/` | a scanned file whose name already has rows in `meas_values`: it is renamed into `duplicate/`, then line 133 raises FileNotFoundError on it | move only the files whose rows were uploaded, as the docstring at line 127 says | not executed | Ingest.AsWrittenFailsOnDuplicate | Ingest.RunDisposesEveryFile |
