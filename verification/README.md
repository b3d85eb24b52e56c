# bq-nvd in Dafny

bq-nvd loads the NVD (National Vulnerability Database) JSON feeds into a
BigQuery dataset. At start it counts the CVEs already in the dataset.

- When the count is 0 it **bootstraps**. For every year from 2002 to the
  current year, in order, it downloads the yearly feed archive, transforms it
  into a newline-delimited JSON file holding every record, and loads that file
  through a Cloud Storage bucket.
- Otherwise it runs one **incremental** unit on the `recent` feed. In that
  unit the transform keeps only the records whose CVE identifier is not yet in
  the dataset.
- Any stage error ends the process.

The model has five modules, one per source file plus a small runtime:

| file | module | models |
|---|---|---|
| `runtime.dfy` | `Runtime` | The Python exception classes the handlers name, with their subclass relation. Normal and raising completion of a call. `os.path.basename`. |
| `download.dfy` | `Download` | `bq_nvd/download.py`. The archive name, the URL and the local path of a feed. The transfer is a parameter. |
| `bq.dfy` | `Bq` | `bq_nvd/bq.py`. The schema-tree builder as pure functions. `count_cves` and `get_cve_ids` as methods of a client object that logs its queries. |
| `etl.dfy` | `Etl` | `bq_nvd/etl.py`. The delta filter. The append-mode writer over a file system held as a map from path to lines. The bucket, upload and hand-over sequence of `load`. |
| `controller.dfy` | `Controller` | `bq-nvd.py`. The run as a trace of events with a final status, and the `BQNVD` class whose methods are proved to produce exactly that trace. |

The outside world is a parameter everywhere:

- what each query yields or raises;
- how `urlretrieve` ends;
- how `create_bucket`, `get_bucket` and the upload end;
- how each transform and load stage of the controller ends;
- the current year.

The JSON encoder is a parameter `encode`. Its one assumed property is that it
writes no line break.

The model follows the code as written:

- **One upload attempt.** Its error reaches the caller
  (`bq_nvd/etl.py:104-108`).
- **The output file is appended to.** It is opened in append mode once per
  record, so the lines of an earlier run stay in front of the new ones
  (`bq_nvd/etl.py:75-77`). A kept list that is empty writes nothing and
  creates no file.
- **Empty deltas still load.** Transform returns the output path even when
  nothing was kept, and the controller calls load after every transform that
  returns (`bq_nvd/etl.py:82`, `bq-nvd.py:47-48`).
- **The bootstrap test is a literal `cve_count == 0`** (`bq-nvd.py:65`).
- **The load stage call at `bq-nvd.py:88` does not type-check.** It passes
  the BQ object to `ETL.load` as an extra argument. The model keeps both
  bindings (`Controller.Binding`), and the run the class produces uses the
  corrected two-argument call. `Controller.RunProcessAsWritten` is the process
  as written: the same class, in an outside world whose every load raises
  TypeError, proved equal to the as-written run. See "Findings".

## Model

| member | source | states |
|---|---|---|
| Runtime.IsA | bq-nvd.py:89 | An except clause naming a class catches that class's own exceptions. Among the modelled classes, a class without subclasses (TypeError, KeyError, UnboundLocalError, AttributeError, JSONDecodeError, FileNotFoundError, ContentTooShortError, NotFound, Conflict) catches only itself. A TypeError, KeyError, UnboundLocalError or AttributeError is caught only by its own class |
| Runtime.Catches | bq-nvd.py:80 | An except clause catches every exception class it lists, and an empty clause catches nothing |
| Runtime.Basename | bq-nvd.py:76-77 | os.path.basename gives the end of the path: a suffix of it that contains no '/' |
| Runtime.BasenameIsLastComponent | bq-nvd.py:76-77 | The basename is the whole last component: either the whole path, or the part right after a '/' |
| Runtime.BasenameInDirectory | bq-nvd.py:75-77 | A file name without '/' placed in a directory (empty, or ending in '/') is its own basename |
| Download.FeedFilename | bq_nvd/download.py:28 | The archive name is 'nvdcve-1.1-', then the feed name, then '.json.gz': its length and all three parts |
| Download.FeedFilenameRoundTrip | bq_nvd/download.py:28 | Reading the feed name back out of an archive name gives the original name, and an archive name reads back as a name exactly when it is that name's archive |
| Download.FeedFilenameInjective | bq_nvd/download.py:28 | Two different feeds never share an archive name |
| Download.FeedFilenameIsOneComponent | bq_nvd/download.py:28 | A feed name without '/' gives an archive name without '/' |
| Download.FeedUrl | bq_nvd/download.py:29 | The URL is the NVD 1.1 feed base followed by the archive name |
| Download.Download | bq_nvd/download.py:15-37 | Succeeds exactly when fetching the feed URL into local_path + archive name returns. The result is that path, which starts with local_path and ends with '.json.gz'. An error of the transfer is returned unchanged |
| Bq.FieldSchema | bq_nvd/bq.py:43-61 | Fails with KeyError exactly when some field of the tree has no name. Otherwise it copies the name, defaults the type to 'STRING' and the mode to 'NULLABLE', keeps values that are present, and converts the children one to one and in order |
| Bq.FieldSchemas | bq_nvd/bq.py:48-54 | A list converts exactly when all its trees are named, one result per entry and in order. Otherwise the error is KeyError |
| Bq.ParseBqJsonSchema | bq_nvd/bq.py:63-75 | An error loading the schema file is raised again. Otherwise the result is one converted field per top-level entry, in order, and it succeeds exactly when every entry is named |
| Bq.FieldSchemaRoundTrip | bq_nvd/bq.py:43-61 | Converting the fully written-out description of a schema field gives that field back |
| Bq.FieldSchemasRoundTrip | bq_nvd/bq.py:48-54 | The same round trip for a list of fields |
| Bq.CountQuery | bq_nvd/bq.py:109-111 | The count query is the fixed 'SELECT   COUNT(cve.CVE_data_meta.ID) AS Count FROM ' text, then the dataset, then '.nvd': its length and all three parts |
| Bq.IdsQuery | bq_nvd/bq.py:140-142 | The identifier query is the fixed 'SELECT   cve.CVE_data_meta.ID AS ID FROM ' text, then the dataset, then '.nvd': its length and all three parts |
| Bq.QueriesNameTheirDataset | bq_nvd/bq.py:109-111 | Each query determines the dataset it reads, and the count query never coincides with an identifier query |
| Bq.BigQuery.constructor | bq_nvd/bq.py:10-15 | A fresh client has sent no query and created no dataset |
| Bq.BigQuery.MakeDataset | bq_nvd/bq.py:77-94 | Records the dataset it was asked to create, and ends as the creation ends |
| Bq.BigQuery.CountCves | bq_nvd/bq.py:96-126 | Sends the count query. The result is the Count of the last row. No row gives UnboundLocalError. NotFound creates the dataset and gives 0, or the creation's error. Any other error passes through |
| Bq.BigQuery.GetCveIds | bq_nvd/bq.py:128-153 | Sends the identifier query. It returns the rows' identifiers in row order with duplicates kept, or the query's error unchanged |
| Etl.OutputPath | bq_nvd/etl.py:60 | The output path is path + filename + '_newline.json', whatever the records are |
| Etl.Delta | bq_nvd/etl.py:67-71 | The filter never yields more entries than it was given |
| Etl.DeltaMembers | bq_nvd/etl.py:67-71 | An entry is kept exactly when it is in the batch and its identifier is not known |
| Etl.DeltaAppend | bq_nvd/etl.py:69-71 | Filtering a concatenation filters each part in place, so relative order is kept |
| Etl.DeltaIdempotent | bq_nvd/etl.py:69-71 | Filtering twice against the same identifiers gives the same as filtering once |
| Etl.DeltaKeepsAll | bq_nvd/etl.py:67-73 | The whole batch is kept exactly when none of its identifiers is known, and always when no identifier is known |
| Etl.Encoded | bq_nvd/etl.py:75-77 | One encoded line per kept entry, in order |
| Etl.FileTextAppend | bq_nvd/etl.py:75-77 | Appending lines to a file appends their text |
| Etl.SplitFileText | bq_nvd/etl.py:75-77 | A text written from lines without line breaks, read line by line, gives back those lines |
| Etl.AppendOnly | bq_nvd/etl.py:76 | Append mode: the file's old text stays a prefix of its new text, no other file changes, and the file exists afterwards exactly when it existed or a line was written |
| Etl.ReadBack | bq_nvd/etl.py:75-77 | Reading the written file line by line gives the old lines followed by one line per kept entry, and decoding the new lines gives the kept entries in order |
| Etl.BucketOutcome | bq_nvd/etl.py:98-102 | Getting the bucket succeeds exactly when creating it succeeds, or creating it raised Conflict and fetching it succeeds. Any other error of the creation is the outcome |
| Etl.UploadOutcome | bq_nvd/etl.py:104-106 | A missing local file fails with FileNotFoundError before any transfer. An existing file is uploaded under its base name, and the outcome is that upload's |
| Etl.BucketCalls | bq_nvd/etl.py:98-102 | Getting the bucket only creates it or fetches it |
| Etl.LoadPlan | bq_nvd/etl.py:84-110 | The first call creates the bucket. The bucket is fetched exactly when creation raised Conflict. Load returns exactly when the bucket and the upload both succeed. Otherwise it raises the first of the two errors |
| Etl.LoadCalls | bq_nvd/etl.py:97-110 | The calls are the bucket calls, then the upload if the bucket is there, then bq_load_from_gcs if the upload returned |
| Etl.LoadUploads | bq_nvd/etl.py:104-106 | There is one upload attempt, under the file's base name, and it happens exactly when the bucket is there |
| Etl.LoadReachesGcs | bq_nvd/etl.py:104-110 | bq_load_from_gcs is called with the configured dataset and the blob name exactly when load returns normally. It is then called once, as the last call, right after the upload |
| Etl.Etl.constructor | bq_nvd/etl.py:11-13 | The ETL object keeps local_path and the dataset from the configuration |
| Etl.Etl.Transform | bq_nvd/etl.py:47-82 | A missing CVE_Items gives KeyError. The identifiers are queried only in deltas mode, and an error of that query is returned. In both error cases nothing is written. Otherwise the file gains one line per record (all records, or the delta), in order, and the output path is returned even when nothing was kept |
| Etl.Etl.WriteLines | bq_nvd/etl.py:74-80 | The writing loop appends one line per kept entry to the output file, in order |
| Etl.Etl.Load | bq_nvd/etl.py:84-110 | The calls made and the outcome are those of LoadPlan. A missing local file fails the upload. A successful load stores the file's lines as the blob named after the file's base name |
| Etl.Etl.BqLoadFromGcs | bq_nvd/etl.py:112-113 | Does nothing beyond being reached with the dataset and the blob |
| Controller.DecimalString | bq-nvd.py:46 | str(year) is a non-empty string of decimal digits |
| Controller.DecimalRoundTrip | bq-nvd.py:46 | Reading str(year) back as a decimal number gives the year |
| Controller.DecimalStringCanonical | bq-nvd.py:46 | str(year) has no leading zero: it is a single digit or starts with a non-zero digit |
| Controller.DecimalStringInjective | bq-nvd.py:46 | Different years have different names |
| Controller.DecimalStringIsNotRecent | bq-nvd.py:96 | No year is named 'recent' |
| Controller.FeedNameInjective | bq-nvd.py:46 | Different units of work (two years, or a year and 'recent') download different feeds |
| Controller.FeedName | bq-nvd.py:45-46 | The name given to download (the year, or 'recent') contains no '/' |
| Controller.TransformedFile | bq-nvd.py:74-79 | With local_path a directory, the file transform returns is the downloaded archive's path with '_newline.json' appended |
| Controller.Handle | bq-nvd.py:37-40 | A stage that returns keeps the run going. An error its handler names exits with 1. Any other error ends the process uncaught |
| Controller.ExitCode | bq-nvd.py:40 | The process exits with 0 when no stage ended it, with the code passed to sys.exit when a handler ended it, and with 1 after an uncaught exception |
| Controller.EventStatus | bq-nvd.py:50-90 | The status each stage leaves. An exit through print_error_and_exit always has code 1 |
| Controller.MainRunCoherent | bq-nvd.py:101-104 | In every run, every event except the last returned normally, and the run's status is the one its last event left |
| Controller.StageErrorEndsRun | bq-nvd.py:37-40 | A stage error is the last event of the process, and the process then exits with 1. A run without error exits with 0 |
| Controller.CountErrorStops | bq-nvd.py:58-63 | When count_cves raises, nothing follows the count. A TypeError exits with 1, and any other error ends the process uncaught |
| Controller.UnitRunFollowsPlan | bq-nvd.py:46-48 | A unit of work (UnitRun) does a prefix of download, transform and load: at least the download, and all three when none fails. When the download and the transform return, the load follows and the unit ends as the load does |
| Controller.YearsRun | bq-nvd.py:45-48 | A bootstrap loop over at least one year starts with the download of 2002 |
| Controller.BootstrapRun | bq-nvd.py:42-48 | With a current year before 2002 bootstrap does nothing. Otherwise it starts with the download of 2002 |
| Controller.IncrementalRun | bq-nvd.py:92-99 | Incremental does a non-empty prefix of: download 'recent', transform it with deltas on, load it |
| Controller.CheckBootstrapRun | bq-nvd.py:58-69 | The count comes first. When the count is not 0, or count_cves raised, the count is all check_bootstrap does |
| Controller.MainRun | bq-nvd.py:101-104 | main starts with the count, and a count that ends the process is all it does |
| Controller.ProcessRun | bq-nvd.py:101-104 | The process starts with the count, and when count_cves raises, the count is the only event |
| Controller.YearsTraceNext | bq-nvd.py:45-48 | A trace holding the years before a year, extended by that year's unit of work, holds the years up to it |
| Controller.YearsRunNext | bq-nvd.py:45-48 | One more year of bootstrap, after years that all went through, appends that year's unit of work |
| Controller.HaltedStaysHalted | bq-nvd.py:45-48 | Once a year has ended the process, no later year runs |
| Controller.BootstrapFollowsPlan | bq-nvd.py:45-48 | What bootstrap did is a prefix of its plan, and all of it when nothing failed |
| Controller.YearsEventsShape | bq-nvd.py:45 | The bootstrap plan is one download, transform and load triple per year, for years 2002 to stop - 1 in ascending order: 3 * (stop - 2002) events, or none when stop is 2002 or less |
| Controller.YearsEventsKinds | bq-nvd.py:45-47 | Every event of the bootstrap plan is about a year in range, and bootstrap transforms with deltas off |
| Controller.MainChoosesOneMode | bq-nvd.py:101-104 | The count comes first, and no second count follows. After it, every event is about 'recent' with deltas on exactly when the count was not 0, and about years with deltas off otherwise |
| Controller.MainRunByCount | bq-nvd.py:65-69 | After a count that returned, a count of exactly 0 leads into bootstrap and any other count into incremental |
| Controller.SmoothStatus | bq-nvd.py:50-90 | With the corrected load call and nothing failing, every stage returns |
| Controller.AllRunningYears | bq-nvd.py:45-48 | When every stage returns, bootstrap does its whole plan |
| Controller.CorrectedRunCompletes | bq-nvd.py:101-104 | With the corrected load call and nothing failing, the process does all its work and exits with 0. On an empty dataset that is every year from 2002, otherwise the 'recent' unit |
| Controller.LoadCrashEndsRun | bq-nvd.py:85-90 | When every load crashes with TypeError, a load is always the last event and the process crashes with it |
| Controller.FirstLoadCrashes | bq-nvd.py:45-48 | On an empty dataset, when the first load crashes and nothing before it failed, the process ends right after the 2002 unit |
| Controller.AsWrittenLoadEndsRun | bq-nvd.py:88 | As written, a load is always the last event of a run, and the process then crashes with the uncaught TypeError |
| Controller.AsWrittenRunStopsAtFirstLoad | bq-nvd.py:88 | As written, an empty dataset with nothing failing crashes at the load of 2002, after downloading and transforming only that year |
| Controller.YearsRunCongruent | bq-nvd.py:45-48 | The bootstrap loop's run depends only on the status each event leaves |
| Controller.MainRunCongruent | bq-nvd.py:101-104 | main's run depends only on the status each event leaves |
| Controller.AsWrittenIsCorrectedWithFailingLoads | bq-nvd.py:88 | As written, the process runs exactly like the corrected one in an outside world where every load stage raises TypeError |
| Controller.BqNvd.constructor | bq-nvd.py:19-30 | A new BQNVD object has done nothing and is running |
| Controller.BqNvd.Download | bq-nvd.py:50-56 | Logs the fetch, and its status is the one the download leaves. When it returns, the result is local_path + the archive name |
| Controller.BqNvd.Transform | bq-nvd.py:71-83 | Logs the transform, and its status is the one the stage leaves. When it returns, the result is the output file ETL names after the archive's base name |
| Controller.BqNvd.Load | bq-nvd.py:85-90 | Logs the load. Its status is the one the stage leaves under the two-argument call |
| Controller.BqNvd.Unit | bq-nvd.py:46-48 | Download, transform and load, stopping at the first stage that ends the process. The trace and status are those of UnitRun |
| Controller.BqNvd.Bootstrap | bq-nvd.py:42-48 | The year loop's trace and status are those of BootstrapRun |
| Controller.BqNvd.Incremental | bq-nvd.py:92-99 | The trace and status are those of the 'recent' unit with deltas on |
| Controller.BqNvd.CheckBootstrap | bq-nvd.py:58-69 | The trace and status are those of CheckBootstrapRun. When it returns, it bootstrapped exactly when the count is 0 |
| Controller.RunProcess | bq-nvd.py:101-104 | The process's trace and exit code are those of ProcessRun with the corrected load call |
| Controller.RunProcessAsWritten | bq-nvd.py:101-104 | The process with the load call as written: its trace and exit code are those of ProcessRun with the as-written binding |

## Left out

- The transfer itself (`urlretrieve`) is a parameter. Only whether it returns or raises matters.
- `ETL.extract` is not modelled. That covers gzip decompression, JSON parsing and the re-wrapping of their TypeErrors with a message. The controller's transform stage takes its outcome as a parameter, and `Etl.Etl.Transform` takes the parsed dictionary as input.
- The exact text `json.dumps` produces is not modelled. The encoder is a parameter assumed to write no line break and to be read back by a decoder.
- A record without `cve.CVE_data_meta.ID` (a KeyError in the deltas loop) is not modelled. Every record carries an identifier.
- A JSON `null` in a schema field is not modelled. A key is either present with a string value or absent.
- The IOError raised when writing the output file fails is not modelled. Writes always succeed.
- The internals of the BigQuery and Cloud Storage clients are not modelled. Queries, dataset creation, bucket calls and the upload are represented by their outcomes only.
- Bq.BigQuery.MakeDataset: its body is not modelled. As written it calls `self.client.Table`, which the client does not have, so it raises AttributeError. Its outcome is a parameter, which may be that error.
- Runtime.IsA: the set of exception classes is closed. Library subclasses the model has no class for are left out, among them `AlreadyExists` and `Aborted`, which subclass `Conflict` in `google.api_core.exceptions`. An HTTP 409 from the storage client is raised as `Conflict` itself, so this changes none of the modelled runs.
- `bq_load_from_gcs` is an empty stub. The model only records that it was reached.
- Controller.EventStatus: the transform and load stages are represented by their outcomes. That covers what `ETL.transform` and `ETL.load` do inside the controller; the Etl module models those separately.
- These controller pieces are not modelled:
  - the YAML configuration file;
  - `print_debug`;
  - the printed message and `traceback.print_exc`;
  - the DefaultCredentialsError path at start-up.

  Of `sys.exit`, only the exit code and the halt are modelled. An uncaught exception is a crash with exit code 1.
- `datetime.now().year` is the parameter `currentYear`.
- Controller.BqNvd.Transform and Controller.BqNvd.Load take the feed as an extra argument. The trace names each stage by its feed, while the Python methods see only the file name.

## Findings

| source | as written | input that shows it | evidently intended | confidence | as-written member | corrected member |
|---|---|---|---|---|---|---|
| bq-nvd.py:88 | The load stage passes the BQ object to `ETL.load` as an extra first argument, but `ETL.load` takes only the file name and the bucket name. Every load raises TypeError, which the (Conflict, GoogleCloudError) handler does not catch | An empty dataset (count 0) where every download and transform succeeds: the process crashes at the load of 2002 | Call `ETL.load` with the transformed file and the bucket name, so that bootstrap loads every year | high (not executed) | Controller.AsWrittenRunStopsAtFirstLoad | Controller.CorrectedRunCompletes |
