/** The transform and load steps (bq_nvd/etl.py).

    ETL.transform keeps the entries of CVE_Items that are new (in deltas mode)
    or all of them, and appends one compact JSON line per kept entry to
    `path + filename + '_newline.json'`, a file opened in append mode, so what
    an earlier run left there stays. ETL.load makes sure the bucket exists,
    uploads the file under its base name and then hands the blob to
    bq_load_from_gcs. The local file system is a map from paths to lines;
    the cloud keeps the calls it received and the blobs it stores. */
module Etl {
  import opened Runtime
  import Bq

  // ---------------------------------------------------------------------------
  // Records and the delta filter
  // ---------------------------------------------------------------------------

  /** One entry of CVE_Items. The core reads only its identifier,
      cve.CVE_data_meta.ID; `document` stands for the rest of the entry. */
  datatype CveItem = CveItem(id: string, document: string)

  /** What ETL.extract returns; only the 'CVE_Items' key is read (None: absent). */
  datatype NvdDict = NvdDict(cveItems: Option<seq<CveItem>>)

  const OutputSuffix := "_newline.json"

  /** The file transform writes to: the local path, the archive's base name
      and a fixed suffix, whatever the records are. */
  function OutputPath(path: string, filename: string): (r: string)
    ensures |r| == |path| + |filename| + |OutputSuffix|
    ensures r[..|path|] == path
    ensures r[|path|..|path| + |filename|] == filename
    ensures r[|r| - |OutputSuffix|..] == OutputSuffix
  {
    path + filename + OutputSuffix
  }

  /** The entries whose identifier is not among the known ones, in their order. */
  function Delta(items: seq<CveItem>, known: seq<string>): (r: seq<CveItem>)
    ensures |r| <= |items|
  {
    if items == [] then []
    else
      var last := items[|items| - 1];
      Delta(items[..|items| - 1], known) + (if last.id in known then [] else [last])
  }

  /** Filtering a concatenation filters each part: kept entries of `a` come
      before kept entries of `b`, so the filter never reorders. */
  lemma {:induction false} DeltaAppend(a: seq<CveItem>, b: seq<CveItem>, known: seq<string>)
    ensures Delta(a + b, known) == Delta(a, known) + Delta(b, known)
  {
    if b == [] {
      assert a + b == a;
    } else {
      var front := b[..|b| - 1];
      DeltaAppend(a, front, known);
      assert (a + b)[..|a + b| - 1] == a + front;
    }
  }

  /** An entry is kept exactly when it is in the batch and its identifier is
      not known. */
  lemma {:induction false} DeltaMembers(items: seq<CveItem>, known: seq<string>, x: CveItem)
    ensures x in Delta(items, known) <==> x in items && x.id !in known
  {
    if items != [] {
      var front := items[..|items| - 1];
      DeltaMembers(front, known, x);
      assert items == front + [items[|items| - 1]];
    }
  }

  /** Filtering twice against the same identifiers changes nothing more. */
  lemma {:induction false} DeltaIdempotent(items: seq<CveItem>, known: seq<string>)
    ensures Delta(Delta(items, known), known) == Delta(items, known)
  {
    if items != [] {
      var front := items[..|items| - 1];
      var last := items[|items| - 1];
      DeltaIdempotent(front, known);
      DeltaAppend(Delta(front, known), if last.id in known then [] else [last], known);
      if last.id !in known {
        assert [last][..0] == [];
      }
    }
  }

  /** The filter keeps the whole batch exactly when no identifier of the batch
      is known; in particular with no known identifiers at all. */
  lemma {:induction false} DeltaKeepsAll(items: seq<CveItem>, known: seq<string>)
    ensures Delta(items, known) == items <==> forall i :: 0 <= i < |items| ==> items[i].id !in known
    ensures known == [] ==> Delta(items, known) == items
  {
    if items != [] {
      var front := items[..|items| - 1];
      var last := items[|items| - 1];
      DeltaKeepsAll(front, known);
      if last.id in known {
        assert |Delta(items, known)| < |items|;
      } else if Delta(items, known) == items {
        assert Delta(front, known) == Delta(items, known)[..|items| - 1];
      }
    }
  }

  // ---------------------------------------------------------------------------
  // The local file: lines, text, reading back
  // ---------------------------------------------------------------------------

  /** The local file system: the lines of each existing file, without their
      terminating newline. */
  class LocalFiles {
    var files: map<string, seq<string>>

    constructor (files: map<string, seq<string>>)
      ensures this.files == files
    {
      this.files := files;
    }
  }

  /** The lines of file `p`; a file that does not exist has none. */
  function LinesOf(files: map<string, seq<string>>, p: string): seq<string>
  {
    if p in files then files[p] else []
  }

  /** The file system after appending `lines` to `p` in append mode, one
      open per line: nothing is opened, so nothing is created, when there is
      no line. */
  function Appended(files: map<string, seq<string>>, p: string, lines: seq<string>)
    : map<string, seq<string>>
  {
    if lines == [] then files else files[p := LinesOf(files, p) + lines]
  }

  /** Appending one more line to a file after some lines. */
  lemma AppendedSnoc(files: map<string, seq<string>>, p: string, lines: seq<string>, line: string)
    ensures Appended(files, p, lines + [line])
         == Appended(files, p, lines)[p := LinesOf(Appended(files, p, lines), p) + [line]]
  {
    if lines == [] {
      assert lines + [line] == [line];
    } else {
      assert LinesOf(files, p) + (lines + [line]) == LinesOf(files, p) + lines + [line];
    }
  }

  /** The lines `encode` makes of the kept entries, one per entry, in order. */
  function Encoded(kept: seq<CveItem>, encode: CveItem -> string): (r: seq<string>)
    ensures |r| == |kept| && forall i :: 0 <= i < |kept| ==> r[i] == encode(kept[i])
  {
    seq(|kept|, i requires 0 <= i < |kept| => encode(kept[i]))
  }

  /** The text of a file holding `lines`, each written with a '\n' after it. */
  function FileText(lines: seq<string>): string
  {
    if lines == [] then [] else lines[0] + "\n" + FileText(lines[1..])
  }

  /** The position of the first '\n' of `t`, or |t| when there is none. */
  function NewlineAt(t: string): (k: nat)
    ensures k <= |t|
    ensures forall j :: 0 <= j < k ==> t[j] != '\n'
    ensures k < |t| ==> t[k] == '\n'
  {
    if t == [] || t[0] == '\n' then 0 else 1 + NewlineAt(t[1..])
  }

  /** Reading a text line by line, each line without its '\n'. */
  function SplitLines(t: string): seq<string>
    decreases |t|
  {
    if t == [] then []
    else
      var k := NewlineAt(t);
      if k == |t| then [t] else [t[..k]] + SplitLines(t[k + 1..])
  }

  /** The compact encoder never writes a line break. */
  ghost predicate Compact(encode: CveItem -> string)
  {
    forall c :: '\n' !in encode(c)
  }

  /** `decode` reads back what `encode` wrote. */
  ghost predicate Decodes(decode: string -> CveItem, encode: CveItem -> string)
  {
    forall c :: decode(encode(c)) == c
  }

  /** Appending lines appends their text. */
  lemma {:induction false} FileTextAppend(a: seq<string>, b: seq<string>)
    ensures FileText(a + b) == FileText(a) + FileText(b)
  {
    if a == [] {
      assert a + b == b;
    } else {
      FileTextAppend(a[1..], b);
      assert (a + b)[0] == a[0] && (a + b)[1..] == a[1..] + b;
    }
  }

  /** A text made of lines without line breaks reads back as those lines. */
  lemma {:induction false} SplitFileText(lines: seq<string>)
    requires forall i :: 0 <= i < |lines| ==> '\n' !in lines[i]
    ensures SplitLines(FileText(lines)) == lines
  {
    if lines != [] {
      var t := FileText(lines);
      var l := lines[0];
      assert t == l + ("\n" + FileText(lines[1..]));
      assert t[|l|] == '\n';
      var k := NewlineAt(t);
      assert forall j :: 0 <= j < |l| ==> t[j] == l[j] && l[j] in l;
      assert k == |l|;
      assert t[..k] == l;
      assert t[k + 1..] == FileText(lines[1..]);
      SplitFileText(lines[1..]);
      assert lines == [l] + lines[1..];
    }
  }

  /** The file is appended to, never truncated: its old text stays a prefix,
      and no other file changes. */
  lemma AppendOnly(files: map<string, seq<string>>, p: string, lines: seq<string>)
    ensures FileText(LinesOf(Appended(files, p, lines), p)) == FileText(LinesOf(files, p)) + FileText(lines)
    ensures forall q :: q != p ==> LinesOf(Appended(files, p, lines), q) == LinesOf(files, q)
    ensures p in Appended(files, p, lines) <==> p in files || lines != []
  {
    FileTextAppend(LinesOf(files, p), lines);
    if lines == [] {
      assert LinesOf(files, p) + lines == LinesOf(files, p);
    }
  }

  /** Reading the written file back line by line and decoding the new lines
      gives the old lines followed by the kept entries, in order. */
  lemma {:induction false} ReadBack(oldLines: seq<string>, kept: seq<CveItem>,
                                    encode: CveItem -> string, decode: string -> CveItem)
    requires forall i :: 0 <= i < |oldLines| ==> '\n' !in oldLines[i]
    requires Compact(encode) && Decodes(decode, encode)
    ensures |SplitLines(FileText(oldLines + Encoded(kept, encode)))| == |oldLines| + |kept|
    ensures SplitLines(FileText(oldLines + Encoded(kept, encode)))[..|oldLines|] == oldLines
    ensures forall i :: 0 <= i < |kept| ==>
      decode(SplitLines(FileText(oldLines + Encoded(kept, encode)))[|oldLines| + i]) == kept[i]
  {
    var all := oldLines + Encoded(kept, encode);
    forall i | 0 <= i < |all|
      ensures '\n' !in all[i]
    {
      if i >= |oldLines| {
        assert all[i] == encode(kept[i - |oldLines|]);
      }
    }
    SplitFileText(all);
  }

  // ---------------------------------------------------------------------------
  // The cloud: bucket, upload, load
  // ---------------------------------------------------------------------------

  /** A call the load step makes on the storage client, or its hand-over to
      bq_load_from_gcs. */
  datatype CloudCall =
    | CreateBucket(bucket: string)
    | GetBucket(bucket: string)
    | Upload(bucket: string, blob: string, file: string)
    | LoadFromGcs(dataset: string, bucket: string, blob: string)

  /** The calls of one load step and how it ended. */
  datatype LoadRun = LoadRun(calls: seq<CloudCall>, outcome: Outcome)

  /** Object storage as the load step sees it. */
  class Cloud {
    /** The calls received, in order. */
    var calls: seq<CloudCall>
    /** The content of each stored blob, by bucket and blob name. */
    var blobs: map<(string, string), seq<string>>

    constructor (blobs: map<(string, string), seq<string>>)
      ensures calls == [] && this.blobs == blobs
    {
      calls := [];
      this.blobs := blobs;
    }
  }

  /** How getting hold of the bucket ends: a Conflict on creation (the bucket
      exists) falls back to fetching it. */
  function BucketOutcome(bucketName: string, answers: CloudCall -> Outcome): (r: Outcome)
    ensures r == Normal <==>
      answers(CreateBucket(bucketName)) == Normal
      || (answers(CreateBucket(bucketName)) == Raised(Conflict) && answers(GetBucket(bucketName)) == Normal)
    ensures answers(CreateBucket(bucketName)) != Raised(Conflict) && r.Raised? ==>
      r == answers(CreateBucket(bucketName))
  {
    match answers(CreateBucket(bucketName))
    case Normal => Normal
    case Raised(e) => if e == Conflict then answers(GetBucket(bucketName)) else Raised(e)
  }

  /** How the upload ends: opening a missing local file fails before any
      transfer. */
  function UploadOutcome(filename: string, fileExists: bool, bucketName: string,
                         answers: CloudCall -> Outcome): (r: Outcome)
    ensures !fileExists ==> r == Raised(FileNotFoundError)
    ensures r == Normal ==> fileExists && answers(Upload(bucketName, Basename(filename), filename)) == Normal
    ensures fileExists ==> r == answers(Upload(bucketName, Basename(filename), filename))
  {
    if fileExists then answers(Upload(bucketName, Basename(filename), filename))
    else Raised(FileNotFoundError)
  }

  /** The calls that get hold of the bucket: create it, and fetch it when it
      exists already. */
  function BucketCalls(bucketName: string, answers: CloudCall -> Outcome): (r: seq<CloudCall>)
    ensures forall c :: c in r ==> c.CreateBucket? || c.GetBucket?
  {
    if answers(CreateBucket(bucketName)) == Raised(Conflict)
    then [CreateBucket(bucketName), GetBucket(bucketName)]
    else [CreateBucket(bucketName)]
  }

  /** The calls ETL.load makes and how it ends. One upload attempt, no retry;
      bq_load_from_gcs is reached only after the upload returned. */
  function LoadPlan(filename: string, bucketName: string, dataset: string, fileExists: bool,
                    answers: CloudCall -> Outcome): (r: LoadRun)
    ensures |r.calls| > 0 && r.calls[0] == CreateBucket(bucketName)
    ensures GetBucket(bucketName) in r.calls <==> answers(CreateBucket(bucketName)) == Raised(Conflict)
    ensures r.outcome.Normal? <==>
      BucketOutcome(bucketName, answers).Normal? && UploadOutcome(filename, fileExists, bucketName, answers).Normal?
    ensures BucketOutcome(bucketName, answers).Raised? ==> r.outcome == BucketOutcome(bucketName, answers)
    ensures BucketOutcome(bucketName, answers).Normal? && UploadOutcome(filename, fileExists, bucketName, answers).Raised? ==>
      r.outcome == UploadOutcome(filename, fileExists, bucketName, answers)
  {
    var bucketCalls := BucketCalls(bucketName, answers);
    var bucket := BucketOutcome(bucketName, answers);
    if bucket.Raised? then LoadRun(bucketCalls, bucket)
    else
      var blob := Basename(filename);
      var uploaded := UploadOutcome(filename, fileExists, bucketName, answers);
      if uploaded.Raised? then LoadRun(bucketCalls + [Upload(bucketName, blob, filename)], uploaded)
      else LoadRun(bucketCalls + [Upload(bucketName, blob, filename), LoadFromGcs(dataset, bucketName, blob)],
                   Normal)
  }

  /** The calls of the load step: the bucket calls, then the upload once the
      bucket is there, then bq_load_from_gcs once the upload returned. */
  lemma LoadCalls(filename: string, bucketName: string, dataset: string, fileExists: bool,
                  answers: CloudCall -> Outcome)
    ensures var r := LoadPlan(filename, bucketName, dataset, fileExists, answers);
      var up := Upload(bucketName, Basename(filename), filename);
      var load := LoadFromGcs(dataset, bucketName, Basename(filename));
      r.calls == BucketCalls(bucketName, answers)
        + (if BucketOutcome(bucketName, answers).Raised? then []
           else if r.outcome.Raised? then [up]
           else [up, load])
  {
  }

  /** The one upload attempt uses the file's base name and happens exactly
      when the bucket is there. */
  lemma LoadUploads(filename: string, bucketName: string, dataset: string, fileExists: bool,
                    answers: CloudCall -> Outcome)
    ensures var r := LoadPlan(filename, bucketName, dataset, fileExists, answers);
      && (forall c :: c in r.calls && c.Upload? ==> c == Upload(bucketName, Basename(filename), filename))
      && (Upload(bucketName, Basename(filename), filename) in r.calls <==> BucketOutcome(bucketName, answers).Normal?)
  {
    LoadCalls(filename, bucketName, dataset, fileExists, answers);
  }

  /** bq_load_from_gcs is reached with the configured dataset and the blob's
      name when and only when the load step returns normally; it is then the
      last call, once, right after the upload. */
  lemma LoadReachesGcs(filename: string, bucketName: string, dataset: string, fileExists: bool,
                       answers: CloudCall -> Outcome)
    ensures var r := LoadPlan(filename, bucketName, dataset, fileExists, answers);
      && (forall c :: c in r.calls && c.LoadFromGcs? ==> c == LoadFromGcs(dataset, bucketName, Basename(filename)))
      && (LoadFromGcs(dataset, bucketName, Basename(filename)) in r.calls <==> r.outcome.Normal?)
      && (r.outcome.Normal? ==> LoadFromGcs(dataset, bucketName, Basename(filename)) !in r.calls[..|r.calls| - 1])
      && (r.outcome.Normal? ==>
           r.calls[|r.calls| - 2..] == [Upload(bucketName, Basename(filename), filename),
                                        LoadFromGcs(dataset, bucketName, Basename(filename))])
  {
    var r := LoadPlan(filename, bucketName, dataset, fileExists, answers);
    var bucketCalls := BucketCalls(bucketName, answers);
    var up := Upload(bucketName, Basename(filename), filename);
    LoadCalls(filename, bucketName, dataset, fileExists, answers);
    if r.outcome.Normal? {
      assert r.calls[..|r.calls| - 1] == bucketCalls + [up];
    }
  }

  // ---------------------------------------------------------------------------
  // The ETL object
  // ---------------------------------------------------------------------------

  class Etl {
    /** config['local_path'] */
    const path: string
    /** config['dataset'] */
    const dataset: string

    constructor (localPath: string, dataset: string)
      ensures path == localPath && this.dataset == dataset
    {
      path := localPath;
      this.dataset := dataset;
    }

    /** ETL.transform. `idsAnswer` is what the identifier query yields and
        `encode` is json.dumps with compact separators. The known identifiers
        are queried only in deltas mode. A missing CVE_Items key raises
        KeyError; an error of the identifier query reaches the caller; in
        both cases nothing is written. Otherwise the kept entries are
        appended, one line each, and the output path is returned, also when
        nothing was kept. */
    method Transform(fs: LocalFiles, bq: Bq.BigQuery, nvd: NvdDict, filename: string,
                     deltasOnly: bool, idsAnswer: Result<seq<string>>, encode: CveItem -> string)
      returns (r: Result<string>)
      modifies fs, bq
      ensures bq.created == old(bq.created)
      ensures bq.queries == if deltasOnly && nvd.cveItems.Some? then old(bq.queries) + [Bq.IdsQuery(dataset)]
                            else old(bq.queries)
      ensures nvd.cveItems.None? ==> r == Failure(KeyError) && fs.files == old(fs.files)
      ensures nvd.cveItems.Some? && deltasOnly && idsAnswer.Failure? ==>
        r == Failure(idsAnswer.error) && fs.files == old(fs.files)
      ensures nvd.cveItems.Some? && !deltasOnly ==>
        && r == Success(OutputPath(path, filename))
        && fs.files == Appended(old(fs.files), OutputPath(path, filename), Encoded(nvd.cveItems.value, encode))
      ensures nvd.cveItems.Some? && deltasOnly && idsAnswer.Success? ==>
        && r == Success(OutputPath(path, filename))
        && fs.files == Appended(old(fs.files), OutputPath(path, filename),
                                Encoded(Delta(nvd.cveItems.value, idsAnswer.value), encode))
    {
      var localFile := OutputPath(path, filename);
      if nvd.cveItems.None? {
        return Failure(KeyError);
      }
      var cveList := nvd.cveItems.value;
      var scrubbed: seq<CveItem> := [];
      if deltasOnly {
        var ids := bq.GetCveIds(dataset, idsAnswer);
        if ids.Failure? {
          return Failure(ids.error);
        }
        var cveIds := ids.value;
        var i := 0;
        while i < |cveList|
          invariant 0 <= i <= |cveList|
          invariant scrubbed == Delta(cveList[..i], cveIds)
        {
          assert cveList[..i + 1][..i] == cveList[..i];
          if cveList[i].id !in cveIds {
            scrubbed := scrubbed + [cveList[i]];
          }
          i := i + 1;
        }
        assert cveList[..|cveList|] == cveList;
      } else {
        scrubbed := cveList;
      }
      WriteLines(fs, localFile, scrubbed, encode);
      r := Success(localFile);
    }

    /** The writing loop of transform: one append-mode open and one line per
        kept entry. */
    static method WriteLines(fs: LocalFiles, localFile: string, scrubbed: seq<CveItem>,
                             encode: CveItem -> string)
      modifies fs
      ensures fs.files == Appended(old(fs.files), localFile, Encoded(scrubbed, encode))
    {
      var i := 0;
      while i < |scrubbed|
        invariant 0 <= i <= |scrubbed|
        invariant fs.files == Appended(old(fs.files), localFile, Encoded(scrubbed[..i], encode))
      {
        var line := encode(scrubbed[i]);
        ghost var before := Encoded(scrubbed[..i], encode);
        assert Encoded(scrubbed[..i + 1], encode) == before + [line];
        AppendedSnoc(old(fs.files), localFile, before, line);
        fs.files := fs.files[localFile := LinesOf(fs.files, localFile) + [line]];
        i := i + 1;
      }
      assert scrubbed[..|scrubbed|] == scrubbed;
    }

    /** ETL.load: ensure the bucket, upload the file under its base name
        (replacing a blob of that name), then hand the blob to
        bq_load_from_gcs together with config['dataset']. */
    method Load(fs: LocalFiles, cloud: Cloud, filename: string, bucketName: string,
                answers: CloudCall -> Outcome)
      returns (o: Outcome)
      modifies cloud
      ensures cloud.calls == old(cloud.calls)
                             + LoadPlan(filename, bucketName, dataset, filename in fs.files, answers).calls
      ensures o == LoadPlan(filename, bucketName, dataset, filename in fs.files, answers).outcome
      ensures cloud.blobs == if o.Normal? then old(cloud.blobs)[(bucketName, Basename(filename)) := fs.files[filename]]
                             else old(cloud.blobs)
    {
      cloud.calls := cloud.calls + [CreateBucket(bucketName)];
      var created := answers(CreateBucket(bucketName));
      if created == Raised(Conflict) {
        cloud.calls := cloud.calls + [GetBucket(bucketName)];
        var got := answers(GetBucket(bucketName));
        if got.Raised? {
          return got;
        }
      } else if created.Raised? {
        return created;
      }
      var blob := Basename(filename);
      cloud.calls := cloud.calls + [Upload(bucketName, blob, filename)];
      if filename !in fs.files {
        return Raised(FileNotFoundError);
      }
      var uploaded := answers(Upload(bucketName, blob, filename));
      if uploaded.Raised? {
        return uploaded;
      }
      cloud.blobs := cloud.blobs[(bucketName, blob) := fs.files[filename]];
      BqLoadFromGcs(cloud, dataset, bucketName, blob);
      o := Normal;
    }

    /** bq_load_from_gcs does nothing; the model records that it was reached. */
    static method BqLoadFromGcs(cloud: Cloud, dataset: string, bucketName: string, blob: string)
      modifies cloud
      ensures cloud.calls == old(cloud.calls) + [LoadFromGcs(dataset, bucketName, blob)]
      ensures cloud.blobs == old(cloud.blobs)
    {
      cloud.calls := cloud.calls + [LoadFromGcs(dataset, bucketName, blob)];
    }
  }
}
