/** The feed fetcher (bq_nvd/download.py): how the name of a feed becomes a file
    name, a URL and a local path. The transfer itself (urllib's urlretrieve) is
    a parameter: all that matters of it here is whether it returns or raises. */
module Download {
  import opened Runtime

  const UrlBase := "https://nvd.nist.gov/feeds/json/cve/1.1/"
  const FilePrefix := "nvdcve-1.1-"
  const FileSuffix := ".json.gz"

  /** The archive name of a feed ("2019", "recent", ...), between the fixed
      prefix and suffix. */
  function FeedFilename(name: string): (r: string)
    ensures |r| == |FilePrefix| + |name| + |FileSuffix|
    ensures r[..|FilePrefix|] == FilePrefix
    ensures r[|FilePrefix|..|r| - |FileSuffix|] == name
    ensures r[|r| - |FileSuffix|..] == FileSuffix
  {
    FilePrefix + name + FileSuffix
  }

  /** Recovers the feed name from an archive name; the inverse of FeedFilename. */
  function FeedNameOf(filename: string): (r: Option<string>)
    ensures r.Some? ==> |filename| == |FilePrefix| + |r.value| + |FileSuffix|
  {
    if |filename| >= |FilePrefix| + |FileSuffix|
       && filename[..|FilePrefix|] == FilePrefix
       && filename[|filename| - |FileSuffix|..] == FileSuffix
    then Some(filename[|FilePrefix|..|filename| - |FileSuffix|])
    else None
  }

  /** Every feed name survives the trip through its archive name, and every
      archive name recognised as one came from exactly that feed name. */
  lemma FeedFilenameRoundTrip(name: string, filename: string)
    ensures FeedNameOf(FeedFilename(name)) == Some(name)
    ensures FeedNameOf(filename) == Some(name) <==> FeedFilename(name) == filename
  {
    if FeedNameOf(filename) == Some(name) {
      var f := filename;
      assert f == f[..|FilePrefix|] + f[|FilePrefix|..|f| - |FileSuffix|] + f[|f| - |FileSuffix|..];
    }
  }

  /** Two different feeds never share an archive name. */
  lemma FeedFilenameInjective(a: string, b: string)
    requires FeedFilename(a) == FeedFilename(b)
    ensures a == b
  {
    FeedFilenameRoundTrip(a, FeedFilename(b));
  }

  /** The archive name of a feed name without '/' has no '/' either: it is a
      single path component. */
  lemma FeedFilenameIsOneComponent(name: string)
    requires '/' !in name
    ensures '/' !in FeedFilename(name)
  {
    assert FeedFilename(name) == FilePrefix + name + FileSuffix;
  }

  /** The URL the archive of feed `name` is fetched from. */
  function FeedUrl(name: string): (r: string)
    ensures |r| == |UrlBase| + |FeedFilename(name)|
    ensures r[..|UrlBase|] == UrlBase && r[|UrlBase|..] == FeedFilename(name)
  {
    UrlBase + FeedFilename(name)
  }

  /** Download.download(name, local_path): fetches the feed's archive into
      local_path and returns the local file name; an error of the transfer
      (ContentTooShortError or any other) reaches the caller unchanged. */
  function Download(name: string, localPath: string,
                    urlretrieve: (string, string) -> Outcome): (r: Result<string>)
    ensures r.Success? <==> urlretrieve(FeedUrl(name), localPath + FeedFilename(name)) == Normal
    ensures r.Failure? ==> urlretrieve(FeedUrl(name), localPath + FeedFilename(name)) == Raised(r.error)
    ensures r.Success? ==> r.value == localPath + FeedFilename(name)
    ensures r.Success? ==> r.value[..|localPath|] == localPath
                           && r.value[|r.value| - |FileSuffix|..] == FileSuffix
  {
    var filename := FeedFilename(name);
    var localFilename := localPath + filename;
    match urlretrieve(FeedUrl(name), localFilename)
    case Normal => Success(localFilename)
    case Raised(e) => Failure(e)
  }
}
