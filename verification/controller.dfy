/** The run controller (bq-nvd.py): decide between bootstrap and incremental
    mode from the CVE count, then run download -> transform -> load for each
    unit of work, ending the process at the first stage error.

    The controller is described twice: by functions that give the trace of a
    whole run (the events in the order they happen and the final status), and
    by the class BqNvd whose methods follow the source and are proved to
    produce exactly that trace. What each stage meets in the outside world is
    the environment `Env`: the count (or the exception count_cves raises),
    the outcome of each archive transfer, and how each transform and load
    stage ends. */
module Controller {
  import opened Runtime
  import D = Download
  import Etl

  /** The configuration keys the controller reads. */
  datatype Config = Config(localPath: string, bucketName: string, dataset: string)

  /** A unit of work: one yearly feed, or the feed of recent changes. */
  datatype Feed = Year(year: nat) | Recent

  /** The decimal digit character for d. */
  function Digit(d: nat): (c: char)
    requires d < 10
    ensures '0' <= c <= '9'
    ensures c as int - '0' as int == d
  {
    ('0' as int + d) as char
  }

  /** str(n) for a non-negative int. */
  function DecimalString(n: nat): (r: string)
    ensures |r| > 0
    ensures forall i :: 0 <= i < |r| ==> '0' <= r[i] <= '9'
  {
    if n < 10 then [Digit(n)] else DecimalString(n / 10) + [Digit(n % 10)]
  }

  /** int(s) for a string of decimal digits, read most significant digit first. */
  function DecimalValue(s: string): int
  {
    if s == [] then 0 else DecimalValue(s[..|s| - 1]) * 10 + (s[|s| - 1] as int - '0' as int)
  }

  /** int(str(n)) == n. */
  lemma {:induction false} DecimalRoundTrip(n: nat)
    ensures DecimalValue(DecimalString(n)) == n
  {
    var r := DecimalString(n);
    if n < 10 {
      assert r[..|r| - 1] == [];
    } else {
      assert r[..|r| - 1] == DecimalString(n / 10);
      DecimalRoundTrip(n / 10);
    }
  }

  /** str(n) has no leading zero. */
  lemma {:induction false} DecimalStringCanonical(n: nat)
    ensures |DecimalString(n)| == 1 || DecimalString(n)[0] != '0'
  {
    if n >= 10 {
      DecimalStringCanonical(n / 10);
      assert DecimalString(n)[0] == DecimalString(n / 10)[0];
    }
  }

  /** Different numbers have different decimal strings. */
  lemma DecimalStringInjective(a: nat, b: nat)
    requires DecimalString(a) == DecimalString(b)
    ensures a == b
  {
    DecimalRoundTrip(a);
    DecimalRoundTrip(b);
  }

  /** No year is named 'recent'. */
  lemma DecimalStringIsNotRecent(n: nat)
    ensures DecimalString(n) != "recent"
  {
    var r := DecimalString(n);
    assert '0' <= r[0] <= '9';
    assert "recent"[0] == 'r';
  }

  /** Different units of work download different feeds. */
  lemma FeedNameInjective(f: Feed, g: Feed)
    requires FeedName(f) == FeedName(g)
    ensures f == g
  {
    if f.Year? && g.Year? {
      DecimalStringInjective(f.year, g.year);
    } else if f.Year? {
      DecimalStringIsNotRecent(f.year);
    } else if g.Year? {
      DecimalStringIsNotRecent(g.year);
    }
  }

  /** The name passed to download: str(year), or 'recent'. */
  function FeedName(f: Feed): (r: string)
    ensures '/' !in r
  {
    match f
    case Year(y) => DecimalString(y)
    case Recent => "recent"
  }

  /** The local file the download stage returns for a feed. */
  function Downloaded(cfg: Config, feed: Feed): string
  {
    cfg.localPath + D.FeedFilename(FeedName(feed))
  }

  /** The file the transform stage returns for a feed: the output name ETL
      derives from the basename of the downloaded archive. */
  function Transformed(cfg: Config, feed: Feed): string
  {
    Etl.OutputPath(cfg.localPath, Basename(Downloaded(cfg, feed)))
  }

  /** With local_path a directory (empty, or ending in '/'), the transformed
      file of a feed is the downloaded archive's path with '_newline.json'
      appended. */
  lemma TransformedFile(cfg: Config, feed: Feed)
    requires cfg.localPath == [] || cfg.localPath[|cfg.localPath| - 1] == '/'
    ensures Transformed(cfg, feed) == Downloaded(cfg, feed) + Etl.OutputSuffix
  {
    D.FeedFilenameIsOneComponent(FeedName(feed));
    BasenameInDirectory(cfg.localPath, D.FeedFilename(FeedName(feed)));
  }

  /** What the controller does, in order. A transform or load stage is named
      by the feed whose file it works on. */
  datatype Event =
    | Count(dataset: string)
    | Fetch(feed: Feed)
    | Transform(feed: Feed, deltasOnly: bool)
    | Load(feed: Feed)

  /** Still running; ended through print_error_and_exit; or ended by an
      exception no handler caught. */
  datatype Status = Running | Exited(code: int) | Crashed(error: Exception)

  /** A trace of events and the status it leaves. */
  datatype Run = Run(events: seq<Event>, status: Status)

  /** The outside world of one run. */
  datatype Env = Env(
    count: Result<int>,                    // what count_cves returns or raises
    urlretrieve: (string, string) -> Outcome,
    stage: Event -> Outcome)               // how each transform or load stage ends

  /** How the load stage calls ETL.load: as the source has it, with the BQ
      object as an extra argument, or with the two arguments ETL.load takes. */
  datatype Binding = AsWritten | Corrected

  const CountHandler: set<Exception> := {TypeError}
  const DownloadHandler: set<Exception> := {ContentTooShortError}
  const TransformHandler: set<Exception> := {ValueError, TypeError, JSONDecodeError}
  const LoadHandler: set<Exception> := {Conflict, GoogleCloudError}

  /** A stage that returns leaves the run going; one that raises an exception
      its handler names exits with 1; any other exception ends the process
      uncaught. */
  function Handle(o: Outcome, handler: set<Exception>): (s: Status)
    ensures s == Running <==> o.Normal?
    ensures s.Exited? ==> s.code == 1
    ensures o.Raised? && Catches(handler, o.error) ==> s == Exited(1)
    ensures o.Raised? && !Catches(handler, o.error) ==> s == Crashed(o.error)
  {
    match o
    case Normal => Running
    case Raised(e) => if Catches(handler, e) then Exited(1) else Crashed(e)
  }

  /** The exit status of the process. */
  function ExitCode(s: Status): (r: int)
    ensures s == Running ==> r == 0
    ensures s.Exited? ==> r == s.code
    ensures s.Crashed? ==> r == 1
  {
    match s
    case Running => 0
    case Exited(code) => code
    case Crashed(_) => 1
  }

  /** The status an event leaves. */
  function EventStatus(cfg: Config, env: Env, b: Binding, ev: Event): (s: Status)
    ensures s.Exited? ==> s.code == 1
  {
    match ev
    case Count(_) => Handle(env.count.ToOutcome(), CountHandler)
    case Fetch(feed) =>
      Handle(D.Download(FeedName(feed), cfg.localPath, env.urlretrieve).ToOutcome(), DownloadHandler)
    case Transform(_, _) => Handle(env.stage(ev), TransformHandler)
    case Load(_) => Handle(if b == AsWritten then Raised(TypeError) else env.stage(ev), LoadHandler)
  }

  /** The status of every event, as one map. */
  function StatusOf(cfg: Config, env: Env, b: Binding): Event -> Status
  {
    ev => EventStatus(cfg, env, b, ev)
  }

  /** `st` gives, for every event, the status EventStatus gives it with the
      corrected load call. */
  ghost predicate StatusMap(cfg: Config, env: Env, st: Event -> Status)
  {
    forall ev {:trigger EventStatus(cfg, env, Corrected, ev)} :: st(ev) == EventStatus(cfg, env, Corrected, ev)
  }

  // ---------------------------------------------------------------------------
  // Runs, given the status each event leaves
  // ---------------------------------------------------------------------------

  function Step(st: Event -> Status, ev: Event): Run
  {
    Run([ev], st(ev))
  }

  /** Runs `next` after `first` unless `first` ended the process. */
  function Then(first: Run, next: Run): Run
  {
    if first.status != Running then first else Run(first.events + next.events, next.status)
  }

  /** The three events of one unit of work, when every stage returns. */
  function UnitEvents(feed: Feed, deltasOnly: bool): seq<Event>
  {
    [Fetch(feed), Transform(feed, deltasOnly), Load(feed)]
  }

  /** One unit of work: download, transform, load. */
  function UnitRun(st: Event -> Status, feed: Feed, deltasOnly: bool): Run
  {
    Then(Step(st, Fetch(feed)), Then(Step(st, Transform(feed, deltasOnly)), Step(st, Load(feed))))
  }

  /** bootstrap's loop over the years 2002 .. stop - 1. */
  function YearsRun(st: Event -> Status, stop: int): (r: Run)
    ensures stop > 2002 ==> r.events != [] && r.events[0] == Fetch(Year(2002))
    decreases stop - 2002
  {
    if stop <= 2002 then Run([], Running)
    else Then(YearsRun(st, stop - 1), UnitRun(st, Year(stop - 1), false))
  }

  /** The years bootstrap works through, when every stage returns. */
  function YearsEvents(stop: int): seq<Event>
    decreases stop - 2002
  {
    if stop <= 2002 then [] else YearsEvents(stop - 1) + UnitEvents(Year(stop - 1), false)
  }

  /** bootstrap: every year from 2002 to the current one. */
  function BootstrapRun(st: Event -> Status, currentYear: int): (r: Run)
    ensures currentYear < 2002 ==> r == Run([], Running)
    ensures currentYear >= 2002 ==> r.events != [] && r.events[0] == Fetch(Year(2002))
  {
    YearsRun(st, currentYear + 1)
  }

  /** incremental: the 'recent' feed with deltas on. */
  function IncrementalRun(st: Event -> Status): (r: Run)
    ensures r.events != [] && r.events <= [Fetch(Recent), Transform(Recent, true), Load(Recent)]
  {
    UnitRun(st, Recent, true)
  }

  /** check_bootstrap: count, then bootstrap when the count is 0. */
  function CheckBootstrapRun(st: Event -> Status, dataset: string, count: Result<int>,
                             currentYear: int): (r: Run)
    ensures r.events != [] && r.events[0] == Count(dataset)
    ensures count != Success(0) ==> r == Run([Count(dataset)], st(Count(dataset)))
  {
    Then(Step(st, Count(dataset)),
         if count == Success(0) then BootstrapRun(st, currentYear) else Run([], Running))
  }

  /** main: check_bootstrap, then incremental when it did not bootstrap. */
  function MainRun(st: Event -> Status, dataset: string, count: Result<int>, currentYear: int): (r: Run)
    ensures r.events != [] && r.events[0] == Count(dataset)
    ensures st(Count(dataset)) != Running ==> r == Run([Count(dataset)], st(Count(dataset)))
  {
    Then(CheckBootstrapRun(st, dataset, count, currentYear),
         if count == Success(0) then Run([], Running) else IncrementalRun(st))
  }

  /** The run of the process in a given outside world. */
  function ProcessRun(cfg: Config, env: Env, b: Binding, currentYear: int): (r: Run)
    ensures r.events != [] && r.events[0] == Count(cfg.dataset)
    ensures env.count.Failure? ==> r.events == [Count(cfg.dataset)]
  {
    MainRun(StatusOf(cfg, env, b), cfg.dataset, env.count, currentYear)
  }

  // ---------------------------------------------------------------------------
  // What every run satisfies
  // ---------------------------------------------------------------------------

  /** Every event but the last returned normally, and the run's status is the
      one its last event left. */
  ghost predicate Coherent(st: Event -> Status, r: Run)
  {
    && (r.events == [] ==> r.status == Running)
    && (r.events != [] ==> r.status == st(r.events[|r.events| - 1]))
    && forall i :: 0 <= i < |r.events| - 1 ==> st(r.events[i]) == Running
  }

  lemma ThenCoherent(st: Event -> Status, first: Run, next: Run)
    requires Coherent(st, first) && Coherent(st, next)
    ensures Coherent(st, Then(first, next))
  {
    if first.status == Running && next.events != [] {
      var all := first.events + next.events;
      forall i | 0 <= i < |all| - 1
        ensures st(all[i]) == Running
      {
        if i >= |first.events| {
          assert all[i] == next.events[i - |first.events|];
        }
      }
    } else if first.status == Running {
      assert first.events + next.events == first.events;
    }
  }

  lemma UnitRunCoherent(st: Event -> Status, feed: Feed, deltasOnly: bool)
    ensures Coherent(st, UnitRun(st, feed, deltasOnly))
  {
    var tail := Then(Step(st, Transform(feed, deltasOnly)), Step(st, Load(feed)));
    ThenCoherent(st, Step(st, Transform(feed, deltasOnly)), Step(st, Load(feed)));
    ThenCoherent(st, Step(st, Fetch(feed)), tail);
  }

  lemma {:induction false} YearsRunCoherent(st: Event -> Status, stop: int)
    decreases stop - 2002
    ensures Coherent(st, YearsRun(st, stop))
  {
    if stop > 2002 {
      YearsRunCoherent(st, stop - 1);
      UnitRunCoherent(st, Year(stop - 1), false);
      ThenCoherent(st, YearsRun(st, stop - 1), UnitRun(st, Year(stop - 1), false));
    }
  }

  lemma MainRunCoherent(st: Event -> Status, dataset: string, count: Result<int>, currentYear: int)
    ensures Coherent(st, MainRun(st, dataset, count, currentYear))
  {
    var boot := if count == Success(0) then BootstrapRun(st, currentYear) else Run([], Running);
    var inc := if count == Success(0) then Run([], Running) else IncrementalRun(st);
    YearsRunCoherent(st, currentYear + 1);
    UnitRunCoherent(st, Recent, true);
    ThenCoherent(st, Step(st, Count(dataset)), boot);
    ThenCoherent(st, CheckBootstrapRun(st, dataset, count, currentYear), inc);
  }

  /** A stage error ends the run: the stage that failed is the last thing
      that happens, every earlier stage returned, and the process exits with
      1; a run that meets no error exits with 0. */
  lemma StageErrorEndsRun(cfg: Config, env: Env, b: Binding, currentYear: int)
    ensures var r := ProcessRun(cfg, env, b, currentYear);
      && Coherent(StatusOf(cfg, env, b), r)
      && (ExitCode(r.status) == 0 <==> r.status == Running)
      && (r.status != Running ==> ExitCode(r.status) == 1)
  {
    var st := StatusOf(cfg, env, b);
    var r := ProcessRun(cfg, env, b, currentYear);
    MainRunCoherent(st, cfg.dataset, env.count, currentYear);
    if r.status.Exited? {
      assert r.status == EventStatus(cfg, env, b, r.events[|r.events| - 1]);
    }
  }

  /** When count_cves raises, nothing follows the count: a TypeError exits
      with 1 and any other exception ends the process uncaught. */
  lemma CountErrorStops(cfg: Config, env: Env, b: Binding, currentYear: int)
    requires env.count.Failure?
    ensures ProcessRun(cfg, env, b, currentYear)
         == Run([Count(cfg.dataset)], Handle(Raised(env.count.error), CountHandler))
    ensures ProcessRun(cfg, env, b, currentYear).status
         == if env.count.error == TypeError then Exited(1) else Crashed(env.count.error)
  {
    var e := env.count.error;
    assert Catches(CountHandler, e) <==> e == TypeError by {
      if e == TypeError {
        assert IsA(e, TypeError);
      }
    }
  }

  // ---------------------------------------------------------------------------
  // The order of the work
  // ---------------------------------------------------------------------------

  /** One unit of work does a prefix of download, transform, load: at least
      the download, all three when none fails, and the load whenever the
      download and the transform returned. */
  lemma UnitRunFollowsPlan(st: Event -> Status, feed: Feed, deltasOnly: bool)
    ensures var r := UnitRun(st, feed, deltasOnly);
      && r.events <= UnitEvents(feed, deltasOnly)
      && r.events != []
      && (r.status == Running ==> r.events == UnitEvents(feed, deltasOnly))
      && (st(Fetch(feed)) == Running && st(Transform(feed, deltasOnly)) == Running ==>
            r.events == UnitEvents(feed, deltasOnly) && r.status == st(Load(feed)))
  {
  }

  /** One more year of bootstrap, after years that all went through, is the
      unit of work of that year. */
  lemma YearsRunNext(st: Event -> Status, year: int)
    requires year >= 2002 && YearsRun(st, year).status == Running
    ensures YearsRun(st, year + 1).events == YearsRun(st, year).events + UnitRun(st, Year(year), false).events
    ensures YearsRun(st, year + 1).status == UnitRun(st, Year(year), false).status
  {
  }

  /** A trace that holds the years before `year`, extended by the unit of
      work of `year`, holds the years up to `year`. */
  lemma YearsTraceNext(st: Event -> Status, year: int, start: seq<Event>,
                       before: seq<Event>, after: seq<Event>)
    requires year >= 2002 && YearsRun(st, year).status == Running
    requires before == start + YearsRun(st, year).events
    requires after == before + UnitRun(st, Year(year), false).events
    ensures after == start + YearsRun(st, year + 1).events
    ensures YearsRun(st, year + 1).status == UnitRun(st, Year(year), false).status
  {
    YearsRunNext(st, year);
  }

  /** A run that has ended stays ended, whatever years remain. */
  lemma {:induction false} HaltedStaysHalted(st: Event -> Status, stop: int, later: int)
    requires stop <= later
    requires YearsRun(st, stop).status != Running
    decreases later - stop
    ensures YearsRun(st, later) == YearsRun(st, stop)
  {
    if later > stop {
      HaltedStaysHalted(st, stop, later - 1);
    }
  }

  /** Bootstrap follows its plan: what it did is a prefix of the plan, all
      of it when nothing failed. */
  lemma {:induction false} BootstrapFollowsPlan(st: Event -> Status, stop: int)
    decreases stop - 2002
    ensures YearsRun(st, stop).events <= YearsEvents(stop)
    ensures YearsRun(st, stop).status == Running ==> YearsRun(st, stop).events == YearsEvents(stop)
  {
    if stop > 2002 {
      BootstrapFollowsPlan(st, stop - 1);
      UnitRunFollowsPlan(st, Year(stop - 1), false);
    }
  }

  /** The plan of bootstrap: one download, transform (deltas off), load triple
      per year, the years 2002 .. stop - 1 in ascending order; nothing when
      stop is 2002 or less. */
  lemma {:induction false} YearsEventsShape(stop: int)
    decreases stop - 2002
    ensures |YearsEvents(stop)| == if stop <= 2002 then 0 else 3 * (stop - 2002)
    ensures forall k :: 0 <= k < stop - 2002 ==>
      YearsEvents(stop)[3 * k..3 * k + 3] == UnitEvents(Year(2002 + k), false)
  {
    if stop > 2002 {
      YearsEventsShape(stop - 1);
      var prev := YearsEvents(stop - 1);
      var all := YearsEvents(stop);
      assert all == prev + UnitEvents(Year(stop - 1), false);
      forall k | 0 <= k < stop - 2002
        ensures all[3 * k..3 * k + 3] == UnitEvents(Year(2002 + k), false)
      {
        if k < stop - 1 - 2002 {
          assert all[3 * k..3 * k + 3] == prev[3 * k..3 * k + 3];
        } else {
          assert all[3 * k..3 * k + 3] == UnitEvents(Year(stop - 1), false);
        }
      }
    }
  }

  /** Every event of the bootstrap plan is about a year 2002 .. stop - 1 and
      transforms with deltas off. */
  lemma {:induction false} YearsEventsKinds(stop: int)
    decreases stop - 2002
    ensures forall ev :: ev in YearsEvents(stop) ==>
      && !ev.Count?
      && ev.feed.Year? && 2002 <= ev.feed.year < stop
      && (ev.Transform? ==> !ev.deltasOnly)
  {
    if stop > 2002 {
      YearsEventsKinds(stop - 1);
    }
  }

  /** main runs exactly one of the two modes: bootstrap, over the years and
      with deltas off, exactly when the count is 0; otherwise the single
      'recent' unit with deltas on. The count comes first. */
  lemma MainChoosesOneMode(st: Event -> Status, dataset: string, count: Result<int>, currentYear: int)
    ensures var r := MainRun(st, dataset, count, currentYear);
      && r.events != [] && r.events[0] == Count(dataset)
      && (forall ev :: ev in r.events[1..] ==> !ev.Count?)
      && (forall ev :: ev in r.events[1..] ==> (ev.feed == Recent <==> count != Success(0)))
      && (forall ev :: ev in r.events[1..] && ev.Transform? ==> (ev.deltasOnly <==> count != Success(0)))
  {
    var r := MainRun(st, dataset, count, currentYear);
    var rest: seq<Event> :=
      if st(Count(dataset)) != Running then []
      else if count == Success(0) then BootstrapRun(st, currentYear).events
      else IncrementalRun(st).events;
    assert r.events == [Count(dataset)] + rest;
    assert r.events[1..] == rest;
    if count == Success(0) {
      BootstrapFollowsPlan(st, currentYear + 1);
      YearsEventsKinds(currentYear + 1);
      PrefixMembers(rest, YearsEvents(currentYear + 1));
    } else {
      UnitRunFollowsPlan(st, Recent, true);
      PrefixMembers(rest, UnitEvents(Recent, true));
    }
  }

  lemma PrefixMembers(a: seq<Event>, b: seq<Event>)
    requires a <= b
    ensures forall ev :: ev in a ==> ev in b
  {
    forall ev | ev in a
      ensures ev in b
    {
      var i :| 0 <= i < |a| && a[i] == ev;
      assert b[i] == ev;
    }
  }

  /** count_cves raising stops the process at once; a count that is 0 leads
      into bootstrap, and any other count into incremental. */
  lemma MainRunByCount(st: Event -> Status, dataset: string, count: Result<int>, currentYear: int)
    requires st(Count(dataset)) == Running
    ensures count == Success(0) ==>
      MainRun(st, dataset, count, currentYear)
        == Run([Count(dataset)] + BootstrapRun(st, currentYear).events, BootstrapRun(st, currentYear).status)
    ensures count != Success(0) ==>
      MainRun(st, dataset, count, currentYear)
        == Run([Count(dataset)] + IncrementalRun(st).events, IncrementalRun(st).status)
  {
  }

  // ---------------------------------------------------------------------------
  // The load call of bq-nvd.py:88
  // ---------------------------------------------------------------------------

  /** Nothing in the outside world fails. */
  ghost predicate Smooth(env: Env)
  {
    && env.count.Success?
    && (forall url, dest :: env.urlretrieve(url, dest) == Normal)
    && (forall ev :: env.stage(ev) == Normal)
  }

  /** With the corrected load call, every stage returns when nothing fails. */
  lemma SmoothStatus(cfg: Config, env: Env)
    requires Smooth(env)
    ensures forall ev :: StatusOf(cfg, env, Corrected)(ev) == Running
  {
    forall ev
      ensures EventStatus(cfg, env, Corrected, ev) == Running
    {
      if ev.Fetch? {
        var name := FeedName(ev.feed);
        assert env.urlretrieve(D.FeedUrl(name), cfg.localPath + D.FeedFilename(name)) == Normal;
      }
    }
  }

  /** When every stage returns, bootstrap's run is its whole plan. */
  lemma {:induction false} AllRunningYears(st: Event -> Status, stop: int)
    requires forall ev :: st(ev) == Running
    decreases stop - 2002
    ensures YearsRun(st, stop) == Run(YearsEvents(stop), Running)
  {
    if stop > 2002 {
      AllRunningYears(st, stop - 1);
    }
  }

  /** With the load stage calling ETL.load(filename, bucket_name), a run where
      nothing fails does all its work and exits with 0: on an empty warehouse
      every year from 2002 to the current one, otherwise the 'recent' unit. */
  lemma CorrectedRunCompletes(cfg: Config, env: Env, currentYear: int)
    requires Smooth(env)
    ensures env.count == Success(0) ==>
      ProcessRun(cfg, env, Corrected, currentYear)
        == Run([Count(cfg.dataset)] + YearsEvents(currentYear + 1), Running)
    ensures env.count != Success(0) ==>
      ProcessRun(cfg, env, Corrected, currentYear)
        == Run([Count(cfg.dataset)] + UnitEvents(Recent, true), Running)
    ensures ExitCode(ProcessRun(cfg, env, Corrected, currentYear).status) == 0
  {
    var st := StatusOf(cfg, env, Corrected);
    SmoothStatus(cfg, env);
    AllRunningYears(st, currentYear + 1);
  }

  /** In a run where every load crashes with TypeError, a load is always the
      last event and the run crashes with that TypeError. */
  lemma LoadCrashEndsRun(st: Event -> Status, r: Run)
    requires Coherent(st, r)
    requires forall f :: st(Load(f)) == Crashed(TypeError)
    ensures forall i :: 0 <= i < |r.events| && r.events[i].Load? ==>
      i == |r.events| - 1 && r.status == Crashed(TypeError)
  {
    forall i | 0 <= i < |r.events| && r.events[i].Load?
      ensures i == |r.events| - 1 && r.status == Crashed(TypeError)
    {
      assert st(Load(r.events[i].feed)) == Crashed(TypeError);
    }
  }

  /** On an empty warehouse, when the count, the download and the transform of
      2002 go through and its load crashes, main ends there. */
  lemma FirstLoadCrashes(st: Event -> Status, dataset: string, currentYear: int)
    requires currentYear >= 2002
    requires st(Count(dataset)) == Running
    requires st(Fetch(Year(2002))) == Running && st(Transform(Year(2002), false)) == Running
    requires st(Load(Year(2002))) == Crashed(TypeError)
    ensures MainRun(st, dataset, Success(0), currentYear)
         == Run([Count(dataset)] + UnitEvents(Year(2002), false), Crashed(TypeError))
  {
    assert YearsRun(st, 2003) == Run(UnitEvents(Year(2002), false), Crashed(TypeError));
    HaltedStaysHalted(st, 2003, currentYear + 1);
  }

  /** As written, ETL.load receives one argument too many: every load stage
      raises TypeError, which the (Conflict, GoogleCloudError) handler does
      not catch. A run therefore never gets past its first load: a load is
      always the last event, and the process crashes with that TypeError. */
  lemma AsWrittenLoadEndsRun(cfg: Config, env: Env, currentYear: int)
    ensures var r := ProcessRun(cfg, env, AsWritten, currentYear);
      forall i :: 0 <= i < |r.events| && r.events[i].Load? ==>
        i == |r.events| - 1 && r.status == Crashed(TypeError)
  {
    var st := StatusOf(cfg, env, AsWritten);
    StageErrorEndsRun(cfg, env, AsWritten, currentYear);
    assert forall f :: st(Load(f)) == EventStatus(cfg, env, AsWritten, Load(f)) == Crashed(TypeError);
    LoadCrashEndsRun(st, ProcessRun(cfg, env, AsWritten, currentYear));
  }

  /** As written, on an empty warehouse where nothing fails, the process
      crashes at the load of 2002, after downloading and transforming only
      that year. */
  lemma AsWrittenRunStopsAtFirstLoad(cfg: Config, env: Env, currentYear: int)
    requires Smooth(env) && env.count == Success(0) && currentYear >= 2002
    ensures ProcessRun(cfg, env, AsWritten, currentYear)
         == Run([Count(cfg.dataset)] + UnitEvents(Year(2002), false), Crashed(TypeError))
  {
    var st := StatusOf(cfg, env, AsWritten);
    var name := FeedName(Year(2002));
    assert env.urlretrieve(D.FeedUrl(name), cfg.localPath + D.FeedFilename(name)) == Normal;
    assert st(Fetch(Year(2002))) == Running;
    assert st(Transform(Year(2002), false)) == Running;
    FirstLoadCrashes(st, cfg.dataset, currentYear);
  }

  /** The outside world `env` with every load stage raising TypeError, the
      exception the three-argument call to ETL.load raises. */
  function LoadsRaise(env: Env): Env
  {
    Env(env.count, env.urlretrieve, (ev: Event) => if ev.Load? then Raised(TypeError) else env.stage(ev))
  }

  /** Runs of bootstrap's loop depend only on the status each event leaves. */
  lemma {:induction false} YearsRunCongruent(st1: Event -> Status, st2: Event -> Status, stop: int)
    requires forall ev :: st1(ev) == st2(ev)
    ensures YearsRun(st1, stop) == YearsRun(st2, stop)
    decreases stop - 2002
  {
    if stop > 2002 {
      YearsRunCongruent(st1, st2, stop - 1);
    }
  }

  /** Runs of main depend only on the status each event leaves. */
  lemma MainRunCongruent(st1: Event -> Status, st2: Event -> Status, dataset: string,
                         count: Result<int>, currentYear: int)
    requires forall ev :: st1(ev) == st2(ev)
    ensures MainRun(st1, dataset, count, currentYear) == MainRun(st2, dataset, count, currentYear)
  {
    YearsRunCongruent(st1, st2, currentYear + 1);
  }

  /** The process as written is the corrected process in an outside world
      whose every load stage raises TypeError. */
  lemma AsWrittenIsCorrectedWithFailingLoads(cfg: Config, env: Env, currentYear: int)
    ensures ProcessRun(cfg, env, AsWritten, currentYear)
         == ProcessRun(cfg, LoadsRaise(env), Corrected, currentYear)
  {
    var st1 := StatusOf(cfg, env, AsWritten);
    var st2 := StatusOf(cfg, LoadsRaise(env), Corrected);
    forall ev
      ensures st1(ev) == st2(ev)
    {
      assert st1(ev) == EventStatus(cfg, env, AsWritten, ev);
      assert st2(ev) == EventStatus(cfg, LoadsRaise(env), Corrected, ev);
    }
    MainRunCongruent(st1, st2, cfg.dataset, env.count, currentYear);
  }

  // ---------------------------------------------------------------------------
  // The BQNVD object
  // ---------------------------------------------------------------------------

  class BqNvd {
    const cfg: Config
    /** What has happened so far. */
    var trace: seq<Event>
    /** Running, or how the process ended. */
    var status: Status

    constructor (cfg: Config)
      ensures this.cfg == cfg && trace == [] && status == Running
    {
      this.cfg := cfg;
      trace := [];
      status := Running;
    }

    /** download: the archive of the feed, or exit 1 on ContentTooShortError. */
    method Download(env: Env, feed: Feed) returns (downloaded: string)
      requires status == Running
      modifies this
      ensures trace == old(trace) + [Fetch(feed)]
      ensures status == EventStatus(cfg, env, Corrected, Fetch(feed))
      ensures status == Running ==> downloaded == Downloaded(cfg, feed)
    {
      trace := trace + [Fetch(feed)];
      var r := D.Download(FeedName(feed), cfg.localPath, env.urlretrieve);
      match r {
        case Success(f) =>
          downloaded := f;
        case Failure(e) =>
          status := Handle(Raised(e), DownloadHandler);
          downloaded := "";
      }
    }

    /** transform: extract and transform the archive of `feed`, or exit 1 on
        ValueError, TypeError or JSONDecodeError; the file it returns is the
        output file ETL names after the archive. */
    method Transform(env: Env, feed: Feed, downloaded: string, deltasOnly: bool)
      returns (transformed: string)
      requires status == Running
      modifies this
      ensures trace == old(trace) + [Event.Transform(feed, deltasOnly)]
      ensures status == EventStatus(cfg, env, Corrected, Event.Transform(feed, deltasOnly))
      ensures status == Running ==> transformed == Etl.OutputPath(cfg.localPath, Basename(downloaded))
    {
      trace := trace + [Event.Transform(feed, deltasOnly)];
      var o := env.stage(Event.Transform(feed, deltasOnly));
      if o.Raised? {
        status := Handle(o, TransformHandler);
        transformed := "";
      } else {
        transformed := Etl.OutputPath(cfg.localPath, Basename(downloaded));
      }
    }

    /** load, calling ETL.load(filename, bucket_name) on the transformed file
        of `feed`; exit 1 on Conflict or GoogleCloudError. */
    method Load(env: Env, feed: Feed, transformed: string)
      requires status == Running
      modifies this
      ensures trace == old(trace) + [Event.Load(feed)]
      ensures status == EventStatus(cfg, env, Corrected, Event.Load(feed))
    {
      trace := trace + [Event.Load(feed)];
      var o := env.stage(Event.Load(feed));
      status := Handle(o, LoadHandler);
    }

    /** One unit of work: download, transform and load, stopping at the first
        stage that ends the process. */
    method Unit(env: Env, ghost st: Event -> Status, feed: Feed, deltasOnly: bool)
      requires status == Running && StatusMap(cfg, env, st)
      modifies this
      ensures trace == old(trace) + UnitRun(st, feed, deltasOnly).events
      ensures status == UnitRun(st, feed, deltasOnly).status
    {
      var downloaded := Download(env, feed);
      if status != Running {
        return;
      }
      var transformed := Transform(env, feed, downloaded, deltasOnly);
      if status != Running {
        return;
      }
      Load(env, feed, transformed);
    }

    /** bootstrap: the years 2002 .. currentYear, each downloaded, transformed
        with deltas off and loaded, before the next one starts. */
    method Bootstrap(env: Env, ghost st: Event -> Status, currentYear: int)
      requires status == Running && StatusMap(cfg, env, st)
      modifies this
      ensures trace == old(trace) + BootstrapRun(st, currentYear).events
      ensures status == BootstrapRun(st, currentYear).status
    {
      var year := 2002;
      while year < currentYear + 1
        invariant 2002 <= year && (year <= currentYear + 1 || year == 2002)
        invariant status == Running
        invariant YearsRun(st, year).status == Running
        invariant trace == old(trace) + YearsRun(st, year).events
      {
        ghost var before := trace;
        Unit(env, st, Year(year), false);
        YearsTraceNext(st, year, old(trace), before, trace);
        if status != Running {
          HaltedStaysHalted(st, year + 1, currentYear + 1);
          return;
        }
        year := year + 1;
      }
    }

    /** incremental: the 'recent' feed, transformed with deltas on, loaded. */
    method Incremental(env: Env, ghost st: Event -> Status)
      requires status == Running && StatusMap(cfg, env, st)
      modifies this
      ensures trace == old(trace) + IncrementalRun(st).events
      ensures status == IncrementalRun(st).status
    {
      Unit(env, st, Recent, true);
    }

    /** check_bootstrap: count the CVEs (exit 1 on TypeError); bootstrap and
        answer true when the count is 0, answer false otherwise. */
    method CheckBootstrap(env: Env, ghost st: Event -> Status, currentYear: int) returns (bootstrapped: bool)
      requires status == Running && StatusMap(cfg, env, st)
      modifies this
      ensures trace == old(trace) + CheckBootstrapRun(st, cfg.dataset, env.count, currentYear).events
      ensures status == CheckBootstrapRun(st, cfg.dataset, env.count, currentYear).status
      ensures status == Running ==> (bootstrapped <==> env.count == Success(0))
    {
      assert st(Count(cfg.dataset)) == EventStatus(cfg, env, Corrected, Count(cfg.dataset));
      trace := trace + [Count(cfg.dataset)];
      match env.count {
        case Failure(e) =>
          status := Handle(Raised(e), CountHandler);
          bootstrapped := false;
        case Success(cveCount) =>
          if cveCount == 0 {
            Bootstrap(env, st, currentYear);
            bootstrapped := true;
          } else {
            bootstrapped := false;
          }
      }
    }
  }

  /** main: one BQNVD object, check_bootstrap, then incremental unless it
      bootstrapped; the trace and the exit code are those of ProcessRun. */
  method RunProcess(cfg: Config, env: Env, currentYear: int) returns (trace: seq<Event>, exitCode: int)
    ensures trace == ProcessRun(cfg, env, Corrected, currentYear).events
    ensures exitCode == ExitCode(ProcessRun(cfg, env, Corrected, currentYear).status)
  {
    ghost var st := StatusOf(cfg, env, Corrected);
    var bqnvd := new BqNvd(cfg);
    var bootstrapped := bqnvd.CheckBootstrap(env, st, currentYear);
    if bqnvd.status == Running && !bootstrapped {
      bqnvd.Incremental(env, st);
    }
    trace := bqnvd.trace;
    exitCode := ExitCode(bqnvd.status);
  }

  /** The process with the load stage calling ETL.load as the source does. */
  method RunProcessAsWritten(cfg: Config, env: Env, currentYear: int)
    returns (trace: seq<Event>, exitCode: int)
    ensures trace == ProcessRun(cfg, env, AsWritten, currentYear).events
    ensures exitCode == ExitCode(ProcessRun(cfg, env, AsWritten, currentYear).status)
  {
    trace, exitCode := RunProcess(cfg, LoadsRaise(env), currentYear);
    AsWrittenIsCorrectedWithFailingLoads(cfg, env, currentYear);
  }
}
