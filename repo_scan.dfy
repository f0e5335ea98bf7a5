/**
 * The loop over the configured repositories: one `fetch_async` per repository, then
 * the `begin`/`rescue` block that selects, narrows, and records an entry.
 */
module RepoScan {
  import opened Wrappers
  import opened Cli
  import opened Selection

  /** The two attributes of a pull request that the script reads. */
  datatype Pull = Pull(htmlUrl: string, title: string)

  /** One element of `repo_data`; `pulls` is `nil` in count mode. */
  datatype Entry = Entry(repo: string, pulls: Option<seq<Pull>>, pullCount: nat)

  /**
   * The outcome of a call into the API client: a value, or a raised exception.
   * `standard` tells whether the exception is a StandardError, the class the
   * `rescue` clause catches.
   */
  datatype Fetch<T> = Done(value: T) | Raised(standard: bool)

  /**
   * The API client's operations, as the script calls them. `C` is the opaque
   * per-repository cache that `fetch_async` returns.
   */
  datatype Api<!C> = Api(
    fetchAsync: string -> Fetch<C>,
    fetchSelected: (Selector, C) -> Fetch<seq<Pull>>,
    fetchPullRequests: string -> Fetch<seq<Pull>>,
    pullsOlderThan: (int, seq<Pull>) -> Fetch<seq<Pull>>,
    pullsNewerThan: (int, seq<Pull>) -> Fetch<seq<Pull>>)

  /**
   * The selector's query: every selector but the default reads the cache, the
   * default fetches again by repository name.
   */
  function Select<C>(o: Options, api: Api<C>, github: string, cache: C): (r: Fetch<seq<Pull>>)
    ensures Resolve(o) == AllPullRequests ==> r == api.fetchPullRequests(github)
    ensures Resolve(o) != AllPullRequests ==> r == api.fetchSelected(Resolve(o), cache)
  {
    var s := Resolve(o);
    if s == AllPullRequests then api.fetchPullRequests(github) else api.fetchSelected(s, cache)
  }

  /**
   * The query that runs is the one the priority order picks: for the enabled selector
   * that no enabled selector outranks, the default fetches by repository name and
   * every other selector queries the cache.
   */
  lemma SelectFollowsPriority<C>(o: Options, api: Api<C>, github: string, cache: C, s: Selector)
    requires Enabled(o, s)
    requires forall t :: Rank(t) < Rank(s) ==> !Enabled(o, t)
    ensures s == AllPullRequests ==> Select(o, api, github, cache) == api.fetchPullRequests(github)
    ensures s != AllPullRequests ==> Select(o, api, github, cache) == api.fetchSelected(s, cache)
  {
    ResolveIsUnique(o, s);
  }

  /** The time window applied to the selected pulls; no window leaves them as they are. */
  function Narrow<C>(o: Options, api: Api<C>, now: int, pulls: seq<Pull>): (r: Fetch<seq<Pull>>)
    ensures WindowOf(o) == NoWindow ==> r == Done(pulls)
    ensures WindowOf(o).OlderThan? ==> r == api.pullsOlderThan(Threshold(now, WindowOf(o).olderDays), pulls)
    ensures WindowOf(o).NewerThan? ==> r == api.pullsNewerThan(Threshold(now, WindowOf(o).newerDays), pulls)
  {
    if o.before.Some? then api.pullsOlderThan(Threshold(now, o.before.value), pulls)
    else if o.after.Some? then api.pullsNewerThan(Threshold(now, o.after.value), pulls)
    else Done(pulls)
  }

  /** Selection followed by the window: the pulls a repository reports. */
  function Filtered<C>(o: Options, api: Api<C>, now: int, github: string, cache: C): Fetch<seq<Pull>> {
    match Select(o, api, github, cache)
    case Raised(std) => Raised(std)
    case Done(selected) => Narrow(o, api, now, selected)
  }

  /** The entry recorded for a repository's filtered pulls. */
  function MakeEntry(o: Options, github: string, pulls: seq<Pull>): Entry {
    Entry(github, if o.count then None else Some(pulls), |pulls|)
  }

  /**
   * What the `begin` block yields for one repository: an exception, nothing
   * (skipped as empty), or one entry.
   */
  function Evaluate<C>(o: Options, api: Api<C>, now: int, github: string, cache: C): Fetch<Option<Entry>> {
    match Filtered(o, api, now, github, cache)
    case Raised(std) => Raised(std)
    case Done(pulls) =>
      if !o.empty && |pulls| == 0 then Done(None) else Done(Some(MakeEntry(o, github, pulls)))
  }

  /** The `begin` block as the script runs it, reassigning `pulls` step by step. */
  method EvaluateRepo<C>(o: Options, api: Api<C>, now: int, github: string, cache: C)
    returns (r: Fetch<Option<Entry>>)
    ensures r == Evaluate(o, api, now, github, cache)
  {
    var fetched := Select(o, api, github, cache);
    if fetched.Raised? {
      return Raised(fetched.standard);
    }
    var pulls := fetched.value;
    if o.before.Some? {
      var older := api.pullsOlderThan(Threshold(now, o.before.value), pulls);
      if older.Raised? {
        return Raised(older.standard);
      }
      pulls := older.value;
    } else if o.after.Some? {
      var newer := api.pullsNewerThan(Threshold(now, o.after.value), pulls);
      if newer.Raised? {
        return Raised(newer.standard);
      }
      pulls := newer.value;
    }
    if !o.empty && |pulls| == 0 {
      return Done(None);
    }
    if o.count {
      r := Done(Some(Entry(github, None, |pulls|)));
    } else {
      r := Done(Some(Entry(github, Some(pulls), |pulls|)));
    }
  }

  /** How one repository's turn of the loop ends. */
  datatype RepoOutcome =
    | Listed(entry: Entry)  // an entry is appended to `repo_data`
    | Skipped               // empty, and `--show-empty` is not set
    | Rescued               // a StandardError inside the `begin` block
    | Fatal                 // an exception nothing rescues: the run ends

  function OutcomeOf<C>(o: Options, api: Api<C>, now: int, github: string): RepoOutcome {
    match api.fetchAsync(github)
    case Raised(_) => Fatal
    case Done(cache) =>
      match Evaluate(o, api, now, github, cache)
      case Done(None) => Skipped
      case Done(Some(e)) => Listed(e)
      case Raised(std) => if std then Rescued else Fatal
  }

  const DiagnosticPrefix := "Unable to fetch pull requests for "

  function Diagnostic(github: string): string {
    DiagnosticPrefix + github
  }

  /**
   * The state of the loop: `repo_data`, the diagnostic lines printed so far, the
   * repositories whose `fetch_async` has been called, and whether an unrescued
   * exception has ended the run.
   */
  datatype Scan = Scan(entries: seq<Entry>, log: seq<string>, visited: seq<string>, aborted: bool)

  const Initial := Scan([], [], [], false)

  /** One turn of the loop; nothing happens once the run has ended. */
  function Visit(o: Options, s: Scan, github: string, outcome: RepoOutcome): Scan {
    if s.aborted then s
    else
      var s' := s.(visited := s.visited + [github]);
      match outcome
      case Listed(e) => s'.(entries := s.entries + [e])
      case Skipped => s'
      case Rescued => if o.verbose then s'.(log := s.log + [Diagnostic(github)]) else s'
      case Fatal => s'.(aborted := true)
  }

  /** The loop over the repositories, in enumeration order. */
  function Collect<C>(o: Options, api: Api<C>, now: int, repos: seq<string>): Scan
    decreases |repos|
  {
    if repos == [] then Initial
    else
      var last := repos[|repos| - 1];
      Visit(o, Collect(o, api, now, repos[..|repos| - 1]), last, OutcomeOf(o, api, now, last))
  }

  /** Once the run has ended, later repositories change nothing. */
  lemma {:induction false} AbortedStaysAborted<C>(o: Options, api: Api<C>, now: int, repos: seq<string>, k: nat)
    requires k <= |repos|
    requires Collect(o, api, now, repos[..k]).aborted
    ensures Collect(o, api, now, repos) == Collect(o, api, now, repos[..k])
    decreases |repos| - k
  {
    if k < |repos| {
      var n := |repos|;
      assert repos[..n][..n - 1] == repos[..n - 1];
      assert repos[..n - 1][..k] == repos[..k];
      AbortedStaysAborted(o, api, now, repos[..n - 1], k);
      assert repos[..n] == repos;
    } else {
      assert repos[..k] == repos;
    }
  }

  /** The loop of the script; it stops at the first exception nothing rescues. */
  method ScanRepositories<C>(o: Options, api: Api<C>, now: int, repos: seq<string>) returns (s: Scan)
    ensures s == Collect(o, api, now, repos)
  {
    var repoData: seq<Entry> := [];
    var log: seq<string> := [];
    var visited: seq<string> := [];
    var i := 0;
    while i < |repos|
      invariant 0 <= i <= |repos|
      invariant Collect(o, api, now, repos[..i]) == Scan(repoData, log, visited, false)
    {
      var github := repos[i];
      assert repos[..i + 1][..i] == repos[..i];
      visited := visited + [github];
      var cache := api.fetchAsync(github);
      if cache.Raised? {
        // outside the `begin` block: the exception ends the run
        AbortedStaysAborted(o, api, now, repos, i + 1);
        return Scan(repoData, log, visited, true);
      }
      var r := EvaluateRepo(o, api, now, github, cache.value);
      match r {
        case Done(Some(e)) =>
          repoData := repoData + [e];
        case Done(None) =>
        case Raised(std) =>
          if !std {
            // not a StandardError: the `rescue` clause lets it through
            AbortedStaysAborted(o, api, now, repos, i + 1);
            return Scan(repoData, log, visited, true);
          }
          if o.verbose {
            log := log + [Diagnostic(github)];
          }
      }
      i := i + 1;
    }
    assert repos[..i] == repos;
    s := Scan(repoData, log, visited, false);
  }
}
