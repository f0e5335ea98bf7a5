/**
 * The whole triage script after option parsing: the both-windows check, the
 * repository loop, the optional sort, and the output loop.
 */
module Pipeline {
  import opened Cli
  import opened RepoScan
  import opened ScanProperties
  import opened Sorting
  import opened Render

  const ConflictMessage := "Only one of -a and -b can be specified"

  /**
   * How the script ends: after the output loop, at the `exit` that follows the
   * configuration message (a successful exit status), or by an exception nothing
   * rescues.
   */
  datatype Status = Completed | ExitedEarly | Crashed

  /**
   * Runs the script over the repositories in their configured order, with `now` the
   * clock reading. Returns the lines written to standard output, how the run ended,
   * the final `repo_data`, and the repositories `fetch_async` was called for.
   */
  method Run<C>(o: Options, repos: seq<string>, api: Api<C>, now: int)
    returns (lines: seq<string>, status: Status, repoData: seq<Entry>, fetched: seq<string>)
    ensures Conflict(o) ==> lines == [ConflictMessage] && status == ExitedEarly && repoData == [] && fetched == []
    ensures !Conflict(o) ==> fetched == Collect(o, api, now, repos).visited
    ensures !Conflict(o) && Collect(o, api, now, repos).aborted ==>
      status == Crashed && lines == Collect(o, api, now, repos).log
    ensures !Conflict(o) && !Collect(o, api, now, repos).aborted ==>
      && status == Completed
      && multiset(repoData) == multiset(Collect(o, api, now, repos).entries)
      && (o.sort ==> NonIncreasing(repoData))
      && (!o.sort ==> repoData == Collect(o, api, now, repos).entries)
      && lines == Collect(o, api, now, repos).log + RenderAll(repoData, o.count)
  {
    if o.before.Some? && o.after.Some? {
      return [ConflictMessage], ExitedEarly, [], [];
    }
    var scan := ScanRepositories(o, api, now, repos);
    fetched := scan.visited;
    if scan.aborted {
      return scan.log, Crashed, scan.entries, fetched;
    }
    var entries := scan.entries;
    var a := new Entry[|entries|](i requires 0 <= i < |entries| => entries[i]);
    assert a[..] == entries;
    if o.sort {
      SortByCount(a);
    }
    repoData := a[..];
    EntriesComeFromFilteredPulls(o, api, now, repos);
    forall k | 0 <= k < |repoData|
      ensures o.count || repoData[k].pulls.Some?
    {
      assert repoData[k] in multiset(entries);
      assert EntryFromFilteredPulls(o, api, now, repoData[k]);
    }
    var rendered := RenderLines(repoData, o.count);
    lines := scan.log + rendered;
    status := Completed;
  }
}
