/**
 * What the repository loop guarantees: per-repository failure isolation, the shape
 * of every recorded entry, the skip-empty rule, and enumeration order.
 */
module ScanProperties {
  import opened Wrappers
  import opened Cli
  import opened RepoScan

  /** The entries one repository contributes, looked at on its own. */
  function Contribution<C>(o: Options, api: Api<C>, now: int, github: string): seq<Entry> {
    match OutcomeOf(o, api, now, github)
    case Listed(e) => [e]
    case _ => []
  }

  /** Reference definition: every repository's contribution, in enumeration order. */
  function ListedEntries<C>(o: Options, api: Api<C>, now: int, repos: seq<string>): seq<Entry>
    decreases |repos|
  {
    if repos == [] then []
    else Contribution(o, api, now, repos[0]) + ListedEntries(o, api, now, repos[1..])
  }

  /** The diagnostic lines verbose mode prints, in enumeration order. */
  function RescuedDiagnostics<C>(o: Options, api: Api<C>, now: int, repos: seq<string>): seq<string>
    decreases |repos|
  {
    if repos == [] then []
    else
      (if OutcomeOf(o, api, now, repos[0]) == Rescued then [Diagnostic(repos[0])] else [])
      + RescuedDiagnostics(o, api, now, repos[1..])
  }

  lemma {:induction false} ListedEntriesSnoc<C>(o: Options, api: Api<C>, now: int, repos: seq<string>, x: string)
    ensures ListedEntries(o, api, now, repos + [x]) == ListedEntries(o, api, now, repos) + Contribution(o, api, now, x)
    ensures RescuedDiagnostics(o, api, now, repos + [x]) == RescuedDiagnostics(o, api, now, repos)
      + (if OutcomeOf(o, api, now, x) == Rescued then [Diagnostic(x)] else [])
    decreases |repos|
  {
    if repos != [] {
      assert (repos + [x])[1..] == repos[1..] + [x];
      ListedEntriesSnoc(o, api, now, repos[1..], x);
    } else {
      assert [x][1..] == [];
    }
  }

  /** The run ends early exactly when some repository raises what nothing rescues. */
  lemma {:induction false} AbortsIffFatal<C>(o: Options, api: Api<C>, now: int, repos: seq<string>)
    ensures Collect(o, api, now, repos).aborted
        <==> exists i :: 0 <= i < |repos| && OutcomeOf(o, api, now, repos[i]) == Fatal
    decreases |repos|
  {
    if repos != [] {
      var n := |repos|;
      var init := repos[..n - 1];
      AbortsIffFatal(o, api, now, init);
      if exists i :: 0 <= i < n - 1 && OutcomeOf(o, api, now, init[i]) == Fatal {
        var i :| 0 <= i < n - 1 && OutcomeOf(o, api, now, init[i]) == Fatal;
        assert repos[i] == init[i];
      }
      if exists i :: 0 <= i < n && OutcomeOf(o, api, now, repos[i]) == Fatal {
        var i :| 0 <= i < n && OutcomeOf(o, api, now, repos[i]) == Fatal;
        if i < n - 1 {
          assert init[i] == repos[i];
        }
      }
    }
  }

  /**
   * A run that completes has visited every repository, recorded each repository's
   * contribution in enumeration order, and printed one diagnostic per rescued
   * repository when verbose and none otherwise.
   */
  lemma {:induction false} CompletedScan<C>(o: Options, api: Api<C>, now: int, repos: seq<string>)
    requires !Collect(o, api, now, repos).aborted
    ensures Collect(o, api, now, repos).visited == repos
    ensures Collect(o, api, now, repos).entries == ListedEntries(o, api, now, repos)
    ensures Collect(o, api, now, repos).log
         == if o.verbose then RescuedDiagnostics(o, api, now, repos) else []
    decreases |repos|
  {
    if repos != [] {
      var n := |repos|;
      var init := repos[..n - 1];
      var x := repos[n - 1];
      assert repos == init + [x];
      CompletedScan(o, api, now, init);
      ListedEntriesSnoc(o, api, now, init, x);
    }
  }

  /**
   * Failure isolation: a repository whose `begin` block raises a StandardError adds
   * no entry and leaves every other repository's result as it would be without it;
   * only the verbose diagnostic tells it happened.
   */
  lemma {:induction false} RescuedRepoIsIsolated<C>(o: Options, api: Api<C>, now: int,
                                                   pre: seq<string>, r: string, post: seq<string>)
    requires OutcomeOf(o, api, now, r) == Rescued
    ensures Collect(o, api, now, pre + [r] + post).entries == Collect(o, api, now, pre + post).entries
    ensures Collect(o, api, now, pre + [r] + post).aborted == Collect(o, api, now, pre + post).aborted
    ensures !o.verbose ==> Collect(o, api, now, pre + [r] + post).log == Collect(o, api, now, pre + post).log
    decreases |post|
  {
    var full := pre + [r] + post;
    var short := pre + post;
    if post == [] {
      assert full[..|full| - 1] == pre;
      assert full[|full| - 1] == r;
      assert short == pre;
    } else {
      var m := |post|;
      var x := post[m - 1];
      assert full[..|full| - 1] == pre + [r] + post[..m - 1];
      assert full[|full| - 1] == x;
      assert short[..|short| - 1] == pre + post[..m - 1];
      assert short[|short| - 1] == x;
      RescuedRepoIsIsolated(o, api, now, pre, r, post[..m - 1]);
      VisitCongruence(o, Collect(o, api, now, pre + [r] + post[..m - 1]),
                      Collect(o, api, now, pre + post[..m - 1]), x, OutcomeOf(o, api, now, x));
    }
  }

  /** One turn's effect on the entries and the abort flag depends on nothing else. */
  lemma VisitCongruence(o: Options, s1: Scan, s2: Scan, github: string, outcome: RepoOutcome)
    requires s1.entries == s2.entries && s1.aborted == s2.aborted
    ensures Visit(o, s1, github, outcome).entries == Visit(o, s2, github, outcome).entries
    ensures Visit(o, s1, github, outcome).aborted == Visit(o, s2, github, outcome).aborted
    ensures s1.log == s2.log ==> Visit(o, s1, github, outcome).log == Visit(o, s2, github, outcome).log
  {
  }

  /** A completed run keeps every other repository's entries when one is rescued. */
  lemma RescuedRepoContributesNothing<C>(o: Options, api: Api<C>, now: int,
                                         pre: seq<string>, r: string, post: seq<string>)
    requires OutcomeOf(o, api, now, r) == Rescued
    ensures ListedEntries(o, api, now, pre + [r] + post)
         == ListedEntries(o, api, now, pre) + ListedEntries(o, api, now, post)
  {
    ListedEntriesAppend(o, api, now, pre + [r], post);
    ListedEntriesSnoc(o, api, now, pre, r);
  }

  lemma {:induction false} ListedEntriesAppend<C>(o: Options, api: Api<C>, now: int, a: seq<string>, b: seq<string>)
    ensures ListedEntries(o, api, now, a + b) == ListedEntries(o, api, now, a) + ListedEntries(o, api, now, b)
    decreases |a|
  {
    if a != [] {
      assert (a + b)[1..] == a[1..] + b;
      ListedEntriesAppend(o, api, now, a[1..], b);
    } else {
      assert a + b == b;
    }
  }

  /**
   * Every recorded entry belongs to a configured repository whose queries succeeded,
   * and is built from that repository's filtered pulls: the count is their number,
   * the pulls are `nil` exactly in count mode, and an empty result appears only with
   * `--show-empty`.
   */
  predicate EntryFromFilteredPulls<C>(o: Options, api: Api<C>, now: int, e: Entry) {
    && api.fetchAsync(e.repo).Done?
    && var f := Filtered(o, api, now, e.repo, api.fetchAsync(e.repo).value);
    && f.Done?
    && e.pullCount == |f.value|
    && (o.count <==> e.pulls == None)
    && (!o.count ==> e.pulls == Some(f.value))
    && (o.empty || e.pullCount > 0)
  }

  lemma {:induction false} EntriesComeFromFilteredPulls<C>(o: Options, api: Api<C>, now: int, repos: seq<string>)
    ensures forall e :: e in Collect(o, api, now, repos).entries ==>
      e.repo in repos && EntryFromFilteredPulls(o, api, now, e)
    decreases |repos|
  {
    if repos != [] {
      var n := |repos|;
      var init := repos[..n - 1];
      EntriesComeFromFilteredPulls(o, api, now, init);
      forall e | e in Collect(o, api, now, repos).entries
        ensures e.repo in repos && EntryFromFilteredPulls(o, api, now, e)
      {
        if e !in Collect(o, api, now, init).entries {
          var x := repos[n - 1];
          assert OutcomeOf(o, api, now, x) == Listed(e);
          EntryOfOutcome(o, api, now, x);
        } else {
          assert e.repo in init;
        }
      }
    }
  }

  lemma EntryOfOutcome<C>(o: Options, api: Api<C>, now: int, github: string)
    requires OutcomeOf(o, api, now, github).Listed?
    ensures OutcomeOf(o, api, now, github).entry.repo == github
    ensures EntryFromFilteredPulls(o, api, now, OutcomeOf(o, api, now, github).entry)
  {
  }

  /** The skip-empty rule for a repository whose filtered pulls are empty. */
  lemma EmptyResult<C>(o: Options, api: Api<C>, now: int, github: string)
    requires api.fetchAsync(github).Done?
    requires Filtered(o, api, now, github, api.fetchAsync(github).value) == Done([])
    ensures !o.empty ==> OutcomeOf(o, api, now, github) == Skipped
    ensures o.empty ==> OutcomeOf(o, api, now, github) == Listed(Entry(github, if o.count then None else Some([]), 0))
  {
  }
}
