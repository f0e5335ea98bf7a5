# Pull-request triage pipeline, modelled in Dafny

This project models `pull_requests.rb`, the triage script of the community management
tools. The script reads a list of repositories and, for each one, runs one pull-request
query. The query is picked from the command-line options by a fixed priority. Its
result may be narrowed to pulls updated before or after a number of days ago. A
repository whose queries raise a StandardError is skipped without stopping the others.
The kept results can be sorted by pull count, and are printed as a header, a count
line and, outside count mode, one line per pull.

Layout, one module per piece of the script:

- `wrappers.dfy` (`Wrappers`): the `Option` type that stands for Ruby's `nil`.
- `decimal.dfy` (`Decimal`): the decimal numeral of a count, as string interpolation prints it, with its inverse.
- `cli.dfy` (`Cli`): the options hash as a record, the flag callbacks as record updates, and the both-windows conflict.
- `selection.dfy` (`Selection`): the selector priority chain, the time window, and the two presets.
- `repo_scan.dfy` (`RepoScan`): the API client as a record of functions, the `begin` block, and the repository loop.
- `scan_properties.dfy` (`ScanProperties`): failure isolation, entry construction, the skip-empty rule, and order.
- `sorting.dfy` (`Sorting`): the in-place sort by descending count.
- `render.dfy` (`Render`): count wording and the output loop.
- `pipeline.dfy` (`Pipeline`): the whole run.

The API client's operations are parameters of type `Api<C>`. These are `fetch_async`,
the per-selector queries, `fetch_pull_requests`, `pulls_older_than` and
`pulls_newer_than`. `C` is the opaque per-repository cache. Each call returns a value or
an exception, written `Fetch<T>`. The exception records whether it is a StandardError,
the class that the `rescue` clause catches. The clock reading `now` is an input in
seconds. The output is the returned sequence of lines.

Points where the script's behaviour is easy to misread, kept as written:

- `fetch_async` is called outside the `begin` block. If it raises, the run ends. Isolation covers only the selection, the window and the entry.
- The default query is called with the repository name, not the cache.
- Both `-a` and `-b` print the message and then call a plain `exit`, which ends with a successful status (`ExitedEarly`). It is not an error status.
- `sort_by!` is not stable. The model claims only a permutation with non-increasing counts. Entries with equal counts keep no particular order.
- A preset given after `-b DAYS` overwrites it with 30. One given before is overwritten by it. A preset does not clear `-a`, so a preset with `-a` is the configuration error.
- A window of zero days is still a window, since Ruby's `0` is truthy.

## Model

| member | source | states |
|---|---|---|
| `Cli.ApplyFlagsSnoc` | pull_requests.rb:8-52 | flags are applied left to right, so the callback of the last flag on the command line is applied last |
| `Cli.NeedsClosingAnywhere` | pull_requests.rb:20-23 | once `--needs-closing` appears anywhere on the command line, `last_comment` stays `:owner`, because no other callback resets it |
| `Cli.PresetLastWins` | pull_requests.rb:16-23 | a preset given last leaves `before = 30` over any earlier `-b`, keeps any `-a`, and therefore conflicts exactly when `-a` was given |
| `Selection.Resolve` | pull_requests.rb:67-85 | the chosen selector is enabled by the options, and no enabled selector has higher priority; the default query is always enabled and ranks last |
| `Selection.ResolveIsUnique` | pull_requests.rb:67-85 | only one selector is enabled with minimal rank, so exactly one query runs per repository |
| `Selection.DefaultWhenNothingSelected` | pull_requests.rb:83-84 | the unfiltered query runs if and only if no selector option is set |
| `Selection.WindowOf` | pull_requests.rb:87-95 | there is no window exactly when neither `before` nor `after` is set; an older-than window counts `before`'s days, a newer-than window counts `after`'s days and arises only when `before` is unset; without the conflict, the older-than window arises exactly when `before` is set and the newer-than window exactly when `after` is set |
| `Selection.Threshold` | pull_requests.rb:89 | the threshold instant of a non-negative day count is not after now, and that of a positive count is strictly before now |
| `Selection.NoResponsePreset` | pull_requests.rb:16-18 | `--no-response` only sets `before = 30`: the selector is unchanged, the window is older-than 30 days, and the options conflict exactly when `after` is set |
| `Selection.NeedsClosingPreset` | pull_requests.rb:20-23 | `--needs-closing` resolves to the last-owner-comment query with an older-than-30-days window, whatever other selectors are set |
| `Selection.NeedsClosingWins` | pull_requests.rb:67-68 | `--needs-closing` anywhere on a command line makes the owner query the one that runs |
| `Selection.PresetsFromUnset` | pull_requests.rb:16-23 | on an otherwise empty command line, `--no-response` gives the default query older than 30 days, and `--needs-closing` gives the owner query older than 30 days |
| `RepoScan.SelectFollowsPriority` | pull_requests.rb:67-85 | for the enabled selector that no enabled selector outranks in the priority order, the query run is `fetch_pull_requests` by repository name when it is the default, and that selector's query on the cache otherwise |
| `RepoScan.Narrow` | pull_requests.rb:87-95 | without a window the pulls pass through unchanged; an older-than or newer-than window replaces them by the client's answer for the threshold `now - days` |
| `RepoScan.EvaluateRepo` | pull_requests.rb:67-103 | the `begin` block, reassigning `pulls` step by step, yields the result of `Evaluate`: the first exception raised, nothing for an empty result without `--show-empty`, or the entry |
| `RepoScan.ScanRepositories` | pull_requests.rb:62-107 | the loop yields `Collect`: entries, diagnostics and visited repositories, in order, stopping at the first exception nothing rescues |
| `RepoScan.AbortedStaysAborted` | pull_requests.rb:65 | after an unrescued exception the remaining repositories change nothing |
| `ScanProperties.AbortsIffFatal` | pull_requests.rb:64-107 | the run ends early if and only if some repository's `fetch_async` raises, or its `begin` block raises something other than a StandardError |
| `ScanProperties.CompletedScan` | pull_requests.rb:64-107 | a completed loop called `fetch_async` for every repository and holds every repository's own contribution in enumeration order; its diagnostics are one line per rescued repository when verbose, and none otherwise |
| `ScanProperties.RescuedRepoIsIsolated` | pull_requests.rb:104-106 | removing a repository whose `begin` block raised a StandardError changes neither the entries nor whether the run completes; without verbose it changes no output line |
| `ScanProperties.RescuedRepoContributesNothing` | pull_requests.rb:104-106 | the entries around a rescued repository are those of the repositories before it followed by those after it |
| `ScanProperties.EntriesComeFromFilteredPulls` | pull_requests.rb:97-103 | every entry names a configured repository whose queries succeeded; its count is the number of filtered pulls; its pulls are `nil` exactly in count mode and otherwise are the filtered pulls; a zero count appears only with `--show-empty` |
| `ScanProperties.EmptyResult` | pull_requests.rb:97 | an empty filtered result is skipped without `--show-empty`, and with it gives an entry of count 0 |
| `Sorting.SortByCount` | pull_requests.rb:109 | in place, the entries are rearranged into a permutation of themselves with non-increasing counts |
| `Decimal.ToNatFromNat` | pull_requests.rb:119 | the printed numeral of a count reads back as that count |
| `Decimal.FromNat` | pull_requests.rb:119 | the printed numeral is non-empty, all digits, and has no leading zero |
| `Decimal.FromNatInjective` | pull_requests.rb:119 | two different counts never print as the same numeral |
| `Render.CountLineRoundTrip` | pull_requests.rb:113-120 | each count line reads back as its count: 0 as the "no open pull requests" wording, 1 as the singular, and n ≥ 2 as the numeral with the plural |
| `Render.CountLineInjective` | pull_requests.rb:113-120 | different counts give different count lines |
| `Render.RenderAllAppend` | pull_requests.rb:111-126 | the output for a list of entries is the output for each part, in order |
| `Render.CountModeShape` | pull_requests.rb:111-121 | in count mode each entry prints exactly its header and its count line, in entry order, and no pull line |
| `Render.ListingModeEntry` | pull_requests.rb:111-125 | outside count mode each entry prints its header, its count line, then one `url - title` line per pull in stored order, between the outputs of the entries before and after it |
| `Render.PrintEntry` | pull_requests.rb:112-125 | one turn of the output loop prints that entry's header, count line and, outside count mode, its pull lines |
| `Render.RenderLines` | pull_requests.rb:111-126 | the output loop prints the entries' lines in entry order |
| `Pipeline.Run` | pull_requests.rb:57-126 | with both windows, the only line is the conflict message and no repository is fetched; otherwise every repository is fetched until one raises what nothing rescues, which ends the run with the diagnostics so far; a completed run prints the diagnostics, then the entries, sorted when `--sort` is set (a permutation with non-increasing counts) and in repository order otherwise |

## Left out

- The API client (`OctokitUtils`) is not part of this model: `fetch_async`, the eight cached queries, `fetch_pull_requests`, `pulls_older_than` and `pulls_newer_than` are arbitrary functions passed in. So the model claims nothing about which pulls a query or a window keeps. In particular, that applying a window twice changes nothing is not stated.
- `parse_options` and `load_url` are not part of this model: options start from an already parsed record (`Cli.Unset` has no flag set), and repositories are a sequence of `github` coordinates in the hash's enumeration order. The OptionParser mechanics, `--oauth` and the `to_i` of `DAYS` are left out: flags carry integers.
- `DateTime.now` and calendar arithmetic: the clock reading is an input in seconds, and a day is 86400 seconds. The script reads the clock again for every repository (lines 89 and 93), while the model uses one reading for the whole run, so it does not capture thresholds that drift while the loop runs.
- Standard output and `exit`: output is a returned sequence of lines, and the way the run ended is a `Status`. What Ruby prints on standard error for an uncaught exception is not modelled.
- Exception classes are reduced to one fact: whether the exception is a StandardError.
- Calls by the client to the network, and any concurrency inside `fetch_async`, are outside the model. The loop itself is sequential.
- Render.EntryLines: an entry without pulls outside count mode, on which Ruby's `nil.each` would raise, gets no pull lines. The output loop (`Render.RenderLines`) requires that this never happens, and `Pipeline.Run` proves it for the entries the loop builds.
- Sorting.SortByCount: the order of entries with equal counts is not stated, because `sort_by!` does not promise one.
