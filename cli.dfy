/**
 * The parsed command line of the pull-request triage script. The options hash is
 * a record; each flag callback is an update of that record, applied in the order
 * the flags appear on the command line.
 */
module Cli {
  import opened Wrappers

  /** The symbol `:owner`, the one value of `last_comment` the pipeline tests for. */
  const OwnerSymbol := "owner"

  /** Days forced into `before` by the `--no-response` and `--needs-closing` presets. */
  const PresetDays := 30

  /**
   * The options hash. A key that is absent (`nil`) is `None` or `false`; `before` and
   * `after` hold the result of `to_i`, so zero and negative day counts are still set.
   */
  datatype Options = Options(
    after: Option<int>,
    before: Option<int>,
    count: bool,
    empty: bool,
    sort: bool,
    verbose: bool,
    lastComment: Option<string>,
    badStatus: bool,
    needsSquashed: bool,
    needsRebase: bool,
    noComments: bool,
    noPuppetComments: bool,
    commentMentionMember: bool,
    noActivity40: bool)

  /** Options before any triage flag has been seen. */
  const Unset := Options(None, None, false, false, false, false, None,
                         false, false, false, false, false, false, false)

  datatype Flag =
    | After(afterDays: int)
    | Before(beforeDays: int)
    | Count
    | ShowEmpty
    | Sort
    | Verbose
    | NoResponse
    | NeedsClosing
    | BadStatus
    | NeedsSquashed
    | NeedsRebase
    | NoComments
    | NoPuppetComments
    | LastCommentMentionMember
    | NoActivity40Days

  /** The callback registered for one flag. */
  function ApplyFlag(o: Options, f: Flag): Options {
    match f
    case After(d) => o.(after := Some(d))
    case Before(d) => o.(before := Some(d))
    case Count => o.(count := true)
    case ShowEmpty => o.(empty := true)
    case Sort => o.(sort := true)
    case Verbose => o.(verbose := true)
    case NoResponse => o.(before := Some(PresetDays))
    case NeedsClosing => o.(before := Some(PresetDays), lastComment := Some(OwnerSymbol))
    case BadStatus => o.(badStatus := true)
    case NeedsSquashed => o.(needsSquashed := true)
    case NeedsRebase => o.(needsRebase := true)
    case NoComments => o.(noComments := true)
    case NoPuppetComments => o.(noPuppetComments := true)
    case LastCommentMentionMember => o.(commentMentionMember := true)
    case NoActivity40Days => o.(noActivity40 := true)
  }

  /** The callbacks of a whole command line, left to right. */
  function ApplyFlags(o: Options, fs: seq<Flag>): Options
    decreases |fs|
  {
    if fs == [] then o else ApplyFlags(ApplyFlag(o, fs[0]), fs[1..])
  }

  /** The configuration error checked before any repository is visited. */
  predicate Conflict(o: Options) {
    o.before.Some? && o.after.Some?
  }

  /** Appending a flag to the command line applies its callback last. */
  lemma {:induction false} ApplyFlagsSnoc(o: Options, fs: seq<Flag>, f: Flag)
    ensures ApplyFlags(o, fs + [f]) == ApplyFlag(ApplyFlags(o, fs), f)
    decreases |fs|
  {
    if fs != [] {
      assert (fs + [f])[1..] == fs[1..] + [f];
      ApplyFlagsSnoc(ApplyFlag(o, fs[0]), fs[1..], f);
    }
  }

  /** No flag ever clears `last_comment == :owner` once it is set. */
  lemma {:induction false} OwnerIsSticky(o: Options, fs: seq<Flag>)
    requires o.lastComment == Some(OwnerSymbol)
    ensures ApplyFlags(o, fs).lastComment == Some(OwnerSymbol)
    decreases |fs|
  {
    if fs != [] {
      OwnerSurvivesFlag(o, fs[0]);
      OwnerIsSticky(ApplyFlag(o, fs[0]), fs[1..]);
    }
  }

  lemma OwnerSurvivesFlag(o: Options, f: Flag)
    requires o.lastComment == Some(OwnerSymbol)
    ensures ApplyFlag(o, f).lastComment == Some(OwnerSymbol)
  {
    match f
    case NeedsClosing =>
    case _ =>
  }

  lemma {:induction false} ApplyFlagsSplit(o: Options, fs: seq<Flag>, k: nat)
    requires k <= |fs|
    ensures ApplyFlags(o, fs) == ApplyFlags(ApplyFlags(o, fs[..k]), fs[k..])
    decreases k
  {
    if k > 0 {
      assert fs[..k][1..] == fs[1..][..k - 1];
      assert fs[k..] == fs[1..][k - 1..];
      ApplyFlagsSplit(ApplyFlag(o, fs[0]), fs[1..], k - 1);
    }
  }

  /** `--needs-closing` anywhere on the command line leaves `last_comment` at `:owner`. */
  lemma NeedsClosingAnywhere(o: Options, fs: seq<Flag>)
    requires NeedsClosing in fs
    ensures ApplyFlags(o, fs).lastComment == Some(OwnerSymbol)
  {
    var k :| 0 <= k < |fs| && fs[k] == NeedsClosing;
    ApplyFlagsSplit(o, fs, k);
    ApplyFlagsSplit(ApplyFlags(o, fs[..k]), fs[k..], 1);
    assert fs[k..][..1] == [NeedsClosing];
    assert fs[k..][1..] == fs[k + 1..];
    OwnerIsSticky(ApplyFlag(ApplyFlags(o, fs[..k]), NeedsClosing), fs[k + 1..]);
  }

  /**
   * A preset given last overrides any `-b DAYS` given before it, and does not clear
   * an `-a DAYS`, so a preset together with `-a` is the configuration error.
   */
  lemma PresetLastWins(o: Options, fs: seq<Flag>, f: Flag)
    requires f == NoResponse || f == NeedsClosing
    ensures ApplyFlags(o, fs + [f]).before == Some(PresetDays)
    ensures ApplyFlags(o, fs + [f]).after == ApplyFlags(o, fs).after
    ensures Conflict(ApplyFlags(o, fs + [f])) <==> ApplyFlags(o, fs).after.Some?
  {
    ApplyFlagsSnoc(o, fs, f);
  }
}
