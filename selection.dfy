/**
 * Resolution of the one pull-request selector that runs for every repository, and of
 * the time window applied to its result.
 */
module Selection {
  import opened Wrappers
  import opened Cli

  /** The `util.fetch_*` query a run uses; `AllPullRequests` is the unfiltered default. */
  datatype Selector =
    | WithLastOwnerComment
    | WhichNeedRebase
    | WithBadStatus
    | WhichNeedSquashed
    | Uncommented
    | MentionMember
    | WithNoPuppetComments
    | WithNoActivity40Days
    | AllPullRequests

  /** Position of a selector in the priority order; lower wins. */
  function Rank(s: Selector): nat {
    match s
    case WithLastOwnerComment => 0
    case WhichNeedRebase => 1
    case WithBadStatus => 2
    case WhichNeedSquashed => 3
    case Uncommented => 4
    case MentionMember => 5
    case WithNoPuppetComments => 6
    case WithNoActivity40Days => 7
    case AllPullRequests => 8
  }

  /** The option that asks for a selector; the default is always available. */
  predicate Enabled(o: Options, s: Selector) {
    match s
    case WithLastOwnerComment => o.lastComment == Some(OwnerSymbol)
    case WhichNeedRebase => o.needsRebase
    case WithBadStatus => o.badStatus
    case WhichNeedSquashed => o.needsSquashed
    case Uncommented => o.noComments
    case MentionMember => o.commentMentionMember
    case WithNoPuppetComments => o.noPuppetComments
    case WithNoActivity40Days => o.noActivity40
    case AllPullRequests => true
  }

  /** The `if`/`elsif` chain choosing the query: the first enabled selector by priority. */
  function Resolve(o: Options): (s: Selector)
    ensures Enabled(o, s)
    ensures forall t :: Enabled(o, t) ==> Rank(s) <= Rank(t)
  {
    if o.lastComment == Some(OwnerSymbol) then WithLastOwnerComment
    else if o.needsRebase then WhichNeedRebase
    else if o.badStatus then WithBadStatus
    else if o.needsSquashed then WhichNeedSquashed
    else if o.noComments then Uncommented
    else if o.commentMentionMember then MentionMember
    else if o.noPuppetComments then WithNoPuppetComments
    else if o.noActivity40 then WithNoActivity40Days
    else AllPullRequests
  }

  /** Exactly one selector is the highest-priority enabled one. */
  lemma ResolveIsUnique(o: Options, s: Selector)
    requires Enabled(o, s)
    requires forall t :: Enabled(o, t) ==> Rank(s) <= Rank(t)
    ensures s == Resolve(o)
  {
  }

  /** The default query runs exactly when no selector option is set. */
  lemma DefaultWhenNothingSelected(o: Options)
    ensures Resolve(o) == AllPullRequests <==> forall t :: t != AllPullRequests ==> !Enabled(o, t)
  {
  }

  const SecondsPerDay := 86400

  /** The instant `DAYS` days before `now` (both in seconds). */
  function Threshold(now: int, days: int): (t: int)
    ensures days >= 0 ==> t <= now
    ensures days > 0 ==> t < now
  {
    now - days * SecondsPerDay
  }

  datatype Window = NoWindow | OlderThan(olderDays: int) | NewerThan(newerDays: int)

  /** The window narrowing the selected pulls; `before` is tested first. */
  function WindowOf(o: Options): (w: Window)
    ensures w == NoWindow <==> o.before.None? && o.after.None?
    ensures !Conflict(o) ==> (w.OlderThan? <==> o.before.Some?) && (w.NewerThan? <==> o.after.Some?)
    ensures w.OlderThan? ==> o.before.Some? && w.olderDays == o.before.value
    ensures w.NewerThan? ==> o.before.None? && o.after.Some? && w.newerDays == o.after.value
  {
    if o.before.Some? then OlderThan(o.before.value)
    else if o.after.Some? then NewerThan(o.after.value)
    else NoWindow
  }

  /** `--no-response` sets `before = 30` and nothing else: the selector is unchanged. */
  lemma NoResponsePreset(o: Options)
    ensures ApplyFlag(o, Flag.NoResponse) == o.(before := Some(PresetDays))
    ensures Resolve(ApplyFlag(o, Flag.NoResponse)) == Resolve(o)
    ensures WindowOf(ApplyFlag(o, Flag.NoResponse)) == OlderThan(PresetDays)
    ensures Conflict(ApplyFlag(o, Flag.NoResponse)) <==> o.after.Some?
  {
  }

  /** `--needs-closing` resolves to the owner query with a 30-day older-than window. */
  lemma NeedsClosingPreset(o: Options)
    ensures Resolve(ApplyFlag(o, Flag.NeedsClosing)) == WithLastOwnerComment
    ensures WindowOf(ApplyFlag(o, Flag.NeedsClosing)) == OlderThan(PresetDays)
    ensures Conflict(ApplyFlag(o, Flag.NeedsClosing)) <==> o.after.Some?
  {
  }

  /** Whatever else the command line holds, `--needs-closing` makes the owner query win. */
  lemma {:induction false} NeedsClosingWins(o: Options, fs: seq<Flag>)
    requires Flag.NeedsClosing in fs
    ensures Resolve(ApplyFlags(o, fs)) == WithLastOwnerComment
  {
    NeedsClosingAnywhere(o, fs);
  }

  /**
   * Example: the two presets on a command line that holds nothing else. The general
   * statements are `NoResponsePreset` and `NeedsClosingPreset`.
   */
  lemma PresetsFromUnset()
    ensures Resolve(ApplyFlags(Unset, [Flag.NoResponse])) == AllPullRequests
    ensures WindowOf(ApplyFlags(Unset, [Flag.NoResponse])) == OlderThan(PresetDays)
    ensures Resolve(ApplyFlags(Unset, [Flag.NeedsClosing])) == WithLastOwnerComment
    ensures WindowOf(ApplyFlags(Unset, [Flag.NeedsClosing])) == OlderThan(PresetDays)
  {
  }
}
