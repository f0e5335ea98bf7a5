/** The output loop: a header, a count line, and in listing mode one line per pull. */
module Render {
  import opened Wrappers
  import opened Decimal
  import opened RepoScan

  const Indent := "  "
  const NoneLine := "  no open pull requests"
  const OneLine := "  1 open pull request"
  const ManySuffix := " open pull requests"

  function Header(repo: string): string {
    "=== " + repo + " ==="
  }

  /** The count line, singular for one pull and worded apart for none. */
  function CountLine(n: nat): string {
    if n == 0 then NoneLine
    else if n == 1 then OneLine
    else Indent + FromNat(n) + ManySuffix
  }

  /** Reads a count back from a count line; `None` for any other line. */
  function ParseCountLine(line: string): Option<nat> {
    if line == NoneLine then Some(0)
    else if line == OneLine then Some(1)
    else if |line| > |Indent| + |ManySuffix| && line[..|Indent|] == Indent
         && line[|line| - |ManySuffix|..] == ManySuffix
         && AllDigits(line[|Indent|..|line| - |ManySuffix|])
    then Some(ToNat(line[|Indent|..|line| - |ManySuffix|]))
    else None
  }

  /** The count line states the count: it reads back as exactly that number. */
  lemma CountLineRoundTrip(n: nat)
    ensures ParseCountLine(CountLine(n)) == Some(n)
  {
    if n >= 2 {
      var d := FromNat(n);
      var line := Indent + d + ManySuffix;
      assert |line| == |Indent| + |d| + |ManySuffix|;
      assert line[2] == d[0];
      assert line != NoneLine by {
        if |d| == 2 {
          assert NoneLine[2] == 'n';
        }
      }
      assert line[..|Indent|] == Indent;
      assert line[|line| - |ManySuffix|..] == ManySuffix;
      assert line[|Indent|..|line| - |ManySuffix|] == d;
      ToNatFromNat(n);
    }
  }

  /** Different counts never print the same count line. */
  lemma CountLineInjective(m: nat, n: nat)
    requires CountLine(m) == CountLine(n)
    ensures m == n
  {
    CountLineRoundTrip(m);
    CountLineRoundTrip(n);
  }

  function PullLine(p: Pull): string {
    Indent + p.htmlUrl + " - " + p.title
  }

  /** One line per pull, in the stored order. */
  function PullLines(ps: seq<Pull>): seq<string> {
    seq(|ps|, k requires 0 <= k < |ps| => PullLine(ps[k]))
  }

  /** Outside count mode every entry carries its pulls, as the output loop expects. */
  predicate Renderable(es: seq<Entry>, countOnly: bool) {
    forall k :: 0 <= k < |es| ==> countOnly || es[k].pulls.Some?
  }

  /**
   * The lines of one entry. An entry without pulls outside count mode never reaches
   * the output loop (see `Renderable`); it is given no pull lines here.
   */
  function EntryLines(e: Entry, countOnly: bool): seq<string> {
    [Header(e.repo), CountLine(e.pullCount)]
    + (if countOnly || e.pulls.None? then [] else PullLines(e.pulls.value))
  }

  /** The lines of each entry, in entry order. */
  function Blocks(es: seq<Entry>, countOnly: bool): (bs: seq<seq<string>>)
    ensures |bs| == |es|
  {
    seq(|es|, k requires 0 <= k < |es| => EntryLines(es[k], countOnly))
  }

  /** The blocks of lines printed one after the other. */
  function Flatten<T>(xss: seq<seq<T>>): seq<T>
    decreases |xss|
  {
    if xss == [] then [] else Flatten(xss[..|xss| - 1]) + xss[|xss| - 1]
  }

  lemma {:induction false} FlattenAppend<T>(a: seq<seq<T>>, b: seq<seq<T>>)
    ensures Flatten(a + b) == Flatten(a) + Flatten(b)
    decreases |b|
  {
    if b == [] {
      assert a + b == a;
    } else {
      var n := |b|;
      assert (a + b)[..|a + b| - 1] == a + b[..n - 1];
      assert (a + b)[|a + b| - 1] == b[n - 1];
      FlattenAppend(a, b[..n - 1]);
    }
  }

  lemma FlattenSnoc<T>(xss: seq<seq<T>>, i: int)
    requires 0 <= i < |xss|
    ensures Flatten(xss[..i + 1]) == Flatten(xss[..i]) + xss[i]
  {
    assert xss[..i + 1][..i] == xss[..i];
  }

  lemma FlattenSingle<T>(xs: seq<T>)
    ensures Flatten([xs]) == xs
  {
  }

  function RenderAll(es: seq<Entry>, countOnly: bool): seq<string> {
    Flatten(Blocks(es, countOnly))
  }

  /** The output of a list of entries is the outputs of its parts, one after the other. */
  lemma RenderAllAppend(a: seq<Entry>, b: seq<Entry>, countOnly: bool)
    ensures RenderAll(a + b, countOnly) == RenderAll(a, countOnly) + RenderAll(b, countOnly)
  {
    assert Blocks(a + b, countOnly) == Blocks(a, countOnly) + Blocks(b, countOnly);
    FlattenAppend(Blocks(a, countOnly), Blocks(b, countOnly));
  }

  /**
   * Count mode prints exactly two lines per entry, the header and the count line,
   * and never a pull line.
   */
  lemma {:induction false} CountModeShape(es: seq<Entry>)
    ensures |RenderAll(es, true)| == 2 * |es|
    ensures forall k :: 0 <= k < |es| ==>
      RenderAll(es, true)[2 * k] == Header(es[k].repo) && RenderAll(es, true)[2 * k + 1] == CountLine(es[k].pullCount)
    decreases |es|
  {
    if es != [] {
      var n := |es|;
      var init := es[..n - 1];
      CountModeShape(init);
      RenderAllAppend(init, [es[n - 1]], true);
      assert es == init + [es[n - 1]];
      assert RenderAll([es[n - 1]], true) == [Header(es[n - 1].repo), CountLine(es[n - 1].pullCount)] by {
        assert Blocks([es[n - 1]], true) == [EntryLines(es[n - 1], true)];
        FlattenSingle(EntryLines(es[n - 1], true));
      }
      forall k | 0 <= k < n
        ensures RenderAll(es, true)[2 * k] == Header(es[k].repo)
        ensures RenderAll(es, true)[2 * k + 1] == CountLine(es[k].pullCount)
      {
        if k < n - 1 {
          assert init[k] == es[k];
        }
      }
    }
  }

  /** Listing mode prints, per entry, the header, the count line, then its pulls in order. */
  lemma ListingModeEntry(es: seq<Entry>, k: int)
    requires Renderable(es, false)
    requires 0 <= k < |es|
    ensures RenderAll(es, false) == RenderAll(es[..k], false)
      + [Header(es[k].repo), CountLine(es[k].pullCount)] + PullLines(es[k].pulls.value)
      + RenderAll(es[k + 1..], false)
  {
    var e := es[k];
    assert es == es[..k] + [e] + es[k + 1..];
    RenderAllAppend(es[..k] + [e], es[k + 1..], false);
    RenderAllAppend(es[..k], [e], false);
    assert RenderAll([e], false) == EntryLines(e, false) by {
      assert Blocks([e], false) == [EntryLines(e, false)];
      FlattenSingle(EntryLines(e, false));
    }
  }

  /** The output loop, one `puts` at a time. */
  method RenderLines(es: seq<Entry>, countOnly: bool) returns (lines: seq<string>)
    requires Renderable(es, countOnly)
    ensures lines == RenderAll(es, countOnly)
  {
    ghost var blocks := Blocks(es, countOnly);
    lines := [];
    for i := 0 to |es|
      invariant lines == Flatten(blocks[..i])
    {
      var block := PrintEntry(es[i], countOnly);
      lines := lines + block;
      FlattenSnoc(blocks, i);
    }
    assert blocks[..|es|] == blocks;
  }

  /** The body of the output loop for one entry. */
  method PrintEntry(entry: Entry, countOnly: bool) returns (lines: seq<string>)
    requires countOnly || entry.pulls.Some?
    ensures lines == EntryLines(entry, countOnly)
  {
    lines := [Header(entry.repo)];
    var countLine;
    if entry.pullCount == 0 {
      countLine := NoneLine;
    } else if entry.pullCount == 1 {
      countLine := OneLine;
    } else {
      countLine := Indent + FromNat(entry.pullCount) + ManySuffix;
    }
    lines := lines + [countLine];
    if countOnly {
      return;
    }
    var pulls := entry.pulls.value;
    ghost var heading := lines;
    for k := 0 to |pulls|
      invariant |lines| == |heading| + k
      invariant lines[..|heading|] == heading
      invariant forall m :: 0 <= m < k ==> lines[|heading| + m] == PullLine(pulls[m])
    {
      lines := lines + [PullLine(pulls[k])];
    }
    assert lines == heading + PullLines(pulls);
  }
}
