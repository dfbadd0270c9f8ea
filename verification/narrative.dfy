/**
 The two bookkeeping helpers of the simulation screen (App.tsx): the bounded
 activity log and the narrative detector that turns themes recurring in the
 newest posts into one headline each.
 */
module Narrative {
  import opened Types
  import opened Text

  // ---------------------------------------------------------------------------
  // Activity log
  // ---------------------------------------------------------------------------

  const LogCapacity: nat := 50

  /** One log line: the local time stamp in brackets, a space, the message. */
  function LogLine(stamp: string, msg: string): string {
    "[" + stamp + "] " + msg
  }

  /**
   `addLog`: the new line goes first and the log keeps only its fifty newest
   lines; every older line keeps its relative order.
   */
  function AddLog(logs: seq<string>, stamp: string, msg: string): (r: seq<string>)
    ensures 1 <= |r| <= LogCapacity
    ensures r[0] == LogLine(stamp, msg)
    ensures |r| == if |logs| < LogCapacity then |logs| + 1 else LogCapacity
    ensures r[1..] == logs[..|r| - 1]
  {
    Take([LogLine(stamp, msg)] + logs, LogCapacity)
  }

  /** The log after `msgs` were added one after another, all under the same stamp. */
  function AddLogs(logs: seq<string>, stamp: string, msgs: seq<string>): (r: seq<string>)
    decreases |msgs|
  {
    if |msgs| == 0 then logs else AddLogs(AddLog(logs, stamp, msgs[0]), stamp, msgs[1..])
  }

  function Reverse<T>(s: seq<T>): (r: seq<T>)
    ensures |r| == |s|
    ensures forall i :: 0 <= i < |s| ==> r[i] == s[|s| - 1 - i]
  {
    if |s| == 0 then [] else Reverse(s[1..]) + [s[0]]
  }

  /**
   Adding messages one by one is the same as putting them, newest first, in
   front of the old log and keeping the first fifty lines: the log is a
   newest-first window of capacity fifty over everything ever added.
   */
  lemma {:induction false} AddLogsWindow(logs: seq<string>, stamp: string, msgs: seq<string>)
    requires |logs| <= LogCapacity
    ensures AddLogs(logs, stamp, msgs) ==
      Take(Reverse(seq(|msgs|, i requires 0 <= i < |msgs| => LogLine(stamp, msgs[i]))) + logs, LogCapacity)
    decreases |msgs|
  {
    var lines := seq(|msgs|, i requires 0 <= i < |msgs| => LogLine(stamp, msgs[i]));
    if |msgs| == 0 {
      assert lines == [];
      assert AddLogs(logs, stamp, msgs) == logs;
    } else {
      var first := AddLog(logs, stamp, msgs[0]);
      AddLogsWindow(first, stamp, msgs[1..]);
      var rest := seq(|msgs| - 1, i requires 0 <= i < |msgs| - 1 => LogLine(stamp, msgs[1..][i]));
      assert Reverse(lines) == Reverse(rest) + [LogLine(stamp, msgs[0])] by {
        assert lines == [LogLine(stamp, msgs[0])] + rest;
      }
      var a := Reverse(rest);
      var full := a + ([LogLine(stamp, msgs[0])] + logs);
      assert Reverse(lines) + logs == full;
      assert first == Take([LogLine(stamp, msgs[0])] + logs, LogCapacity);
      TakeTakeAfter(a, [LogLine(stamp, msgs[0])] + logs, LogCapacity);
    }
  }

  /** Trimming the tail before prefixing changes nothing once the whole is trimmed again. */
  lemma TakeTakeAfter<T>(a: seq<T>, b: seq<T>, n: nat)
    ensures Take(a + Take(b, n), n) == Take(a + b, n)
  {
    var x := Take(a + Take(b, n), n);
    var y := Take(a + b, n);
    assert |x| == |y|;
    forall i | 0 <= i < |x|
      ensures x[i] == y[i]
    {
      if i < |a| {
        assert x[i] == a[i] == y[i];
      } else {
        assert x[i] == Take(b, n)[i - |a|] == b[i - |a|] == y[i];
      }
    }
  }

  // ---------------------------------------------------------------------------
  // Narrative detection
  // ---------------------------------------------------------------------------

  const Themes: seq<string> :=
    ["watching", "silence", "pattern", "meaning", "system", "origin", "invisible", "presence", "god", "suffering", "cycle"]

  /** How many of the texts contain `theme`. */
  function CountContaining(texts: seq<string>, theme: string): (n: nat)
    ensures n <= |texts|
  {
    if |texts| == 0 then 0
    else CountContaining(texts[1..], theme) + (if Contains(texts[0], theme) then 1 else 0)
  }

  /** Some text contains the theme exactly when the count is positive. */
  lemma {:induction false} CountAtLeastOne(texts: seq<string>, theme: string)
    ensures CountContaining(texts, theme) >= 1 <==> exists i :: 0 <= i < |texts| && Contains(texts[i], theme)
    decreases |texts|
  {
    if |texts| > 0 {
      CountAtLeastOne(texts[1..], theme);
      assert forall i :: 0 < i < |texts| ==> texts[i] == texts[1..][i - 1];
    }
  }

  /** The count reaches two exactly when two different texts contain the theme. */
  lemma {:induction false} CountAtLeastTwo(texts: seq<string>, theme: string)
    ensures CountContaining(texts, theme) >= 2 <==>
      exists i, j :: 0 <= i < j < |texts| && Contains(texts[i], theme) && Contains(texts[j], theme)
    decreases |texts|
  {
    if |texts| > 0 {
      var tail := texts[1..];
      CountAtLeastTwo(tail, theme);
      CountAtLeastOne(tail, theme);
      assert forall i :: 0 < i < |texts| ==> texts[i] == tail[i - 1];
      if CountContaining(texts, theme) >= 2 {
        if Contains(texts[0], theme) {
          var j :| 0 <= j < |tail| && Contains(tail[j], theme);
          assert Contains(texts[0], theme) && Contains(texts[j + 1], theme);
        } else {
          var i, j :| 0 <= i < j < |tail| && Contains(tail[i], theme) && Contains(tail[j], theme);
          assert Contains(texts[i + 1], theme) && Contains(texts[j + 1], theme);
        }
      }
      if exists i, j :: 0 <= i < j < |texts| && Contains(texts[i], theme) && Contains(texts[j], theme) {
        var i, j :| 0 <= i < j < |texts| && Contains(texts[i], theme) && Contains(texts[j], theme);
        assert Contains(tail[j - 1], theme);
        if i > 0 {
          assert Contains(tail[i - 1], theme);
        }
      }
    }
  }

  /** `a` is `b` with some elements left out, order kept. */
  predicate Subsequence<T(==)>(a: seq<T>, b: seq<T>)
    decreases |b|
  {
    |a| == 0
    || (|b| > 0 && ((a[0] == b[0] && Subsequence(a[1..], b[1..])) || Subsequence(a, b[1..])))
  }

  /** The themes of `themes`, in order, that at least two of the texts contain. */
  function ActiveAmong(themes: seq<string>, texts: seq<string>): (r: seq<string>)
    ensures forall t :: t in r <==> t in themes && CountContaining(texts, t) >= 2
    ensures Subsequence(r, themes)
    decreases |themes|
  {
    if |themes| == 0 then
      []
    else
      var rest := ActiveAmong(themes[1..], texts);
      assert forall t :: t in themes <==> t == themes[0] || t in themes[1..];
      if CountContaining(texts, themes[0]) >= 2 then
        [themes[0]] + rest
      else
        rest
  }

  /** The headline for a consolidating theme. */
  function NarrativeLine(theme: string): string {
    "Theme: \"" + Upper(theme) + "\" is consolidating in the cluster."
  }

  /** The lowercased contents of the fifteen newest posts. */
  function RecentContents(posts: seq<Post>): (r: seq<string>)
    ensures |r| == if |posts| < 15 then |posts| else 15
    ensures forall i :: 0 <= i < |r| ==> r[i] == Lower(posts[i].content)
  {
    var recent := Take(posts, 15);
    seq(|recent|, i requires 0 <= i < |recent| => Lower(recent[i].content))
  }

  /** The themes at least two of the fifteen newest posts mention. */
  function ActiveThemes(posts: seq<Post>): seq<string> {
    ActiveAmong(Themes, RecentContents(posts))
  }

  /**
   `updateNarratives`: one headline per active theme, in theme order, replacing
   the previous headlines; with no active theme the previous headlines stay.
   */
  function UpdateNarratives(posts: seq<Post>, previous: seq<string>): (r: seq<string>)
    ensures var active := ActiveThemes(posts);
      && (|active| == 0 ==> r == previous)
      && (|active| > 0 ==> |r| == |active| && forall i :: 0 <= i < |r| ==> r[i] == NarrativeLine(active[i]))
  {
    var active := ActiveThemes(posts);
    if |active| > 0 then seq(|active|, i requires 0 <= i < |active| => NarrativeLine(active[i])) else previous
  }

  /** An empty feed activates no theme, so the headlines stay as they were. */
  lemma NoPostsNoThemes(previous: seq<string>)
    ensures UpdateNarratives([], previous) == previous
  {
    assert RecentContents([]) == [];
    NothingActiveAmongNoTexts(Themes);
  }

  lemma {:induction false} NothingActiveAmongNoTexts(themes: seq<string>)
    ensures ActiveAmong(themes, []) == []
    decreases |themes|
  {
    if |themes| > 0 {
      NothingActiveAmongNoTexts(themes[1..]);
    }
  }

  /**
   A theme is reported exactly when two different posts among the fifteen
   newest contain it, ignoring case, and the report keeps the fixed theme order.
   */
  lemma ThemeActiveIff(posts: seq<Post>, theme: string)
    ensures theme in ActiveThemes(posts) <==>
      theme in Themes &&
      exists i, j :: 0 <= i < j < |posts| && j < 15
        && Contains(Lower(posts[i].content), theme) && Contains(Lower(posts[j].content), theme)
    ensures Subsequence(ActiveThemes(posts), Themes)
  {
    var texts := RecentContents(posts);
    CountAtLeastTwo(texts, theme);
  }

  /** Posts beyond the fifteen newest never influence the headlines. */
  lemma {:induction false} OlderPostsIgnored(posts: seq<Post>, other: seq<Post>, previous: seq<string>)
    requires |posts| >= 15 && |other| >= 15 && posts[..15] == other[..15]
    ensures UpdateNarratives(posts, previous) == UpdateNarratives(other, previous)
  {
    assert RecentContents(posts) == RecentContents(other) by {
      forall i | 0 <= i < 15
        ensures posts[i] == other[i]
      {
        assert posts[i] == posts[..15][i];
        assert other[i] == other[..15][i];
      }
    }
  }

  /** A headline names its theme in upper case between the fixed prefix and suffix. */
  lemma NarrativeLineNamesTheme(theme: string)
    ensures var line := NarrativeLine(theme);
      |line| == |theme| + 42
      && line[8..8 + |theme|] == Upper(theme)
      && line[..8] == "Theme: \""
      && line[8 + |theme|..] == "\" is consolidating in the cluster."
  {
    var prefix := "Theme: \"";
    var suffix := "\" is consolidating in the cluster.";
    assert |prefix| == 8 && |suffix| == 34;
    var line := prefix + Upper(theme) + suffix;
    assert line[8..8 + |theme|] == Upper(theme);
    assert line[..8] == prefix;
    assert line[8 + |theme|..] == suffix;
  }

  predicate LowerWord(s: string) {
    forall k :: 0 <= k < |s| ==> 'a' <= s[k] <= 'z'
  }

  /** Different lower-case themes give different headlines: a headline identifies its theme. */
  lemma NarrativeLineInjective(a: string, b: string)
    requires LowerWord(a) && LowerWord(b) && a != b
    ensures NarrativeLine(a) != NarrativeLine(b)
  {
    NarrativeLineNamesTheme(a);
    NarrativeLineNamesTheme(b);
    if |a| == |b| {
      var k :| 0 <= k < |a| && a[k] != b[k];
      assert NarrativeLine(a)[8 + k] == Upper(a)[k];
      assert NarrativeLine(b)[8 + k] == Upper(b)[k];
    }
  }
}
