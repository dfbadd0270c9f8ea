/**
 The context supplier (services/webSearchService.ts): the instant-answer
 response mapping, the hour- and weekday-dependent synthetic topics, the
 five-minute cache with its category shuffle, lookups and padding, and the
 prompt formatter.

 The clock, the shuffles and the lookups are inputs: `now` and `doneAt` are the
 two `Date.now()` readings, a shuffle is given as the permutation of indices it
 produced, and `lookup` says what the remote answered for each query.
 */
module WebSearch {
  import opened Types
  import opened Text

  datatype SearchResult = SearchResult(topic: string, snippet: string, source: Option<string>)

  // ---------------------------------------------------------------------------
  // Response mapping
  // ---------------------------------------------------------------------------

  /** One entry of `RelatedTopics`; a missing `Text` is the empty string. */
  datatype RelatedTopic = RelatedTopic(text: string)

  /** The parsed instant-answer body; a missing `AbstractText` is the empty string. */
  datatype Answer = Answer(abstractText: string, abstractSource: Option<string>, relatedTopics: seq<RelatedTopic>)

  /** What one lookup produced: a body, a non-OK status, or a failed fetch or parse. */
  datatype Lookup = Body(answer: Answer) | NotOk | Threw(error: Error)

  const SnippetCap: nat := 200

  /**
   `fetchFromDuckDuckGo`: a non-empty abstract wins; otherwise the text of the
   first related topic; otherwise nothing. Failures become nothing as well.
   */
  function FetchResult(query: string, lookup: Lookup): (r: Option<SearchResult>)
    ensures r.Some? ==> r.value.topic == query && |r.value.snippet| <= SnippetCap
    ensures r.Some? <==>
      (lookup.Body? &&
       (lookup.answer.abstractText != ""
        || (|lookup.answer.relatedTopics| > 0 && lookup.answer.relatedTopics[0].text != "")))
    ensures r.Some? && lookup.answer.abstractText != "" ==>
      r.value.snippet == Take(lookup.answer.abstractText, SnippetCap) && r.value.source == lookup.answer.abstractSource
    ensures r.Some? && lookup.answer.abstractText == "" ==>
      r.value.snippet == Take(lookup.answer.relatedTopics[0].text, SnippetCap) && r.value.source == Some("DuckDuckGo")
  {
    match lookup
    case Body(a) =>
      if a.abstractText != "" then
        Some(SearchResult(query, Take(a.abstractText, SnippetCap), a.abstractSource))
      else if |a.relatedTopics| > 0 && a.relatedTopics[0].text != "" then
        Some(SearchResult(query, Take(a.relatedTopics[0].text, SnippetCap), Some("DuckDuckGo")))
      else
        None
    case _ => None
  }

  // ---------------------------------------------------------------------------
  // Synthetic context
  // ---------------------------------------------------------------------------

  const BaseSynthetic: seq<SearchResult> := [
    SearchResult("Tech Industry", "AI tools are increasingly being integrated into workplace productivity software, raising questions about automation and job displacement.", None),
    SearchResult("Social Media", "Short-form video continues to dominate attention. Average screen time has increased 15% year-over-year.", None),
    SearchResult("Economy", "Subscription fatigue is becoming a major consumer concern as more services move to recurring payment models.", None),
    SearchResult("Culture", "The creator economy faces monetization challenges as platform algorithms prioritize engagement over quality.", None),
    SearchResult("Work Trends", "Return-to-office mandates are meeting resistance. Hybrid work remains the most requested arrangement.", None),
    SearchResult("Internet Culture", "Authenticity fatigue: users increasingly skeptical of 'genuine' content that feels manufactured for algorithms.", None)
  ]

  const LateNight: SearchResult :=
    SearchResult("Late Night Thoughts", "Night scrolling peaks between 11pm and 2am. Insomnia-driven engagement is a growing advertising segment.", None)

  const Weekend: SearchResult :=
    SearchResult("Weekend Patterns", "Weekend social media usage shifts from work-stress content to lifestyle comparison posts.", None)

  predicate IsLateNight(hour: int) {
    hour >= 22 || hour < 6
  }

  predicate IsWeekend(day: int) {
    day == 0 || day == 6
  }

  /** `generateSyntheticContext` for the local hour and weekday (0 = Sunday). */
  function SyntheticContext(hour: int, day: int): (r: seq<SearchResult>)
    ensures 6 <= |r| <= 8 && r[..6] == BaseSynthetic
    ensures LateNight in r <==> IsLateNight(hour)
    ensures Weekend in r <==> IsWeekend(day)
    ensures |r| == 6 + (if IsLateNight(hour) then 1 else 0) + (if IsWeekend(day) then 1 else 0)
  {
    var night := if IsLateNight(hour) then [LateNight] else [];
    var weekend := if IsWeekend(day) then [Weekend] else [];
    var r := BaseSynthetic + night + weekend;
    assert LateNight !in BaseSynthetic && Weekend !in BaseSynthetic by {
      assert forall i :: 0 <= i < 6 ==>
        |BaseSynthetic[i].snippet| != |LateNight.snippet| && |BaseSynthetic[i].snippet| != |Weekend.snippet|;
    }
    assert LateNight != Weekend by {
      assert |LateNight.snippet| != |Weekend.snippet|;
    }
    r
  }

  // ---------------------------------------------------------------------------
  // Cache, selection and padding
  // ---------------------------------------------------------------------------

  const TopicCategories: seq<string> := [
    "technology trends 2026",
    "AI news today",
    "cryptocurrency market",
    "social media controversy",
    "startup news",
    "internet culture memes",
    "productivity apps",
    "remote work trends"
  ]

  const CacheDuration: int := 5 * 60 * 1000

  /**
   The module-level state: the cached results, the time of the last fetch, and
   the current order of the category list (its in-place `sort` persists).
   */
  datatype Cache = Cache(topics: seq<SearchResult>, lastFetchTime: int, categories: seq<string>)

  const InitialCache: Cache := Cache([], 0, TopicCategories)

  predicate Distinct<T(==)>(s: seq<T>) {
    forall i, j :: 0 <= i < j < |s| ==> s[i] != s[j]
  }

  /** The results of the lookups that produced something, in query order. */
  function CollectResults(queries: seq<string>, lookup: string -> Lookup): (r: seq<SearchResult>)
    ensures |r| <= |queries|
    ensures forall k :: 0 <= k < |r| ==> r[k].topic in queries
  {
    if |queries| == 0 then []
    else
      var rest := CollectResults(queries[1..], lookup);
      match FetchResult(queries[0], lookup(queries[0]))
      case Some(res) => [res] + rest
      case None => rest
  }

  /**
   The collected results are exactly the lookups that produced something: each
   result came from some query, and no query that produced a result was dropped.
   */
  lemma {:induction false} CollectResultsExact(queries: seq<string>, lookup: string -> Lookup)
    ensures var r := CollectResults(queries, lookup);
      forall k :: 0 <= k < |r| ==>
        exists i :: 0 <= i < |queries| && FetchResult(queries[i], lookup(queries[i])) == Some(r[k])
    ensures var r := CollectResults(queries, lookup);
      forall i :: 0 <= i < |queries| && FetchResult(queries[i], lookup(queries[i])).Some? ==>
        FetchResult(queries[i], lookup(queries[i])).value in r
    decreases |queries|
  {
    if |queries| > 0 {
      var tail := queries[1..];
      CollectResultsExact(tail, lookup);
      var r := CollectResults(queries, lookup);
      var rest := CollectResults(tail, lookup);
      assert forall i :: 0 < i < |queries| ==> queries[i] == tail[i - 1];
      var head := FetchResult(queries[0], lookup(queries[0]));
      assert r == (if head.Some? then [head.value] + rest else rest);
      forall k | 0 <= k < |r|
        ensures exists i :: 0 <= i < |queries| && FetchResult(queries[i], lookup(queries[i])) == Some(r[k])
      {
        if head.Some? && k == 0 {
          assert FetchResult(queries[0], lookup(queries[0])) == Some(r[k]);
        } else {
          var k' := if head.Some? then k - 1 else k;
          assert r[k] == rest[k'];
          var i :| 0 <= i < |tail| && FetchResult(tail[i], lookup(tail[i])) == Some(rest[k']);
          assert FetchResult(queries[i + 1], lookup(queries[i + 1])) == Some(r[k]);
        }
      }
    }
  }

  /** The cache answers iff it is younger than five minutes and not empty. */
  predicate CacheFresh(c: Cache, now: int) {
    now - c.lastFetchTime < CacheDuration && |c.topics| > 0
  }

  /** A rearrangement of the synthetic list has its length and its members. */
  lemma SyntheticRearrangement(hour: int, day: int, synthetic: seq<SearchResult>)
    requires multiset(synthetic) == multiset(SyntheticContext(hour, day))
    ensures |synthetic| >= 6
    ensures forall k :: 0 <= k < |synthetic| ==> synthetic[k] in SyntheticContext(hour, day)
  {
    var base := SyntheticContext(hour, day);
    assert |multiset(synthetic)| == |multiset(base)|;
    forall k | 0 <= k < |synthetic|
      ensures synthetic[k] in base
    {
      assert synthetic[k] in multiset(synthetic);
    }
  }

  /**
   `getCurrentTopics`: the cached topics when fresh; otherwise the first three
   categories after shuffling, each looked up once, padded with synthetic topics
   up to three when fewer than two lookups succeeded. `shuffled` is the category
   list after its in-place shuffle, `synthetic` the shuffled synthetic list
   (`SyntheticPadding` ties it to `SyntheticContext`).
   */
  function CurrentTopics(c: Cache, now: int, doneAt: int, shuffled: seq<string>, lookup: string -> Lookup,
                         synthetic: seq<SearchResult>): (r: (seq<SearchResult>, Cache))
    requires multiset(shuffled) == multiset(c.categories)
    requires |synthetic| >= 3
  {
    if CacheFresh(c, now) then (c.topics, c)
    else
      var selected := Take(shuffled, 3);
      var found := CollectResults(selected, lookup);
      var results := if |found| < 2 then found + Take(synthetic, 3 - |found|) else found;
      (results, Cache(results, doneAt, shuffled))
  }

  /**
   A fresh cache is returned untouched; after a miss the result holds two or
   three topics (exactly three when padding was needed), the real results come
   first and each names a distinct queried category, and the cache records the
   result and the fetch time.
   */
  lemma CurrentTopicsContract(c: Cache, now: int, doneAt: int, shuffled: seq<string>, lookup: string -> Lookup,
                              synthetic: seq<SearchResult>)
    requires multiset(shuffled) == multiset(c.categories)
    requires |synthetic| >= 3
    ensures var (r, c') := CurrentTopics(c, now, doneAt, shuffled, lookup, synthetic);
      && (CacheFresh(c, now) ==> r == c.topics && c' == c)
      && (!CacheFresh(c, now) ==>
            && 2 <= |r| <= 3
            && c'.topics == r && c'.lastFetchTime == doneAt
            && var selected := Take(c'.categories, 3);
               var found := CollectResults(selected, lookup);
               && |selected| <= 3
               && r[..|found|] == found
               && (forall k :: |found| <= k < |r| ==> r[k] in synthetic)
               && (|found| < 2 ==> |r| == 3))
  {
    if !CacheFresh(c, now) {
      var (r, c') := CurrentTopics(c, now, doneAt, shuffled, lookup, synthetic);
      var found := CollectResults(Take(shuffled, 3), lookup);
      forall k | |found| <= k < |r|
        ensures r[k] in synthetic
      {
        assert r[k] == synthetic[k - |found|];
      }
    }
  }

  /**
   With the synthetic list the source builds for the local hour and weekday,
   the padding condition is met and every padding entry is a synthetic topic.
   */
  lemma SyntheticPadding(hour: int, day: int, synthetic: seq<SearchResult>, r: seq<SearchResult>, from: nat)
    requires multiset(synthetic) == multiset(SyntheticContext(hour, day))
    requires forall k :: from <= k < |r| ==> r[k] in synthetic
    ensures |synthetic| >= 3
    ensures forall k :: from <= k < |r| ==> r[k] in SyntheticContext(hour, day)
  {
    SyntheticRearrangement(hour, day, synthetic);
    forall k | from <= k < |r|
      ensures r[k] in SyntheticContext(hour, day)
    {
      var j :| 0 <= j < |synthetic| && synthetic[j] == r[k];
    }
  }

  /** The category list stays a rearrangement of the original eight categories, all distinct. */
  lemma CategoriesStayPermuted(c: Cache, now: int, doneAt: int, shuffled: seq<string>, lookup: string -> Lookup,
                               synthetic: seq<SearchResult>)
    requires multiset(c.categories) == multiset(TopicCategories) && Distinct(TopicCategories)
    requires multiset(shuffled) == multiset(c.categories)
    requires |synthetic| >= 3
    ensures var c' := CurrentTopics(c, now, doneAt, shuffled, lookup, synthetic).1;
      && multiset(c'.categories) == multiset(TopicCategories)
      && Distinct(c'.categories)
      && |Take(c'.categories, 3)| == 3
      && Distinct(Take(c'.categories, 3))
  {
    var cats := CurrentTopics(c, now, doneAt, shuffled, lookup, synthetic).1.categories;
    TopicsKeepCategories(c, now, doneAt, shuffled, lookup, synthetic);
    RearrangedHeadDistinct(cats, TopicCategories);
  }

  /** A rearrangement of a repeat-free list of at least three has three distinct leading entries. */
  lemma RearrangedHeadDistinct<T>(a: seq<T>, b: seq<T>)
    requires multiset(a) == multiset(b) && Distinct(b) && |b| >= 3
    ensures Distinct(a) && |Take(a, 3)| == 3 && Distinct(Take(a, 3))
  {
    RearrangementKeepsDistinct(a, b);
    assert |a| == |b| by {
      assert |multiset(a)| == |multiset(b)|;
    }
  }

  /** A lookup keeps the category list, or replaces it with the given shuffle of it. */
  lemma TopicsKeepCategories(c: Cache, now: int, doneAt: int, shuffled: seq<string>, lookup: string -> Lookup,
                             synthetic: seq<SearchResult>)
    requires multiset(shuffled) == multiset(c.categories)
    requires |synthetic| >= 3
    ensures multiset(CurrentTopics(c, now, doneAt, shuffled, lookup, synthetic).1.categories) == multiset(c.categories)
  {
  }

  /** The category list in its original order has no repeats. */
  lemma TopicCategoriesDistinct()
    ensures Distinct(TopicCategories)
  {
    assert forall i :: 0 <= i < 8 ==> |TopicCategories[i]| == [22, 13, 21, 24, 12, 22, 17, 18][i];
    assert TopicCategories[0][0] == 't' && TopicCategories[5][0] == 'i';
  }

  /** A sequence without repeats holds each value at most once. */
  lemma {:induction false} DistinctCountsAtMostOne<T>(s: seq<T>, x: T)
    requires Distinct(s)
    ensures multiset(s)[x] <= 1
    decreases |s|
  {
    if |s| > 0 {
      var m := |s| - 1;
      assert s == s[..m] + [s[m]];
      assert Distinct(s[..m]);
      DistinctCountsAtMostOne(s[..m], x);
      if s[m] == x {
        assert x !in s[..m];
        assert multiset(s[..m])[x] == 0;
      }
    }
  }

  /** A value at two positions occurs at least twice. */
  lemma RepeatCountsTwice<T>(s: seq<T>, i: int, j: int)
    requires 0 <= i < j < |s| && s[i] == s[j]
    ensures multiset(s)[s[i]] >= 2
  {
    assert s == s[..i] + [s[i]] + s[i + 1..j] + [s[j]] + s[j + 1..];
  }

  /** A rearrangement of a sequence without repeats has no repeats. */
  lemma RearrangementKeepsDistinct<T>(a: seq<T>, b: seq<T>)
    requires multiset(a) == multiset(b) && Distinct(b)
    ensures Distinct(a)
  {
    forall i, j | 0 <= i < j < |a|
      ensures a[i] != a[j]
    {
      if a[i] == a[j] {
        RepeatCountsTwice(a, i, j);
        DistinctCountsAtMostOne(b, a[i]);
      }
    }
  }

  // ---------------------------------------------------------------------------
  // Prompt formatting
  // ---------------------------------------------------------------------------

  /**
   The bullet the formatter writes before each topic. The source file holds the
   bullet mis-encoded as three characters, and this is what it emits.
   */
  const Bullet: string := "\U{E2}\U{20AC}\U{A2}"

  const ContextHeader: string := "\nCURRENT REAL-WORLD CONTEXT (use these for grounded, relevant posts):\n"
  const ContextFooter: string := "\n\nUSE THIS CONTEXT to make specific, timely observations. Reference real trends, not abstract philosophy.\n"

  function BulletLine(t: SearchResult): string {
    Bullet + " " + t.topic + ": " + t.snippet
  }

  /** `lines.join('\n')`. */
  function JoinLines(lines: seq<string>): string {
    if |lines| == 0 then ""
    else if |lines| == 1 then lines[0]
    else lines[0] + "\n" + JoinLines(lines[1..])
  }

  function BulletLines(topics: seq<SearchResult>): (r: seq<string>)
    ensures |r| == |topics|
    ensures forall i :: 0 <= i < |topics| ==> r[i] == BulletLine(topics[i])
  {
    seq(|topics|, i requires 0 <= i < |topics| => BulletLine(topics[i]))
  }

  /** `formatTopicsForPrompt`. */
  function FormatTopics(topics: seq<SearchResult>): (r: string)
    ensures r == "" <==> |topics| == 0
  {
    if |topics| == 0 then ""
    else ContextHeader + JoinLines(BulletLines(topics)) + ContextFooter
  }

  /** `s.split('\n')`. */
  function SplitLines(s: string): (r: seq<string>)
    ensures |r| >= 1
    decreases |s|
  {
    if |s| == 0 then [""]
    else
      var rest := SplitLines(s[1..]);
      if s[0] == '\n' then [""] + rest
      else [[s[0]] + rest[0]] + rest[1..]
  }

  predicate NoNewline(s: string) {
    forall i :: 0 <= i < |s| ==> s[i] != '\n'
  }

  lemma {:induction false} SplitSingleLine(line: string, tail: string)
    requires NoNewline(line)
    ensures SplitLines(line + tail)[0] == line + SplitLines(tail)[0]
    ensures SplitLines(line + tail)[1..] == SplitLines(tail)[1..]
    decreases |line|
  {
    if |line| > 0 {
      assert (line + tail)[1..] == line[1..] + tail;
      SplitSingleLine(line[1..], tail);
      assert line == [line[0]] + line[1..];
    } else {
      assert line + tail == tail;
    }
  }

  /** Joining lines without newlines and splitting the result again gives back the lines. */
  lemma {:induction false} SplitJoinLines(lines: seq<string>)
    requires |lines| >= 1
    requires forall k :: 0 <= k < |lines| ==> NoNewline(lines[k])
    ensures SplitLines(JoinLines(lines)) == lines
    decreases |lines|
  {
    var sp := SplitLines(JoinLines(lines));
    if |lines| == 1 {
      SplitSingleLine(lines[0], "");
      assert lines[0] + "" == lines[0];
      assert sp == [sp[0]] + sp[1..];
    } else {
      var rest := JoinLines(lines[1..]);
      SplitJoinLines(lines[1..]);
      assert JoinLines(lines) == lines[0] + ("\n" + rest);
      SplitSingleLine(lines[0], "\n" + rest);
      assert ("\n" + rest)[1..] == rest;
      assert SplitLines("\n" + rest) == [""] + SplitLines(rest);
      assert sp[0] == lines[0] && sp[1..] == lines[1..];
      assert sp == [sp[0]] + sp[1..];
      assert lines == [lines[0]] + lines[1..];
    }
  }

  /**
   When no topic or snippet contains a newline, the block between the header
   and the footer splits into exactly one bullet line per topic, in order.
   */
  lemma FormatTopicsLines(topics: seq<SearchResult>)
    requires |topics| > 0
    requires forall k :: 0 <= k < |topics| ==> NoNewline(topics[k].topic) && NoNewline(topics[k].snippet)
    ensures var r := FormatTopics(topics);
      && |r| > |ContextHeader| + |ContextFooter|
      && r[..|ContextHeader|] == ContextHeader
      && r[|r| - |ContextFooter|..] == ContextFooter
      && SplitLines(r[|ContextHeader|..|r| - |ContextFooter|]) == BulletLines(topics)
  {
    var lines := BulletLines(topics);
    forall k | 0 <= k < |lines|
      ensures NoNewline(lines[k])
    {
      var t := topics[k];
      assert lines[k] == Bullet + " " + t.topic + ": " + t.snippet;
      assert NoNewline(Bullet + " ");
      assert NoNewline(": ");
      forall i | 0 <= i < |lines[k]|
        ensures lines[k][i] != '\n'
      {
        var a := |Bullet + " "|;
        var b := a + |t.topic|;
        if i < a {
        } else if i < b {
          assert lines[k][i] == t.topic[i - a];
        } else if i < b + 2 {
        } else {
          assert lines[k][i] == t.snippet[i - b - 2];
        }
      }
    }
    SplitJoinLines(lines);
    var body := JoinLines(lines);
    var r := FormatTopics(topics);
    assert r == ContextHeader + body + ContextFooter;
    assert |body| >= |lines[0]| > 0;
    assert r[|ContextHeader|..|r| - |ContextFooter|] == body;
  }

  /** `getContextForPrompt`: a failure anywhere in the pipeline becomes the empty string. */
  function ContextForPrompt(topics: Option<seq<SearchResult>>): (r: string)
    ensures r == "" <==> topics.None? || |topics.value| == 0
    ensures topics.Some? ==> r == FormatTopics(topics.value)
  {
    match topics
    case None => ""
    case Some(ts) => FormatTopics(ts)
  }

  /**
   The modelled pipeline cannot fail, so the context it yields is never empty:
   a fresh cache is non-empty by definition and a miss yields two or three topics.
   */
  lemma ContextNeverEmpty(c: Cache, now: int, doneAt: int, shuffled: seq<string>, lookup: string -> Lookup,
                          synthetic: seq<SearchResult>)
    requires multiset(shuffled) == multiset(c.categories)
    requires |synthetic| >= 3
    ensures ContextForPrompt(Some(CurrentTopics(c, now, doneAt, shuffled, lookup, synthetic).0)) != ""
  {
    CurrentTopicsContract(c, now, doneAt, shuffled, lookup, synthetic);
  }
}
