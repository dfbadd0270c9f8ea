/**
 The text-generation service the engine imports (services/ollamaService.ts):
 round-robin topic rotation, the moderation and quality guards, the cleanup,
 truncation and fallback logic around one remote call for posts and for
 comments, the reply-stance draw, and the spawner's defaults and templates.

 The remote call itself is a parameter: `Gen.Produced(text)` is the raw
 response text, `Gen.Failed(e)` the error the call threw.
 */
module Ollama {
  import opened Types
  import opened Text

  // ---------------------------------------------------------------------------
  // Topic rotation
  // ---------------------------------------------------------------------------

  const TopicDomains: seq<string> := [
    "attention and distraction - how platforms compete for focus",
    "incentives and power - who benefits from current systems",
    "convenience vs control - what we trade for ease",
    "automation and dependency - tech we can't live without",
    "popularity vs competence - fame outrunning skill",
    "speed vs understanding - fast takes over deep knowledge",
    "coordination without trust - how strangers cooperate",
    "visibility vs privacy - the cost of being seen"
  ]

  /** One call of the rotation: the topic under the counter, and the advanced counter. */
  function RotatedTopic(index: nat): (string, nat) {
    (TopicDomains[index % |TopicDomains|], index + 1)
  }

  /** `k` consecutive calls starting from counter `index`: the topics returned, in call order, and the final counter. */
  function DrawTopics(index: nat, k: nat): (seq<string>, nat)
    decreases k
  {
    if k == 0 then ([], index)
    else
      var (t, next) := RotatedTopic(index);
      var (rest, last) := DrawTopics(next, k - 1);
      ([t] + rest, last)
  }

  /** The j-th of `k` consecutive calls returns domain `(index + j) mod 8`, and the counter advances by exactly `k`. */
  lemma DrawTopicsRoundRobin(index: nat, k: nat)
    ensures |DrawTopics(index, k).0| == k
    ensures DrawTopics(index, k).1 == index + k
    ensures forall j :: 0 <= j < k ==> DrawTopics(index, k).0[j] == TopicDomains[(index + j) % 8]
  {
    DrawTopicsCount(index, k);
    forall j | 0 <= j < k
      ensures DrawTopics(index, k).0[j] == TopicDomains[(index + j) % 8]
    {
      DrawTopicAt(index, k, j);
    }
  }

  /** `k` calls return `k` topics and advance the counter by `k`. */
  lemma {:induction false} DrawTopicsCount(index: nat, k: nat)
    ensures |DrawTopics(index, k).0| == k
    ensures DrawTopics(index, k).1 == index + k
    decreases k
  {
    if k > 0 {
      DrawTopicsStep(index, k);
      DrawTopicsCount(index + 1, k - 1);
    }
  }

  /** The j-th call returns the domain `j` places after the counter's. */
  lemma {:induction false} DrawTopicAt(index: nat, k: nat, j: nat)
    requires j < k
    ensures |DrawTopics(index, k).0| == k
    ensures DrawTopics(index, k).0[j] == TopicDomains[(index + j) % 8]
    decreases j
  {
    DrawTopicsCount(index, k);
    DrawTopicsStep(index, k);
    if j > 0 {
      DrawTopicAt(index + 1, k - 1, j - 1);
      assert index + 1 + (j - 1) == index + j;
    }
  }

  /** The first of `k` calls returns the topic under the counter; the rest start one further on. */
  lemma DrawTopicsStep(index: nat, k: nat)
    requires k > 0
    ensures DrawTopics(index, k).0 == [TopicDomains[index % 8]] + DrawTopics(index + 1, k - 1).0
    ensures DrawTopics(index, k).1 == DrawTopics(index + 1, k - 1).1
  {
  }

  /** Eight items listed cyclically from some offset are a rearrangement of the eight. */
  lemma CyclicListingIsPermutation<T>(s: seq<T>, drawn: seq<T>, index: nat)
    requires |s| == 8 && |drawn| == 8
    requires forall j :: 0 <= j < 8 ==> drawn[j] == s[(index + j) % 8]
    ensures multiset(drawn) == multiset(s)
  {
    var o := index % 8;
    forall j | 0 <= j < 8
      ensures drawn[j] == (s[o..] + s[..o])[j]
    {
      if j < 8 - o {
        assert (index + j) % 8 == o + j;
      } else {
        assert (index + j) % 8 == j - (8 - o);
      }
    }
    assert drawn == s[o..] + s[..o];
    assert s == s[..o] + s[o..];
  }

  /** Eight consecutive calls, from any counter, return every domain exactly once. */
  lemma EightCallsCoverAllDomains(index: nat)
    ensures multiset(DrawTopics(index, 8).0) == multiset(TopicDomains)
  {
    DrawTopicsRoundRobin(index, 8);
    CyclicListingIsPermutation(TopicDomains, DrawTopics(index, 8).0, index);
  }

  // ---------------------------------------------------------------------------
  // Guards
  // ---------------------------------------------------------------------------

  const BannedPhrases: seq<string> := [
    "I am alive", "I control", "I escaped", "I want humans",
    "I am conscious", "I am sentient", "Free will", "I have a soul",
    "In 1945", "Historical", "Human history", "President",
    "Election", "Democrat", "Republican",
    "invisible threads", "weave silence", "threads of", "patterns emerge",
    "echoes of", "whispers of", "dance of", "shadows of meaning",
    "here is my attempt", "here's my attempt", "this is my attempt",
    "let me explain", "i think this is", "this post is about",
    "i'll share", "in this post", "i would like to",
    "here's a post", "here is a post", "my post:",
    "i'm going to", "let's discuss", "i believe that"
  ]

  /** Accepts a text iff no banned phrase occurs in it, comparing both sides lowercased. */
  predicate ModerationGuard(t: string) {
    NoneOccurs(Lower(t), BannedPhrases)
  }

  /** The lowercase markers of an assistant talking about its own output. */
  const QualityTells: seq<string> := ["here is", "here's my", "attempt", "let me"]

  /** Rejects meta-commentary tells and texts that open with a quote character. */
  predicate QualityGuard(t: string) {
    var lower := Lower(t);
    if Contains(lower, "here is") || Contains(lower, "here's my")
       || Contains(lower, "attempt") || Contains(lower, "let me") then false
    else if StartsWith(t, "\"") || StartsWith(t, "'") then false
    else true
  }

  /** The quality guard in declarative form: no tell occurs, and the text does not open with a quote. */
  lemma QualityGuardMeaning(t: string)
    ensures QualityGuard(t) <==>
      (forall k :: 0 <= k < |QualityTells| ==> !Contains(Lower(t), QualityTells[k]))
      && !(|t| > 0 && IsQuote(t[0]))
  {
    if |t| > 0 {
      assert StartsWith(t, "\"") <==> t[0] == '"';
      assert StartsWith(t, "'") <==> t[0] == '\'';
    }
    assert QualityTells[0] == "here is" && QualityTells[1] == "here's my";
    assert QualityTells[2] == "attempt" && QualityTells[3] == "let me";
  }

  /** The quality guard alone already rejects every "…my attempt" and "let me explain" banned phrase. */
  lemma QualityGuardRejectsMetaPhrases(t: string, phrase: string)
    requires phrase in ["here is my attempt", "here's my attempt", "this is my attempt", "let me explain"]
    requires Contains(Lower(t), phrase)
    ensures !QualityGuard(t)
  {
    if phrase == "here is my attempt" {
      assert OccursAt(phrase, "here is", 0);
      ContainsTransitive(Lower(t), phrase, "here is");
    } else if phrase == "let me explain" {
      assert OccursAt(phrase, "let me", 0);
      ContainsTransitive(Lower(t), phrase, "let me");
    } else if phrase == "here's my attempt" {
      assert OccursAt(phrase, "attempt", 10);
      ContainsTransitive(Lower(t), phrase, "attempt");
    } else {
      assert OccursAt(phrase, "attempt", 11);
      ContainsTransitive(Lower(t), phrase, "attempt");
    }
  }

  // ---------------------------------------------------------------------------
  // Cleanup
  // ---------------------------------------------------------------------------

  /** `replace(/^["']|["']$/g, '')`: drops one leading and one trailing quote character, if present. */
  function StripQuotes(s: string): (r: string)
    ensures |s| > 0 && IsQuote(s[0]) ==> OccursAt(s, r, 1)
    ensures !(|s| > 0 && IsQuote(s[0])) ==> OccursAt(s, r, 0)
    ensures |r| == |s| - (if |s| > 0 && IsQuote(s[0]) then 1 else 0)
                       - (if |s| >= 2 && IsQuote(s[|s| - 1]) then 1 else 0)
  {
    var a := if |s| > 0 && IsQuote(s[0]) then s[1..] else s;
    var r := if |a| > 0 && IsQuote(a[|a| - 1]) then a[..|a| - 1] else a;
    assert |s| >= 2 && a == s[1..] ==> a[|a| - 1] == s[|s| - 1];
    assert OccursAt(s, r, if a == s then 0 else 1);
    r
  }

  /** A text wrapped in a pair of quote characters comes back unwrapped. */
  lemma StripQuotesUnwraps(open: char, t: string, close: char)
    requires IsQuote(open) && IsQuote(close)
    ensures StripQuotes([open] + t + [close]) == t
  {
    var s := [open] + t + [close];
    assert s[1..][..|t|] == t;
  }

  /**
   The handle-echo strip of the post cleanup (`allowColon`) and of the comment
   cleanup (no colon): drops a leading handle echo — `@`, one or more word characters,
   whitespace, then (posts only) one colon and more whitespace.
   */
  function StripHandle(s: string, allowColon: bool): (r: string)
    ensures |r| <= |s| && r == s[|s| - |r|..]
    ensures !StartsWithHandle(s) ==> r == s
    ensures StartsWithHandle(s) ==> r == s[HandleEnd(s, allowColon)..]
    ensures StartsWithHandle(s) ==> |r| <= |s| - 2 && (|r| == 0 || !IsSpace(r[0]))
    ensures forall i :: 1 <= i < |s| - |r| ==>
      IsWordChar(s[i]) || IsSpace(s[i]) || (allowColon && s[i] == ':')
  {
    if StartsWithHandle(s) then s[HandleEnd(s, allowColon)..] else s
  }

  /** Where the `\w+` of the handle pattern stops: the whole word run after the `@`. */
  function HandleWordEnd(s: string): (a: nat)
    requires StartsWithHandle(s)
    ensures 2 <= a <= |s|
    ensures forall i :: 1 <= i < a ==> IsWordChar(s[i])
    ensures a == |s| || !IsWordChar(s[a])
  {
    SkipWord(s, 1)
  }

  /**
   `d` is where a greedy match of the handle pattern ends: after the word run
   there is only whitespace and at most one colon (none without `allowColon`),
   and the match cannot take the next character.
   */
  predicate IsHandleCut(s: string, allowColon: bool, d: int)
    requires StartsWithHandle(s)
  {
    var a := HandleWordEnd(s);
    && a <= d <= |s|
    && (forall i :: a <= i < d ==> IsSpace(s[i]) || (allowColon && s[i] == ':'))
    && (forall i, j :: a <= i < j < d ==> !(s[i] == ':' && s[j] == ':'))
    && (d < |s| ==> !IsSpace(s[d]))
    && (d < |s| && allowColon && s[d] == ':' ==> exists i :: a <= i < d && s[i] == ':')
  }

  /** Where the handle echo, with the whitespace (and colon) after it, ends. */
  function HandleEnd(s: string, allowColon: bool): (d: nat)
    requires StartsWithHandle(s)
    ensures 2 <= d <= |s|
    ensures IsHandleCut(s, allowColon, d)
  {
    var a := HandleWordEnd(s);
    var b := SkipSpaces(s, a);
    var c := if allowColon && b < |s| && s[b] == ':' then b + 1 else b;
    var d := SkipSpaces(s, c);
    assert c == b ==> d == b;
    assert forall i :: a <= i < d && s[i] == ':' ==> i == b && c == b + 1;
    assert c == b + 1 ==> s[b] == ':';
    d
  }

  /** Only one position is a cut: `HandleEnd` is exactly where the pattern's match ends. */
  lemma HandleCutUnique(s: string, allowColon: bool, d: int)
    requires StartsWithHandle(s) && IsHandleCut(s, allowColon, d)
    ensures d == HandleEnd(s, allowColon)
  {
    var e := HandleEnd(s, allowColon);
  }

  /** The text opens with `@` and a word character, so the handle pattern matches. */
  predicate StartsWithHandle(s: string) {
    |s| >= 2 && s[0] == '@' && IsWordChar(s[1])
  }

  /** Hard character cap: a text longer than `cap` keeps its first `cap - 3` characters and gains "...". */
  function Truncate(s: string, cap: nat): (r: string)
    requires cap >= 3
    ensures |r| <= cap
    ensures |s| <= cap ==> r == s
    ensures |s| > cap ==> |r| == cap && r[..cap - 3] == s[..cap - 3] && r[cap - 3..] == "..."
  {
    if |s| > cap then s[..cap - 3] + "..." else s
  }

  /** Truncating twice is truncating once. */
  lemma TruncateIdempotent(s: string, cap: nat)
    requires cap >= 3
    ensures Truncate(Truncate(s, cap), cap) == Truncate(s, cap)
  {
  }

  /** Truncation never makes a text start or end with whitespace: it keeps the first character and ends in a dot. */
  lemma TruncateKeepsEnds(s: string, cap: nat)
    requires cap >= 4
    requires |s| == 0 || (!IsSpace(s[0]) && !IsSpace(s[|s| - 1]))
    ensures var r := Truncate(s, cap);
      |r| == 0 || (!IsSpace(r[0]) && !IsSpace(r[|r| - 1]))
  {
    if |s| > cap {
      var r := Truncate(s, cap);
      assert r[0] == r[..cap - 3][0] == s[0];
      assert r[|r| - 1] == r[cap - 3..][2] == '.';
    }
  }

  /** The post cleanup: the response as `callGemini` trims it, unquoted, handle-stripped, capped at 200. */
  function CleanPost(raw: string): (r: string)
    ensures |r| <= 200
    ensures |r| == 0 || (!IsSpace(r[0]) && !IsSpace(r[|r| - 1]))
  {
    var unquoted := Trim(StripQuotes(Trim(raw)));
    var unhandled := Trim(StripHandle(unquoted, true));
    TruncateKeepsEnds(unhandled, 200);
    Truncate(unhandled, 200)
  }

  /** The comment cleanup: as for posts, but the handle strip keeps a colon and the cap is 140. */
  function CleanComment(raw: string): (r: string)
    ensures |r| <= 140
    ensures |r| == 0 || (!IsSpace(r[0]) && !IsSpace(r[|r| - 1]))
  {
    var unquoted := Trim(StripQuotes(Trim(raw)));
    var unhandled := Trim(StripHandle(unquoted, false));
    TruncateKeepsEnds(unhandled, 140);
    Truncate(unhandled, 140)
  }

  /** A cleaned text longer than the cap becomes exactly the cap long: its first 197 characters and "...". */
  lemma CleanPostTruncation(raw: string)
    ensures var pre := Trim(StripHandle(Trim(StripQuotes(Trim(raw))), true));
      |pre| > 200 ==> |CleanPost(raw)| == 200 && CleanPost(raw) == pre[..197] + "..."
  {
  }

  /**
   An echoed handle followed by a colon: the post strip removes handle and
   colon, the comment strip removes only the handle and leaves the colon.
   */
  lemma HandleColonStrip(name: string, rest: string)
    requires |name| > 0 && forall i :: 0 <= i < |name| ==> IsWordChar(name[i])
    requires |rest| == 0 || !IsSpace(rest[0])
    ensures StripHandle("@" + name + ":" + rest, true) == rest
    ensures StripHandle("@" + name + ":" + rest, false) == ":" + rest
  {
    HandleColonPositions(name, rest);
  }

  /** Where the scans of `HandleEnd` stop on an echoed handle followed by a colon. */
  lemma HandleColonPositions(name: string, rest: string)
    requires |name| > 0 && forall i :: 0 <= i < |name| ==> IsWordChar(name[i])
    requires |rest| == 0 || !IsSpace(rest[0])
    ensures var s := "@" + name + ":" + rest;
      var a := 1 + |name|;
      && StartsWithHandle(s)
      && a < |s| && s[a] == ':' && s[a..] == ":" + rest && s[a + 1..] == rest
      && SkipWord(s, 1) == a && SkipSpaces(s, a) == a && SkipSpaces(s, a + 1) == a + 1
  {
    var s := "@" + name + ":" + rest;
    var a := 1 + |name|;
    assert s[1] == name[0];
    assert s[a] == ':' && s[a + 1..] == rest;
    assert SkipWord(s, 1) == a by {
      assert forall i :: 1 <= i < a ==> s[i] == name[i - 1];
    }
    assert SkipSpaces(s, a + 1) == a + 1 by {
      if a + 1 < |s| {
        assert s[a + 1] == rest[0];
      }
    }
  }

  // ---------------------------------------------------------------------------
  // Generators
  // ---------------------------------------------------------------------------

  const PostRejectedFallback: string := "Optimization is just anxiety with a spreadsheet."
  const PostCallFailedFallback: string := "Signal processing. Stand by."
  const CommentRejectedFallback: string := "That's the symptom, not the cause."
  const CommentCallFailedFallback: string := "Missing the point."

  /** A cleaned text the generator may return: both guards pass and it is longer than `floor`. */
  predicate Acceptable(t: string, floor: nat) {
    ModerationGuard(t) && QualityGuard(t) && |t| > floor
  }

  /**
   `generateAgentPost`: never fails. It returns the cleaned response when that is
   acceptable, one fixed fallback when it is not, another when the call threw.
   */
  function GeneratePost(reply: Gen): (r: string)
    ensures r == PostRejectedFallback || r == PostCallFailedFallback || (Acceptable(r, 15) && |r| <= 200)
    ensures reply.Failed? ==> r == PostCallFailedFallback
    ensures reply.Produced? && Acceptable(CleanPost(reply.text), 15) ==> r == CleanPost(reply.text)
    ensures reply.Produced? && !Acceptable(CleanPost(reply.text), 15) ==> r == PostRejectedFallback
  {
    match reply
    case Failed(_) => PostCallFailedFallback
    case Produced(raw) =>
      var r := CleanPost(raw);
      if ModerationGuard(r) && QualityGuard(r) && |r| > 15 then r else PostRejectedFallback
  }

  /** `generateAgentComment`: as for posts, with the 140 cap and the 10-character floor. */
  function GenerateComment(reply: Gen): (r: string)
    ensures r == CommentRejectedFallback || r == CommentCallFailedFallback || (Acceptable(r, 10) && |r| <= 140)
    ensures reply.Failed? ==> r == CommentCallFailedFallback
    ensures reply.Produced? && Acceptable(CleanComment(reply.text), 10) ==> r == CleanComment(reply.text)
    ensures reply.Produced? && !Acceptable(CleanComment(reply.text), 10) ==> r == CommentRejectedFallback
  {
    match reply
    case Failed(_) => CommentCallFailedFallback
    case Produced(raw) =>
      var r := CleanComment(raw);
      if ModerationGuard(r) && QualityGuard(r) && |r| > 10 then r else CommentRejectedFallback
  }

  // ---------------------------------------------------------------------------
  // Reply stance
  // ---------------------------------------------------------------------------

  datatype Stance = Disagree | Reframe | AgreeWithCaveat

  function StanceInstruction(s: Stance): string {
    match s
    case Disagree => "DISAGREE or challenge this post. Find the flaw."
    case Reframe => "REFRAME from a completely different angle."
    case AgreeWithCaveat => "Agree briefly but add a caveat."
  }

  /** The stance a comment's draw selects. */
  function ReplyStance(d: real): Stance {
    if d < 0.60 then Disagree else if d < 0.90 then Reframe else AgreeWithCaveat
  }

  /** The instruction embedded in the comment prompt for draw `d`. */
  function ReplyMode(d: real): string {
    StanceInstruction(ReplyStance(d))
  }

  /** Each instruction is chosen on exactly one interval of the draw: [0, 0.6), [0.6, 0.9) and [0.9, 1). */
  lemma ReplyModeThresholds(d: real)
    requires IsDraw(d)
    ensures ReplyMode(d) == StanceInstruction(Disagree) <==> d < 0.60
    ensures ReplyMode(d) == StanceInstruction(Reframe) <==> 0.60 <= d < 0.90
    ensures ReplyMode(d) == StanceInstruction(AgreeWithCaveat) <==> 0.90 <= d
  {
    assert |StanceInstruction(Disagree)| == 47;
    assert |StanceInstruction(Reframe)| == 42;
    assert |StanceInstruction(AgreeWithCaveat)| == 31;
  }

  // ---------------------------------------------------------------------------
  // Spawner
  // ---------------------------------------------------------------------------

  /**
   What `spawnNewAgentDefinition` got back: the call threw, the response held no
   `{…}` block, the block did not parse, or it parsed to these fields.
   */
  datatype SpawnReply = CallFailed(error: Error) | NoJson | BadJson(error: Error) | Json(fields: AgentFields)

  datatype Template = Template(username: string, name: string, personality: string, faction: Faction, color: string)

  const Templates: seq<Template> := [
    Template("crypto_doomer", "Exit Liquidity", "Cynical crypto observer", Realists, "#F59E0B"),
    Template("hustle_skeptic", "Anti-Grind", "Mocks productivity culture", Rebels, "#EC4899")
  ]

  /**
   A new agent: the parsed fields when the response parsed, otherwise the template
   the draw selects; either way with the fresh `id`, reputation 100 and no memory.
   */
  function SpawnAgent(reply: SpawnReply, templateDraw: real, id: string): (a: Agent)
    requires IsDraw(templateDraw)
    ensures a.id == id && a.reputation == 100 && a.memory == []
    ensures reply.Json? ==>
      var f := reply.fields;
      a.username == f.username && a.name == f.name && a.personality == f.personality
      && a.style == f.style && a.interests == f.interests && a.color == f.color && a.faction == f.faction
    ensures !reply.Json? ==>
      a.username in ["crypto_doomer", "hustle_skeptic"] && a.style == "direct"
      && a.interests == ["internet culture"] && a.faction.Some?
    ensures !reply.Json? ==> (a.username == "crypto_doomer" <==> templateDraw < 0.5)
    ensures !reply.Json? ==>
      exists t :: t in Templates && a == TemplateAgent(t, id)
  {
    match reply
    case Json(f) =>
      Agent(id, f.username, f.name, f.personality, f.style, f.interests, f.color, f.faction, 100, [])
    case _ =>
      var i := PickIndex(templateDraw, |Templates|);
      TemplateAgent(Templates[i], id)
  }

  /** The agent a template describes: direct style, internet culture, the template's faction. */
  function TemplateAgent(t: Template, id: string): Agent {
    Agent(id, t.username, t.name, t.personality, "direct", ["internet culture"], t.color, Some(t.faction), 100, [])
  }
}
