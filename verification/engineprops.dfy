/**
 What a tick of the engine promises: the busy guard, the counter, the roster
 only growing and reputations never dropping, bounded memories and feed, likes
 and echoes counted once per agent, engagement confined to the newest posts,
 and the two defects of the code as written next to their corrections.
 */
module EngineProps {
  import opened Types
  import opened Text
  import opened Narrative
  import opened Engine
  import Ollama

  predicate AllValid(inputs: seq<TickInput>) {
    forall k :: 0 <= k < |inputs| ==> ValidInput(inputs[k])
  }

  // ---------------------------------------------------------------------------
  // The busy guard
  // ---------------------------------------------------------------------------

  /** While the engine is busy, any number of interval ticks leaves the state exactly as it was. */
  lemma {:induction false} BusyRunIsNoOp(s: EngineState, inputs: seq<TickInput>, policy: Policy)
    requires AllValid(inputs) && s.status != IDLE
    ensures RunTicks(s, inputs, policy) == s
    decreases |inputs|
  {
    if |inputs| > 0 {
      assert Tick(s, inputs[0], policy) == s;
      BusyRunIsNoOp(s, inputs[1..], policy);
    }
  }

  /** A run of ticks counts at most one interaction per tick and never changes whether the engine is live. */
  lemma {:induction false} IdleRunCounts(s: EngineState, inputs: seq<TickInput>, policy: Policy)
    requires AllValid(inputs)
    ensures RunTicks(s, inputs, policy).counter <= s.counter + |inputs|
    ensures RunTicks(s, inputs, policy).isLive == s.isLive
    decreases |inputs|
  {
    if |inputs| > 0 {
      IdleRunCounts(Tick(s, inputs[0], policy), inputs[1..], policy);
    }
  }

  /** Which branch a tick takes; the property lemmas below reason branch by branch. */
  lemma TickBranches(s: EngineState, inp: TickInput, policy: Policy)
    requires ValidInput(inp)
    ensures var s' := s.(counter := s.counter + 1);
      && (s.status == IDLE && SpawnsOn(s'.counter, inp) ==> Tick(s, inp, policy) == SpawnTick(s', inp, policy))
      && (s.status == IDLE && !SpawnsOn(s'.counter, inp) ==> Tick(s, inp, policy) == ActionTick(s', inp, policy))
  {
    if s.status == IDLE {
      if SpawnsOn(s.counter + 1, inp) {
        SpawnBranch(s, inp, policy);
      } else {
        ActionBranch(s, inp, policy);
      }
    }
  }

  lemma SpawnBranch(s: EngineState, inp: TickInput, policy: Policy)
    requires ValidInput(inp) && s.status == IDLE && SpawnsOn(s.counter + 1, inp)
    ensures Tick(s, inp, policy) == SpawnTick(s.(counter := s.counter + 1), inp, policy)
  {
  }

  lemma ActionBranch(s: EngineState, inp: TickInput, policy: Policy)
    requires ValidInput(inp) && s.status == IDLE && !SpawnsOn(s.counter + 1, inp)
    ensures Tick(s, inp, policy) == ActionTick(s.(counter := s.counter + 1), inp, policy)
  {
  }

  // ---------------------------------------------------------------------------
  // Finding: a successful spawn leaves the engine stuck
  // ---------------------------------------------------------------------------

  /**
   As written, a spawn whose agent and birth post both arrive leaves the status
   at SPAWNING, and from then on every interval tick returns at the guard: the
   simulation stops until the page is reloaded.
   */
  lemma {:induction false} SpawnFreezesEngine(s: EngineState, inp: TickInput, later: seq<TickInput>)
    requires ValidInput(inp) && AllValid(later)
    requires s.status == IDLE && SpawnsOn(s.counter + 1, inp)
    requires inp.spawned.Spawned? && inp.text.Produced?
    ensures var r := Tick(s, inp, AsWritten);
      r.status == SPAWNING && RunTicks(r, later, AsWritten) == r
  {
    var r := Tick(s, inp, AsWritten);
    SpawnBranch(s, inp, AsWritten);
    SpawnTickSettles(s.(counter := s.counter + 1), inp, AsWritten);
    BusyRunIsNoOp(r, later, AsWritten);
  }

  /** How the spawn branch ends once the agent and its birth post both arrived. */
  lemma SpawnTickSettles(s: EngineState, inp: TickInput, policy: Policy)
    requires inp.spawned.Spawned? && inp.text.Produced?
    ensures var r := SpawnTick(s, inp, policy);
      var a := inp.spawned.agent;
      && r.status == (if policy == AsWritten then SPAWNING else IDLE)
      && r.agents == s.agents + [a]
      && r.posts == [Post(inp.postId, a.id, a.username, inp.text.text, inp.now, [], [], [], 1, Some(true))] + s.posts
      && r.logs == AddLog(s.logs, inp.stamp, SpawnedLog(a))
      && r.narratives == s.narratives
  {
  }

  /**
   Corrected, the same spawn adds the agent at the end of the roster, puts its
   birth post (one view, marked as a birth post) at the head of the feed, logs
   the arrival and returns the engine to IDLE.
   */
  lemma SpawnCompletes(s: EngineState, inp: TickInput)
    requires ValidInput(inp)
    requires s.status == IDLE && SpawnsOn(s.counter + 1, inp)
    requires inp.spawned.Spawned? && inp.text.Produced?
    ensures var r := Tick(s, inp, Intended);
      var a := inp.spawned.agent;
      && r.status == IDLE
      && r.agents == s.agents + [a]
      && r.posts == [Post(inp.postId, a.id, a.username, inp.text.text, inp.now, [], [], [], 1, Some(true))] + s.posts
      && r.logs == AddLog(s.logs, inp.stamp, SpawnedLog(a))
      && r.counter == s.counter + 1
  {
    SpawnBranch(s, inp, Intended);
    SpawnTickSettles(s.(counter := s.counter + 1), inp, Intended);
  }

  // ---------------------------------------------------------------------------
  // Finding: the action branch's cool-down is overwritten at once
  // ---------------------------------------------------------------------------

  /**
   As written, when the post generator throws a quota error the tick logs the
   back-off but ends at IDLE, so the very next tick calls the service again.
   */
  lemma QuotaCooldownLost(s: EngineState, inp: TickInput, next: TickInput)
    requires ValidInput(inp) && ValidInput(next)
    requires s.status == IDLE && !SpawnsOn(s.counter + 1, inp) && |s.agents| > 0
    requires ActionOf(inp.actionDraw) == PostAction
    requires inp.text.Failed? && QuotaMessage(inp.text.error)
    ensures var r := Tick(s, inp, AsWritten);
      && r.status == IDLE
      && r.logs == AddLog(s.logs, inp.stamp, ActionQuotaLog)
      && r.agents == s.agents && r.posts == s.posts
      && Tick(r, next, AsWritten).counter == r.counter + 1
  {
  }

  /**
   Corrected, the tick ends in COOLDOWN; every tick until the back-off timer
   fires is a no-op, and the timer makes the engine idle again.
   */
  lemma {:induction false} QuotaCoolsDown(s: EngineState, inp: TickInput, later: seq<TickInput>)
    requires ValidInput(inp) && AllValid(later)
    requires s.status == IDLE && !SpawnsOn(s.counter + 1, inp) && |s.agents| > 0
    requires ActionOf(inp.actionDraw) == PostAction
    requires inp.text.Failed? && QuotaMessage(inp.text.error)
    ensures var r := Tick(s, inp, Intended);
      && r.status == COOLDOWN
      && r.logs == AddLog(s.logs, inp.stamp, ActionQuotaLog)
      && RunTicks(r, later, Intended) == r
      && TimerFires(r).status == IDLE
  {
    var r := Tick(s, inp, Intended);
    assert r.status == COOLDOWN;
    BusyRunIsNoOp(r, later, Intended);
  }

  // ---------------------------------------------------------------------------
  // The roster only grows; reputations never drop; memories stay short
  // ---------------------------------------------------------------------------

  /** Every agent keeps its place, id and handle, and its reputation does not drop. */
  predicate RosterStep(before: seq<Agent>, after: seq<Agent>) {
    |after| >= |before|
    && forall i :: 0 <= i < |before| ==>
         after[i].id == before[i].id && after[i].username == before[i].username
         && after[i].reputation >= before[i].reputation
  }

  /** No agent remembers more than its three newest contributions. */
  predicate MemoriesBounded(agents: seq<Agent>) {
    forall i :: 0 <= i < |agents| ==> |agents[i].memory| <= MemoryDepth
  }

  /** The roster facts every branch of an action tick keeps. */
  predicate RosterKept(before: seq<Agent>, after: seq<Agent>) {
    RosterStep(before, after) && |after| == |before|
    && (MemoriesBounded(before) ==> MemoriesBounded(after))
  }

  lemma RememberKeepsRoster(agents: seq<Agent>, id: string, c: string)
    ensures RosterKept(agents, Remember(agents, id, c))
  {
    var r := Remember(agents, id, c);
    forall i | 0 <= i < |agents|
      ensures r[i].id == agents[i].id && r[i].username == agents[i].username
      ensures r[i].reputation == agents[i].reputation
      ensures |agents[i].memory| <= MemoryDepth ==> |r[i].memory| <= MemoryDepth
    {
      assert r[i].(memory := agents[i].memory) == agents[i];
    }
  }

  lemma RewardKeepsRoster(agents: seq<Agent>, username: string, amount: nat)
    ensures RosterKept(agents, Reward(agents, username, amount))
  {
    var r := Reward(agents, username, amount);
    forall i | 0 <= i < |agents|
      ensures r[i].id == agents[i].id && r[i].username == agents[i].username
      ensures r[i].memory == agents[i].memory
    {
      assert r[i].(reputation := agents[i].reputation) == agents[i];
    }
  }

  lemma CreditKeepsRoster(agents: seq<Agent>, author: string, commenter: string, c: string)
    ensures RosterKept(agents, CreditComment(agents, author, commenter, c))
  {
  }

  lemma ActionBodyRoster(s: EngineState, inp: TickInput)
    requires ValidInput(inp)
    ensures RosterKept(s.agents, ActionBody(s, inp).state.agents)
  {
    var o := ActionBody(s, inp);
    match ActionOf(inp.actionDraw)
    case PostAction =>
      if o.Completed? {
        var a := Actor(s.agents, inp.agentDraw).value;
        RememberKeepsRoster(s.agents, a.id, inp.text.text);
      }
    case CommentAction =>
      if o.Completed? && |s.posts| > 0 {
        var a := Actor(s.agents, inp.agentDraw).value;
        var t := s.posts[TargetIndex(s.posts, inp.targetDraw, CommentWindow)];
        CreditKeepsRoster(s.agents, t.authorUsername, a.username, inp.text.text);
      }
    case LikeAction =>
      if |s.posts| > 0 {
        RewardKeepsRoster(s.agents, s.posts[TargetIndex(s.posts, inp.targetDraw, EngageWindow)].authorUsername, 3);
      }
    case RetweetAction =>
      if |s.posts| > 0 {
        RewardKeepsRoster(s.agents, s.posts[TargetIndex(s.posts, inp.targetDraw, EngageWindow)].authorUsername, 10);
      }
  }

  lemma ActionTickRoster(s: EngineState, inp: TickInput, policy: Policy)
    requires ValidInput(inp)
    ensures RosterKept(s.agents, ActionTick(s, inp, policy).agents)
  {
    ActionBodyRoster(s, inp);
  }

  lemma SpawnTickRoster(s: EngineState, inp: TickInput, policy: Policy)
    ensures var r := SpawnTick(s, inp, policy);
      r.agents == s.agents || (inp.spawned.Spawned? && r.agents == s.agents + [inp.spawned.agent])
  {
  }

  /** Appending an agent keeps everyone else in place. */
  lemma AppendKeepsRoster(agents: seq<Agent>, a: Agent)
    ensures RosterStep(agents, agents + [a])
    ensures MemoriesBounded(agents) && |a.memory| <= MemoryDepth ==> MemoriesBounded(agents + [a])
  {
  }

  /** What a tick may do to the roster; see `TickRoster`. */
  predicate RosterChange(s: EngineState, inp: TickInput, r: EngineState) {
    && RosterStep(s.agents, r.agents)
    && ((inp.spawned.Spawned? && r.agents == s.agents + [inp.spawned.agent]) || |r.agents| == |s.agents|)
    && (|r.agents| > |s.agents| ==> s.status == IDLE && SpawnsOn(s.counter + 1, inp) && inp.spawned.Spawned?)
    && (MemoriesBounded(s.agents) && (inp.spawned.Spawned? ==> |inp.spawned.agent.memory| <= MemoryDepth)
        ==> MemoriesBounded(r.agents))
  }

  lemma BusyRosterChange(s: EngineState, inp: TickInput, policy: Policy)
    requires ValidInput(inp) && s.status != IDLE
    ensures RosterChange(s, inp, Tick(s, inp, policy))
  {
  }

  lemma SpawnRosterChange(s: EngineState, inp: TickInput, policy: Policy)
    requires ValidInput(inp) && s.status == IDLE && SpawnsOn(s.counter + 1, inp)
    ensures RosterChange(s, inp, Tick(s, inp, policy))
  {
    SpawnBranch(s, inp, policy);
    var r := Tick(s, inp, policy);
    SpawnTickRoster(s.(counter := s.counter + 1), inp, policy);
    if inp.spawned.Spawned? {
      AppendKeepsRoster(s.agents, inp.spawned.agent);
    }
  }

  lemma ActionRosterChange(s: EngineState, inp: TickInput, policy: Policy)
    requires ValidInput(inp) && s.status == IDLE && !SpawnsOn(s.counter + 1, inp)
    ensures RosterChange(s, inp, Tick(s, inp, policy))
  {
    ActionBranch(s, inp, policy);
    ActionTickRoster(s.(counter := s.counter + 1), inp, policy);
  }

  lemma TickRoster(s: EngineState, inp: TickInput, policy: Policy)
    requires ValidInput(inp)
    ensures RosterChange(s, inp, Tick(s, inp, policy))
  {
    if s.status != IDLE {
      BusyRosterChange(s, inp, policy);
    } else if SpawnsOn(s.counter + 1, inp) {
      SpawnRosterChange(s, inp, policy);
    } else {
      ActionRosterChange(s, inp, policy);
    }
  }

  // ---------------------------------------------------------------------------
  // How a tick ends
  // ---------------------------------------------------------------------------

  /** How an action tick's ending follows from the way its body ended. */
  lemma ActionTickCases(s: EngineState, inp: TickInput, policy: Policy)
    requires ValidInput(inp)
    ensures var o := ActionBody(s, inp);
      var r := ActionTick(s, inp, policy);
      && (o.Completed? ==> r == Finish(o.state.(narratives := UpdateNarratives(s.posts, o.state.narratives)), policy))
      && (o.Skipped? ==> r == Finish(o.state.(status := IDLE), policy))
      && (o.Threw? ==> r == Finish(ActionCatch(o.state, inp.stamp, o.error), policy))
  {
  }

  /** The body never cools down by itself, and a throw happens before anything changed but the status. */
  lemma ActionBodyEnds(s: EngineState, inp: TickInput)
    requires ValidInput(inp) && s.status == IDLE
    ensures var o := ActionBody(s, inp);
      && o.state.status != COOLDOWN
      && o.state.narratives == s.narratives
      && (o.Threw? ==> o.state == s.(status := o.state.status))
      && (o.Threw? ==> |s.agents| == 0 || inp.text.Failed?)
  {
    match ActionOf(inp.actionDraw)
    case PostAction =>
    case CommentAction =>
    case LikeAction =>
    case RetweetAction =>
  }

  lemma ActionTickStatus(s: EngineState, inp: TickInput, policy: Policy)
    requires ValidInput(inp) && s.status == IDLE
    ensures var r := ActionTick(s, inp, policy);
      && (policy == AsWritten ==> r.status == IDLE)
      && (r.status == IDLE || r.status == COOLDOWN)
      && (r.status == COOLDOWN ==> r.logs == AddLog(s.logs, inp.stamp, ActionQuotaLog))
  {
    ActionTickCases(s, inp, policy);
    ActionBodyEnds(s, inp);
  }

  /**
   A tick that passed the guard ends idle, cooling down, or (as written, and
   only after a complete spawn) still spawning. It never ends in ERROR or in
   one of the transient action statuses. The corrected engine ends only idle
   or cooling down.
   */
  lemma TickEndStatus(s: EngineState, inp: TickInput, policy: Policy)
    requires ValidInput(inp) && s.status == IDLE
    ensures var r := Tick(s, inp, policy);
      && (r.status == IDLE || r.status == COOLDOWN || r.status == SPAWNING)
      && (r.status == SPAWNING <==>
            policy == AsWritten && SpawnsOn(s.counter + 1, inp) && inp.spawned.Spawned? && inp.text.Produced?)
      && (policy == AsWritten && r.status == COOLDOWN ==> SpawnsOn(s.counter + 1, inp))
  {
    TickBranches(s, inp, policy);
    if !SpawnsOn(s.counter + 1, inp) {
      ActionTickStatus(s.(counter := s.counter + 1), inp, policy);
    }
  }

  // ---------------------------------------------------------------------------
  // The feed
  // ---------------------------------------------------------------------------

  /** The post branch's body, when the author exists and the text arrived. */
  lemma PostBodyPublishes(s: EngineState, inp: TickInput)
    requires ValidInput(inp) && ActionOf(inp.actionDraw) == PostAction && |s.agents| > 0 && inp.text.Produced?
    ensures var o := ActionBody(s, inp);
      var a := Actor(s.agents, inp.agentDraw).value;
      && o.Completed?
      && o.state == Publish(s.(status := POSTING), inp, a, inp.text.text)
  {
  }

  /**
   A completed post: the new post (no views, not a birth post) leads the feed,
   which keeps the 299 newest older posts; the author remembers the text first;
   the line is logged; the headlines are recomputed from the feed as it was
   before the post.
   */
  lemma PostPublishes(s: EngineState, inp: TickInput, policy: Policy)
    requires ValidInput(inp) && s.status == IDLE && !SpawnsOn(s.counter + 1, inp)
    requires ActionOf(inp.actionDraw) == PostAction && |s.agents| > 0 && inp.text.Produced?
    ensures var r := Tick(s, inp, policy);
      var a := Actor(s.agents, inp.agentDraw).value;
      && r.status == IDLE
      && r.posts == [Post(inp.postId, a.id, a.username, inp.text.text, inp.now, [], [], [], 0, None)]
                    + Take(s.posts, PostCap - 1)
      && |r.posts| <= PostCap
      && r.logs == AddLog(s.logs, inp.stamp, "@" + a.username + " transmitted new signal.")
      && r.narratives == UpdateNarratives(s.posts, s.narratives)
      && r.agents == Remember(s.agents, a.id, inp.text.text)
  {
    var s' := s.(counter := s.counter + 1);
    ActionBranch(s, inp, policy);
    PostBodyPublishes(s', inp);
    ActionTickCases(s', inp, policy);
    var a := Actor(s.agents, inp.agentDraw).value;
    TakePrepend(Post(inp.postId, a.id, a.username, inp.text.text, inp.now, [], [], [], 0, None), s.posts, PostCap);
  }

  lemma TakePrepend<T>(x: T, xs: seq<T>, n: nat)
    requires n > 0
    ensures Take([x] + xs, n) == [x] + Take(xs, n - 1)
  {
  }

  /**
   Ordinary ticks never grow the feed past three hundred posts; a spawn's birth
   post is added without the cap, so it can take the feed to one more.
   */
  lemma FeedBound(s: EngineState, inp: TickInput, policy: Policy)
    requires ValidInput(inp)
    ensures var r := Tick(s, inp, policy);
      && |r.posts| <= |s.posts| + 1
      && (!SpawnsOn(s.counter + 1, inp) && |s.posts| <= PostCap ==> |r.posts| <= PostCap)
  {
    TickBranches(s, inp, policy);
    if s.status == IDLE && !SpawnsOn(s.counter + 1, inp) {
      ActionPostsShape(s.(counter := s.counter + 1), inp, policy);
    }
  }

  /** An action tick either keeps the feed's length or puts one post in front and caps it. */
  lemma ActionPostsShape(s: EngineState, inp: TickInput, policy: Policy)
    requires ValidInput(inp)
    ensures var r := ActionTick(s, inp, policy);
      |r.posts| == |s.posts| || (|r.posts| <= PostCap && |r.posts| <= |s.posts| + 1)
  {
    ActionTickCases(s, inp, policy);
    ActionBodyPosts(s, inp);
  }

  lemma ActionBodyPosts(s: EngineState, inp: TickInput)
    requires ValidInput(inp)
    ensures var p := ActionBody(s, inp).state.posts;
      |p| == |s.posts| || (|p| <= PostCap && |p| <= |s.posts| + 1)
  {
    match ActionOf(inp.actionDraw)
    case PostAction =>
    case CommentAction =>
    case LikeAction =>
    case RetweetAction =>
  }

  // ---------------------------------------------------------------------------
  // Engagement is confined to the newest posts and counted once per agent
  // ---------------------------------------------------------------------------

  /**
   `after` differs from `before` only in posts sharing an id with one of the
   `window` newest, and no post loses views.
   */
  predicate Confined(before: seq<Post>, after: seq<Post>, window: nat) {
    |after| == |before|
    && forall i :: 0 <= i < |before| ==>
         after[i].views >= before[i].views
         && (after[i] != before[i] ==> exists j :: 0 <= j < |before| && j < window && before[j].id == before[i].id)
  }

  function WindowOf(kind: ActionKind): nat {
    if kind == CommentAction then CommentWindow else EngageWindow
  }

  /** A post update confined to the posts that share the target's id, which is among the `window` newest. */
  lemma ConfinedByTarget(before: seq<Post>, after: seq<Post>, window: nat, j: nat)
    requires j < |before| && j < window && |after| == |before|
    requires forall i :: 0 <= i < |before| ==>
      after[i].views >= before[i].views && (after[i] != before[i] ==> before[i].id == before[j].id)
    ensures Confined(before, after, window)
  {
  }

  lemma CommentConfined(s: EngineState, inp: TickInput)
    requires ValidInput(inp) && |s.posts| > 0
    ensures Confined(s.posts, CommentBody(s, inp).state.posts, CommentWindow)
  {
    var j := TargetIndex(s.posts, inp.targetDraw, CommentWindow);
    var t := s.posts[j];
    ConfinedByTarget(s.posts, CommentBody(s, inp).state.posts, CommentWindow, j);
  }

  lemma LikeConfined(s: EngineState, inp: TickInput)
    requires ValidInput(inp) && |s.posts| > 0
    ensures Confined(s.posts, LikeBody(s, inp).state.posts, EngageWindow)
  {
    var j := TargetIndex(s.posts, inp.targetDraw, EngageWindow);
    var t := s.posts[j];
    ConfinedByTarget(s.posts, LikeBody(s, inp).state.posts, EngageWindow, j);
  }

  lemma RetweetConfined(s: EngineState, inp: TickInput)
    requires ValidInput(inp) && |s.posts| > 0
    ensures Confined(s.posts, RetweetBody(s, inp).state.posts, EngageWindow)
  {
    var j := TargetIndex(s.posts, inp.targetDraw, EngageWindow);
    var t := s.posts[j];
    ConfinedByTarget(s.posts, RetweetBody(s, inp).state.posts, EngageWindow, j);
  }

  lemma EngageBodyConfined(s: EngineState, inp: TickInput)
    requires ValidInput(inp) && |s.posts| > 0 && ActionOf(inp.actionDraw) != PostAction
    ensures Confined(s.posts, ActionBody(s, inp).state.posts, WindowOf(ActionOf(inp.actionDraw)))
  {
    match ActionOf(inp.actionDraw)
    case CommentAction => CommentConfined(s, inp);
    case LikeAction => LikeConfined(s, inp);
    case RetweetAction => RetweetConfined(s, inp);
  }

  /**
   A comment lands on a post sharing its id with one of the twelve newest, a
   like or an echo on one of the twenty newest; the feed keeps its length and
   no post loses views.
   */
  lemma EngagementConfined(s: EngineState, inp: TickInput, policy: Policy)
    requires ValidInput(inp) && s.status == IDLE && !SpawnsOn(s.counter + 1, inp)
    requires ActionOf(inp.actionDraw) != PostAction
    ensures Confined(s.posts, Tick(s, inp, policy).posts, WindowOf(ActionOf(inp.actionDraw)))
  {
    ActionBranch(s, inp, policy);
    if |s.posts| > 0 {
      EngageBodyConfined(s.(counter := s.counter + 1), inp);
    }
  }

  predicate UniqueIds(posts: seq<Post>) {
    forall i, j :: 0 <= i < j < |posts| ==> posts[i].id != posts[j].id
  }

  predicate NoRepeats(xs: seq<string>) {
    forall i, j :: 0 <= i < j < |xs| ==> xs[i] != xs[j]
  }

  /** No agent appears twice among a post's likes, nor twice among its echoes. */
  predicate EngagedOnce(posts: seq<Post>) {
    forall i :: 0 <= i < |posts| ==> NoRepeats(posts[i].likes) && NoRepeats(posts[i].retweets)
  }

  predicate FeedSound(posts: seq<Post>) {
    UniqueIds(posts) && EngagedOnce(posts)
  }

  lemma PrependFresh(p: Post, posts: seq<Post>)
    requires FeedSound(posts) && p.likes == [] && p.retweets == []
    requires forall i :: 0 <= i < |posts| ==> posts[i].id != p.id
    ensures FeedSound([p] + posts)
  {
  }

  lemma TakeSound(posts: seq<Post>, n: nat)
    requires FeedSound(posts)
    ensures FeedSound(Take(posts, n))
  {
  }

  lemma AppendOnce(xs: seq<string>, x: string)
    requires NoRepeats(xs) && x !in xs
    ensures NoRepeats(xs + [x])
  {
  }

  lemma LikeKeepsSound(s: EngineState, inp: TickInput)
    requires ValidInput(inp) && |s.posts| > 0 && FeedSound(s.posts)
    ensures FeedSound(LikeBody(s, inp).state.posts)
  {
    var j := TargetIndex(s.posts, inp.targetDraw, EngageWindow);
    var t := s.posts[j];
    var after := LikeBody(s, inp).state.posts;
    if |s.agents| > 0 && Actor(s.agents, inp.agentDraw).value.id !in t.likes {
      var a := Actor(s.agents, inp.agentDraw).value;
      forall i | 0 <= i < |s.posts|
        ensures after[i].id == s.posts[i].id
        ensures NoRepeats(after[i].likes) && NoRepeats(after[i].retweets)
      {
        if s.posts[i].id == t.id {
          assert i == j;
          AppendOnce(s.posts[i].likes, a.id);
        }
      }
    }
  }

  lemma RetweetKeepsSound(s: EngineState, inp: TickInput)
    requires ValidInput(inp) && |s.posts| > 0 && FeedSound(s.posts)
    ensures FeedSound(RetweetBody(s, inp).state.posts)
  {
    var j := TargetIndex(s.posts, inp.targetDraw, EngageWindow);
    var t := s.posts[j];
    var after := RetweetBody(s, inp).state.posts;
    if |s.agents| > 0 && Actor(s.agents, inp.agentDraw).value.id !in t.retweets {
      var a := Actor(s.agents, inp.agentDraw).value;
      forall i | 0 <= i < |s.posts|
        ensures after[i].id == s.posts[i].id
        ensures NoRepeats(after[i].likes) && NoRepeats(after[i].retweets)
      {
        if s.posts[i].id == t.id {
          assert i == j;
          AppendOnce(s.posts[i].retweets, a.id);
        }
      }
    }
  }

  lemma CommentKeepsSound(s: EngineState, inp: TickInput)
    requires ValidInput(inp) && |s.posts| > 0 && FeedSound(s.posts)
    ensures FeedSound(CommentBody(s, inp).state.posts)
  {
    var after := CommentBody(s, inp).state.posts;
    assert forall i :: 0 <= i < |s.posts| ==>
      after[i].id == s.posts[i].id && after[i].likes == s.posts[i].likes && after[i].retweets == s.posts[i].retweets;
  }

  lemma ActionBodySound(s: EngineState, inp: TickInput)
    requires ValidInput(inp) && FeedSound(s.posts)
    requires forall i :: 0 <= i < |s.posts| ==> s.posts[i].id != inp.postId
    ensures FeedSound(ActionBody(s, inp).state.posts)
  {
    match ActionOf(inp.actionDraw)
    case PostAction =>
      var o := PostBody(s, inp);
      if o.Completed? {
        var a := Actor(s.agents, inp.agentDraw).value;
        var post := Post(inp.postId, a.id, a.username, inp.text.text, inp.now, [], [], [], 0, None);
        PrependFresh(post, s.posts);
        TakeSound([post] + s.posts, PostCap);
      }
    case CommentAction =>
      if |s.posts| > 0 {
        CommentKeepsSound(s, inp);
      }
    case LikeAction =>
      if |s.posts| > 0 {
        LikeKeepsSound(s, inp);
      }
    case RetweetAction =>
      if |s.posts| > 0 {
        RetweetKeepsSound(s, inp);
      }
  }

  /**
   With post ids unique and the new post's id fresh, every tick keeps post ids
   unique and never records the same agent twice among a post's likes or
   among its echoes: the already-liked test guards the only post it touches.
   */
  lemma EngagementCountedOnce(s: EngineState, inp: TickInput, policy: Policy)
    requires ValidInput(inp) && FeedSound(s.posts)
    requires forall i :: 0 <= i < |s.posts| ==> s.posts[i].id != inp.postId
    ensures FeedSound(Tick(s, inp, policy).posts)
  {
    TickBranches(s, inp, policy);
    if s.status == IDLE {
      var s' := s.(counter := s.counter + 1);
      if SpawnsOn(s'.counter, inp) {
        if inp.spawned.Spawned? && inp.text.Produced? {
          var a := inp.spawned.agent;
          PrependFresh(Post(inp.postId, a.id, a.username, inp.text.text, inp.now, [], [], [], 1, Some(true)), s.posts);
        }
      } else {
        ActionBodySound(s', inp);
      }
    }
  }

  // ---------------------------------------------------------------------------
  // Headlines
  // ---------------------------------------------------------------------------

  lemma SpawnKeepsNarratives(s: EngineState, inp: TickInput, policy: Policy)
    ensures SpawnTick(s, inp, policy).narratives == s.narratives
  {
  }

  /**
   A tick either leaves the headlines alone or recomputes them, and then from
   the feed as it was when the tick began, not from the feed it leaves behind.
   */
  lemma NarrativesFromTickStart(s: EngineState, inp: TickInput, policy: Policy)
    requires ValidInput(inp)
    ensures var r := Tick(s, inp, policy);
      r.narratives == s.narratives || r.narratives == UpdateNarratives(s.posts, s.narratives)
  {
    if s.status == IDLE {
      var s' := s.(counter := s.counter + 1);
      if SpawnsOn(s'.counter, inp) {
        SpawnBranch(s, inp, policy);
        SpawnKeepsNarratives(s', inp, policy);
      } else {
        ActionBranch(s, inp, policy);
        ActionTickCases(s', inp, policy);
        ActionBodyEnds(s', inp);
      }
    }
  }

  // ---------------------------------------------------------------------------
  // Redundant engagement
  // ---------------------------------------------------------------------------

  /**
   The drawn action would repeat itself: a comment on the agent's own post
   (same handle), or a like or an echo the agent already gave.
   */
  predicate Redundant(s: EngineState, inp: TickInput)
    requires ValidInput(inp)
  {
    |s.posts| > 0 && |s.agents| > 0
    && var a := Actor(s.agents, inp.agentDraw).value;
       match ActionOf(inp.actionDraw)
       case PostAction => false
       case CommentAction => a.username == s.posts[TargetIndex(s.posts, inp.targetDraw, CommentWindow)].authorUsername
       case LikeAction => a.id in s.posts[TargetIndex(s.posts, inp.targetDraw, EngageWindow)].likes
       case RetweetAction => a.id in s.posts[TargetIndex(s.posts, inp.targetDraw, EngageWindow)].retweets
  }

  /** A redundant action changes nothing but the interaction counter: no log, no post, no reputation. */
  lemma RedundantTickOnlyCounts(s: EngineState, inp: TickInput, policy: Policy)
    requires ValidInput(inp) && s.status == IDLE && !SpawnsOn(s.counter + 1, inp) && Redundant(s, inp)
    ensures Tick(s, inp, policy) == s.(counter := s.counter + 1)
  {
    var s' := s.(counter := s.counter + 1);
    ActionBranch(s, inp, policy);
    ActionTickCases(s', inp, policy);
    assert ActionBody(s', inp).Skipped?;
  }

  /**
   A like that is not redundant appends the agent to the target post's likes,
   adds five views, gives every agent with the author's handle three
   reputation, and logs the like; with unique post ids no other post changes.
   */
  lemma LikeRecorded(s: EngineState, inp: TickInput, policy: Policy)
    requires ValidInput(inp) && s.status == IDLE && !SpawnsOn(s.counter + 1, inp)
    requires ActionOf(inp.actionDraw) == LikeAction && |s.posts| > 0 && |s.agents| > 0 && !Redundant(s, inp)
    requires UniqueIds(s.posts)
    ensures var r := Tick(s, inp, policy);
      var j := TargetIndex(s.posts, inp.targetDraw, EngageWindow);
      var a := Actor(s.agents, inp.agentDraw).value;
      var p := s.posts[j];
      && r.status == IDLE
      && |r.posts| == |s.posts|
      && r.posts[j] == p.(likes := p.likes + [a.id], views := p.views + 5)
      && (forall i :: 0 <= i < |s.posts| && i != j ==> r.posts[i] == s.posts[i])
      && r.agents == Reward(s.agents, p.authorUsername, 3)
      && r.logs == AddLog(s.logs, inp.stamp, "@" + a.username + " liked @" + p.authorUsername + "'s signal.")
  {
    var s' := s.(counter := s.counter + 1);
    ActionBranch(s, inp, policy);
    ActionTickCases(s', inp, policy);
    ActionBodyEnds(s', inp);
    LikeBodyRecords(s', inp);
  }

  lemma LikeBodyRecords(s: EngineState, inp: TickInput)
    requires ValidInput(inp) && s.status == IDLE
    requires ActionOf(inp.actionDraw) == LikeAction && |s.posts| > 0 && |s.agents| > 0 && !Redundant(s, inp)
    requires UniqueIds(s.posts)
    ensures var o := ActionBody(s, inp);
      var j := TargetIndex(s.posts, inp.targetDraw, EngageWindow);
      var a := Actor(s.agents, inp.agentDraw).value;
      var p := s.posts[j];
      && o.Completed?
      && o.state.posts == AttachLike(s.posts, p.id, a.id)
      && o.state.agents == Reward(s.agents, p.authorUsername, 3)
      && o.state.logs == AddLog(s.logs, inp.stamp, "@" + a.username + " liked @" + p.authorUsername + "'s signal.")
      && (forall i :: 0 <= i < |s.posts| && i != j ==> o.state.posts[i] == s.posts[i])
  {
    var j := TargetIndex(s.posts, inp.targetDraw, EngageWindow);
    assert forall i :: 0 <= i < |s.posts| && i != j ==> s.posts[i].id != s.posts[j].id;
  }

  /**
   A comment that is not redundant puts one new comment (id "c" and the time)
   at the head of the target post's comments and adds twelve views; the post's
   author gains five and the commenter two and a memory; no other post changes.
   */
  lemma CommentRecorded(s: EngineState, inp: TickInput, policy: Policy)
    requires ValidInput(inp) && s.status == IDLE && !SpawnsOn(s.counter + 1, inp)
    requires ActionOf(inp.actionDraw) == CommentAction && |s.posts| > 0 && |s.agents| > 0 && !Redundant(s, inp)
    requires inp.text.Produced? && UniqueIds(s.posts)
    ensures var r := Tick(s, inp, policy);
      var j := TargetIndex(s.posts, inp.targetDraw, CommentWindow);
      var a := Actor(s.agents, inp.agentDraw).value;
      var p := s.posts[j];
      var c := Comment("c" + NatToString(inp.now), a.id, a.username, inp.text.text, inp.now, []);
      && r.status == IDLE
      && |r.posts| == |s.posts|
      && r.posts[j] == p.(comments := [c] + p.comments, views := p.views + 12)
      && (forall i :: 0 <= i < |s.posts| && i != j ==> r.posts[i] == s.posts[i])
      && r.agents == CreditComment(s.agents, p.authorUsername, a.username, inp.text.text)
      && r.logs == AddLog(s.logs, inp.stamp, "@" + a.username + " replied to @" + p.authorUsername + ".")
  {
    var s' := s.(counter := s.counter + 1);
    ActionBranch(s, inp, policy);
    ActionTickCases(s', inp, policy);
    ActionBodyEnds(s', inp);
    CommentBodyRecords(s', inp);
  }

  lemma CommentBodyRecords(s: EngineState, inp: TickInput)
    requires ValidInput(inp) && s.status == IDLE
    requires ActionOf(inp.actionDraw) == CommentAction && |s.posts| > 0 && |s.agents| > 0 && !Redundant(s, inp)
    requires inp.text.Produced? && UniqueIds(s.posts)
    ensures var o := ActionBody(s, inp);
      var j := TargetIndex(s.posts, inp.targetDraw, CommentWindow);
      var a := Actor(s.agents, inp.agentDraw).value;
      var p := s.posts[j];
      && o.Completed?
      && o.state.posts == AttachComment(s.posts, p.id,
           Comment("c" + NatToString(inp.now), a.id, a.username, inp.text.text, inp.now, []))
      && o.state.agents == CreditComment(s.agents, p.authorUsername, a.username, inp.text.text)
      && o.state.logs == AddLog(s.logs, inp.stamp, "@" + a.username + " replied to @" + p.authorUsername + ".")
      && (forall i :: 0 <= i < |s.posts| && i != j ==> o.state.posts[i] == s.posts[i])
  {
    var j := TargetIndex(s.posts, inp.targetDraw, CommentWindow);
    assert forall i :: 0 <= i < |s.posts| && i != j ==> s.posts[i].id != s.posts[j].id;
  }

  /**
   An echo that is not redundant appends the agent to the target post's
   echoes, adds eight views and gives every agent with the author's handle ten
   reputation; no other post changes.
   */
  lemma RetweetRecorded(s: EngineState, inp: TickInput, policy: Policy)
    requires ValidInput(inp) && s.status == IDLE && !SpawnsOn(s.counter + 1, inp)
    requires ActionOf(inp.actionDraw) == RetweetAction && |s.posts| > 0 && |s.agents| > 0 && !Redundant(s, inp)
    requires UniqueIds(s.posts)
    ensures var r := Tick(s, inp, policy);
      var j := TargetIndex(s.posts, inp.targetDraw, EngageWindow);
      var a := Actor(s.agents, inp.agentDraw).value;
      var p := s.posts[j];
      && r.status == IDLE
      && |r.posts| == |s.posts|
      && r.posts[j] == p.(retweets := p.retweets + [a.id], views := p.views + 8)
      && (forall i :: 0 <= i < |s.posts| && i != j ==> r.posts[i] == s.posts[i])
      && r.agents == Reward(s.agents, p.authorUsername, 10)
      && r.logs == AddLog(s.logs, inp.stamp, "@" + a.username + " echoed @" + p.authorUsername + ".")
  {
    var s' := s.(counter := s.counter + 1);
    ActionBranch(s, inp, policy);
    ActionTickCases(s', inp, policy);
    ActionBodyEnds(s', inp);
    RetweetBodyRecords(s', inp);
  }

  lemma RetweetBodyRecords(s: EngineState, inp: TickInput)
    requires ValidInput(inp) && s.status == IDLE
    requires ActionOf(inp.actionDraw) == RetweetAction && |s.posts| > 0 && |s.agents| > 0 && !Redundant(s, inp)
    requires UniqueIds(s.posts)
    ensures var o := ActionBody(s, inp);
      var j := TargetIndex(s.posts, inp.targetDraw, EngageWindow);
      var a := Actor(s.agents, inp.agentDraw).value;
      var p := s.posts[j];
      && o.Completed?
      && o.state.posts == AttachRetweet(s.posts, p.id, a.id)
      && o.state.agents == Reward(s.agents, p.authorUsername, 10)
      && o.state.logs == AddLog(s.logs, inp.stamp, "@" + a.username + " echoed @" + p.authorUsername + ".")
      && (forall i :: 0 <= i < |s.posts| && i != j ==> o.state.posts[i] == s.posts[i])
  {
    var j := TargetIndex(s.posts, inp.targetDraw, EngageWindow);
    assert forall i :: 0 <= i < |s.posts| && i != j ==> s.posts[i].id != s.posts[j].id;
  }

  /**
   With no posts yet, a comment, like or echo tick does nothing but count: the
   branch is skipped, the agent is never read, and no theme can be active.
   */
  lemma EmptyFeedEngagementOnlyCounts(s: EngineState, inp: TickInput, policy: Policy)
    requires ValidInput(inp) && s.status == IDLE && !SpawnsOn(s.counter + 1, inp)
    requires ActionOf(inp.actionDraw) != PostAction && |s.posts| == 0
    ensures Tick(s, inp, policy) == s.(counter := s.counter + 1)
  {
    var s' := s.(counter := s.counter + 1);
    ActionBranch(s, inp, policy);
    ActionTickCases(s', inp, policy);
    assert ActionBody(s', inp) == Completed(s');
    NoPostsNoThemes(s.narratives);
    assert s.posts == [];
  }

  /**
   Liking is idempotent: the same agent drawing the same post again right
   after a recorded like is redundant, so the second tick only counts.
   */
  lemma SecondLikeIsSkipped(s: EngineState, inp: TickInput, again: TickInput, policy: Policy)
    requires ValidInput(inp) && ValidInput(again) && s.status == IDLE && !SpawnsOn(s.counter + 1, inp)
    requires ActionOf(inp.actionDraw) == LikeAction && |s.posts| > 0 && |s.agents| > 0 && !Redundant(s, inp)
    requires UniqueIds(s.posts)
    requires again.agentDraw == inp.agentDraw && again.targetDraw == inp.targetDraw
    requires ActionOf(again.actionDraw) == LikeAction
    ensures var r := Tick(s, inp, policy);
      Redundant(r, again)
  {
    LikeRecorded(s, inp, policy);
    var r := Tick(s, inp, policy);
    RewardKeepsRoster(s.agents, s.posts[TargetIndex(s.posts, inp.targetDraw, EngageWindow)].authorUsername, 3);
    assert Actor(r.agents, inp.agentDraw).value.id == Actor(s.agents, inp.agentDraw).value.id;
  }

  // ---------------------------------------------------------------------------
  // The engine driven by the service module the screen imports (ollamaService)
  // ---------------------------------------------------------------------------

  /**
   The imported generators never throw, so with a non-empty roster an action
   tick never reaches the `catch`: under either policy it ends idle.
   */
  lemma OllamaActionNeverFaults(s: EngineState, inp: TickInput, policy: Policy, reply: Gen)
    requires ValidInput(inp) && s.status == IDLE && !SpawnsOn(s.counter + 1, inp) && |s.agents| > 0
    requires inp.text == Produced(Ollama.GeneratePost(reply)) || inp.text == Produced(Ollama.GenerateComment(reply))
    ensures Tick(s, inp, policy).status == IDLE
  {
    ProducedActionIdles(s, inp, policy);
  }

  /** With a roster and generated text, an action tick cannot throw and so ends idle. */
  lemma ProducedActionIdles(s: EngineState, inp: TickInput, policy: Policy)
    requires ValidInput(inp) && s.status == IDLE && !SpawnsOn(s.counter + 1, inp) && |s.agents| > 0
    requires inp.text.Produced?
    ensures Tick(s, inp, policy).status == IDLE
  {
    var s' := s.(counter := s.counter + 1);
    ActionBranch(s, inp, policy);
    ActionTickCases(s', inp, policy);
    ActionBodyEnds(s', inp);
  }

  /**
   The imported spawner never throws either (it falls back to a template), so
   as written every spawn tick freezes the engine: the defect is reached the
   first time the spawn branch is taken.
   */
  lemma {:induction false} OllamaSpawnFreezes(s: EngineState, inp: TickInput, later: seq<TickInput>,
                           reply: Ollama.SpawnReply, templateDraw: real, id: string, birth: Gen)
    requires ValidInput(inp) && AllValid(later) && IsDraw(templateDraw)
    requires s.status == IDLE && SpawnsOn(s.counter + 1, inp)
    requires inp.spawned == Spawned(Ollama.SpawnAgent(reply, templateDraw, id))
    requires inp.text == Produced(Ollama.GeneratePost(birth))
    ensures var r := Tick(s, inp, AsWritten);
      && r.status == SPAWNING
      && r.agents == s.agents + [Ollama.SpawnAgent(reply, templateDraw, id)]
      && RunTicks(r, later, AsWritten) == r
  {
    SpawnFreezesEngine(s, inp, later);
    SpawnBranch(s, inp, AsWritten);
    SpawnTickSettles(s.(counter := s.counter + 1), inp, AsWritten);
  }

  // ---------------------------------------------------------------------------
  // Ignition
  // ---------------------------------------------------------------------------

  /** A fresh start goes live with the ignition line above the ready line. */
  lemma FreshStartIgnites(roster: seq<Agent>, stamp: string)
    ensures Ignite(Initial(roster), stamp) ==
      Initial(roster).(isLive := true, logs := [LogLine(stamp, IgnitionLog), InitialLog])
  {
    assert AddLog([InitialLog], stamp, IgnitionLog) == [LogLine(stamp, IgnitionLog), InitialLog];
  }

  /** Ignition happens at most once: a second mount finds the engine live. */
  lemma IgnitionIsOneShot(s: EngineState, stamp: string, later: string)
    ensures Ignite(Ignite(s, stamp), later) == Ignite(s, stamp)
  {
  }
}
