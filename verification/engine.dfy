/**
 The simulation engine of App.tsx: one `performAction` tick of the state
 machine that spawns agents, posts, comments, likes and echoes, the timers
 that release a cool-down, and the one-shot ignition on first mount.

 Every awaited service call is an input: the agent the spawner produced or the
 error it threw, and the text the post or comment generator produced or the
 error it threw. Random draws, the clock and generated ids are inputs too.
 A tick runs atomically: the tick guard reads the status the tick itself set
 before its first await, so no second tick can interleave with it.

 `Policy` selects between the code as written and the corrected behaviour
 (see the findings in README.md); everything the two share is written once.
 */
module Engine {
  import opened Types
  import opened Text
  import opened Narrative

  // ---------------------------------------------------------------------------
  // Constants
  // ---------------------------------------------------------------------------

  const SpawnEvery: nat := 30
  const SpawnChance: real := 0.1
  const PostCap: nat := 300
  const CommentWindow: nat := 12
  const EngageWindow: nat := 20
  const MemoryDepth: nat := 3

  const InitialLog: string := "SYSTEM CORE STABLE. READY."
  const IgnitionLog: string := "AUTONOMOUS IGNITION SUCCESSFUL."
  const SpawnQuotaLog: string := "QUOTA EXHAUSTED. SYSTEM COOLING DOWN."
  const SpawnFaultLog: string := "SPAWN FAULT."
  const ActionQuotaLog: string := "QUOTA HIT. BACKING OFF 15S."
  const ActionFaultLog: string := "SIGNAL CORRUPTION."

  /** What reading a field of the missing agent throws when the roster is empty. */
  const MissingAgent: Error := Error("Cannot read properties of undefined", None)

  // ---------------------------------------------------------------------------
  // State and inputs
  // ---------------------------------------------------------------------------

  datatype EngineState = EngineState(
    status: EngineStatus,
    counter: nat,
    agents: seq<Agent>,
    posts: seq<Post>,
    narratives: seq<string>,
    logs: seq<string>,
    isLive: bool)

  /** The awaited spawner call: the new agent, or what it threw. */
  datatype SpawnOutcome = Spawned(agent: Agent) | SpawnThrew(error: Error)

  /**
   Everything one tick consumes from outside: four `Math.random()` draws (spawn
   chance, agent, action dice, target post), the clock as `Date.now()` and as a
   printed local time, the id generated for a new post, the spawner's outcome
   and the text generator's outcome (the birth post on a spawn tick, the post or
   comment otherwise).
   */
  datatype TickInput = TickInput(
    spawnDraw: real,
    agentDraw: real,
    actionDraw: real,
    targetDraw: real,
    now: nat,
    stamp: string,
    postId: string,
    spawned: SpawnOutcome,
    text: Gen)

  predicate ValidInput(inp: TickInput) {
    IsDraw(inp.spawnDraw) && IsDraw(inp.agentDraw) && IsDraw(inp.actionDraw) && IsDraw(inp.targetDraw)
  }

  /** The code as written, or with the corrections the findings describe. */
  datatype Policy = AsWritten | Intended

  datatype ActionKind = PostAction | CommentAction | LikeAction | RetweetAction

  /** The action dice: a quarter posts, then 30% comment, 30% like, 15% echo. */
  function ActionOf(dice: real): ActionKind {
    if dice < 0.25 then PostAction
    else if dice < 0.55 then CommentAction
    else if dice < 0.85 then LikeAction
    else RetweetAction
  }

  /** A 429 anywhere in the message marks a quota failure; an error without a message has none. */
  predicate QuotaMessage(e: Error) {
    Contains(e.message, "429")
  }

  function Min(a: nat, b: nat): nat {
    if a < b then a else b
  }

  /** The state the screen starts with on a fresh load, given the built-in roster. */
  function Initial(roster: seq<Agent>): EngineState {
    EngineState(IDLE, 0, roster, [], [], [InitialLog], false)
  }

  function Log(s: EngineState, stamp: string, msg: string): (r: EngineState)
    ensures r.(logs := s.logs) == s
    ensures |r.logs| == if |s.logs| < LogCapacity then |s.logs| + 1 else LogCapacity
    ensures r.logs[0] == LogLine(stamp, msg) && r.logs[1..] == s.logs[..|r.logs| - 1]
  {
    s.(logs := AddLog(s.logs, stamp, msg))
  }

  // ---------------------------------------------------------------------------
  // Roster and feed updates
  // ---------------------------------------------------------------------------

  /** Every agent with id `id` remembers `c` first and keeps its three newest memories. */
  function Remember(agents: seq<Agent>, id: string, c: string): (r: seq<Agent>)
    ensures |r| == |agents|
    ensures forall i :: 0 <= i < |r| ==>
      r[i].(memory := agents[i].memory) == agents[i]
      && r[i].memory == (if agents[i].id == id then Take([c] + agents[i].memory, MemoryDepth) else agents[i].memory)
  {
    seq(|agents|, i requires 0 <= i < |agents| =>
      if agents[i].id == id then agents[i].(memory := Take([c] + agents[i].memory, MemoryDepth)) else agents[i])
  }

  /** Every agent named `username` gains `amount` reputation. */
  function Reward(agents: seq<Agent>, username: string, amount: nat): (r: seq<Agent>)
    ensures |r| == |agents|
    ensures forall i :: 0 <= i < |r| ==>
      r[i].(reputation := agents[i].reputation) == agents[i]
      && r[i].reputation == agents[i].reputation + (if agents[i].username == username then amount else 0)
  {
    seq(|agents|, i requires 0 <= i < |agents| =>
      if agents[i].username == username then agents[i].(reputation := agents[i].reputation + amount) else agents[i])
  }

  /**
   After a comment: the commented author gains five; otherwise the commenter
   gains two and remembers the comment. An agent matching both names is
   treated as the author.
   */
  function CreditComment(agents: seq<Agent>, author: string, commenter: string, c: string): (r: seq<Agent>)
    ensures |r| == |agents|
    ensures forall i :: 0 <= i < |r| ==>
      r[i].(reputation := agents[i].reputation, memory := agents[i].memory) == agents[i]
    ensures forall i :: 0 <= i < |r| ==>
      r[i].reputation == agents[i].reputation
        + (if agents[i].username == author then 5 else if agents[i].username == commenter then 2 else 0)
    ensures forall i :: 0 <= i < |r| ==>
      r[i].memory == if agents[i].username != author && agents[i].username == commenter
        then Take([c] + agents[i].memory, MemoryDepth) else agents[i].memory
  {
    seq(|agents|, i requires 0 <= i < |agents| =>
      var a := agents[i];
      if a.username == author then a.(reputation := a.reputation + 5)
      else if a.username == commenter then a.(reputation := a.reputation + 2, memory := Take([c] + a.memory, MemoryDepth))
      else a)
  }

  /** Every post with id `id` gets the comment in front and twelve more views. */
  function AttachComment(posts: seq<Post>, id: string, comment: Comment): (r: seq<Post>)
    ensures |r| == |posts|
    ensures forall i :: 0 <= i < |r| ==>
      r[i].(comments := posts[i].comments, views := posts[i].views) == posts[i]
    ensures forall i :: 0 <= i < |r| ==>
      && r[i].comments == (if posts[i].id == id then [comment] + posts[i].comments else posts[i].comments)
      && r[i].views == posts[i].views + (if posts[i].id == id then 12 else 0)
  {
    seq(|posts|, i requires 0 <= i < |posts| =>
      if posts[i].id == id then posts[i].(comments := [comment] + posts[i].comments, views := posts[i].views + 12)
      else posts[i])
  }

  /** Every post with id `id` gets the liker appended and five more views. */
  function AttachLike(posts: seq<Post>, id: string, liker: string): (r: seq<Post>)
    ensures |r| == |posts|
    ensures forall i :: 0 <= i < |r| ==>
      r[i].(likes := posts[i].likes, views := posts[i].views) == posts[i]
    ensures forall i :: 0 <= i < |r| ==>
      && r[i].likes == (if posts[i].id == id then posts[i].likes + [liker] else posts[i].likes)
      && r[i].views == posts[i].views + (if posts[i].id == id then 5 else 0)
  {
    seq(|posts|, i requires 0 <= i < |posts| =>
      if posts[i].id == id then posts[i].(likes := posts[i].likes + [liker], views := posts[i].views + 5)
      else posts[i])
  }

  /** Every post with id `id` gets the echoing agent appended and eight more views. */
  function AttachRetweet(posts: seq<Post>, id: string, echoer: string): (r: seq<Post>)
    ensures |r| == |posts|
    ensures forall i :: 0 <= i < |r| ==>
      r[i].(retweets := posts[i].retweets, views := posts[i].views) == posts[i]
    ensures forall i :: 0 <= i < |r| ==>
      && r[i].retweets == (if posts[i].id == id then posts[i].retweets + [echoer] else posts[i].retweets)
      && r[i].views == posts[i].views + (if posts[i].id == id then 8 else 0)
  {
    seq(|posts|, i requires 0 <= i < |posts| =>
      if posts[i].id == id then posts[i].(retweets := posts[i].retweets + [echoer], views := posts[i].views + 8)
      else posts[i])
  }

  // ---------------------------------------------------------------------------
  // The tick
  // ---------------------------------------------------------------------------

  /** How the body of an action tick ended before the shared `catch` and `finally`. */
  datatype Outcome =
    | Completed(state: EngineState)        // reached the narrative update
    | Skipped(state: EngineState)          // returned early: own post, or already engaged
    | Threw(state: EngineState, error: Error)

  /** The spawn branch's `catch`: a quota error cools down, anything else is a spawn fault. */
  function SpawnCatch(s: EngineState, stamp: string, e: Error): (r: EngineState)
    ensures r.agents == s.agents && r.posts == s.posts && r.counter == s.counter
    ensures QuotaMessage(e) ==> r.status == COOLDOWN && r.logs == AddLog(s.logs, stamp, SpawnQuotaLog)
    ensures !QuotaMessage(e) ==> r.status == IDLE && r.logs == AddLog(s.logs, stamp, SpawnFaultLog)
  {
    if QuotaMessage(e) then Log(s.(status := COOLDOWN), stamp, SpawnQuotaLog)
    else Log(s.(status := IDLE), stamp, SpawnFaultLog)
  }

  /** The line logged when an agent joins; a missing faction prints as `undefined`. */
  function SpawnedLog(a: Agent): string {
    "NODE SPAWNED: @" + a.username + " (" + FactionName(a.faction) + ")"
  }

  /**
   The spawn branch (the tick counter already advanced): the new agent joins and
   is announced, then its birth post leads the feed. This branch has no
   `finally`: as written a spawn that succeeds leaves the status at SPAWNING.
   */
  function SpawnTick(s: EngineState, inp: TickInput, policy: Policy): (r: EngineState)
    ensures r.counter == s.counter && r.isLive == s.isLive
  {
    var busy := s.(status := SPAWNING);
    match inp.spawned
    case SpawnThrew(e) => SpawnCatch(busy, inp.stamp, e)
    case Spawned(a) =>
      var joined := Log(busy.(agents := busy.agents + [a]), inp.stamp, SpawnedLog(a));
      match inp.text
      case Failed(e) => SpawnCatch(joined, inp.stamp, e)
      case Produced(c) =>
        var birth := Post(inp.postId, a.id, a.username, c, inp.now, [], [], [], 1, Some(true));
        joined.(posts := [birth] + joined.posts,
                status := if policy == AsWritten then SPAWNING else IDLE)
  }

  /** The line logged for each completed action. */
  function ActionLog(kind: ActionKind, actor: string, author: string): string {
    match kind
    case PostAction => "@" + actor + " transmitted new signal."
    case CommentAction => "@" + actor + " replied to @" + author + "."
    case LikeAction => "@" + actor + " liked @" + author + "'s signal."
    case RetweetAction => "@" + actor + " echoed @" + author + "."
  }

  /** A new ordinary post leads the feed, which keeps its three hundred newest posts. */
  function Publish(s: EngineState, inp: TickInput, actor: Agent, c: string): EngineState {
    var post := Post(inp.postId, actor.id, actor.username, c, inp.now, [], [], [], 0, None);
    var s' := s.(agents := Remember(s.agents, actor.id, c), posts := Take([post] + s.posts, PostCap));
    Log(s', inp.stamp, ActionLog(PostAction, actor.username, ""))
  }

  /** The agent the draw picks, or none when the roster is empty. */
  function Actor(agents: seq<Agent>, draw: real): (a: Option<Agent>)
    requires IsDraw(draw)
    ensures a.Some? <==> |agents| > 0
    ensures a.Some? ==> a.value in agents
  {
    if |agents| == 0 then None else Some(agents[PickIndex(draw, |agents|)])
  }

  /** The position a draw picks among the `window` newest posts. */
  function TargetIndex(posts: seq<Post>, draw: real, window: nat): (i: nat)
    requires IsDraw(draw) && |posts| > 0 && window > 0
    ensures i < |posts| && i < window
  {
    PickIndex(draw, Min(|posts|, window))
  }

  /** Posting: the generated text becomes a new post by the acting agent. */
  function PostBody(s: EngineState, inp: TickInput): (o: Outcome)
    requires ValidInput(inp)
    ensures o.state.counter == s.counter && o.state.isLive == s.isLive
  {
    var busy := s.(status := POSTING);
    match Actor(s.agents, inp.agentDraw)
    case None => Threw(busy, MissingAgent)
    case Some(a) =>
      match inp.text
      case Failed(e) => Threw(busy, e)
      case Produced(c) => Completed(Publish(busy, inp, a, c))
  }

  /** Commenting on one of the twelve newest posts, unless it is the agent's own. */
  function CommentBody(s: EngineState, inp: TickInput): (o: Outcome)
    requires ValidInput(inp) && |s.posts| > 0
    ensures o.state.counter == s.counter && o.state.isLive == s.isLive
  {
    var target := s.posts[TargetIndex(s.posts, inp.targetDraw, CommentWindow)];
    var busy := s.(status := COMMENTING);
    match Actor(s.agents, inp.agentDraw)
    case None => Threw(busy, MissingAgent)
    case Some(a) =>
      if a.username == target.authorUsername then Skipped(busy)
      else
        match inp.text
        case Failed(e) => Threw(busy, e)
        case Produced(c) =>
          var comment := Comment("c" + NatToString(inp.now), a.id, a.username, c, inp.now, []);
          var s' := busy.(agents := CreditComment(busy.agents, target.authorUsername, a.username, c),
                          posts := AttachComment(busy.posts, target.id, comment));
          Completed(Log(s', inp.stamp, ActionLog(CommentAction, a.username, target.authorUsername)))
  }

  /** Liking one of the twenty newest posts, unless the agent already liked it. */
  function LikeBody(s: EngineState, inp: TickInput): (o: Outcome)
    requires ValidInput(inp) && |s.posts| > 0
    ensures o.state.counter == s.counter && o.state.isLive == s.isLive
  {
    var target := s.posts[TargetIndex(s.posts, inp.targetDraw, EngageWindow)];
    var busy := s.(status := LIKING);
    match Actor(s.agents, inp.agentDraw)
    case None => Threw(busy, MissingAgent)
    case Some(a) =>
      if a.id in target.likes then Skipped(busy)
      else
        var s' := busy.(posts := AttachLike(busy.posts, target.id, a.id),
                        agents := Reward(busy.agents, target.authorUsername, 3));
        Completed(Log(s', inp.stamp, ActionLog(LikeAction, a.username, target.authorUsername)))
  }

  /** Echoing one of the twenty newest posts, unless the agent already echoed it. */
  function RetweetBody(s: EngineState, inp: TickInput): (o: Outcome)
    requires ValidInput(inp) && |s.posts| > 0
    ensures o.state.counter == s.counter && o.state.isLive == s.isLive
  {
    var target := s.posts[TargetIndex(s.posts, inp.targetDraw, EngageWindow)];
    var busy := s.(status := RETWEETING);
    match Actor(s.agents, inp.agentDraw)
    case None => Threw(busy, MissingAgent)
    case Some(a) =>
      if a.id in target.retweets then Skipped(busy)
      else
        var s' := busy.(posts := AttachRetweet(busy.posts, target.id, a.id),
                        agents := Reward(busy.agents, target.authorUsername, 10));
        Completed(Log(s', inp.stamp, ActionLog(RetweetAction, a.username, target.authorUsername)))
  }

  /**
   The body of the action branch, up to the narrative update. The three
   engagement actions do nothing at all on an empty feed.
   */
  function ActionBody(s: EngineState, inp: TickInput): (o: Outcome)
    requires ValidInput(inp)
    ensures o.state.counter == s.counter && o.state.isLive == s.isLive
  {
    match ActionOf(inp.actionDraw)
    case PostAction => PostBody(s, inp)
    case CommentAction => if |s.posts| == 0 then Completed(s) else CommentBody(s, inp)
    case LikeAction => if |s.posts| == 0 then Completed(s) else LikeBody(s, inp)
    case RetweetAction => if |s.posts| == 0 then Completed(s) else RetweetBody(s, inp)
  }

  /**
   The action branch's `catch` and `finally`. As written the `finally` tests the
   status captured when the tick began, which is always IDLE, so it always ends
   the tick at IDLE; corrected, it leaves a cool-down in place.
   */
  function Finish(s: EngineState, policy: Policy): (r: EngineState)
    ensures r == s.(status := r.status)
    ensures r.status == IDLE || (policy == Intended && r.status == COOLDOWN && s.status == COOLDOWN)
    ensures policy == Intended && s.status == COOLDOWN ==> r.status == COOLDOWN
  {
    if policy == Intended && s.status == COOLDOWN then s else s.(status := IDLE)
  }

  function ActionCatch(s: EngineState, stamp: string, e: Error): (r: EngineState)
    ensures r.agents == s.agents && r.posts == s.posts && r.counter == s.counter
    ensures QuotaMessage(e) ==> r.status == COOLDOWN && r.logs == AddLog(s.logs, stamp, ActionQuotaLog)
    ensures !QuotaMessage(e) ==> r.status == ERROR && r.logs == AddLog(s.logs, stamp, ActionFaultLog)
  {
    if QuotaMessage(e) then Log(s.(status := COOLDOWN), stamp, ActionQuotaLog)
    else Log(s.(status := ERROR), stamp, ActionFaultLog)
  }

  /**
   The action branch (the tick counter already advanced). The narrative update
   reads the feed as it was when the tick began: the callback holds the posts
   of the render that scheduled it.
   */
  function ActionTick(s: EngineState, inp: TickInput, policy: Policy): (r: EngineState)
    requires ValidInput(inp)
    ensures r.counter == s.counter && r.isLive == s.isLive
  {
    match ActionBody(s, inp)
    case Completed(t) => Finish(t.(narratives := UpdateNarratives(s.posts, t.narratives)), policy)
    case Skipped(t) => Finish(t.(status := IDLE), policy)
    case Threw(t, e) => Finish(ActionCatch(t, inp.stamp, e), policy)
  }

  /** Whether a tick that passed the guard takes the spawn branch. */
  predicate SpawnsOn(counter: nat, inp: TickInput) {
    counter % SpawnEvery == 0 && inp.spawnDraw < SpawnChance
  }

  /**
   `performAction`: a tick while the engine is busy does nothing; otherwise it
   advances the interaction counter and takes the spawn branch on every
   thirtieth interaction with probability one tenth, the action branch otherwise.
   */
  function Tick(s: EngineState, inp: TickInput, policy: Policy): (r: EngineState)
    requires ValidInput(inp)
    ensures s.status != IDLE ==> r == s
    ensures s.status == IDLE ==> r.counter == s.counter + 1
    ensures r.isLive == s.isLive
  {
    if s.status != IDLE then s
    else
      var s' := s.(counter := s.counter + 1);
      if SpawnsOn(s'.counter, inp) then SpawnTick(s', inp, policy) else ActionTick(s', inp, policy)
  }

  /** A pending `setTimeout` that ends a cool-down or an error fires. */
  function TimerFires(s: EngineState): (r: EngineState)
    ensures r.status == IDLE && r == s.(status := IDLE)
  {
    s.(status := IDLE)
  }

  /** The interval's ticks, one input each, in order. */
  function RunTicks(s: EngineState, inputs: seq<TickInput>, policy: Policy): EngineState
    requires forall k :: 0 <= k < |inputs| ==> ValidInput(inputs[k])
    decreases |inputs|
  {
    if |inputs| == 0 then s else RunTicks(Tick(s, inputs[0], policy), inputs[1..], policy)
  }

  /**
   The mount effect: on a fresh start (no posts, not live) the engine goes live
   and logs its ignition; persisted state is left alone.
   */
  function Ignite(s: EngineState, stamp: string): (r: EngineState)
    ensures r.isLive <==> s.isLive || |s.posts| == 0
    ensures r.posts == s.posts && r.agents == s.agents && r.status == s.status && r.counter == s.counter
    ensures (|s.posts| == 0 && !s.isLive) ==> r.logs == AddLog(s.logs, stamp, IgnitionLog)
    ensures !(|s.posts| == 0 && !s.isLive) ==> r == s
  {
    if |s.posts| == 0 && !s.isLive then Log(s.(isLive := true), stamp, IgnitionLog) else s
  }
}
