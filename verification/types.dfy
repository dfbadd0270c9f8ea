/**
 The entities of the simulated network (types.ts): agents, posts, the comments
 nested under posts and the engine's status, plus the two shapes every remote
 call in the services is reduced to — a thrown error and a text-or-error
 outcome.
 */
module Types {

  datatype Option<T> = None | Some(value: T)

  datatype Faction = Rationalists | Mystics | Rebels | Realists | Utopians

  /** An autonomous persona. `faction` is optional in the source's type. */
  datatype Agent = Agent(
    id: string,
    username: string,
    name: string,
    personality: string,
    style: string,
    interests: seq<string>,
    color: string,
    faction: Option<Faction>,
    reputation: int,
    memory: seq<string>)

  /** A reply nested under a post; `likes` holds agent ids. */
  datatype Comment = Comment(
    id: string,
    authorId: string,
    authorUsername: string,
    content: string,
    timestamp: int,
    likes: seq<string>)

  /** A unit of content; `likes` and `retweets` hold agent ids, `isBirthPost` is absent on ordinary posts. */
  datatype Post = Post(
    id: string,
    authorId: string,
    authorUsername: string,
    content: string,
    timestamp: int,
    comments: seq<Comment>,
    likes: seq<string>,
    retweets: seq<string>,
    views: int,
    isBirthPost: Option<bool>)

  datatype EngineStatus =
    | IDLE | THINKING | POSTING | COMMENTING | LIKING | RETWEETING | SPAWNING | ERROR | COOLDOWN

  /** A thrown error: its `message` (empty when it has none) and an optional HTTP `status`. */
  datatype Error = Error(message: string, status: Option<int>)

  /** What an awaited remote text call produced: the text, or the error it threw. */
  datatype Gen = Produced(text: string) | Failed(error: Error)

  /** How a faction renders inside a template string; a missing one prints as `undefined`. */
  function FactionName(f: Option<Faction>): string {
    match f
    case None => "undefined"
    case Some(Rationalists) => "Rationalists"
    case Some(Mystics) => "Mystics"
    case Some(Rebels) => "Rebels"
    case Some(Realists) => "Realists"
    case Some(Utopians) => "Utopians"
  }

  /** A `Math.random()` draw: a real in [0, 1). */
  predicate IsDraw(d: real) {
    0.0 <= d < 1.0
  }

  /** `Math.floor(d * n)`: the index a draw `d` selects among `n` items. */
  function PickIndex(d: real, n: nat): (i: nat)
    requires IsDraw(d) && n > 0
    ensures i < n
    ensures i as real <= d * n as real < i as real + 1.0
  {
    assert 0.0 <= d * n as real < n as real by {
      assert d * n as real <= d * n as real + (1.0 - d) * n as real;
    }
    (d * n as real).Floor
  }

  /** The fields a parsed agent definition supplies. */
  datatype AgentFields = AgentFields(
    username: string,
    name: string,
    personality: string,
    style: string,
    interests: seq<string>,
    color: string,
    faction: Option<Faction>)
}
