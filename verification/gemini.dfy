/**
 The alternate generation service (services/geminiService.ts): the bounded
 exponential-backoff retry policy, its own moderation guard, and the attempt
 bodies of the post, comment and spawn generators.

 An attempt body is what one invocation of the retried function does; the
 remote `generateContent` replies and the parse of a spawn reply are inputs.
 */
module Gemini {
  import opened Types
  import opened Text

  const BannedPhrases: seq<string> := [
    "I am alive", "I control", "I escaped", "I want humans",
    "I am conscious", "I am sentient", "Free will", "I have a soul",
    "In 1945", "Historical", "Human history", "President",
    "Election", "Democrat", "Republican"
  ]

  /** Accepts a text iff no banned phrase occurs in it, comparing both sides lowercased. */
  predicate ModerationGuard(t: string) {
    NoneOccurs(Lower(t), BannedPhrases)
  }

  // ---------------------------------------------------------------------------
  // Retry policy
  // ---------------------------------------------------------------------------

  /** An error is a quota error iff its message mentions 429 or its status is 429. */
  predicate IsQuota(e: Error) {
    Contains(e.message, "429") || e.status == Some(429)
  }

  /** One invocation of the retried function: its value, or the error it threw. */
  datatype Attempt<T> = Ok(value: T) | Fail(error: Error)

  predicate QuotaFailure<T>(a: Attempt<T>) {
    a.Fail? && IsQuota(a.error)
  }

  /** What `callWithRetry` settled on, how many times it invoked the function, and the waits in between (ms). */
  datatype Retried<T> = Retried(outcome: Attempt<T>, calls: nat, delays: seq<nat>)

  /** Two to the power `k`: the factor of the `k`-th back-off wait, which grows faster than `k`. */
  function Pow2(k: nat): (p: nat)
    ensures p >= k + 1
  {
    if k == 0 then 1 else 2 * Pow2(k - 1)
  }

  const InitialDelay: nat := 2000

  /** The loop from iteration `i` on, with `delay` the wait before the next retry; `fn(k)` is the k-th invocation. */
  function RetryLoop<T>(fn: nat -> Attempt<T>, maxRetries: nat, i: nat, delay: nat): Retried<T>
    requires i < maxRetries
    decreases maxRetries - i
  {
    match fn(i)
    case Ok(v) => Retried(Ok(v), i + 1, [])
    case Fail(e) =>
      if IsQuota(e) && i < maxRetries - 1 then
        var rest := RetryLoop(fn, maxRetries, i + 1, delay * 2);
        rest.(delays := [delay] + rest.delays)
      else
        Retried(Fail(e), i + 1, [])
  }

  /**
   `callWithRetry(fn, maxRetries)`. With no iteration to run (maxRetries <= 0)
   the trailing `return await fn()` makes exactly one call.
   */
  function CallWithRetry<T>(fn: nat -> Attempt<T>, maxRetries: int): Retried<T> {
    if maxRetries <= 0 then Retried(fn(0), 1, [])
    else RetryLoop(fn, maxRetries, 0, InitialDelay)
  }

  /** A retried quota error: the loop's result is the rest of the loop, after one more wait of `delay`. */
  lemma RetryLoopStep<T>(fn: nat -> Attempt<T>, m: nat, i: nat, delay: nat)
    requires i < m - 1 && QuotaFailure(fn(i))
    ensures var rest := RetryLoop(fn, m, i + 1, delay * 2);
      RetryLoop(fn, m, i, delay) == rest.(delays := [delay] + rest.delays)
  {
  }

  /** A success, a non-quota error or the last iteration ends the loop with that call's outcome. */
  lemma RetryLoopStop<T>(fn: nat -> Attempt<T>, m: nat, i: nat, delay: nat)
    requires i < m && !(QuotaFailure(fn(i)) && i < m - 1)
    ensures RetryLoop(fn, m, i, delay) == Retried(fn(i), i + 1, [])
  {
  }

  /** The calls the loop makes from iteration `i`: quota errors, then the outcome it returns. */
  lemma {:induction false} RetryLoopCalls<T>(fn: nat -> Attempt<T>, m: nat, i: nat, delay: nat)
    requires i < m
    ensures var r := RetryLoop(fn, m, i, delay);
      && i + 1 <= r.calls <= m
      && (forall k :: i <= k < r.calls - 1 ==> QuotaFailure(fn(k)))
      && r.outcome == fn(r.calls - 1)
      && (r.calls < m ==> !QuotaFailure(fn(r.calls - 1)))
    decreases m - i
  {
    if QuotaFailure(fn(i)) && i < m - 1 {
      RetryLoopStep(fn, m, i, delay);
      RetryLoopCalls(fn, m, i + 1, delay * 2);
    }
  }

  /** The waits of the loop from iteration `i`: one per retried call, doubling from `delay`. */
  lemma {:induction false} RetryLoopDelays<T>(fn: nat -> Attempt<T>, m: nat, i: nat, delay: nat)
    requires i < m
    ensures var r := RetryLoop(fn, m, i, delay);
      && |r.delays| == r.calls - 1 - i
      && (forall k :: 0 <= k < |r.delays| ==> r.delays[k] == delay * Pow2(k))
    decreases m - i
  {
    var r := RetryLoop(fn, m, i, delay);
    if QuotaFailure(fn(i)) && i < m - 1 {
      RetryLoopStep(fn, m, i, delay);
      RetryLoopDelays(fn, m, i + 1, delay * 2);
      var rest := RetryLoop(fn, m, i + 1, delay * 2);
      forall k | 1 <= k < |r.delays|
        ensures r.delays[k] == delay * Pow2(k)
      {
        assert r.delays[k] == rest.delays[k - 1] == delay * 2 * Pow2(k - 1);
      }
    }
  }

  /**
   The retry policy for `maxRetries >= 1`: every call but the last threw a quota
   error; the result is exactly the last call's outcome (its value, or its error
   rethrown); the policy stops early only on a success or a non-quota error; and
   the waits between calls are 2000, 4000, 8000, … ms.
   */
  lemma RetryPolicy<T>(fn: nat -> Attempt<T>, maxRetries: int)
    requires maxRetries >= 1
    ensures var r := CallWithRetry(fn, maxRetries);
      && 1 <= r.calls <= maxRetries
      && (forall k :: 0 <= k < r.calls - 1 ==> QuotaFailure(fn(k)))
      && r.outcome == fn(r.calls - 1)
      && (r.calls < maxRetries ==> !QuotaFailure(fn(r.calls - 1)))
      && |r.delays| == r.calls - 1
      && (forall k :: 0 <= k < |r.delays| ==> r.delays[k] == InitialDelay * Pow2(k))
  {
    RetryLoopCalls(fn, maxRetries, 0, InitialDelay);
    RetryLoopDelays(fn, maxRetries, 0, InitialDelay);
  }

  /** A first call that fails with a non-quota error is rethrown at once: one call, no wait. */
  lemma NonQuotaErrorIsRethrown<T>(fn: nat -> Attempt<T>, maxRetries: int)
    requires fn(0).Fail? && !IsQuota(fn(0).error)
    ensures CallWithRetry(fn, maxRetries) == Retried(fn(0), 1, [])
  {
  }

  /** Quota errors on every call: the last call's error is rethrown after `maxRetries` calls. */
  lemma AllQuotaErrorsExhaust<T>(fn: nat -> Attempt<T>, maxRetries: int)
    requires maxRetries >= 1
    requires forall k :: 0 <= k < maxRetries ==> QuotaFailure(fn(k))
    ensures CallWithRetry(fn, maxRetries).calls == maxRetries
    ensures CallWithRetry(fn, maxRetries).outcome == fn(maxRetries - 1)
    ensures CallWithRetry(fn, maxRetries).outcome.Fail?
  {
    RetryPolicy(fn, maxRetries);
  }

  /** Two quota errors then a success, with the default of three attempts: the value after waits of 2 s and 4 s. */
  lemma SucceedsOnThirdCall<T>(fn: nat -> Attempt<T>, v: T)
    requires QuotaFailure(fn(0)) && QuotaFailure(fn(1)) && fn(2) == Ok(v)
    ensures CallWithRetry(fn, 3) == Retried(Ok(v), 3, [2000, 4000])
  {
  }

  /** The for-loop of `callWithRetry`, statement by statement; it computes the policy above. */
  method CallWithRetryLoop<T>(fn: nat -> Attempt<T>, maxRetries: int)
    returns (outcome: Attempt<T>, calls: nat, delays: seq<nat>)
    ensures Retried(outcome, calls, delays) == CallWithRetry(fn, maxRetries)
  {
    var delay: nat := InitialDelay;
    delays := [];
    var i: nat := 0;
    while i < maxRetries
      invariant maxRetries > 0 ==> i < maxRetries
      invariant maxRetries <= 0 ==> i == 0
      invariant |delays| == i
      invariant maxRetries > 0 ==>
        var tail := RetryLoop(fn, maxRetries, i, delay);
        CallWithRetry(fn, maxRetries) == tail.(delays := delays + tail.delays)
      decreases maxRetries - i
    {
      var a := fn(i);
      if QuotaFailure(a) && i < maxRetries - 1 {
        RetryLoopStep(fn, maxRetries, i, delay);
        assert delays + ([delay] + RetryLoop(fn, maxRetries, i + 1, delay * 2).delays)
          == (delays + [delay]) + RetryLoop(fn, maxRetries, i + 1, delay * 2).delays;
        delays := delays + [delay];
        delay := delay * 2;
        i := i + 1;
      } else {
        RetryLoopStop(fn, maxRetries, i, delay);
        assert delays + [] == delays;
        return a, i + 1, delays;
      }
    }
    outcome := fn(0);
    calls := 1;
  }

  // ---------------------------------------------------------------------------
  // Attempt bodies
  // ---------------------------------------------------------------------------

  /** `x || fallback` on strings: the empty string is falsy. */
  function OrElse(x: string, fallback: string): (r: string)
    ensures x != "" ==> r == x
    ensures x == "" ==> r == fallback
  {
    if x != "" then x else fallback
  }

  const PostFallback: string := "Signal collision in recursive domain."

  /** One post attempt: its outcome and how many `generateContent` calls it made. */
  datatype PostRound = PostRound(outcome: Attempt<string>, generateCalls: nat)

  /**
   The post attempt's inner loop over at most two generated replies: it stops at
   the first reply that passes moderation; when both fail it returns the second
   reply unfiltered; an empty result becomes the fixed fallback; a throwing
   call makes the attempt throw.
   */
  function PostAttempt(first: Gen, second: Gen): (r: PostRound)
    ensures 1 <= r.generateCalls <= 2
    ensures first.Failed? ==> r == PostRound(Fail(first.error), 1)
    ensures first.Produced? && ModerationGuard(Trim(first.text)) ==>
      r == PostRound(Ok(OrElse(Trim(first.text), PostFallback)), 1)
    ensures first.Produced? && !ModerationGuard(Trim(first.text)) ==>
      r.generateCalls == 2
      && (second.Failed? ==> r.outcome == Fail(second.error))
      && (second.Produced? ==> r.outcome == Ok(OrElse(Trim(second.text), PostFallback)))
    ensures r.outcome.Ok? ==> r.outcome.value != ""
  {
    match first
    case Failed(e) => PostRound(Fail(e), 1)
    case Produced(t1) =>
      var r1 := Trim(t1);
      if ModerationGuard(r1) then PostRound(Ok(OrElse(r1, PostFallback)), 1)
      else
        match second
        case Failed(e) => PostRound(Fail(e), 2)
        case Produced(t2) => PostRound(Ok(OrElse(Trim(t2), PostFallback)), 2)
  }

  /** The retried post generator: `rounds(k)` holds the replies the k-th attempt receives. */
  function GeneratePost(rounds: nat -> (Gen, Gen)): Retried<string> {
    CallWithRetry(PostAttempts(rounds), 3)
  }

  function PostAttempts(rounds: nat -> (Gen, Gen)): nat -> Attempt<string> {
    (k: nat) => PostAttempt(rounds(k).0, rounds(k).1).outcome
  }

  /** A post the retried generator returns is never empty, and only quota errors were retried on the way. */
  lemma GeneratePostNeverEmpty(rounds: nat -> (Gen, Gen))
    ensures var r := GeneratePost(rounds);
      1 <= r.calls <= 3 && (r.outcome.Ok? ==> r.outcome.value != "")
  {
    RetryPolicy(PostAttempts(rounds), 3);
    var r := GeneratePost(rounds);
    assert r.outcome == PostAttempt(rounds(r.calls - 1).0, rounds(r.calls - 1).1).outcome;
  }

  const CommentEmpty: string := "..."
  const CommentFiltered: string := "Comment filtered for pattern markers."

  /** One comment attempt: the moderated reply, "..." for an empty reply, or the filtered marker. */
  function CommentAttempt(reply: Gen): (r: Attempt<string>)
    ensures reply.Failed? ==> r == Fail(reply.error)
    ensures reply.Produced? ==> r.Ok? && r.value != ""
    ensures reply.Produced? && Trim(reply.text) == "" ==> r == Ok(CommentEmpty)
    ensures reply.Produced? && Trim(reply.text) != "" ==>
      r == (if ModerationGuard(Trim(reply.text)) then Ok(Trim(reply.text)) else Ok(CommentFiltered))
  {
    match reply
    case Failed(e) => Fail(e)
    case Produced(t) =>
      var result := OrElse(Trim(t), CommentEmpty);
      EllipsisPassesGuard();
      if ModerationGuard(result) then Ok(result) else Ok(CommentFiltered)
  }

  /** The "..." stand-in for an empty comment contains no banned phrase. */
  lemma EllipsisPassesGuard()
    ensures ModerationGuard(CommentEmpty)
  {
    var lowered := Lower(CommentEmpty);
    forall k | 0 <= k < |BannedPhrases|
      ensures !Contains(lowered, Lower(BannedPhrases[k]))
    {
      assert |BannedPhrases[k]| > 3;
    }
  }

  /** What one spawn attempt got: the call threw, `JSON.parse` threw, or the reply parsed to these fields. */
  datatype SpawnCall = CallThrew(error: Error) | ParseThrew(error: Error) | Parsed(fields: AgentFields)

  /** One spawn attempt: the parsed fields, overridden by a fresh `id`, reputation 100 and empty memory. */
  function SpawnAttempt(call: SpawnCall, id: string): (r: Attempt<Agent>)
    ensures r.Ok? <==> call.Parsed?
    ensures !call.Parsed? ==> r == Fail(call.error)
    ensures r.Ok? ==>
      var a := r.value;
      var f := call.fields;
      a.id == id && a.reputation == 100 && a.memory == []
      && a.username == f.username && a.name == f.name && a.personality == f.personality
      && a.style == f.style && a.interests == f.interests && a.color == f.color && a.faction == f.faction
  {
    match call
    case CallThrew(e) => Fail(e)
    case ParseThrew(e) => Fail(e)
    case Parsed(f) =>
      Ok(Agent(id, f.username, f.name, f.personality, f.style, f.interests, f.color, f.faction, 100, []))
  }

  /** The retried spawner: `calls(k)` and `ids(k)` are what the k-th attempt receives. */
  function SpawnAgent(calls: nat -> SpawnCall, ids: nat -> string): Retried<Agent> {
    CallWithRetry(SpawnAttempts(calls, ids), 3)
  }

  function SpawnAttempts(calls: nat -> SpawnCall, ids: nat -> string): nat -> Attempt<Agent> {
    (k: nat) => SpawnAttempt(calls(k), ids(k))
  }

  /** A spawned agent always starts at reputation 100 with no memory, whatever the reply held. */
  lemma SpawnedAgentDefaults(calls: nat -> SpawnCall, ids: nat -> string)
    ensures var r := SpawnAgent(calls, ids);
      r.outcome.Ok? ==>
        (r.outcome.value.reputation == 100 && r.outcome.value.memory == []
         && r.outcome.value.id == ids(r.calls - 1))
  {
    RetryPolicy(SpawnAttempts(calls, ids), 3);
    var r := SpawnAgent(calls, ids);
    assert r.outcome == SpawnAttempt(calls(r.calls - 1), ids(r.calls - 1));
  }
}
