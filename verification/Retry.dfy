/** `ExecuteWithRetry`: bounded retries with capped, jittered exponential backoff. */
module Retry {
  import opened Prelude
  import opened ObjectServer

  datatype RetryConfig = RetryConfig(maxRetries: int, baseDelay: int, maxDelay: int)

  /** Nil, together with what the last call captured; the last call's error; or the
      context's error. */
  datatype Outcome = Success(reply: Option<Reply>) | Failure(error: Reply) | Cancelled

  type Fraction = x: real | 0.0 <= x < 1.0

  // ---------------------------------------------------------------- delays

  function Pow2(n: nat): int {
    if n == 0 then 1 else 2 * Pow2(n - 1)
  }

  /** min(MaxDelay, BaseDelay * 2^attempt). */
  function Backoff(cfg: RetryConfig, attempt: nat): int {
    var b := cfg.baseDelay * Pow2(attempt);
    if cfg.maxDelay < b then cfg.maxDelay else b
  }

  /** Conversion of a floating duration to an integer one, towards zero. */
  function Truncate(x: real): int {
    if x >= 0.0 then x.Floor else -((-x).Floor)
  }

  function Total(s: seq<int>): int {
    if s == [] then 0 else Total(s[..|s| - 1]) + s[|s| - 1]
  }

  /** The caps of the standard settings, 5 retries from 100 ms up to 5 s, and of one retry more:
      each twice the one before, until the limit is reached. */
  lemma DefaultCaps()
    ensures var cfg := RetryConfig(5, 100_000_000, 5_000_000_000);
      && Backoff(cfg, 0) == 100_000_000 && Backoff(cfg, 1) == 200_000_000 && Backoff(cfg, 2) == 400_000_000
      && Backoff(cfg, 3) == 800_000_000 && Backoff(cfg, 4) == 1_600_000_000
      && Backoff(cfg, 5) == 3_200_000_000 && Backoff(cfg, 6) == 5_000_000_000
  {
    assert Pow2(2) == 4 && Pow2(4) == 4 * Pow2(2) && Pow2(6) == 4 * Pow2(4);
  }

  /** The backoff doubles from the base delay until it reaches the limit. */
  lemma BackoffDoubles(cfg: RetryConfig, attempt: nat)
    requires 0 <= cfg.baseDelay <= cfg.maxDelay
    ensures Backoff(cfg, 0) == cfg.baseDelay
    ensures Backoff(cfg, attempt + 1)
            == if 2 * Backoff(cfg, attempt) <= cfg.maxDelay then 2 * Backoff(cfg, attempt) else cfg.maxDelay
  {
    var b := cfg.baseDelay * Pow2(attempt);
    assert cfg.baseDelay * Pow2(attempt + 1) == 2 * b;
  }

  /** Each sleep is within its cap, min(MaxDelay, BaseDelay * 2^attempt). */
  ghost predicate SleepsOk(cfg: RetryConfig, sleeps: seq<int>) {
    forall i :: 0 <= i < |sleeps| ==> 0 <= sleeps[i] <= cfg.maxDelay && sleeps[i] <= cfg.baseDelay * Pow2(i)
  }

  lemma Pow2Positive(n: nat)
    ensures Pow2(n) >= 1
  {
  }

  lemma {:induction false} TotalSleep(cfg: RetryConfig, sleeps: seq<int>)
    requires SleepsOk(cfg, sleeps)
    ensures Total(sleeps) <= |sleeps| * cfg.maxDelay
    decreases |sleeps|
  {
    if sleeps != [] {
      var k := |sleeps| - 1;
      TotalSleep(cfg, sleeps[..k]);
      assert k * cfg.maxDelay + cfg.maxDelay == (k + 1) * cfg.maxDelay;
    }
  }

  lemma BackoffInCap(cfg: RetryConfig, attempt: nat)
    requires 0 <= cfg.baseDelay && 0 <= cfg.maxDelay
    ensures 0 <= Backoff(cfg, attempt) <= cfg.maxDelay && Backoff(cfg, attempt) <= cfg.baseDelay * Pow2(attempt)
  {
    Pow2Positive(attempt);
    assert 0 <= cfg.baseDelay * Pow2(attempt);
  }

  lemma FractionOf(f: real, b: real)
    requires 0.0 <= f < 1.0 && 0.0 <= b
    ensures 0.0 <= f * b <= b
  {
    assert 0.0 <= f * b;
    assert (1.0 - f) * b >= 0.0;
    assert (1.0 - f) * b == b - f * b;
  }

  lemma TruncateInCap(x: real, n: int)
    requires 0.0 <= x <= n as real
    ensures 0 <= Truncate(x) <= n
  {
  }

  /** The greatest whole number of units in a fraction of `n`. */
  predicate IsShare(sleep: int, f: Fraction, n: int) {
    sleep as real <= f * (n as real) < sleep as real + 1.0
  }

  lemma FractionInCap(f: Fraction, n: int)
    requires 0 <= n
    ensures 0 <= Truncate(f * (n as real)) <= n && IsShare(Truncate(f * (n as real)), f, n)
  {
    FractionOf(f, n as real);
    TruncateInCap(f * (n as real), n);
  }

  // ---------------------------------------------------------------- what a series of calls looks like

  function Tries(cfg: RetryConfig): nat {
    if cfg.maxRetries < 0 then 0 else cfg.maxRetries + 1
  }

  /** The sleeps are what the generator draws, each from its own backoff. */
  ghost predicate Drawn(cfg: RetryConfig, jitter: nat -> Fraction, first: nat, sleeps: seq<int>) {
    forall i :: 0 <= i < |sleeps| ==> IsShare(sleeps[i], jitter(first + i), Backoff(cfg, i))
  }

  /** The calls meet the faults in the order in which they come. */
  predicate Meets(faults: nat -> Fault, first: nat, trace: seq<Fault>) {
    forall i :: 0 <= i < |trace| ==> trace[i] == faults(first + i)
  }

  /** Before each call and after each sleep the context is looked at, and it ends the series as
      soon as it is found done, and then only. `checks` is how often it was looked at. */
  predicate Watched(done: nat -> bool, first: nat, checks: nat, outcome: Outcome, calls: nat, sleeps: nat) {
    && (forall c :: first <= c < first + checks - 1 ==> !done(c))
    && (outcome.Cancelled? <==> checks > 0 && done(first + checks - 1))
    && (outcome.Cancelled? ==> calls == sleeps && checks in {2 * calls, 2 * calls + 1})
    && (!outcome.Cancelled? && calls > 0 ==> sleeps == calls - 1 && checks == 2 * calls - 1)
    && (!outcome.Cancelled? && calls == 0 ==> sleeps == 0 && checks == 0)
  }

  ghost predicate Answered(s: Server, op: Op, trace: seq<Fault>) {
    trace != [] && !AnswerAt(s, op, trace, |trace| - 1).Refused?
  }

  /** Every call but the last failed with a transient error. */
  ghost predicate Persistent(s: Server, op: Op, trace: seq<Fault>) {
    forall i :: 0 <= i < |trace| - 1 ==> AnswerAt(s, op, trace, i) == Refused(true)
  }

  /** The last call failed for good, or there is no try left. */
  ghost predicate GaveUp(cfg: RetryConfig, s: Server, op: Op, trace: seq<Fault>) {
    trace != [] && AnswerAt(s, op, trace, |trace| - 1).Refused?
    && (AnswerAt(s, op, trace, |trace| - 1) == Refused(false) || |trace| == Tries(cfg))
  }

  /** The client's connection: the server behind it, and all that is left to chance. */
  class Link {
    var server: Server
    var sent: nat
    var checks: nat
    var draws: nat
    const faults: nat -> Fault
    const done: nat -> bool
    const jitter: nat -> Fraction

    constructor (server: Server, faults: nat -> Fault, done: nat -> bool, jitter: nat -> Fraction)
      ensures this.server == server && this.faults == faults && this.done == done && this.jitter == jitter
      ensures sent == checks == draws == 0
    {
      this.server := server;
      this.faults, this.done, this.jitter := faults, done, jitter;
      sent, checks, draws := 0, 0, 0;
    }

    method Send(op: Op) returns (reply: Reply)
      modifies this
      ensures sent == old(sent) + 1 && checks == old(checks) && draws == old(draws)
      ensures server == Moved(old(server), op, faults(old(sent)))
      ensures reply == Answer(old(server), op, faults(old(sent)))
    {
      var f := faults(sent);
      sent := sent + 1;
      reply := Answer(server, op, f);
      server := Moved(server, op, f);
    }

    /** Whether the context is done by now. */
    method Check() returns (over: bool)
      modifies this`checks
      ensures checks == old(checks) + 1 && over == done(old(checks))
    {
      over := done(checks);
      checks := checks + 1;
    }

    /** `rand.Float64() * backoff` as a duration: that share of the backoff, in whole units. */
    method Draw(backoff: int) returns (sleep: int)
      modifies this`draws
      ensures draws == old(draws) + 1
      ensures 0 <= backoff ==> 0 <= sleep <= backoff && IsShare(sleep, jitter(old(draws)), backoff)
    {
      var fraction := jitter(draws);
      if 0 <= backoff { FractionInCap(fraction, backoff); }
      sleep := Truncate(fraction * (backoff as real));
      draws := draws + 1;
    }
  }

  /** Where the link stood when a series of calls began. */
  datatype Start = Start(server: Server, sent: nat, checks: nat, draws: nat)

  /** Sensible delays. */
  predicate DelaysOk(cfg: RetryConfig) {
    0 <= cfg.baseDelay && 0 <= cfg.maxDelay
  }

  /** The calls made since then, as the link answered them. */
  ghost predicate Sent(link: Link, op: Op, start: Start, trace: seq<Fault>)
    reads link
  {
    && link.server == Tried(start.server, op, trace)
    && link.sent == start.sent + |trace| && Meets(link.faults, start.sent, trace)
  }

  /** One more call, added to those already made. */
  method TryOnce(link: Link, op: Op, ghost start: Start, ghost trace: seq<Fault>)
    returns (reply: Reply, ghost more: seq<Fault>)
    requires Sent(link, op, start, trace)
    modifies link
    ensures Sent(link, op, start, more) && |more| == |trace| + 1
    ensures link.checks == old(link.checks) && link.draws == old(link.draws)
    ensures reply == AnswerAt(start.server, op, more, |trace|)
    ensures forall i :: 0 <= i < |trace| ==> AnswerAt(start.server, op, more, i) == AnswerAt(start.server, op, trace, i)
  {
    TriedSnoc(start.server, op, trace, link.faults(link.sent));
    more := trace + [link.faults(link.sent)];
    reply := link.Send(op);
  }

  /** A series in which each call so far failed with a transient error and was slept on, but for
      the last one perhaps. */
  ghost predicate Underway(link: Link, cfg: RetryConfig, op: Op, start: Start, trace: seq<Fault>, sleeps: seq<int>)
    reads link
  {
    && |sleeps| <= |trace| <= |sleeps| + 1 && Sent(link, op, start, trace)
    && link.checks == start.checks + |trace| + |sleeps| && link.draws == start.draws + |sleeps|
    && (forall c :: start.checks <= c < link.checks ==> !link.done(c))
    && (forall i :: 0 <= i < |trace| ==> AnswerAt(start.server, op, trace, i) == Refused(true))
    && (DelaysOk(cfg) ==> SleepsOk(cfg, sleeps) && Drawn(cfg, link.jitter, start.draws, sleeps))
  }

  /** A series that has come to its end. */
  ghost predicate Ended(link: Link, cfg: RetryConfig, op: Op, start: Start, outcome: Outcome, trace: seq<Fault>,
                        sleeps: seq<int>)
    reads link
  {
    && Sent(link, op, start, trace) && |trace| <= Tries(cfg) && link.checks >= start.checks
    && Watched(link.done, start.checks, link.checks - start.checks, outcome, |trace|, |sleeps|)
    && Persistent(start.server, op, trace)
    && (outcome.Success? <==> cfg.maxRetries < 0 || Answered(start.server, op, trace))
    && (outcome.Failure? <==> GaveUp(cfg, start.server, op, trace))
    && (outcome.Success? ==>
          outcome.reply == if trace == [] then None else Some(AnswerAt(start.server, op, trace, |trace| - 1)))
    && (outcome.Failure? ==> outcome.error == AnswerAt(start.server, op, trace, |trace| - 1))
    && |trace| - 1 <= |sleeps| <= |trace| && (cfg.maxRetries >= 0 ==> |sleeps| <= cfg.maxRetries)
    && (DelaysOk(cfg) ==> SleepsOk(cfg, sleeps) && Drawn(cfg, link.jitter, start.draws, sleeps))
  }

  /** Calls `op` until it succeeds, fails for good, runs out of retries or is cancelled. A
      negative retry limit returns nil without a single call. */
  method ExecuteWithRetry(link: Link, cfg: RetryConfig, op: Op)
    returns (outcome: Outcome, sleeps: seq<int>, ghost trace: seq<Fault>)
    modifies link
    ensures link.server == Tried(old(link.server), op, trace) && |trace| <= Tries(cfg)
    ensures link.sent == old(link.sent) + |trace| && Meets(link.faults, old(link.sent), trace)
    ensures Persistent(old(link.server), op, trace)
    ensures outcome.Success? <==> cfg.maxRetries < 0 || Answered(old(link.server), op, trace)
    ensures outcome.Failure? <==> GaveUp(cfg, old(link.server), op, trace)
    ensures outcome.Success? ==>
              outcome.reply == if trace == [] then None else Some(AnswerAt(old(link.server), op, trace, |trace| - 1))
    ensures outcome.Failure? ==> outcome.error == AnswerAt(old(link.server), op, trace, |trace| - 1)
    ensures link.checks >= old(link.checks)
    ensures Watched(link.done, old(link.checks), link.checks - old(link.checks), outcome, |trace|, |sleeps|)
    ensures |trace| - 1 <= |sleeps| <= |trace| && (cfg.maxRetries >= 0 ==> |sleeps| <= cfg.maxRetries)
    ensures DelaysOk(cfg) ==>
              && SleepsOk(cfg, sleeps) && Drawn(cfg, link.jitter, old(link.draws), sleeps)
              && (cfg.maxRetries >= 0 ==> Total(sleeps) <= cfg.maxRetries * cfg.maxDelay)
  {
    ghost var start := Start(link.server, link.sent, link.checks, link.draws);
    outcome, sleeps, trace := Attempts(link, cfg, op, start);
    BoundSleep(cfg, sleeps);
  }

  /** The loop over the attempts. */
  method Attempts(link: Link, cfg: RetryConfig, op: Op, ghost start: Start)
    returns (outcome: Outcome, sleeps: seq<int>, ghost trace: seq<Fault>)
    requires start == Start(link.server, link.sent, link.checks, link.draws)
    modifies link
    ensures Ended(link, cfg, op, start, outcome, trace, sleeps)
  {
    var attempt := 0;
    sleeps, trace := [], [];
    while attempt <= cfg.maxRetries
      invariant 0 <= attempt == |sleeps| && (attempt <= cfg.maxRetries || cfg.maxRetries < 0)
      invariant cfg.maxRetries < 0 ==> attempt == 0
      invariant Underway(link, cfg, op, start, trace, sleeps) && |trace| == attempt
    {
      var over, cancelled;
      over, trace := Call(link, cfg, op, attempt, sleeps, start, trace);
      if over.Some? {
        return over.value, sleeps, trace;
      }
      cancelled, sleeps := Pause(link, cfg, op, attempt, sleeps, start, trace);
      if cancelled {
        return Cancelled, sleeps, trace;
      }
      attempt := attempt + 1;
    }
    return Success(None), sleeps, trace;
  }

  /** A call has just been answered, after failures only. */
  ghost predicate JustAnswered(link: Link, cfg: RetryConfig, op: Op, start: Start, reply: Reply, trace: seq<Fault>,
                               sleeps: seq<int>)
    reads link
  {
    && |trace| == |sleeps| + 1 && Sent(link, op, start, trace) && reply == AnswerAt(start.server, op, trace, |sleeps|)
    && link.checks == start.checks + |trace| + |sleeps| && link.draws == start.draws + |sleeps|
    && (forall c :: start.checks <= c < link.checks ==> !link.done(c))
    && (forall i :: 0 <= i < |sleeps| ==> AnswerAt(start.server, op, trace, i) == Refused(true))
    && (DelaysOk(cfg) ==> SleepsOk(cfg, sleeps) && Drawn(cfg, link.jitter, start.draws, sleeps))
  }

  /** What the answer means for the series. */
  lemma Judged(link: Link, cfg: RetryConfig, op: Op, start: Start, reply: Reply, trace: seq<Fault>, sleeps: seq<int>)
    requires JustAnswered(link, cfg, op, start, reply, trace, sleeps) && |sleeps| <= cfg.maxRetries
    ensures !reply.Refused? ==> Ended(link, cfg, op, start, Success(Some(reply)), trace, sleeps)
    ensures reply.Refused? && (!reply.transient || |sleeps| == cfg.maxRetries) ==>
              Ended(link, cfg, op, start, Failure(reply), trace, sleeps)
    ensures reply.Refused? && reply.transient ==> Underway(link, cfg, op, start, trace, sleeps)
  {
  }

  /** One call, unless the context is done. */
  method Call(link: Link, cfg: RetryConfig, op: Op, attempt: nat, sleeps: seq<int>, ghost start: Start,
              ghost made: seq<Fault>)
    returns (over: Option<Outcome>, ghost trace: seq<Fault>)
    requires Underway(link, cfg, op, start, made, sleeps) && |made| == |sleeps| == attempt <= cfg.maxRetries
    modifies link
    ensures over.None? ==>
              Underway(link, cfg, op, start, trace, sleeps) && |trace| == attempt + 1 && attempt < cfg.maxRetries
    ensures over.Some? ==> Ended(link, cfg, op, start, over.value, trace, sleeps)
  {
    trace := made;
    var ended := link.Check();
    if ended {
      return Some(Cancelled), trace;
    }
    var reply;
    reply, trace := TryOnce(link, op, start, trace);
    Judged(link, cfg, op, start, reply, trace, sleeps);
    if !reply.Refused? {
      return Some(Success(Some(reply))), trace;
    }
    if !reply.transient || attempt == cfg.maxRetries {
      return Some(Failure(reply)), trace;
    }
    return None, trace;
  }

  /** The sleep before the next call, and another look at the context. */
  method Pause(link: Link, cfg: RetryConfig, op: Op, attempt: nat, slept: seq<int>, ghost start: Start,
               ghost trace: seq<Fault>)
    returns (cancelled: bool, sleeps: seq<int>)
    requires Underway(link, cfg, op, start, trace, slept) && |trace| == |slept| + 1 && |slept| == attempt
    requires attempt < cfg.maxRetries
    modifies link
    ensures |sleeps| == attempt + 1
    ensures if cancelled then Ended(link, cfg, op, start, Cancelled, trace, sleeps)
            else Underway(link, cfg, op, start, trace, sleeps)
  {
    var sleep := Sleep(link, cfg, attempt, slept, start.draws);
    sleeps := slept + [sleep];
    cancelled := link.Check();
  }

  /** The pause before the next attempt. */
  method Sleep(link: Link, cfg: RetryConfig, attempt: nat, slept: seq<int>, ghost first: nat) returns (sleep: int)
    requires attempt == |slept| && link.draws == first + |slept|
    requires DelaysOk(cfg) ==> SleepsOk(cfg, slept) && Drawn(cfg, link.jitter, first, slept)
    modifies link`draws
    ensures link.draws == old(link.draws) + 1
    ensures DelaysOk(cfg) ==>
              SleepsOk(cfg, slept + [sleep]) && Drawn(cfg, link.jitter, first, slept + [sleep])
  {
    if DelaysOk(cfg) { BackoffInCap(cfg, attempt); }
    sleep := link.Draw(Backoff(cfg, attempt));
  }

  // ---------------------------------------------------------------- links that recover

  /** After `k` losses that look transient the n-th request gets through and is answered. */
  predicate GetsThrough(faults: nat -> Fault, n: nat, k: nat) {
    faults(n + k) == Deliver && forall i :: n <= i < n + k ==> faults(i) in {LoseRequest(true), LoseReply(true)}
  }

  /** From here on the context lives and no more than `budget` transient losses come in a row. */
  ghost predicate Recovers(link: Link, budget: int)
    reads link
  {
    && (forall c: nat :: link.checks <= c ==> !link.done(c))
    && (forall n: nat :: link.sent <= n ==> RecoversAt(link.faults, n, budget))
  }

  ghost predicate RecoversAt(faults: nat -> Fault, n: nat, budget: int) {
    exists k: nat :: k <= budget && GetsThrough(faults, n, k)
  }

  /** The first request from the n-th on that reaches the server is answered. */
  ghost predicate AnswerComesFirst(faults: nat -> Fault, n: nat) {
    exists k: nat :: AnsweredAfter(faults, n, k)
  }

  predicate AnsweredAfter(faults: nat -> Fault, n: nat, k: nat) {
    faults(n + k) == Deliver && forall i :: n <= i < n + k ==> faults(i).LoseRequest?
  }

  lemma NeverTransient(s: Server, op: Op)
    ensures Effect(s, op).1 != Refused(true)
  {
  }

  /** The series ends where the link first gets through, with the answer given there. */
  lemma EndsThere(cfg: RetryConfig, s: Server, op: Op, faults: nat -> Fault, first: nat, k: nat, outcome: Outcome,
                  trace: seq<Fault>)
    requires k <= cfg.maxRetries && GetsThrough(faults, first, k) && Meets(faults, first, trace)
    requires |trace| <= Tries(cfg) && Persistent(s, op, trace) && !outcome.Cancelled?
    requires outcome.Success? <==> Answered(s, op, trace)
    requires outcome.Failure? <==> GaveUp(cfg, s, op, trace)
    ensures |trace| == k + 1 && trace[k] == Deliver && forall i :: 0 <= i < k ==> !trace[i].Deliver?
    ensures outcome.Success? <==> !AnswerAt(s, op, trace, k).Refused?
  {
    assert trace != [];
    var n := |trace| - 1;
    forall i | 0 <= i < |trace| && i < k ensures AnswerAt(s, op, trace, i) == Refused(true) {
      assert trace[i] == faults(first + i);
    }
    forall i | 0 <= i < |trace| && i >= k && trace[i] == Deliver ensures AnswerAt(s, op, trace, i) != Refused(true) {
      NeverTransient(Tried(s, op, trace[..i]), op);
    }
    var m := if k < n then k else n;
    assert trace[m] == faults(first + m);
    assert m == k ==> AnswerAt(s, op, trace, m) != Refused(true);
    assert n == k;
    forall i | 0 <= i < k ensures !trace[i].Deliver? { assert trace[i] == faults(first + i); }
  }

  /** No answer to a request was lost before the first that came. */
  predicate FirstAnswered(trace: seq<Fault>) {
    forall i :: 0 <= i < |trace| ==> !trace[i].LoseReply?
  }

  /** What such a series does: the request takes effect; and it is granted if the server grants
      it, except that completing an upload a second time, its first answer lost, is refused. */
  lemma TakesEffect(s: Server, op: Op, trace: seq<Fault>)
    requires !op.CreateUpload? && trace != [] && trace[|trace| - 1] == Deliver
    requires forall i :: 0 <= i < |trace| - 1 ==> !trace[i].Deliver?
    ensures Tried(s, op, trace) == Effect(s, op).0
    ensures !AnswerAt(s, op, trace, |trace| - 1).Refused?
            <==> !Effect(s, op).1.Refused? && (op.CompleteUpload? ==> FirstAnswered(trace))
  {
    var front := trace[..|trace| - 1];
    AtMostOnce(s, op, trace);
    AtMostOnce(s, op, front);
    assert !trace[|trace| - 1].LoseRequest?;
    assert Arrived(trace);
    if i :| 0 <= i < |front| && !front[i].LoseRequest? {
      assert trace[i].LoseReply?;
    } else {
      assert forall i :: 0 <= i < |front| ==> trace[i] == front[i] && trace[i].LoseRequest?;
    }
  }

  lemma Scale(a: int, b: int, c: int)
    requires a <= b && 0 <= c
    ensures a * c <= b * c
  {
  }

  lemma BoundSleep(cfg: RetryConfig, sleeps: seq<int>)
    ensures 0 <= cfg.maxDelay && SleepsOk(cfg, sleeps) && |sleeps| <= cfg.maxRetries
            ==> Total(sleeps) <= cfg.maxRetries * cfg.maxDelay
  {
    if 0 <= cfg.maxDelay && SleepsOk(cfg, sleeps) && |sleeps| <= cfg.maxRetries {
      TotalSleep(cfg, sleeps);
      Scale(|sleeps|, cfg.maxRetries, cfg.maxDelay);
    }
  }
}
