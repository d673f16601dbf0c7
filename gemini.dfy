/** The enrichment request to the generative-text service: the guard on the
    API key and the retry-with-exponential-backoff schedule. The network is
    not modelled; what each attempt meets is an input. */
module Gemini {
  import opened Js

  /** The enrichment shown in the side panel. A key the reply leaves out is
      `None` (the panel then shows nothing for it). */
  datatype Analysis = Analysis(root: Option<string>, mnemonic: Option<string>,
                               scenario: Option<string>, scenarioCn: Option<string>)

  /** What `JSON.parse` made of the reply text (`"{}"` when the reply has no
      text, which parses to an analysis with every key missing): a falsy
      value such as `null`, or an analysis object. */
  datatype Parsed = Falsy | Value(analysis: Analysis)

  /** What one attempt meets: an exception (network failure, a status that is
      not ok, or reply text that is not JSON), or a parsed reply. */
  datatype Attempt = Threw | Returned(data: Parsed)

  /** How the request settles: resolved with a value, or rejected with the
      last attempt's error. */
  datatype Outcome = Resolved(data: Parsed) | Rejected

  /** A settled request: its outcome, how many attempts were made, and the
      waits taken between them, in milliseconds. */
  datatype Run = Run(outcome: Outcome, attempts: nat, delays: seq<nat>)

  /** Retries are made while the retry counter is below this bound. */
  const MaxRetries: nat := 5

  /** The wait before the first retry, in milliseconds. */
  const BaseDelayMs: nat := 1000

  /** The wait before the retry made when the counter stands at `retries`:
      `Math.pow(2, retries) * 1000`. */
  function RetryDelay(retries: nat): nat
  {
    Pow2(retries) * BaseDelayMs
  }

  /** The waits before `count` consecutive retries, the first made when the
      counter stands at `from`. */
  function Schedule(from: nat, count: nat): (s: seq<nat>)
    ensures |s| == count
    ensures forall k :: 0 <= k < count ==> s[k] == RetryDelay(from + k)
    decreases count
  {
    if count == 0 then [] else [RetryDelay(from)] + Schedule(from + 1, count - 1)
  }

  /** The request from counter value `retries` on; `reply(k)` is what the
      attempt made at counter value `k` meets. */
  function FetchWithRetry(reply: nat -> Attempt, retries: nat): (r: Run)
    decreases if retries < MaxRetries then MaxRetries - retries else 0
    ensures 1 <= r.attempts
    ensures retries <= MaxRetries ==> r.attempts <= MaxRetries - retries + 1
    ensures r.delays == Schedule(retries, r.attempts - 1)
    ensures forall k :: retries <= k < retries + r.attempts - 1 ==> reply(k).Threw?
    ensures r.outcome.Resolved? ==> reply(retries + r.attempts - 1) == Returned(r.outcome.data)
    ensures r.outcome.Rejected? <==> reply(retries + r.attempts - 1).Threw?
    ensures r.outcome.Rejected? ==> retries + r.attempts - 1 >= MaxRetries
  {
    match reply(retries)
    case Returned(data) => Run(Resolved(data), 1, [])
    case Threw =>
      if retries < MaxRetries then
        var rest := FetchWithRetry(reply, retries + 1);
        Run(rest.outcome, rest.attempts + 1, [RetryDelay(retries)] + rest.delays)
      else
        Run(Rejected, 1, [])
  }

  /** `callGemini`: with no API key nothing is attempted and the call
      resolves to `null`; otherwise the request starts with counter 0. */
  function CallGemini(apiKey: string, reply: nat -> Attempt): (r: Run)
    ensures apiKey == "" ==> r == Run(Resolved(Falsy), 0, [])
    ensures apiKey != "" ==> 1 <= r.attempts <= MaxRetries + 1
    ensures apiKey != "" ==> r == FetchWithRetry(reply, 0)
  {
    if apiKey == "" then Run(Resolved(Falsy), 0, []) else FetchWithRetry(reply, 0)
  }

  /** The sum of a sequence of waits. */
  function Sum(s: seq<nat>): nat
  {
    if s == [] then 0 else s[0] + Sum(s[1..])
  }

  /** The waits of `count` consecutive retries from counter `from` add up to
      the geometric sum `1000 * (2^(from + count) - 2^from)`. */
  lemma {:induction false} GeometricWait(from: nat, count: nat)
    ensures Sum(Schedule(from, count)) == (Pow2(from + count) - Pow2(from)) * BaseDelayMs
    decreases count
  {
    if count > 0 {
      var s := Schedule(from, count);
      GeometricWait(from + 1, count - 1);
      assert s[1..] == Schedule(from + 1, count - 1);
      assert Pow2(from + 1) == 2 * Pow2(from);
    }
  }

  /** The waits of a whole request add up to `1000 * (2^(last counter) -
      2^(first counter))`. */
  lemma TotalWait(reply: nat -> Attempt, retries: nat)
    ensures var r := FetchWithRetry(reply, retries);
      Sum(r.delays) == (Pow2(retries + r.attempts - 1) - Pow2(retries)) * BaseDelayMs
  {
    var r := FetchWithRetry(reply, retries);
    GeometricWait(retries, r.attempts - 1);
  }

  /** When every attempt fails the request gives up after six attempts,
      having waited 1, 2, 4, 8 and 16 seconds (31 seconds in all), and
      rejects. */
  lemma AllAttemptsFail(reply: nat -> Attempt)
    requires forall k :: reply(k) == Threw
    ensures FetchWithRetry(reply, 0) == Run(Rejected, 6, [1000, 2000, 4000, 8000, 16000])
    ensures Sum(FetchWithRetry(reply, 0).delays) == 31000
  {
    GeometricWait(0, 5);
  }

  /** When the first `j` attempts fail and attempt `j` (with `j` at most 5)
      gets a reply, the request resolves to that reply after `j + 1`
      attempts, having waited the first `j` delays of the schedule. */
  lemma {:induction false} SucceedsAt(reply: nat -> Attempt, retries: nat, j: nat)
    requires retries + j <= MaxRetries
    requires forall k :: retries <= k < retries + j ==> reply(k).Threw?
    requires reply(retries + j).Returned?
    ensures FetchWithRetry(reply, retries).outcome == Resolved(reply(retries + j).data)
    ensures FetchWithRetry(reply, retries).attempts == j + 1
    ensures FetchWithRetry(reply, retries).delays == Schedule(retries, j)
    decreases j
  {
    if j > 0 {
      SucceedsAt(reply, retries + 1, j - 1);
    }
  }
}
