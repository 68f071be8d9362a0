/** The relay's `'gemini bot query'` handler: up to five counted failures of
    the text-generation request, a backoff wait after each, and one bot reply
    broadcast at the end. The request itself is not modelled; each pass
    through the loop body sees the next entry of a finite sequence of
    outcomes, and a wait is an entry appended to a delay log. */
module BotQuery {
  import opened Protocol
  import opened Backoff

  /** What one pass through the loop body observes of the request. */
  datatype FetchOutcome =
      /** The response is not `ok`; the handler throws. */
    | HttpError(status: int)
      /** The request or the parsing of the response body throws, or the
          body's shape makes the candidate test or the text read throw (a
          `null` body, a `null` first candidate, a `null` first part). */
    | Throws
      /** An `ok` response for which the candidate test is false without
          throwing: no first candidate with content holding a first part. */
    | OkNoCandidates
      /** An `ok` response whose first candidate's first part has this text. */
    | OkText(text: string)

  /** The outcome lands in the `catch` block: it is counted and waited for. */
  predicate Fails(o: FetchOutcome)
  {
    o.HttpError? || o.Throws?
  }

  const MaxRetries: nat := 5

  /** The reply broadcast when every counted attempt failed. */
  const Apology: string := "Sorry, I am unable to process that request right now."

  /** How the handler ended, as far as the given outcomes reach. */
  datatype Completion =
      /** An attempt produced text; the loop broke. */
    | Answered(text: string)
      /** The fifth counted failure ended the loop. */
    | Exhausted
      /** The outcomes ran out while the loop was still running: the handler
          would request again. */
    | Unresolved

  /** The handler's observable behaviour: how it ended, how many requests it
      made, its final `retries`, its waits in order and what it broadcast. */
  datatype QueryRun = QueryRun(
    completion: Completion,
    attempts: nat,
    retries: nat,
    delays: seq<nat>,
    broadcasts: seq<ServerEvent>)

  /** The number of counted failures among `s`. */
  function CountFails(s: seq<FetchOutcome>): (n: nat)
    ensures n <= |s|
  {
    if s == [] then 0
    else CountFails(s[..|s| - 1]) + (if Fails(s[|s| - 1]) then 1 else 0)
  }

  /** None of `s` carries text. */
  predicate NoAnswer(s: seq<FetchOutcome>)
  {
    forall j :: 0 <= j < |s| ==> !s[j].OkText?
  }

  /** The handler's behaviour on `outcomes`, stated without running the loop:
      it consumed a prefix of the outcomes; it counted exactly the failures in
      that prefix, never more than five, and waited `Schedule` of that count;
      and the prefix ends at the first text (answered), at the fifth failure
      (exhausted, apology), or at the end of the outcomes (still running,
      nothing broadcast). A completed run broadcasts exactly one message, from
      the bot. */
  predicate Describes(outcomes: seq<FetchOutcome>, r: QueryRun)
  {
    && r.attempts <= |outcomes|
    && r.retries == CountFails(outcomes[..r.attempts])
    && r.retries <= MaxRetries
    && r.delays == Schedule(r.retries)
    && match r.completion
       case Answered(t) =>
         && r.attempts > 0
         && outcomes[r.attempts - 1] == OkText(t)
         && NoAnswer(outcomes[..r.attempts - 1])
         && r.retries < MaxRetries
         && r.broadcasts == [BotReply(t)]
       case Exhausted =>
         && r.attempts > 0
         && Fails(outcomes[r.attempts - 1])
         && NoAnswer(outcomes[..r.attempts])
         && r.retries == MaxRetries
         && r.broadcasts == [BotReply(Apology)]
       case Unresolved =>
         && r.attempts == |outcomes|
         && NoAnswer(outcomes)
         && r.retries < MaxRetries
         && r.broadcasts == []
  }

  /** The loop from the state where `i` requests have been made, `retries`
      of them failed and `delays` were waited. */
  function Loop(outcomes: seq<FetchOutcome>, i: nat, retries: nat, delays: seq<nat>): QueryRun
    requires i <= |outcomes|
    decreases |outcomes| - i, MaxRetries - retries
  {
    if retries >= MaxRetries then QueryRun(Exhausted, i, retries, delays, [BotReply(Apology)])
    else if i == |outcomes| then QueryRun(Unresolved, i, retries, delays, [])
    else
      match outcomes[i]
      case OkText(t) => QueryRun(Answered(t), i + 1, retries, delays, [BotReply(t)])
      case OkNoCandidates => Loop(outcomes, i + 1, retries, delays)
      case _ => Loop(outcomes, i + 1, retries + 1, delays + [Delay(retries + 1)])
  }

  /** The state at the head of the loop after `i` requests. */
  predicate LoopState(outcomes: seq<FetchOutcome>, i: nat, retries: nat, delays: seq<nat>)
  {
    && i <= |outcomes|
    && retries == CountFails(outcomes[..i])
    && retries <= MaxRetries
    && delays == Schedule(retries)
    && NoAnswer(outcomes[..i])
    && (retries == MaxRetries ==> i > 0 && Fails(outcomes[i - 1]))
  }

  /** One pass through the loop body keeps the loop-head state. */
  lemma LoopStateStep(outcomes: seq<FetchOutcome>, i: nat, retries: nat, delays: seq<nat>)
    requires LoopState(outcomes, i, retries, delays)
    requires i < |outcomes| && retries < MaxRetries && !outcomes[i].OkText?
    ensures Fails(outcomes[i]) ==>
              LoopState(outcomes, i + 1, retries + 1, delays + [Delay(retries + 1)])
    ensures !Fails(outcomes[i]) ==> LoopState(outcomes, i + 1, retries, delays)
  {
    assert outcomes[..i + 1][..i] == outcomes[..i];
    assert outcomes[..i + 1][i] == outcomes[i];
  }

  /** A loop that stops on text behaves as `Describes` says. */
  lemma AnsweredDescribes(outcomes: seq<FetchOutcome>, i: nat, retries: nat, delays: seq<nat>)
    requires LoopState(outcomes, i, retries, delays)
    requires i < |outcomes| && retries < MaxRetries && outcomes[i].OkText?
    ensures Describes(outcomes, Loop(outcomes, i, retries, delays))
  {
    var prefix := outcomes[..i + 1];
    assert prefix[..i] == outcomes[..i];
    assert prefix[i] == outcomes[i];
    assert CountFails(prefix) == retries;
  }

  /** A loop stopped by the fifth failure behaves as `Describes` says. */
  lemma ExhaustedDescribes(outcomes: seq<FetchOutcome>, i: nat, retries: nat, delays: seq<nat>)
    requires LoopState(outcomes, i, retries, delays) && retries == MaxRetries
    ensures Describes(outcomes, Loop(outcomes, i, retries, delays))
  {
  }

  /** A loop that runs out of outcomes behaves as `Describes` says. */
  lemma UnresolvedDescribes(outcomes: seq<FetchOutcome>, retries: nat, delays: seq<nat>)
    requires LoopState(outcomes, |outcomes|, retries, delays) && retries < MaxRetries
    ensures Describes(outcomes, Loop(outcomes, |outcomes|, retries, delays))
  {
  }

  /** From any loop-head state the loop behaves as `Describes` says. */
  lemma {:induction false} LoopDescribes(outcomes: seq<FetchOutcome>, i: nat, retries: nat, delays: seq<nat>)
    requires LoopState(outcomes, i, retries, delays)
    ensures Describes(outcomes, Loop(outcomes, i, retries, delays))
    decreases |outcomes| - i
  {
    if retries >= MaxRetries {
      ExhaustedDescribes(outcomes, i, retries, delays);
    } else if i == |outcomes| {
      UnresolvedDescribes(outcomes, retries, delays);
    } else if outcomes[i].OkText? {
      AnsweredDescribes(outcomes, i, retries, delays);
    } else if Fails(outcomes[i]) {
      LoopStateStep(outcomes, i, retries, delays);
      LoopDescribes(outcomes, i + 1, retries + 1, delays + [Delay(retries + 1)]);
    } else {
      LoopStateStep(outcomes, i, retries, delays);
      LoopDescribes(outcomes, i + 1, retries, delays);
    }
  }

  /** The handler run on `outcomes` from its initial state
      (`retries = 0`, no waits). */
  function Run(outcomes: seq<FetchOutcome>): (r: QueryRun)
    ensures Describes(outcomes, r)
  {
    assert outcomes[..0] == [];
    LoopDescribes(outcomes, 0, 0, []);
    Loop(outcomes, 0, 0, [])
  }

  /** The handler's loop, written as the source writes it: `while (retries <
      maxRetries)` with a `break` on text and an increment and a wait on
      every thrown error. */
  method HandleBotQuery(outcomes: seq<FetchOutcome>) returns (r: QueryRun)
    ensures r == Run(outcomes)
  {
    var botResponse := Apology;
    var retries: nat := 0;
    var delays: seq<nat> := [];
    var attempts: nat := 0;
    assert outcomes[..0] == [];
    while retries < MaxRetries
      invariant LoopState(outcomes, attempts, retries, delays)
      invariant Loop(outcomes, attempts, retries, delays) == Run(outcomes)
      invariant botResponse == Apology
      decreases |outcomes| - attempts
    {
      if attempts == |outcomes| {
        return QueryRun(Unresolved, attempts, retries, delays, []);
      }
      var outcome := outcomes[attempts];
      if !outcome.OkText? {
        LoopStateStep(outcomes, attempts, retries, delays);
      }
      attempts := attempts + 1;
      match outcome {
        case OkText(t) =>
          botResponse := t;
          break;
        case OkNoCandidates =>
        case _ =>
          retries := retries + 1;
          delays := delays + [Delay(retries)];
      }
    }
    var completion := if retries < MaxRetries then Answered(botResponse) else Exhausted;
    r := QueryRun(completion, attempts, retries, delays, [BotReply(botResponse)]);
  }

  /** `m` failures in a row, none of them the fifth, each add one to
      `retries` and the next wait of the schedule. */
  lemma {:induction false} LoopSkipsFailures(outcomes: seq<FetchOutcome>, i: nat, retries: nat, m: nat)
    requires i + m <= |outcomes| && retries + m <= MaxRetries
    requires forall j :: i <= j < i + m ==> Fails(outcomes[j])
    ensures Loop(outcomes, i, retries, Schedule(retries))
         == Loop(outcomes, i + m, retries + m, Schedule(retries + m))
    decreases m
  {
    if m > 0 {
      assert Fails(outcomes[i]);
      assert Schedule(retries) + [Delay(retries + 1)] == Schedule(retries + 1);
      LoopSkipsFailures(outcomes, i + 1, retries + 1, m - 1);
    }
  }

  /** When every attempt throws, the handler makes exactly five requests,
      waits 2, 4, 8, 16 and 32 seconds (the last wait too) and broadcasts the
      apology. */
  lemma AllFailuresExhaust(outcomes: seq<FetchOutcome>)
    requires |outcomes| >= MaxRetries
    requires forall j :: 0 <= j < MaxRetries ==> Fails(outcomes[j])
    ensures Run(outcomes)
         == QueryRun(Exhausted, 5, 5, [2000, 4000, 8000, 16000, 32000], [BotReply(Apology)])
  {
    LoopSkipsFailures(outcomes, 0, 0, MaxRetries);
    FiveFailureSchedule();
  }

  /** When attempts 1 to k-1 throw and attempt k (at most the fifth) yields
      text, that text is the reply, the loop stops after k requests, and
      exactly the k-1 waits 2, 4, ... seconds were made. */
  lemma SuccessOnAttempt(outcomes: seq<FetchOutcome>, k: nat)
    requires 1 <= k <= MaxRetries && k <= |outcomes|
    requires forall j :: 0 <= j < k - 1 ==> Fails(outcomes[j])
    requires outcomes[k - 1].OkText?
    ensures var t := outcomes[k - 1].text;
            Run(outcomes) == QueryRun(Answered(t), k, k - 1, Schedule(k - 1), [BotReply(t)])
  {
    LoopSkipsFailures(outcomes, 0, 0, k - 1);
  }

  /** Two failures and then "42": the bot replies "42" after waiting 2 and 4
      seconds, and not after the success. */
  lemma FailTwiceThenAnswer()
    ensures Run([Throws, HttpError(503), OkText("42")])
         == QueryRun(Answered("42"), 3, 2, [2000, 4000], [ChatMessage(Message("Gemini Bot", "42"))])
  {
  }

  /** `ok` responses without candidates are neither counted nor waited for:
      however many of them arrive, the handler is still requesting, with
      `retries` at zero, no waits and nothing broadcast. */
  lemma {:induction false} NoCandidatesNeverEnd(outcomes: seq<FetchOutcome>, i: nat)
    requires i <= |outcomes|
    requires forall j :: i <= j < |outcomes| ==> outcomes[j] == OkNoCandidates
    ensures Loop(outcomes, i, 0, []) == QueryRun(Unresolved, |outcomes|, 0, [], [])
    decreases |outcomes| - i
  {
    if i < |outcomes| {
      NoCandidatesNeverEnd(outcomes, i + 1);
    }
  }

  /** From its start, a handler fed only `ok` responses without candidates
      never finishes, never waits and never broadcasts. */
  lemma NoCandidatesRun(outcomes: seq<FetchOutcome>)
    requires forall j :: 0 <= j < |outcomes| ==> outcomes[j] == OkNoCandidates
    ensures Run(outcomes) == QueryRun(Unresolved, |outcomes|, 0, [], [])
  {
    NoCandidatesNeverEnd(outcomes, 0);
  }

  lemma {:induction false} LoopIgnoresLaterOutcomes(
    outcomes: seq<FetchOutcome>, more: seq<FetchOutcome>, i: nat, retries: nat, delays: seq<nat>)
    requires i <= |outcomes|
    requires !Loop(outcomes, i, retries, delays).completion.Unresolved?
    ensures Loop(outcomes + more, i, retries, delays) == Loop(outcomes, i, retries, delays)
    decreases |outcomes| - i
  {
    if retries < MaxRetries {
      assert (outcomes + more)[i] == outcomes[i];
      match outcomes[i]
      case OkText(_) =>
      case OkNoCandidates =>
        LoopIgnoresLaterOutcomes(outcomes, more, i + 1, retries, delays);
      case _ =>
        LoopIgnoresLaterOutcomes(outcomes, more, i + 1, retries + 1, delays + [Delay(retries + 1)]);
    }
  }

  /** Once the handler has finished, outcomes of requests it never made do
      not matter. */
  lemma CompletedRunIgnoresLaterOutcomes(outcomes: seq<FetchOutcome>, more: seq<FetchOutcome>)
    requires !Run(outcomes).completion.Unresolved?
    ensures Run(outcomes + more) == Run(outcomes)
  {
    LoopIgnoresLaterOutcomes(outcomes, more, 0, 0, []);
  }

  lemma {:induction false} CountFailsMonotone(outcomes: seq<FetchOutcome>, a: nat, b: nat)
    requires a <= b <= |outcomes|
    ensures CountFails(outcomes[..a]) <= CountFails(outcomes[..b])
    decreases b - a
  {
    if a < b {
      assert outcomes[..b][..b - 1] == outcomes[..b - 1];
      CountFailsMonotone(outcomes, a, b - 1);
    }
  }

  /** A run that `Describes` the outcomes makes no fewer requests than any
      other such run. */
  lemma DescribedAttemptsNotFewer(outcomes: seq<FetchOutcome>, r1: QueryRun, r2: QueryRun)
    requires Describes(outcomes, r1) && Describes(outcomes, r2)
    ensures r1.attempts >= r2.attempts
  {
    if r1.attempts < r2.attempts {
      var n1, n2 := r1.attempts, r2.attempts;
      match r1.completion
      case Answered(_) =>
        assert false;
      case Exhausted =>
        if r2.completion.Exhausted? {
          assert outcomes[..n2][..n2 - 1] == outcomes[..n2 - 1];
          CountFailsMonotone(outcomes, n1, n2 - 1);
        } else {
          CountFailsMonotone(outcomes, n1, n2);
        }
        assert false;
      case Unresolved =>
        assert false;
    }
  }

  /** `Describes` is a complete specification: the only run it admits for
      given outcomes is the handler's. */
  lemma DescribesDeterminesRun(outcomes: seq<FetchOutcome>, r: QueryRun)
    requires Describes(outcomes, r)
    ensures r == Run(outcomes)
  {
    var h := Run(outcomes);
    DescribedAttemptsNotFewer(outcomes, r, h);
    DescribedAttemptsNotFewer(outcomes, h, r);
  }
}
