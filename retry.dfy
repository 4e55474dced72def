/**
 * The retry controller of PostImportService.fetchWithRetry.
 *
 * Each HTTP send is modelled as taking the next item of a scripted sequence
 * of outcomes; an exhausted script answers with a send exception, as a
 * network that is down would. The delays of `delayedFuture` are recorded as
 * numbers of milliseconds: `delays[i]` is waited before request `i + 1`, and
 * the first request is sent at once.
 */
module Retry {
  import opened Wrappers

  /** What one send produces: an exception, or a response with a status code and a body. */
  datatype Response = Exn | Status(code: int, body: string)

  /** The classification of a failed fetch. */
  datatype FetchError = Transport | HttpStatus(code: int)

  /**
   * The outcome of a fetch, the unconsumed script, the responses of the
   * requests sent (in order), the level that sent each request (the
   * remainingAttempts of the fetchWithRetry call that issued it) and the
   * delays waited between them.
   */
  datatype Fetch = Fetch(result: Result<string, FetchError>, rest: seq<Response>,
                         responses: seq<Response>, levels: seq<nat>, delays: seq<nat>)

  predicate IsOk(resp: Response) {
    resp.Status? && resp.code == 200
  }

  /** The next send's outcome and the script left after it. */
  function Next(script: seq<Response>): (Response, seq<Response>) {
    if script == [] then (Exn, []) else (script[0], script[1..])
  }

  function Pow2(n: nat): (p: nat)
    ensures p >= 1
  {
    if n == 0 then 1 else 2 * Pow2(n - 1)
  }

  lemma {:induction false} Pow2Add(a: nat, b: nat)
    ensures Pow2(a) * Pow2(b) == Pow2(a + b)
    decreases a
  {
    if a > 0 {
      Pow2Add(a - 1, b);
    }
  }

  /**
   * `(int) Math.pow(2, 4 - remainingAttempts) * 250`. For five or more
   * remaining attempts the power is a fraction, which the cast truncates to 0.
   * Up to four remaining attempts the delay halves with each extra attempt:
   * it is 4000 ms divided by 2^remaining.
   */
  function Backoff(remaining: nat): (ms: nat)
    ensures remaining <= 4 ==> ms * Pow2(remaining) == 4000
    ensures ms == 0 <==> remaining >= 5
  {
    if remaining <= 4 then
      Pow2Add(4 - remaining, remaining);
      Pow2(4 - remaining) * 250
    else 0
  }

  /** 2^e over the reals: what Math.pow(2, e) returns, exactly, for these small exponents. */
  ghost function RealPow2(e: int): (x: real)
    ensures x > 0.0
  {
    if e >= 0 then Pow2(e) as real else 1.0 / (Pow2(-e) as real)
  }

  /**
   * Backoff is the real power 2^(4 - remaining), truncated to an integer by
   * the cast (for a non-negative value truncation is the floor), times 250.
   */
  lemma BackoffTruncatesPower(remaining: nat)
    ensures Backoff(remaining) == RealPow2(4 - remaining).Floor * 250
  {
    if remaining >= 5 {
      var d := Pow2(remaining - 4);
      assert d >= 2 by {
        assert Pow2(remaining - 4) == 2 * Pow2(remaining - 5);
      }
      assert 0.0 < 1.0 / (d as real) < 1.0;
    }
  }

  /** Exponential backoff: each level down waits twice as long, from 250 ms at four attempts left to 2000 ms at one. */
  lemma BackoffDoubles(remaining: nat)
    requires 1 <= remaining <= 4
    ensures Backoff(remaining - 1) == 2 * Backoff(remaining)
    ensures Backoff(4) == 250 && Backoff(3) == 500 && Backoff(2) == 1000 && Backoff(1) == 2000
  {
  }

  /** The most requests `fetchWithRetry(r)` can send: A(1) = 1 and A(r) = 1 + 2 A(r - 1). */
  function MaxRequests(r: nat): (n: nat)
    ensures n >= 1
  {
    if r <= 1 then 1 else 1 + 2 * MaxRequests(r - 1)
  }

  /** The error a failed fetch reports for its last response. */
  function Failure(resp: Response): FetchError {
    if resp.Exn? then Transport else HttpStatus(resp.code)
  }

  /**
   * fetchWithRetry(remaining). Status 200 returns the body. A send exception
   * retries at `remaining - 1` after Backoff(remaining) while more than one
   * attempt remains. Another status retries the same way; and because
   * exceptionallyCompose is attached after thenCompose, a failure of that
   * retry chain is caught at this level too and retried once more, after the
   * same delay, from where the failed chain left the script. With one
   * attempt left, every failure is final.
   */
  function FetchWithRetry(remaining: nat, script: seq<Response>): (f: Fetch)
    ensures 1 <= |f.responses| <= MaxRequests(remaining)
    ensures |f.levels| == |f.responses|
    ensures |f.delays| == |f.responses| - 1
    ensures |f.rest| <= |script|
    decreases remaining
  {
    var resp := Next(script).0;
    var rest := Next(script).1;
    if IsOk(resp) then
      Fetch(Ok(resp.body), rest, [resp], [remaining], [])
    else if remaining <= 1 then
      Fetch(Err(Failure(resp)), rest, [resp], [remaining], [])
    else
      var t1 := FetchWithRetry(remaining - 1, rest);
      if resp.Exn? || t1.result.Ok? then
        Fetch(t1.result, t1.rest, [resp] + t1.responses, [remaining] + t1.levels,
              [Backoff(remaining)] + t1.delays)
      else
        var t2 := FetchWithRetry(remaining - 1, t1.rest);
        Fetch(t2.result, t2.rest, [resp] + t1.responses + t2.responses,
              [remaining] + t1.levels + t2.levels,
              [Backoff(remaining)] + t1.delays + [Backoff(remaining)] + t2.delays)
  }
}

module RetryProperties {
  import opened Wrappers
  import opened Retry

  /** The requests sent took, in order, the first items of the script, and `f.rest` is what is left. */
  ghost predicate Consumes(script: seq<Response>, f: Fetch)
  {
    |f.responses| <= |script| ==> script == f.responses + f.rest
  }

  /**
   * The fetch succeeded exactly when its last request got status 200, and
   * then with that response's body; otherwise it reports the last response.
   * No request before the last got status 200.
   */
  ghost predicate EndsAtFirst200(f: Fetch)
  {
    var rs := f.responses;
    && |rs| >= 1
    && (f.result.Ok? <==> IsOk(rs[|rs| - 1]))
    && (f.result.Ok? ==> rs[|rs| - 1] == Status(200, f.result.value))
    && (f.result.Err? ==> f.result.error == Failure(rs[|rs| - 1]))
    && (forall i :: 0 <= i < |rs| - 1 ==> !IsOk(rs[i]))
  }

  lemma ConsumesOnce(first: Response, rest: seq<Response>, t1: Fetch)
    requires Consumes(rest, t1)
    ensures |[first] + t1.responses| <= |[first] + rest| ==> [first] + rest == [first] + t1.responses + t1.rest
  {
  }

  lemma EndsAtFirst200Once(first: Response, t1: Fetch)
    requires !IsOk(first) && EndsAtFirst200(t1)
    ensures var rs := [first] + t1.responses;
      forall i :: 0 <= i < |rs| - 1 ==> !IsOk(rs[i])
  {
    var rs := [first] + t1.responses;
    forall i | 0 <= i < |rs| - 1 ensures !IsOk(rs[i]) {
      if i > 0 {
        assert rs[i] == t1.responses[i - 1];
      }
    }
  }

  lemma ConsumesTwice(first: Response, rest: seq<Response>, t1: Fetch, t2: Fetch)
    requires Consumes(rest, t1) && Consumes(t1.rest, t2)
    ensures |[first] + t1.responses + t2.responses| <= |[first] + rest|
        ==> [first] + rest == [first] + t1.responses + t2.responses + t2.rest
  {
  }

  lemma EndsAtFirst200Twice(first: Response, t1: Fetch, t2: Fetch)
    requires !IsOk(first) && t1.result.Err? && EndsAtFirst200(t1) && EndsAtFirst200(t2)
    ensures var rs := [first] + t1.responses + t2.responses;
      forall i :: 0 <= i < |rs| - 1 ==> !IsOk(rs[i])
  {
    var rs1, rs2 := t1.responses, t2.responses;
    var rs := [first] + rs1 + rs2;
    assert forall i :: 0 <= i < |rs1| ==> !IsOk(rs1[i]);
    forall i | 0 <= i < |rs| - 1 ensures !IsOk(rs[i]) {
      if i == 0 {
      } else if i <= |rs1| {
        assert rs[i] == rs1[i - 1];
      } else {
        assert rs[i] == rs2[i - 1 - |rs1|];
      }
    }
  }

  /** The requests sent took, in order, the first items of the script; what is left is the rest. */
  lemma {:induction false} FetchConsumesScript(remaining: nat, script: seq<Response>)
    ensures Consumes(script, FetchWithRetry(remaining, script))
    decreases remaining
  {
    var resp, rest := Next(script).0, Next(script).1;
    if !IsOk(resp) && remaining > 1 {
      var t1 := FetchWithRetry(remaining - 1, rest);
      FetchConsumesScript(remaining - 1, rest);
      if resp.Exn? || t1.result.Ok? {
        ConsumesOnce(resp, rest, t1);
      } else {
        FetchConsumesScript(remaining - 1, t1.rest);
        ConsumesTwice(resp, rest, t1, FetchWithRetry(remaining - 1, t1.rest));
      }
    }
  }

  /**
   * A fetch succeeds exactly when its last request got status 200, and then
   * returns that response's body unchanged; no request before the last one
   * got status 200, so nothing is sent after a 200. A failed fetch reports
   * the last response: a send exception or its status code.
   */
  lemma {:induction false} FetchOkIffLast200(remaining: nat, script: seq<Response>)
    ensures EndsAtFirst200(FetchWithRetry(remaining, script))
    decreases remaining
  {
    var resp, rest := Next(script).0, Next(script).1;
    if !IsOk(resp) && remaining > 1 {
      var t1 := FetchWithRetry(remaining - 1, rest);
      FetchOkIffLast200(remaining - 1, rest);
      if resp.Exn? || t1.result.Ok? {
        EndsAtFirst200Once(resp, t1);
      } else {
        FetchOkIffLast200(remaining - 1, t1.rest);
        EndsAtFirst200Twice(resp, t1, FetchWithRetry(remaining - 1, t1.rest));
      }
    }
  }

  /** A response with status 200 to the first request ends the fetch with its body and no retry. */
  lemma FirstResponseOk(remaining: nat, body: string, more: seq<Response>)
    ensures FetchWithRetry(remaining, [Status(200, body)] + more)
         == Fetch(Ok(body), more, [Status(200, body)], [remaining], [])
  {
    assert ([Status(200, body)] + more)[1..] == more;
  }

  /** With one attempt left, a send exception or any status other than 200 fails at once, with no further request. */
  lemma LastAttemptFails(remaining: nat, script: seq<Response>)
    requires remaining <= 1
    requires script != [] && !IsOk(script[0])
    ensures FetchWithRetry(remaining, script) == Fetch(Err(Failure(script[0])), script[1..], [script[0]], [remaining], [])
  {
  }

  /** The backoffs of the levels from `remaining` down to 2, in that order. */
  function Countdown(remaining: nat): (ws: seq<nat>)
    ensures |ws| == if remaining <= 1 then 0 else remaining - 1
  {
    if remaining <= 1 then [] else [Backoff(remaining)] + Countdown(remaining - 1)
  }

  /**
   * The levels and delays of a fetch started at `remaining`: the first
   * request is sent by that call, every later one by a retry at a level
   * below it and at least 1, and the delay before a request sent at level
   * l is the backoff of the level l + 1 that retried. A request is followed
   * by its retry one level down, except after a failure at the last level,
   * when a level above starts its next chain.
   */
  ghost predicate LevelTrace(levels: seq<nat>, delays: seq<nat>, remaining: nat)
  {
    && |levels| >= 1 && |delays| == |levels| - 1
    && levels[0] == remaining
    && (forall i :: 0 < i < |levels| ==> 1 <= levels[i] < remaining)
    && (forall i :: 0 <= i < |levels| - 1 ==> levels[i + 1] + 1 == levels[i] || levels[i] == 1)
    && (forall i :: 0 <= i < |delays| ==> delays[i] == Backoff(levels[i + 1] + 1))
  }

  lemma LevelsOnce(remaining: nat, l1: seq<nat>, d1: seq<nat>)
    requires remaining > 1 && LevelTrace(l1, d1, remaining - 1)
    ensures LevelTrace([remaining] + l1, [Backoff(remaining)] + d1, remaining)
  {
    var ls, ds := [remaining] + l1, [Backoff(remaining)] + d1;
    forall i | 0 < i < |ls| ensures 1 <= ls[i] < remaining {
      assert ls[i] == l1[i - 1];
    }
    forall i | 0 <= i < |ds| ensures ds[i] == Backoff(ls[i + 1] + 1) {
      assert ls[i + 1] == l1[i];
      if i > 0 {
        assert ds[i] == d1[i - 1];
      }
    }
    forall i | 0 <= i < |ls| - 1 ensures ls[i + 1] + 1 == ls[i] || ls[i] == 1 {
      assert ls[i + 1] == l1[i];
      if i > 0 {
        assert ls[i] == l1[i - 1];
      }
    }
  }

  lemma LevelsTwice(remaining: nat, l1: seq<nat>, d1: seq<nat>, l2: seq<nat>, d2: seq<nat>)
    requires remaining > 1 && LevelTrace(l1, d1, remaining - 1) && LevelTrace(l2, d2, remaining - 1)
    requires l1[|l1| - 1] == 1
    ensures LevelTrace([remaining] + l1 + l2, [Backoff(remaining)] + d1 + [Backoff(remaining)] + d2, remaining)
  {
    var ls, ds := [remaining] + l1 + l2, [Backoff(remaining)] + d1 + [Backoff(remaining)] + d2;
    forall i | 0 < i < |ls| ensures 1 <= ls[i] < remaining {
      if i <= |l1| {
        assert ls[i] == l1[i - 1];
      } else {
        assert ls[i] == l2[i - 1 - |l1|];
      }
    }
    forall i | 0 <= i < |ds| ensures ds[i] == Backoff(ls[i + 1] + 1) {
      if i < |l1| {
        assert ls[i + 1] == l1[i];
        if i > 0 {
          assert ds[i] == d1[i - 1];
        }
      } else {
        assert ls[i + 1] == l2[i - |l1|];
        if i > |l1| {
          assert ds[i] == d2[i - |l1| - 1];
        }
      }
    }
    forall i | 0 <= i < |ls| - 1 ensures ls[i + 1] + 1 == ls[i] || ls[i] == 1 {
      if i < |l1| {
        assert ls[i + 1] == l1[i];
        if i > 0 {
          assert ls[i] == l1[i - 1];
        }
      } else {
        assert ls[i + 1] == l2[i - |l1|];
        if i == |l1| {
          assert ls[i] == l1[|l1| - 1];
        } else {
          assert ls[i] == l2[i - |l1| - 1];
        }
      }
    }
  }

  /**
   * Each request is sent by a level of the recursion: the first by the
   * initial call, the others by retries at levels from remaining - 1 down to
   * 1, each one level below the request before it unless that one failed at
   * the last level; the delay before a request is the backoff of the level
   * that retried, so a retry at level r always waits Backoff(r).
   */
  lemma {:induction false} FetchDelays(remaining: nat, script: seq<Response>)
    ensures var f := FetchWithRetry(remaining, script);
      LevelTrace(f.levels, f.delays, remaining)
    decreases remaining
  {
    var resp, rest := Next(script).0, Next(script).1;
    if !IsOk(resp) && remaining > 1 {
      var t1 := FetchWithRetry(remaining - 1, rest);
      FetchDelays(remaining - 1, rest);
      if resp.Exn? || t1.result.Ok? {
        LevelsOnce(remaining, t1.levels, t1.delays);
      } else {
        var t2 := FetchWithRetry(remaining - 1, t1.rest);
        FetchDelays(remaining - 1, t1.rest);
        FailsOnlyAtLastLevel(remaining - 1, rest);
        LevelsTwice(remaining, t1.levels, t1.delays, t2.levels, t2.delays);
      }
    }
  }

  /** A failed fetch from `remaining` sent at least that many requests, the last with one attempt left. */
  ghost predicate GivesUpAtLastLevel(f: Fetch, remaining: nat)
  {
    f.result.Err? ==> |f.responses| >= remaining && |f.levels| >= 1 && f.levels[|f.levels| - 1] == 1
  }

  lemma GivesUpOnce(remaining: nat, first: Response, t1: Fetch)
    requires remaining > 1 && GivesUpAtLastLevel(t1, remaining - 1)
    ensures GivesUpAtLastLevel(Fetch(t1.result, t1.rest, [first] + t1.responses, [remaining] + t1.levels,
                                     [Backoff(remaining)] + t1.delays), remaining)
  {
    if t1.result.Err? {
      assert ([remaining] + t1.levels)[|t1.levels|] == t1.levels[|t1.levels| - 1];
    }
  }

  lemma GivesUpTwice(remaining: nat, first: Response, t1: Fetch, t2: Fetch)
    requires remaining > 1 && |t1.responses| >= 1 && GivesUpAtLastLevel(t2, remaining - 1)
    ensures GivesUpAtLastLevel(Fetch(t2.result, t2.rest, [first] + t1.responses + t2.responses,
                                     [remaining] + t1.levels + t2.levels,
                                     [Backoff(remaining)] + t1.delays + [Backoff(remaining)] + t2.delays), remaining)
  {
    if t2.result.Err? {
      var ls := [remaining] + t1.levels + t2.levels;
      assert ls[|ls| - 1] == t2.levels[|t2.levels| - 1];
    }
  }

  /**
   * A fetch gives up only at its last level: a failed fetch has sent at
   * least `remaining` requests, the last of them with one attempt left.
   */
  lemma {:induction false} FailsOnlyAtLastLevel(remaining: nat, script: seq<Response>)
    requires remaining >= 1
    ensures GivesUpAtLastLevel(FetchWithRetry(remaining, script), remaining)
    decreases remaining
  {
    var resp, rest := Next(script).0, Next(script).1;
    if !IsOk(resp) && remaining > 1 {
      var t1 := FetchWithRetry(remaining - 1, rest);
      FailsOnlyAtLastLevel(remaining - 1, rest);
      if resp.Exn? || t1.result.Ok? {
        GivesUpOnce(remaining, resp, t1);
      } else {
        FailsOnlyAtLastLevel(remaining - 1, t1.rest);
        GivesUpTwice(remaining, resp, t1, FetchWithRetry(remaining - 1, t1.rest));
      }
    }
  }

  /**
   * A 200 within reach is returned: if the first k responses are failures
   * and k < remaining, the (k + 1)-th response, a 200, ends the fetch with
   * its body after exactly k + 1 requests.
   */
  lemma {:induction false} FirstReachable200Returned(remaining: nat, script: seq<Response>, k: nat)
    requires k < remaining && k < |script| && IsOk(script[k])
    requires forall j :: 0 <= j < k ==> !IsOk(script[j])
    ensures var f := FetchWithRetry(remaining, script);
      f.result == Ok(script[k].body) && f.responses == script[..k + 1] && f.rest == script[k + 1..]
    decreases k
  {
    if k > 0 {
      var rest := script[1..];
      assert forall j :: 0 <= j < k - 1 ==> rest[j] == script[j + 1];
      FirstReachable200Returned(remaining - 1, rest, k - 1);
      assert script[..k + 1] == [script[0]] + rest[..k];
      assert rest[k..] == script[k + 1..];
    } else {
      assert script[..1] == [script[0]];
    }
  }

  /**
   * If every send throws, fetchWithRetry(r) sends exactly r requests (at
   * least one), waits Backoff(r), ..., Backoff(2) between them and fails with
   * the transport error.
   */
  lemma {:induction false} AllSendsThrow(remaining: nat, script: seq<Response>)
    requires forall i :: 0 <= i < |script| ==> script[i] == Exn
    ensures var f := FetchWithRetry(remaining, script);
      && f.result == Err(Transport)
      && |f.responses| == (if remaining <= 1 then 1 else remaining)
      && f.delays == Countdown(remaining)
    decreases remaining
  {
    if remaining > 1 {
      AllSendsThrow(remaining - 1, Next(script).1);
    }
  }

  /**
   * The delays when every level above the last retries twice: Backoff(r),
   * the delays of the first chain at r - 1, Backoff(r) again, and the delays
   * of the second chain.
   */
  function TwiceRetriedDelays(remaining: nat): (ws: seq<nat>)
    ensures |ws| == MaxRequests(remaining) - 1
  {
    if remaining <= 1 then []
    else [Backoff(remaining)] + TwiceRetriedDelays(remaining - 1) + [Backoff(remaining)] + TwiceRetriedDelays(remaining - 1)
  }

  /** Every scripted send gets a response, and none of them has status 200. */
  ghost predicate AllNon200(script: seq<Response>)
  {
    forall i :: 0 <= i < |script| ==> script[i].Status? && script[i].code != 200
  }

  lemma AllNon200Suffix(script: seq<Response>, k: nat)
    requires AllNon200(script) && k <= |script|
    ensures AllNon200(script[k..])
  {
    forall i | 0 <= i < |script[k..]| ensures script[k..][i].Status? && script[k..][i].code != 200 {
      assert script[k..][i] == script[k + i];
    }
  }

  /**
   * If every response has a status other than 200 (and the server keeps
   * answering), each level above the last retries twice: the retry chain
   * started by thenCompose, and again when exceptionallyCompose catches its
   * failure. The fetch then sends MaxRequests(r) requests and fails with a
   * status error.
   */
  lemma {:induction false} AllResponsesNon200(remaining: nat, script: seq<Response>)
    requires AllNon200(script)
    requires |script| >= MaxRequests(remaining)
    ensures var f := FetchWithRetry(remaining, script);
      && f.result.Err? && f.result.error.HttpStatus?
      && |f.responses| == MaxRequests(remaining)
      && f.delays == TwiceRetriedDelays(remaining)
      && f.rest == script[MaxRequests(remaining)..]
    decreases remaining
  {
    if remaining > 1 {
      var rest := script[1..];
      AllNon200Suffix(script, 1);
      var t1 := FetchWithRetry(remaining - 1, rest);
      AllResponsesNon200(remaining - 1, rest);
      AllNon200Suffix(rest, MaxRequests(remaining - 1));
      AllResponsesNon200(remaining - 1, t1.rest);
    }
  }

  /** A(r) = 2^r - 1. */
  lemma {:induction false} MaxRequestsClosedForm(remaining: nat)
    requires remaining >= 1
    ensures MaxRequests(remaining) == Pow2(remaining) - 1
    decreases remaining
  {
    if remaining > 1 {
      MaxRequestsClosedForm(remaining - 1);
    }
  }

  /** A failure followed by a 200 succeeds on the second request, after one delay of Backoff(remaining). */
  lemma RecoversOnSecondAttempt(remaining: nat, first: Response, body: string, more: seq<Response>)
    requires remaining >= 2 && !IsOk(first)
    ensures FetchWithRetry(remaining, [first, Status(200, body)] + more)
         == Fetch(Ok(body), more, [first, Status(200, body)], [remaining, remaining - 1], [Backoff(remaining)])
  {
    var script := [first, Status(200, body)] + more;
    assert script[1..] == [Status(200, body)] + more;
    FirstResponseOk(remaining - 1, body, more);
  }

  /** The call at fetchAndSaveAllPosts with every send throwing: 3 requests, delays 500 ms then 1000 ms. */
  lemma ThreeAttemptsAllThrow()
    ensures var f := FetchWithRetry(3, [Exn, Exn, Exn]);
      f.result == Err(Transport) && |f.responses| == 3 && f.delays == [500, 1000]
  {
    AllSendsThrow(3, [Exn, Exn, Exn]);
  }

  /**
   * The call at fetchAndSaveAllPosts with every response other than 200:
   * 7 requests, not 3, with delays 500, 1000, 1000, 500, 1000, 1000 ms.
   */
  lemma ThreeAttemptsAllNon200(script: seq<Response>)
    requires |script| >= 7 && AllNon200(script)
    ensures var f := FetchWithRetry(3, script);
      && f.result.Err? && |f.responses| == 7 && f.rest == script[7..]
      && f.delays == [500, 1000, 1000, 500, 1000, 1000]
  {
    AllResponsesNon200(3, script);
    assert TwiceRetriedDelays(2) == [1000, 1000];
  }
}
