// One probe's request with its retries, and the default verdict (packages/discovery/src/probe.ts).
module ProbeFetch {
  import opened Basics
  import opened ProbePool

  /** What reading a 2xx body gave: a listing page, something else, or a stream that failed. */
  datatype Body = Page(listsPosting: bool) | NotAPage | StreamFailed

  datatype Answer = NoResponse | Response(status: nat, retryAfter: Option<string>, body: Body)

  datatype Fetched = Fetched(status: nat, page: Option<bool>)

  datatype Retries = Retries(maxRetries: int, maxWait: Option<int>, delay: (nat, Option<string>) -> int)

  predicate IsSuccess(status: nat) { 200 <= status < 300 }

  /** An answer another attempt could improve on. */
  predicate Transient(a: Answer) {
    || a.NoResponse?
    || a.status == 429 || a.status >= 500
    || (IsSuccess(a.status) && a.body.StreamFailed?)
  }

  /** A Retry-After header counts only where the server asked to be left alone. */
  predicate CanRetry(p: Retries, attempt: nat, a: Answer) {
    var asked := if a.Response? && (a.status == 429 || a.status >= 500) then a.retryAfter else None;
    attempt < p.maxRetries && (p.maxWait.Some? ==> p.delay(attempt, asked) <= p.maxWait.value)
  }

  predicate Retried(p: Retries, attempt: nat, a: Answer) { Transient(a) && CanRetry(p, attempt, a) }

  /** What an answer is worth once it is the last. */
  function Final(a: Answer): Fetched {
    match a
    case NoResponse => Fetched(0, None)
    case Response(status, _, body) =>
      if !IsSuccess(status) then Fetched(status, None)
      else
        match body
        case Page(lists) => Fetched(status, Some(lists))
        case NotAPage => Fetched(status, None)
        case StreamFailed => Fetched(0, None)
  }

  /** The request with its retries: the last attempt, and only it, decides; every earlier one was worth retrying, and
      there are at most `maxRetries` of them. `answers(k)` is what attempt k meets. */
  method ProbeFetch(p: Retries, answers: nat -> Answer) returns (r: Fetched, attempt: nat)
    ensures r == Final(answers(attempt))
    ensures forall k: nat :: k < attempt ==> Retried(p, k, answers(k))
    ensures !Retried(p, attempt, answers(attempt))
    ensures attempt == 0 || attempt <= p.maxRetries
  {
    attempt := 0;
    while true
      invariant forall k: nat :: k < attempt ==> Retried(p, k, answers(k))
      invariant attempt == 0 || attempt <= p.maxRetries
      decreases p.maxRetries - attempt
    {
      var a := answers(attempt);
      if a.NoResponse? {
        if CanRetry(p, attempt, a) {
          attempt := attempt + 1;
          continue;
        }
        return Fetched(0, None), attempt;
      }
      if (a.status == 429 || a.status >= 500) && CanRetry(p, attempt, a) {
        attempt := attempt + 1;
        continue;
      }
      if a.status < 200 || a.status >= 300 {
        return Fetched(a.status, None), attempt;
      }
      match a.body {
        case Page(lists) => return Fetched(a.status, Some(lists)), attempt;
        case NotAPage => return Fetched(a.status, None), attempt;
        case StreamFailed =>
          if !CanRetry(p, attempt, a) { return Fetched(0, None), attempt; }
          attempt := attempt + 1;
      }
    }
  }

  function DefaultClassify(f: Fetched): Outcome {
    if f.status == 404 then Absent
    else if IsSuccess(f.status) then
      match f.page
      case None => Indeterminate
      case Some(lists) => if lists then Live else LiveEmpty
    else Indeterminate
  }

  /** A verdict is earned: only a 404 says absent, only a listing page read to its end says live or empty, and an
      answer that was only transient says nothing. */
  lemma VerdictIsEarned(a: Answer)
    ensures DefaultClassify(Final(a)) == Absent <==> a.Response? && a.status == 404
    ensures DefaultClassify(Final(a)) == Live <==> a.Response? && IsSuccess(a.status) && a.body == Page(true)
    ensures DefaultClassify(Final(a)) == LiveEmpty <==> a.Response? && IsSuccess(a.status) && a.body == Page(false)
    ensures Transient(a) ==> DefaultClassify(Final(a)) == Indeterminate
  {
  }
}
