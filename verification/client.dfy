// The HTTP client's retry loop (utils/httputil/client.go), which takes a rate limit bucket through a
// request option and gives it back through a response handler.

module HttpClient {
  import opened Optional

  type Error = string

  datatype Reply = Failed(error: Error) | Status(code: nat)

  /** What one attempt meets: whether making the request fails, what each request option returns
      (the client's own first, then the call's), what the server does, and what each response handler
      returns. */
  datatype Attempt = Attempt(
    newError: Option<Error>, onRequest: seq<Option<Error>>, extra: seq<Option<Error>>,
    reply: Reply, handlers: seq<Option<Error>>)

  /** The calls out of the client. */
  datatype Call = Made | OptionRun(index: nat) | Done | Handler(index: nat)

  /** `Running` is a request whose retries are not limited and that has not ended yet. */
  datatype Outcome =
    | Response(status: nat)
    | HTTPError(status: nat)
    | RequestError(error: Error)
    | OptionError(error: Error)
    | HandlerError(error: Error)
    | Running

  /** The last error of a list. */
  function Latest(errors: seq<Option<Error>>): Option<Error> {
    if errors == [] then None
    else if errors[|errors| - 1].Some? then errors[|errors| - 1]
    else Latest(errors[..|errors| - 1])
  }

  /** Some error, and the last one from there on. */
  predicate LastAt(errors: seq<Option<Error>>, i: nat) {
    i < |errors| && errors[i].Some? && forall j :: i < j < |errors| ==> errors[j].None?
  }

  lemma {:induction false} LatestMeans(errors: seq<Option<Error>>, i: nat)
    ensures Latest(errors).None? <==> forall k :: 0 <= k < |errors| ==> errors[k].None?
    ensures LastAt(errors, i) ==> Latest(errors) == errors[i]
  {
    if errors != [] {
      LatestMeans(errors[..|errors| - 1], i);
    }
  }

  function OptionCalls(n: nat): seq<Call> {
    if n == 0 then [] else OptionCalls(n - 1) + [OptionRun(n - 1)]
  }

  function HandlerCalls(n: nat): seq<Call> {
    if n == 0 then [] else HandlerCalls(n - 1) + [Handler(n - 1)]
  }

  function Options(a: Attempt): seq<Option<Error>> {
    a.onRequest + a.extra
  }

  lemma LatestStep(errors: seq<Option<Error>>, n: nat)
    requires n < |errors|
    ensures Latest(errors[..n + 1]) == if errors[n].Some? then errors[n] else Latest(errors[..n])
  {
    assert errors[..n + 1][..n] == errors[..n];
  }

  /** Every option runs, even after a failure. */
  method ApplyOptions(a: Attempt) returns (e: Option<Error>, calls: seq<Call>)
    ensures e == Latest(Options(a))
    ensures calls == OptionCalls(|Options(a)|)
  {
    hide Latest;
    e, calls := None, [];
    assert Latest([]).None? by { NoErrors(); }
    for i := 0 to |a.onRequest|
      invariant e == Latest(Options(a)[..i])
      invariant calls == OptionCalls(i)
    {
      LatestStep(Options(a), i);
      calls := calls + [OptionRun(i)];
      if a.onRequest[i].Some? {
        e := a.onRequest[i];
      }
    }
    for i := 0 to |a.extra|
      invariant e == Latest(Options(a)[..|a.onRequest| + i])
      invariant calls == OptionCalls(|a.onRequest| + i)
    {
      LatestStep(Options(a), |a.onRequest| + i);
      calls := calls + [OptionRun(|a.onRequest| + i)];
      if a.extra[i].Some? {
        e := a.extra[i];
      }
    }
    assert Options(a)[..|Options(a)|] == Options(a);
  }

  lemma NoErrors()
    ensures Latest([]).None?
  {
  }

  /** The handlers all run; the error kept is the latest one, or the one from before. */
  method RunHandlers(handlers: seq<Option<Error>>, before: Option<Error>) returns (e: Option<Error>, calls: seq<Call>)
    ensures e == if Latest(handlers).Some? then Latest(handlers) else before
    ensures calls == HandlerCalls(|handlers|)
  {
    e, calls := before, [];
    for i := 0 to |handlers|
      invariant e == if Latest(handlers[..i]).Some? then Latest(handlers[..i]) else before
      invariant calls == HandlerCalls(i)
    {
      calls := calls + [Handler(i)];
      if handlers[i].Some? {
        e := handlers[i];
      }
      LatestStep(handlers, i);
    }
    assert handlers[..|handlers|] == handlers;
  }

  /** The request could be made and every option was applied. */
  predicate Prepared(a: Attempt) {
    a.newError.None? && Latest(Options(a)).None?
  }

  /** No answer, or one that asks for another try. */
  predicate Transient(r: Reply) {
    r.Failed? || r.code == 429 || r.code >= 500
  }

  /** The latest error any response handler returned. */
  function HandlerFailure(attempts: seq<Attempt>): Option<Error> {
    if attempts == [] then None
    else if Latest(attempts[|attempts| - 1].handlers).Some? then Latest(attempts[|attempts| - 1].handlers)
    else HandlerFailure(attempts[..|attempts| - 1])
  }

  /** The loop goes on after attempt j. */
  predicate GoesOn(attempts: seq<Attempt>, j: nat)
    requires j < |attempts|
  {
    Prepared(attempts[j]) && (HandlerFailure(attempts[..j + 1]).Some? || Transient(attempts[j].reply))
  }

  /** The request makes `used` of the attempts. */
  ghost predicate Uses(retries: nat, attempts: seq<Attempt>, used: nat) {
    && used <= |attempts| && (retries > 0 ==> used <= retries)
    && (forall j :: 0 <= j < used - 1 ==> GoesOn(attempts, j))
    && ((used > 0 && !GoesOn(attempts, used - 1)) || (if retries > 0 then used == retries else used == |attempts|))
  }

  /** What is returned after the last of the attempts made. */
  function Verdict(retries: nat, attempts: seq<Attempt>): Outcome {
    if attempts == [] then Running
    else
      var last := attempts[|attempts| - 1];
      if last.newError.Some? then RequestError(last.newError.value)
      else if Latest(Options(last)).Some? then OptionError(Latest(Options(last)).value)
      else if retries == 0 && GoesOn(attempts, |attempts| - 1) then Running
      else if HandlerFailure(attempts).Some? then HandlerError(HandlerFailure(attempts).value)
      else if last.reply.Failed? then RequestError(last.reply.error)
      else if 200 <= last.reply.code <= 299 then Response(last.reply.code) else HTTPError(last.reply.code)
  }

  /** Once the options ran, so do all handlers, whether or not the request was sent. */
  function CallsOf(a: Attempt): seq<Call> {
    if a.newError.Some? then [Made]
    else
      var applied := [Made] + OptionCalls(|Options(a)|);
      (if Latest(Options(a)).None? then applied + [Done] else applied) + HandlerCalls(|a.handlers|)
  }

  function AllCalls(attempts: seq<Attempt>): seq<Call> {
    if attempts == [] then [] else AllCalls(attempts[..|attempts| - 1]) + CallsOf(attempts[|attempts| - 1])
  }

  lemma {:induction false} CallsCount(n: nat)
    ensures |OptionCalls(n)| == |HandlerCalls(n)| == n
    ensures forall i :: 0 <= i < n ==> OptionCalls(n)[i] == OptionRun(i) && HandlerCalls(n)[i] == Handler(i)
  {
    if n > 0 {
      CallsCount(n - 1);
    }
  }

  /** The calls of one attempt whose request could be made: every option in order, then the request itself if none of
      them failed, then every handler in order. */
  lemma CallsAre(a: Attempt)
    requires a.newError.None?
    ensures var n := |a.onRequest| + |a.extra|;
            var calls, sent := CallsOf(a), if forall i :: 0 <= i < n ==> (a.onRequest + a.extra)[i].None? then 1 else 0;
            && |calls| == 1 + n + sent + |a.handlers| && calls[0] == Made
            && (forall i :: 0 <= i < n ==> calls[1 + i] == OptionRun(i))
            && (sent == 1 ==> calls[1 + n] == Done)
            && forall i :: 0 <= i < |a.handlers| ==> calls[1 + n + sent + i] == Handler(i)
  {
    hide Latest, OptionCalls, HandlerCalls;
    var n := |Options(a)|;
    var before := [Made] + OptionCalls(n) + if Latest(Options(a)).None? then [Done] else [];
    LatestMeans(Options(a), 0);
    CallsCount(n);
    CallsCount(|a.handlers|);
    assert CallsOf(a) == before + HandlerCalls(|a.handlers|);
  }

  lemma OneMore(attempts: seq<Attempt>, n: nat)
    requires n < |attempts|
    ensures HandlerFailure(attempts[..n + 1])
            == if Latest(attempts[n].handlers).Some? then Latest(attempts[n].handlers)
               else HandlerFailure(attempts[..n])
    ensures AllCalls(attempts[..n + 1]) == AllCalls(attempts[..n]) + CallsOf(attempts[n])
    ensures GoesOn(attempts, n)
            <==> Prepared(attempts[n])
                 && (HandlerFailure(attempts[..n + 1]).Some? || Transient(attempts[n].reply))
  {
    hide Latest, CallsOf, Prepared, Transient;
    assert attempts[..n + 1][..n] == attempts[..n];
  }

  lemma VerdictIs(retries: nat, attempts: seq<Attempt>, used: nat)
    requires 0 < used <= |attempts|
    ensures var last, failure := attempts[used - 1], HandlerFailure(attempts[..used]);
            Verdict(retries, attempts[..used])
            == if last.newError.Some? then RequestError(last.newError.value)
               else if Latest(Options(last)).Some? then OptionError(Latest(Options(last)).value)
               else if retries == 0 && GoesOn(attempts, used - 1) then Running
               else if failure.Some? then HandlerError(failure.value)
               else if last.reply.Failed? then RequestError(last.reply.error)
               else if 200 <= last.reply.code <= 299 then Response(last.reply.code) else HTTPError(last.reply.code)
  {
    hide Latest, Options, HandlerFailure;
    assert attempts[..used][..used] == attempts[..used] && attempts[..used][used - 1] == attempts[used - 1];
  }

  lemma Nothing()
    ensures HandlerFailure([]).None? && AllCalls([]) == []
    ensures Verdict(0, []) == Running
  {
  }

  /** Client.request, up to reading the body of an error response. */
  method Request(retries: nat, attempts: seq<Attempt>) returns (r: Outcome, calls: seq<Call>, used: nat)
    requires retries > 0 ==> |attempts| >= retries
    ensures Uses(retries, attempts, used)
    ensures r == Verdict(retries, attempts[..used])
    ensures calls == AllCalls(attempts[..used])
  {
    hide Latest, Options, OptionCalls, HandlerCalls, HandlerFailure, AllCalls, Verdict, GoesOn;
    Nothing();
    var onRespErr: Option<Error> := None;
    var doErr: Option<Error> := None;
    var status := 0;
    calls, used := [], 0;
    while retries < 1 || used < retries
      invariant used <= |attempts| && (retries > 0 ==> used <= retries)
      invariant forall j :: 0 <= j < used ==> GoesOn(attempts, j)
      invariant onRespErr == HandlerFailure(attempts[..used])
      invariant calls == AllCalls(attempts[..used])
      invariant used > 0 ==> Prepared(attempts[used - 1])
      invariant used > 0 ==>
                  match attempts[used - 1].reply
                  case Failed(e) => doErr == Some(e)
                  case Status(s) => doErr.None? && status == s
      decreases |attempts| - used
    {
      if used == |attempts| {
        if used > 0 {
          VerdictIs(retries, attempts, used);
        } else {
          assert attempts[..0] == [];
        }
        return Running, calls, used;
      }
      var a := attempts[used];
      OneMore(attempts, used);
      used := used + 1;
      var made := [Made];
      VerdictIs(retries, attempts, used);
      if a.newError.Some? {
        return RequestError(a.newError.value), calls + made, used;
      }
      var e, ran := ApplyOptions(a);
      made := made + ran;
      if e.Some? {
        var _, handled := RunHandlers(a.handlers, None);
        return OptionError(e.value), calls + (made + handled), used;
      }
      made := made + [Done];
      match a.reply {
        case Failed(err) => doErr := Some(err);
        case Status(_) => doErr := None;
      }
      var handled;
      onRespErr, handled := RunHandlers(a.handlers, onRespErr);
      calls := calls + (made + handled);
      if a.reply.Status? {
        status := a.reply.code;
      }
      if onRespErr.Some? || doErr.Some? {
        continue;
      }
      if status == 429 || status >= 500 {
        continue;
      }
      break;
    }
    VerdictIs(retries, attempts, used);
    r := if onRespErr.Some? then HandlerError(onRespErr.value)
         else if doErr.Some? then RequestError(doErr.value)
         else if status < 200 || status > 299 then HTTPError(status)
         else Response(status);
  }

  // How a request ends.

  predicate NoneFailed(errors: seq<Option<Error>>) {
    forall i :: 0 <= i < |errors| ==> errors[i].None?
  }

  /** The request is made, and no option and no response handler fails. */
  predicate Clean(a: Attempt) {
    a.newError.None? && NoneFailed(a.onRequest) && NoneFailed(a.extra) && NoneFailed(a.handlers)
  }

  lemma CleanMeans(a: Attempt)
    ensures Clean(a) <==> Prepared(a) && Latest(a.handlers).None?
  {
    hide Latest;
    LatestMeans(Options(a), 0);
    LatestMeans(a.handlers, 0);
    forall i | 0 <= i < |Options(a)| ensures Options(a)[i]
        == if i < |a.onRequest| then a.onRequest[i] else a.extra[i - |a.onRequest|] {
    }
    assert forall i :: 0 <= i < |a.onRequest| ==> a.onRequest[i] == Options(a)[i];
    assert forall i :: 0 <= i < |a.extra| ==> a.extra[i] == Options(a)[|a.onRequest| + i];
  }

  /** Attempt k is reached: nothing but unanswered requests, 429 and server errors came before. */
  predicate Reached(attempts: seq<Attempt>, k: nat)
    requires k < |attempts|
  {
    forall j :: 0 <= j < k ==>
      && Clean(attempts[j])
      && (attempts[j].reply.Failed? || attempts[j].reply.code == 429 || attempts[j].reply.code >= 500)
  }

  /** Attempt k is answered with success. */
  predicate SucceedsAt(attempts: seq<Attempt>, k: nat)
    requires k < |attempts|
  {
    Reached(attempts, k) && Clean(attempts[k])
    && attempts[k].reply.Status? && 200 <= attempts[k].reply.code <= 299
  }

  lemma {:induction false} NoHandlerFailure(attempts: seq<Attempt>)
    ensures HandlerFailure(attempts).None? <==> forall j :: 0 <= j < |attempts| ==> Latest(attempts[j].handlers).None?
  {
    if attempts != [] {
      NoHandlerFailure(attempts[..|attempts| - 1]);
    }
  }

  /** Success, exactly: one attempt succeeds, within the retries, and until then nothing but
      transient failures happened. In particular no response handler may have failed, ever. */
  lemma SuccessIff(retries: nat, attempts: seq<Attempt>, used: nat)
    requires Uses(retries, attempts, used)
    ensures Verdict(retries, attempts[..used]).Response?
            <==> exists k :: 0 <= k < |attempts| && (retries > 0 ==> k < retries) && SucceedsAt(attempts, k)
  {
    hide Latest, Options, HandlerFailure;
    if Verdict(retries, attempts[..used]).Response? {
      ResponseIsSuccess(retries, attempts, used);
    }
    if k :| 0 <= k < |attempts| && (retries > 0 ==> k < retries) && SucceedsAt(attempts, k) {
      AnswerIsFinal(retries, attempts, used, k);
    }
  }

  lemma ResponseIsSuccess(retries: nat, attempts: seq<Attempt>, used: nat)
    requires Uses(retries, attempts, used) && Verdict(retries, attempts[..used]).Response?
    ensures used > 0 && SucceedsAt(attempts, used - 1)
  {
    hide Latest, Options, HandlerFailure, Clean;
    NoHandlerFailure(attempts[..used]);
    forall j | 0 <= j < used ensures Latest(attempts[j].handlers).None? {
      assert attempts[..used][j] == attempts[j];
    }
    forall j | 0 <= j < used - 1 ensures Clean(attempts[j]) && Transient(attempts[j].reply) {
      NoHandlerFailure(attempts[..j + 1]);
      assert GoesOn(attempts, j);
      CleanMeans(attempts[j]);
    }
    CleanMeans(attempts[used - 1]);
  }

  lemma ReachedGoesOn(attempts: seq<Attempt>, k: nat)
    requires k < |attempts| && Reached(attempts, k)
    ensures forall j :: 0 <= j < k ==> GoesOn(attempts, j)
    ensures HandlerFailure(attempts[..k]).None?
  {
    hide Latest, Options, HandlerFailure, Clean;
    forall j | 0 <= j < k ensures GoesOn(attempts, j) && Latest(attempts[j].handlers).None? {
      CleanMeans(attempts[j]);
    }
    NoHandlerFailure(attempts[..k]);
  }

  /**
   The first answer that is neither 429 nor a server error ends the request there, with exactly that status:
   as a response from 200 to 299, and as an HTTP error below 200, from 300 to 428 and from 430 to 499.
   */
  lemma AnswerIsFinal(retries: nat, attempts: seq<Attempt>, used: nat, k: nat)
    requires Uses(retries, attempts, used) && k < |attempts| && (retries > 0 ==> k < retries)
    requires Reached(attempts, k) && Clean(attempts[k]) && attempts[k].reply.Status?
    requires attempts[k].reply.code < 429 || 430 <= attempts[k].reply.code < 500
    ensures used == k + 1
    ensures var code := attempts[k].reply.code;
            Verdict(retries, attempts[..used]) == if 200 <= code <= 299 then Response(code) else HTTPError(code)
  {
    hide Latest, Options, HandlerFailure, Clean;
    ReachedGoesOn(attempts, k);
    CleanMeans(attempts[k]);
    OneMore(attempts, k);
    assert !GoesOn(attempts, k);
    VerdictIs(retries, attempts, used);
  }

  /**
   When every attempt is unanswered, or answered with 429 or a server error, all retries are used up and the last
   of them decides: its own error, or an HTTP error of its status. Without a limit there is no end.
   */
  lemma RetriesRunOut(retries: nat, attempts: seq<Attempt>, used: nat)
    requires Uses(retries, attempts, used) && retries <= |attempts|
    requires forall j :: 0 <= j < |attempts| ==>
               Clean(attempts[j])
               && (attempts[j].reply.Failed? || attempts[j].reply.code == 429 || attempts[j].reply.code >= 500)
    ensures used == if retries > 0 then retries else |attempts|
    ensures Verdict(retries, attempts[..used])
            == if retries == 0 then Running
               else match attempts[retries - 1].reply
                    case Failed(e) => RequestError(e)
                    case Status(code) => HTTPError(code)
  {
    hide Latest, Options, HandlerFailure, Clean;
    if used == 0 {
      Nothing();
    } else {
      ReachedGoesOn(attempts, used - 1);
      CleanMeans(attempts[used - 1]);
      OneMore(attempts, used - 1);
      assert GoesOn(attempts, used - 1);
      VerdictIs(retries, attempts, used);
    }
  }

  /**
   A request that cannot be made, or one of whose options fails, is not retried: the error comes back at once,
   for the options the last of theirs.
   */
  lemma PreparationIsFinal(retries: nat, attempts: seq<Attempt>, used: nat, k: nat, i: nat)
    requires Uses(retries, attempts, used) && k < |attempts| && (retries > 0 ==> k < retries)
    requires Reached(attempts, k)
    ensures attempts[k].newError.Some? ==>
              used == k + 1 && Verdict(retries, attempts[..used]) == RequestError(attempts[k].newError.value)
    ensures attempts[k].newError.None? && LastAt(attempts[k].onRequest + attempts[k].extra, i) ==>
              && used == k + 1
              && Verdict(retries, attempts[..used])
                 == OptionError((attempts[k].onRequest + attempts[k].extra)[i].value)
  {
    hide Latest, HandlerFailure, Clean;
    ReachedGoesOn(attempts, k);
    LatestMeans(Options(attempts[k]), i);
    if attempts[k].newError.Some? || LastAt(Options(attempts[k]), i) {
      assert !GoesOn(attempts, k);
      VerdictIs(retries, attempts, used);
    }
  }

  /** A response handler that failed once makes every later success worthless: the request
      goes on until its retries are used up or a later attempt cannot be prepared. */
  lemma HandlerFailureLasts(retries: nat, attempts: seq<Attempt>, used: nat, k: nat)
    requires Uses(retries, attempts, used) && k < used
    requires Latest(attempts[k].handlers).Some?
    ensures !Verdict(retries, attempts[..used]).Response?
    ensures Prepared(attempts[used - 1]) ==> used == if retries > 0 then retries else |attempts|
  {
    hide Latest, Options, HandlerFailure;
    assert attempts[..used][k] == attempts[k];
    NoHandlerFailure(attempts[..used]);
  }

  /** What it is lost to: the latest error that a response handler ever returned, when the last attempt was prepared
      and the retries are limited. */
  lemma HandlerErrorIs(retries: nat, attempts: seq<Attempt>, used: nat, k: nat, i: nat)
    requires Uses(retries, attempts, used) && k < used && 0 < retries <= |attempts|
    requires LastAt(attempts[k].handlers, i)
    requires forall j :: k < j < used ==> NoneFailed(attempts[j].handlers)
    requires attempts[used - 1].newError.None?
    requires NoneFailed(attempts[used - 1].onRequest) && NoneFailed(attempts[used - 1].extra)
    ensures used == retries && Verdict(retries, attempts[..used]) == HandlerError(attempts[k].handlers[i].value)
  {
    hide Latest, Options, HandlerFailure, NoneFailed;
    LatestMeans(attempts[k].handlers, i);
    OptionsSucceed(attempts[used - 1]);
    HandlerFailureIs(attempts, used, k, i);
    HandlerFailureLasts(retries, attempts, used, k);
    VerdictIs(retries, attempts, used);
  }

  lemma OptionsSucceed(a: Attempt)
    requires a.newError.None? && NoneFailed(a.onRequest) && NoneFailed(a.extra)
    ensures Prepared(a)
  {
    LatestMeans(Options(a), 0);
    hide Latest;
  }

  lemma {:induction false} HandlerFailureIs(attempts: seq<Attempt>, used: nat, k: nat, i: nat)
    requires k < used <= |attempts| && LastAt(attempts[k].handlers, i)
    requires forall j :: k < j < used ==> NoneFailed(attempts[j].handlers)
    ensures HandlerFailure(attempts[..used]) == attempts[k].handlers[i]
  {
    hide Latest, HandlerFailure, NoneFailed, LastAt;
    FailureStep(attempts, used - 1);
    if k < used - 1 {
      NoLatest(attempts[used - 1].handlers);
      HandlerFailureIs(attempts, used - 1, k, i);
    } else {
      LastIsSome(attempts[k].handlers, i);
    }
  }

  lemma FailureStep(attempts: seq<Attempt>, n: nat)
    requires n < |attempts|
    ensures HandlerFailure(attempts[..n + 1])
            == if Latest(attempts[n].handlers).Some? then Latest(attempts[n].handlers)
               else HandlerFailure(attempts[..n])
  {
    hide Latest;
    assert attempts[..n + 1][..n] == attempts[..n];
  }

  lemma NoLatest(errors: seq<Option<Error>>)
    requires NoneFailed(errors)
    ensures Latest(errors).None?
  {
    hide Latest;
    LatestMeans(errors, 0);
  }

  lemma LastIsSome(errors: seq<Option<Error>>, i: nat)
    requires LastAt(errors, i)
    ensures i < |errors| && errors[i].Some? && Latest(errors) == errors[i]
  {
    hide Latest;
    LatestMeans(errors, i);
  }

  /** So a perfect second attempt is lost when a response handler failed after a perfect first one. */
  lemma GoodAnswerIsLost(e: Error)
    ensures var attempts := [Attempt(None, [], [], Status(200), [Some(e)]), Attempt(None, [], [], Status(200), [None])];
            && Uses(2, attempts, 2) && Verdict(2, attempts[..2]) == HandlerError(e)
            && SucceedsAt(attempts[1..], 0)
  {
    var attempts := [Attempt(None, [], [], Status(200), [Some(e)]), Attempt(None, [], [], Status(200), [None])];
    assert Latest([Some(e)]) == Some(e) && Latest([None]) == None by { OneError(Some(e)); OneError(None); }
    assert Prepared(attempts[0]) && Prepared(attempts[1]);
    assert attempts[..1] == [attempts[0]] && attempts[..2] == attempts;
    OneMore(attempts, 0);
    OneMore(attempts, 1);
    VerdictIs(2, attempts, 2);
  }

  lemma OneError(e: Option<Error>)
    ensures Latest([e]) == e
  {
    assert [e][..0] == [];
  }

  // Every attempt gives back what it takes.

  /** What a call does to the lock. */
  function Locked(before: Option<bool>, c: Call, acquire: nat, release: nat): Option<bool> {
    if before.None? then None
    else if c == OptionRun(acquire) then (if before.value then None else Some(true))
    else if c == Handler(release) then (if before.value then Some(false) else None)
    else before
  }

  /** The lock of a bucket, taken by option `acquire` and given back by handler `release`, after
      some calls; None once it was taken twice or given back while free. */
  function LockAfter(calls: seq<Call>, acquire: nat, release: nat): Option<bool> {
    if calls == [] then Some(false)
    else Locked(LockAfter(calls[..|calls| - 1], acquire, release), calls[|calls| - 1], acquire, release)
  }

  lemma LockStep(calls: seq<Call>, c: Call, acquire: nat, release: nat)
    ensures LockAfter(calls + [c], acquire, release) == Locked(LockAfter(calls, acquire, release), c, acquire, release)
  {
    hide Locked;
    assert (calls + [c])[..|calls|] == calls;
  }

  lemma {:induction false} OptionsTake(calls: seq<Call>, n: nat, acquire: nat, release: nat)
    requires LockAfter(calls, acquire, release) == Some(false)
    ensures LockAfter(calls + OptionCalls(n), acquire, release) == Some(acquire < n)
  {
    hide LockAfter;
    if n == 0 {
      assert calls + OptionCalls(0) == calls;
    } else {
      OptionsTake(calls, n - 1, acquire, release);
      LockStep(calls + OptionCalls(n - 1), OptionRun(n - 1), acquire, release);
      assert calls + OptionCalls(n) == calls + OptionCalls(n - 1) + [OptionRun(n - 1)];
    }
  }

  lemma {:induction false} HandlersGiveBack(calls: seq<Call>, n: nat, acquire: nat, release: nat)
    requires LockAfter(calls, acquire, release) == Some(true)
    ensures LockAfter(calls + HandlerCalls(n), acquire, release) == Some(release >= n)
  {
    hide LockAfter;
    if n == 0 {
      assert calls + HandlerCalls(0) == calls;
    } else {
      HandlersGiveBack(calls, n - 1, acquire, release);
      LockStep(calls + HandlerCalls(n - 1), Handler(n - 1), acquire, release);
      assert calls + HandlerCalls(n) == calls + HandlerCalls(n - 1) + [Handler(n - 1)];
    }
  }

  /** On every path the attempts of a request take the lock and give it back in turn, once per
      attempt whose request could be made, and leave it free. */
  lemma {:induction false} LockIsPaired(attempts: seq<Attempt>, acquire: nat, release: nat)
    requires forall a <- attempts :: acquire < |Options(a)| && release < |a.handlers|
    ensures LockAfter(AllCalls(attempts), acquire, release) == Some(false)
  {
    hide LockAfter, OptionCalls, HandlerCalls, Latest, Options;
    if attempts == [] {
      NothingCalled(acquire, release);
    } else {
      LockIsPaired(attempts[..|attempts| - 1], acquire, release);
      AttemptIsPaired(AllCalls(attempts[..|attempts| - 1]), attempts[|attempts| - 1], acquire, release);
    }
  }

  lemma AttemptIsPaired(before: seq<Call>, a: Attempt, acquire: nat, release: nat)
    requires LockAfter(before, acquire, release) == Some(false)
    requires acquire < |Options(a)| && release < |a.handlers|
    ensures LockAfter(before + CallsOf(a), acquire, release) == Some(false)
  {
    hide LockAfter, OptionCalls, HandlerCalls, Latest, Options;
    LockStep(before, Made, acquire, release);
    if a.newError.None? {
      var options := OptionCalls(|Options(a)|);
      var taken := before + [Made] + options;
      OptionsTake(before + [Made], |Options(a)|, acquire, release);
      Flat(before, [Made], options);
      if Latest(Options(a)).None? {
        LockStep(taken, Done, acquire, release);
        Flat(before, [Made] + options, [Done]);
        Flat(before, [Made] + options + [Done], HandlerCalls(|a.handlers|));
        HandlersGiveBack(taken + [Done], |a.handlers|, acquire, release);
      } else {
        Flat(before, [Made] + options, HandlerCalls(|a.handlers|));
        HandlersGiveBack(taken, |a.handlers|, acquire, release);
      }
    }
  }

  lemma Flat<T>(a: seq<T>, b: seq<T>, c: seq<T>)
    ensures a + (b + c) == a + b + c
  {
  }

  lemma NothingCalled(acquire: nat, release: nat)
    ensures LockAfter([], acquire, release) == Some(false)
  {
  }
}
