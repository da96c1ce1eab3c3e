/** The subscription supervisor: the retry loop around the log subscription, the
    `isMonitoring` flag that `stop()` clears, and the dispatch of one log notice to the
    transfer handler.

    The ledger client is abstracted away. Each loop iteration's subscribe outcome (and
    whether `stop()` is called while that iteration awaits) is read from an input
    sequence; the subscribe attempts and the backoff sleeps are recorded as effects
    instead of being performed. For one log notice, the fetched transaction and whether
    each handler call throws are inputs, and the calls made are recorded in order. */
module Monitor {
  import opened Ledger
  import opened BalanceDiff

  /** The defaults of the `maxRetries` and `retryDelay` options (milliseconds). */
  const DefaultMaxRetries := 5
  const DefaultRetryDelay := 1000

  /** One iteration's environment: whether `onLogs` resolves (true) or rejects, and whether
      another task calls `stop()` while this iteration awaits `onLogs` or `sleep`. */
  datatype Attempt = Attempt(subscribed: bool, stopRequested: bool)

  /** What the loop asks of its environment: a subscribe call and its outcome, or a sleep
      of the given number of milliseconds. */
  datatype Effect = Subscribe(succeeded: bool) | Sleep(ms: int)

  /** Why the loop ended: the flag was clear at the loop head, the failure ceiling was hit
      (the `break`), the ceiling test failed at the loop head, or the input ran out (a
      limit of the model: the source's loop has no such end). */
  datatype Exit = Stopped | Exhausted | CeilingReached | InputEnded

  /** The effects of the rest of the loop, how it ends, and the flag it leaves behind. */
  datatype Run = Run(effects: seq<Effect>, exit: Exit, monitoring: bool)

  function Prepend(es: seq<Effect>, r: Run): Run {
    r.(effects := es + r.effects)
  }

  /** The loop `while (this.isMonitoring && retries < maxRetries)` from a loop head with the
      given flag and counter, run against the iterations in env. */
  function Retry(maxRetries: int, retryDelay: int, env: seq<Attempt>, monitoring: bool, retries: int): Run
    decreases |env|
  {
    if !monitoring then Run([], Stopped, false)
    else if retries >= maxRetries then Run([], CeilingReached, true)
    else if env == [] then Run([], InputEnded, true)
    else
      var a := env[0];
      var monitoring' := !a.stopRequested;
      if a.subscribed then
        Prepend([Subscribe(true)], Retry(maxRetries, retryDelay, env[1..], monitoring', 0))
      else if retries + 1 < maxRetries then
        Prepend([Subscribe(false), Sleep(retryDelay * (retries + 1))],
                Retry(maxRetries, retryDelay, env[1..], monitoring', retries + 1))
      else Run([Subscribe(false)], Exhausted, monitoring')
  }

  /** The same loop written as the method runs it: done holds the effects recorded so far,
      and the result carries them in front. It is not a second specification: it exists only
      to state the loop invariant of MonitorTokenTransfers, and LoopIsRetry reduces it to
      Retry. */
  function Loop(maxRetries: int, retryDelay: int, env: seq<Attempt>, monitoring: bool, retries: int,
                done: seq<Effect>): Run
    decreases |env|
  {
    if !monitoring then Run(done, Stopped, false)
    else if retries >= maxRetries then Run(done, CeilingReached, true)
    else if env == [] then Run(done, InputEnded, true)
    else
      var a := env[0];
      var monitoring' := !a.stopRequested;
      if a.subscribed then
        Loop(maxRetries, retryDelay, env[1..], monitoring', 0, done + [Subscribe(true)])
      else if retries + 1 < maxRetries then
        Loop(maxRetries, retryDelay, env[1..], monitoring', retries + 1,
             done + [Subscribe(false)] + [Sleep(retryDelay * (retries + 1))])
      else Run(done + [Subscribe(false)], Exhausted, monitoring')
  }

  /** The accumulating form and the recursive form of the loop agree. */
  lemma {:induction false} LoopIsRetry(maxRetries: int, retryDelay: int, env: seq<Attempt>, monitoring: bool,
                                       retries: int, done: seq<Effect>)
    ensures Loop(maxRetries, retryDelay, env, monitoring, retries, done) ==
            Prepend(done, Retry(maxRetries, retryDelay, env, monitoring, retries))
    decreases |env|
  {
    if monitoring && retries < maxRetries && env != [] {
      var a := env[0];
      if a.subscribed {
        LoopIsRetry(maxRetries, retryDelay, env[1..], !a.stopRequested, 0, done + [Subscribe(true)]);
        var rest := Retry(maxRetries, retryDelay, env[1..], !a.stopRequested, 0);
        assert done + [Subscribe(true)] + rest.effects == done + ([Subscribe(true)] + rest.effects);
      } else if retries + 1 < maxRetries {
        var head := [Subscribe(false)] + [Sleep(retryDelay * (retries + 1))];
        LoopIsRetry(maxRetries, retryDelay, env[1..], !a.stopRequested, retries + 1, done + head);
        var rest := Retry(maxRetries, retryDelay, env[1..], !a.stopRequested, retries + 1);
        assert done + [Subscribe(false)] + [Sleep(retryDelay * (retries + 1))] == done + head;
        assert done + head + rest.effects == done + (head + rest.effects);
      }
    } else {
      assert done + [] == done;
    }
  }

  /** The `logs` argument of the log callback: the signature and whether `logs.err` is set. */
  datatype LogNotice = LogNotice(signature: string, err: bool)

  /** The outcome of `getTransaction`: it rejects, or it resolves to a record or to null. */
  datatype FetchOutcome = FetchFailed | Fetched(transaction: Option<Transaction>)

  /** A call `processLogs` makes: the fetch of the transaction, or one handler call with the
      subscription context's slot. */
  datatype Call = GetTransaction(signature: string) | OnTransfer(transfer: Transfer, context: int)

  /** The notice reaches the handler loop: no error marker, the fetch resolves to a record,
      and the parse of that record succeeds. */
  predicate Deliverable(logs: LogNotice, fetched: FetchOutcome, target: Option<string>) {
    && !logs.err
    && fetched.Fetched?
    && fetched.transaction.Some?
    && TokenTransfers(fetched.transaction.value, target).Ok?
  }

  /** hs are the handler calls for ts: each transfer in order with the context, up to and
      including the first call that throws, and all of them when none throws. */
  predicate DeliveredInOrder(hs: seq<Call>, ts: seq<Transfer>, context: int, throws: nat -> bool) {
    && |hs| <= |ts|
    && (forall i :: 0 <= i < |hs| ==> hs[i] == OnTransfer(ts[i], context))
    && (forall i :: 0 <= i < |hs| - 1 ==> !throws(i))
    && (|hs| < |ts| ==> 0 < |hs| && throws(|hs| - 1))
  }

  class TokenMonitor {
    var isMonitoring: bool
    /** Every subscribe attempt and backoff sleep the monitor has made, in order. */
    var effects: seq<Effect>

    constructor ()
      ensures !isMonitoring && effects == []
    {
      isMonitoring := false;
      effects := [];
    }

    /** stop(): clears the flag, which the loop reads only at its head. */
    method Stop()
      modifies this`isMonitoring
      ensures !isMonitoring
      ensures old(!isMonitoring) ==> unchanged(this)
    {
      isMonitoring := false;
    }

    /** monitorTokenTransfers: sets the flag, then subscribes again and again. A success
        resets the counter; a failure increments it and either sleeps `retryDelay * retries`
        or, at the ceiling, leaves the loop. */
    method MonitorTokenTransfers(maxRetries: int, retryDelay: int, env: seq<Attempt>) returns (exit: Exit)
      modifies this
      ensures var r := Retry(maxRetries, retryDelay, env, true, 0);
              effects == old(effects) + r.effects && exit == r.exit && isMonitoring == r.monitoring
      ensures maxRetries <= 0 ==> effects == old(effects) && exit == CeilingReached
    {
      ghost var whole := Loop(maxRetries, retryDelay, env, true, 0, effects);
      LoopIsRetry(maxRetries, retryDelay, env, true, 0, effects);
      isMonitoring := true;
      var retries := 0;
      var i := 0;
      while isMonitoring && retries < maxRetries && i < |env|
        invariant 0 <= i <= |env| && 0 <= retries
        invariant whole == Loop(maxRetries, retryDelay, env[i..], isMonitoring, retries, effects)
        decreases |env| - i
      {
        var attempt := env[i];
        assert env[i..][0] == attempt && env[i..][1..] == env[i + 1..];
        effects := effects + [Subscribe(attempt.subscribed)];
        if attempt.stopRequested {
          Stop();
        }
        if attempt.subscribed {
          retries := 0;
        } else {
          retries := retries + 1;
          if retries < maxRetries {
            effects := effects + [Sleep(retryDelay * retries)];
          } else {
            // the `break`: nothing follows the loop
            return Exhausted;
          }
        }
        i := i + 1;
      }
      if !isMonitoring {
        exit := Stopped;
      } else if retries >= maxRetries {
        exit := CeilingReached;
      } else {
        assert env[i..] == [];
        exit := InputEnded;
      }
    }

    /** processLogs: a notice with its error marker set is dropped; otherwise the transaction
        is fetched and, if it is there and parses, the handler is called once per transfer,
        in order. A rejected fetch, a parse error and a throwing handler all land in the one
        `catch`, so a throw ends delivery for this transaction. */
    method ProcessLogs(logs: LogNotice, fetched: FetchOutcome, context: int, target: Option<string>,
                       handlerThrows: nat -> bool)
      returns (calls: seq<Call>)
      ensures logs.err ==> calls == []
      ensures !logs.err ==> 0 < |calls| && calls[0] == GetTransaction(logs.signature)
      ensures !logs.err && !Deliverable(logs, fetched, target) ==> calls == [GetTransaction(logs.signature)]
      ensures Deliverable(logs, fetched, target) ==>
        DeliveredInOrder(calls[1..], TokenTransfers(fetched.transaction.value, target).value, context, handlerThrows)
    {
      if logs.err {
        return [];
      }
      calls := [GetTransaction(logs.signature)];
      if fetched.FetchFailed? {
        return;
      }
      var transaction := fetched.transaction;
      if transaction.None? {
        return;
      }
      var parsed := ParseTokenTransfers(transaction.value, target);
      if parsed.Err? {
        return;
      }
      var handled := DeliverTransfers(parsed.value, context, handlerThrows);
      calls := calls + handled;
    }

    /** The handler loop of processLogs: one call per transfer, in order, until a call
        throws. */
    method DeliverTransfers(transfers: seq<Transfer>, context: int, handlerThrows: nat -> bool)
      returns (calls: seq<Call>)
      ensures DeliveredInOrder(calls, transfers, context, handlerThrows)
    {
      calls := [];
      var i := 0;
      while i < |transfers|
        invariant 0 <= i <= |transfers|
        invariant |calls| == i
        invariant forall j :: 0 <= j < i ==> calls[j] == OnTransfer(transfers[j], context)
        invariant forall j :: 0 <= j < i ==> !handlerThrows(j)
      {
        calls := calls + [OnTransfer(transfers[i], context)];
        if handlerThrows(i) {
          return;
        }
        i := i + 1;
      }
    }
  }
}
