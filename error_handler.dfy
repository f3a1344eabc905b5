// error_handler.py: recovery strategies and the handler that tries them in
// registration order. The context dict is an object the strategies update
// (`retry_count`); the operation it carries and the clock it sleeps on are
// outside the model, so the operation is an oracle indexed by call number
// and the sleeps are recorded rather than taken.
module ErrorHandling {
  import opened Results

  /** The class of a raised exception, as far as `isinstance` tells them apart. */
  datatype ErrorClass =
    | OSErrorFamily(name: string)   // OSError, its alias IOError, and subclasses such as TimeoutError
    | ValidationError
    | FFmpegError
    | AudioSeparationError
    | OtherError(name: string)

  /** The value found under `retry_count`: an int, or a value of some other type. */
  datatype Count = IntCount(n: int) | OtherCount(typeName: string)

  /** A registered strategy. */
  datatype Strategy =
    | Retry(maxRetries: int, delaySeconds: real)
    | Skip

  /** `RetryStrategy()` with its default arguments. */
  const DefaultRetry := Retry(3, 1.0)

  /** What `recover` did: returned True or False, or raised. */
  datatype RecoverOutcome = Recovered | NotRecovered | Raised(message: string)

  /**
   * The context as the strategies see it: the `retry_count` entry (absent
   * when None), the number of calls made so far to `operation`, and the
   * waits `time.sleep` was asked for, in order.
   */
  datatype Ctx = Ctx(retryCount: Option<Count>, calls: nat, waits: seq<real>)

  datatype Recovery = Recovery(outcome: RecoverOutcome, ctx: Ctx)

  /** `can_recover`. */
  predicate Claims(s: Strategy, e: ErrorClass)
  {
    match s
    case Retry(_, _) => e.OSErrorFamily?
    case Skip => e == ValidationError
  }

  /** No error is claimed by both kinds of strategy. */
  lemma ClaimsDisjoint(e: ErrorClass, maxRetries: int, delaySeconds: real)
    ensures !(Claims(Retry(maxRetries, delaySeconds), e) && Claims(Skip, e))
    ensures Claims(Skip, e) <==> e == ValidationError
  {
  }

  /** The TypeError `retry_count >= max_retries` raises for a non-int count. */
  function CompareError(typeName: string): string
  {
    "'>=' not supported between instances of '" + typeName + "' and 'int'"
  }

  /** How many more attempts `RetryStrategy.recover` may make from this context. */
  function Budget(maxRetries: int, c: Ctx): nat
  {
    match c.retryCount
    case None => if 0 < maxRetries then maxRetries else 0
    case Some(IntCount(n)) => if n < maxRetries then maxRetries - n else 0
    case Some(OtherCount(_)) => 0
  }

  /** `context.get('retry_count', 0)` when it is an int. */
  function CountValue(c: Ctx): int
    requires !(c.retryCount.Some? && c.retryCount.value.OtherCount?)
  {
    match c.retryCount
    case None => 0
    case Some(IntCount(n)) => n
  }

  /** The wait before the attempt made at count `count`. */
  function Wait(delay: real, count: int): real
  {
    delay * (count + 1) as real
  }

  /**
   * `RetryStrategy.recover`: give up once the count reaches the limit;
   * otherwise wait `delay * (count + 1)`, call the operation if there is one,
   * and on failure store `count + 1` and start again. `op(k)` says whether
   * the operation's k-th call returns normally.
   */
  function RetryRecovery(maxRetries: int, delay: real, c: Ctx, op: Option<nat -> bool>): Recovery
    decreases Budget(maxRetries, c)
  {
    if c.retryCount.Some? && c.retryCount.value.OtherCount? then
      Recovery(Raised(CompareError(c.retryCount.value.typeName)), c)
    else
      var count := CountValue(c);
      if count >= maxRetries then Recovery(NotRecovered, c)
      else
        var waited := c.(waits := c.waits + [Wait(delay, count)]);
        if op.None? then Recovery(NotRecovered, waited)
        else if op.value(c.calls) then Recovery(Recovered, waited.(calls := c.calls + 1))
        else
          RetryRecovery(maxRetries, delay, waited.(calls := c.calls + 1, retryCount := Some(IntCount(count + 1))), op)
  }

  /** `recover` of either strategy; `SkipStrategy` only logs, which is not modelled. */
  function Recover(s: Strategy, c: Ctx, op: Option<nat -> bool>): Recovery
  {
    match s
    case Retry(maxRetries, delay) => RetryRecovery(maxRetries, delay, c, op)
    case Skip => Recovery(Recovered, c)
  }

  /** `SkipStrategy.recover` always reports success and leaves the context alone. */
  lemma SkipRecovers(c: Ctx, op: Option<nat -> bool>)
    ensures Recover(Skip, c, op) == Recovery(Recovered, c)
  {
  }

  /** A count already at the limit: False, with no wait and no call. */
  lemma RetryExhausted(maxRetries: int, delay: real, c: Ctx, op: Option<nat -> bool>)
    requires c.retryCount.None? || c.retryCount.value.IntCount?
    requires CountValue(c) >= maxRetries
    ensures RetryRecovery(maxRetries, delay, c, op) == Recovery(NotRecovered, c)
  {
  }

  /** A count that is not an int: the comparison raises before anything happens. */
  lemma RetryBadCount(maxRetries: int, delay: real, c: Ctx, op: Option<nat -> bool>, typeName: string)
    requires c.retryCount == Some(OtherCount(typeName))
    ensures RetryRecovery(maxRetries, delay, c, op) == Recovery(Raised(CompareError(typeName)), c)
  {
  }

  /** No callable operation: one wait, then False, with the count untouched. */
  lemma RetryWithoutOperation(maxRetries: int, delay: real, c: Ctx)
    requires c.retryCount.None? || c.retryCount.value.IntCount?
    requires CountValue(c) < maxRetries
    ensures RetryRecovery(maxRetries, delay, c, None)
         == Recovery(NotRecovered, c.(waits := c.waits + [Wait(delay, CountValue(c))]))
  {
  }

  /**
   * With an operation and an int count below the limit, `recover` calls the
   * operation at most `maxRetries - count` times. It returns True exactly
   * when one of those calls succeeds, and then it stops at the first
   * success; otherwise it has spent the whole budget and left the count at
   * `maxRetries`. It never raises.
   */
  lemma {:induction false} RetryAttempts(maxRetries: int, delay: real, c: Ctx, op: Option<nat -> bool>, r: Recovery)
    requires op.Some? && (c.retryCount.None? || c.retryCount.value.IntCount?)
    requires r == RetryRecovery(maxRetries, delay, c, op)
    ensures !r.outcome.Raised?
    ensures c.calls <= r.ctx.calls <= c.calls + Budget(maxRetries, c)
    ensures forall k :: c.calls <= k < r.ctx.calls - 1 ==> !op.value(k)
    ensures r.outcome == Recovered <==> exists k :: c.calls <= k < c.calls + Budget(maxRetries, c) && op.value(k)
    ensures r.outcome == Recovered ==> r.ctx.calls > c.calls && op.value(r.ctx.calls - 1)
    ensures r.outcome == NotRecovered
            ==> r.ctx.calls == c.calls + Budget(maxRetries, c)
                && (r.ctx.calls > c.calls ==> r.ctx.retryCount == Some(IntCount(maxRetries)))
    decreases Budget(maxRetries, c)
  {
    var count := CountValue(c);
    if count < maxRetries {
      var waited := c.(waits := c.waits + [Wait(delay, count)]);
      if !op.value(c.calls) {
        var next := waited.(calls := c.calls + 1, retryCount := Some(IntCount(count + 1)));
        assert Budget(maxRetries, next) == Budget(maxRetries, c) - 1;
        assert RetryRecovery(maxRetries, delay, c, op) == RetryRecovery(maxRetries, delay, next, op);
        RetryAttempts(maxRetries, delay, next, op, r);
        if r.outcome == Recovered {
          var k :| next.calls <= k < next.calls + Budget(maxRetries, next) && op.value(k);
          assert c.calls <= k < c.calls + Budget(maxRetries, c);
        }
      }
    }
  }

  /**
   * One wait per call of the operation, the wait before the j-th call being
   * `delay * (count + j + 1)`: linear, not exponential, growth.
   */
  lemma {:induction false} RetryWaits(maxRetries: int, delay: real, c: Ctx, op: Option<nat -> bool>, r: Recovery)
    requires op.Some? && (c.retryCount.None? || c.retryCount.value.IntCount?)
    requires r == RetryRecovery(maxRetries, delay, c, op)
    ensures c.calls <= r.ctx.calls
    ensures |r.ctx.waits| == |c.waits| + (r.ctx.calls - c.calls)
    ensures r.ctx.waits[..|c.waits|] == c.waits
    ensures forall j :: |c.waits| <= j < |r.ctx.waits| ==>
              r.ctx.waits[j] == Wait(delay, CountValue(c) + (j - |c.waits|))
    decreases Budget(maxRetries, c)
  {
    var count := CountValue(c);
    if count < maxRetries {
      var waited := c.(waits := c.waits + [Wait(delay, count)]);
      if !op.value(c.calls) {
        var next := waited.(calls := c.calls + 1, retryCount := Some(IntCount(count + 1)));
        assert Budget(maxRetries, next) == Budget(maxRetries, c) - 1;
        assert RetryRecovery(maxRetries, delay, c, op) == RetryRecovery(maxRetries, delay, next, op);
        RetryWaits(maxRetries, delay, next, op, r);
        assert r.ctx.waits[..|c.waits|] == r.ctx.waits[..|next.waits|][..|c.waits|];
        forall j | |c.waits| <= j < |r.ctx.waits|
          ensures r.ctx.waits[j] == Wait(delay, count + (j - |c.waits|))
        {
          if j == |c.waits| {
            assert r.ctx.waits[j] == r.ctx.waits[..|next.waits|][j];
          }
        }
      }
    }
  }

  // ---------------------------------------------------------------------
  // The handler

  datatype Handling = Handling(handled: bool, ctx: Ctx)

  /** `handle` over the strategies in `ss`, in order, stopping at the first recovery. */
  function Tried(ss: seq<Strategy>, e: ErrorClass, c: Ctx, op: Option<nat -> bool>): Handling
  {
    if ss == [] then Handling(false, c)
    else
      var before := Tried(ss[..|ss| - 1], e, c, op);
      if before.handled || !Claims(ss[|ss| - 1], e) then before
      else
        var rec := Recover(ss[|ss| - 1], before.ctx, op);
        Handling(rec.outcome == Recovered, rec.ctx)
  }

  /** Once a prefix has handled the error, the later strategies are never consulted. */
  lemma {:induction false} TriedStops(ss: seq<Strategy>, e: ErrorClass, c: Ctx, op: Option<nat -> bool>, i: nat)
    requires i <= |ss| && Tried(ss[..i], e, c, op).handled
    ensures Tried(ss, e, c, op) == Tried(ss[..i], e, c, op)
    decreases |ss| - i
  {
    if i < |ss| {
      assert ss[..i + 1][..i] == ss[..i];
      TriedStops(ss, e, c, op, i + 1);
    } else {
      assert ss[..i] == ss;
    }
  }

  /**
   * `handle` returns True exactly when some strategy claims the error and
   * recovers from the context the strategies before it left behind; a
   * strategy that returns False or raises passes the error on.
   */
  lemma {:induction false} HandledIff(ss: seq<Strategy>, e: ErrorClass, c: Ctx, op: Option<nat -> bool>)
    ensures Tried(ss, e, c, op).handled
        <==> exists i :: 0 <= i < |ss| && Claims(ss[i], e)
               && Recover(ss[i], Tried(ss[..i], e, c, op).ctx, op).outcome == Recovered
  {
    if ss != [] {
      var n := |ss| - 1;
      var init := ss[..n];
      HandledIff(init, e, c, op);
      forall i | 0 <= i < n
        ensures init[..i] == ss[..i] && init[i] == ss[i]
      {
      }
      if Tried(ss, e, c, op).handled {
        if !Tried(init, e, c, op).handled {
          assert Claims(ss[n], e) && Recover(ss[n], Tried(ss[..n], e, c, op).ctx, op).outcome == Recovered;
        }
      } else {
        forall i | 0 <= i < |ss| && Claims(ss[i], e)
          ensures Recover(ss[i], Tried(ss[..i], e, c, op).ctx, op).outcome != Recovered
        {
          if i == n {
          } else {
            assert init[..i] == ss[..i];
          }
        }
      }
    }
  }

  /** No strategy claims the error: False, and the context is untouched. */
  lemma {:induction false} NoneClaims(ss: seq<Strategy>, e: ErrorClass, c: Ctx, op: Option<nat -> bool>)
    requires forall i :: 0 <= i < |ss| ==> !Claims(ss[i], e)
    ensures Tried(ss, e, c, op) == Handling(false, c)
  {
    if ss != [] {
      NoneClaims(ss[..|ss| - 1], e, c, op);
    }
  }

  /** A registered SkipStrategy handles every ValidationError. */
  lemma SkipHandlesValidation(ss: seq<Strategy>, c: Ctx, op: Option<nat -> bool>, i: nat)
    requires i < |ss| && ss[i] == Skip
    ensures Tried(ss, ValidationError, c, op).handled
  {
    HandledIff(ss, ValidationError, c, op);
    if !Tried(ss, ValidationError, c, op).handled {
      assert Recover(ss[i], Tried(ss[..i], ValidationError, c, op).ctx, op).outcome == Recovered;
    }
  }

  // ---------------------------------------------------------------------
  // The objects

  /** The `context` dict handed to `handle`. */
  class RecoveryContext {
    var retryCount: Option<Count>
    /** `context['operation']` when present and callable. */
    const operation: Option<nat -> bool>
    /** How often `operation` has been called. */
    var calls: nat
    /** The waits requested of `time.sleep`. */
    var waits: seq<real>

    constructor(retryCount: Option<Count>, operation: Option<nat -> bool>)
      ensures this.retryCount == retryCount && this.operation == operation
      ensures calls == 0 && waits == []
    {
      this.retryCount := retryCount;
      this.operation := operation;
      calls := 0;
      waits := [];
    }

    function State(): Ctx
      reads this
    {
      Ctx(retryCount, calls, waits)
    }

    /** `RetryStrategy.recover`, recursing as the source does after each failed call. */
    method RetryRecover(maxRetries: int, delay: real) returns (r: RecoverOutcome)
      modifies this
      ensures Recovery(r, State()) == RetryRecovery(maxRetries, delay, old(State()), operation)
      decreases Budget(maxRetries, State())
    {
      var count: int;
      match retryCount {
        case None => count := 0;
        case Some(IntCount(n)) => count := n;
        case Some(OtherCount(typeName)) =>
          return Raised(CompareError(typeName));
      }
      if count >= maxRetries {
        return NotRecovered;
      }
      waits := waits + [Wait(delay, count)];
      if operation.None? {
        return NotRecovered;
      }
      var ok := operation.value(calls);
      calls := calls + 1;
      if ok {
        return Recovered;
      }
      retryCount := Some(IntCount(count + 1));
      r := RetryRecover(maxRetries, delay);
    }

    /** `strategy.recover(error, context)`. */
    method RecoverWith(s: Strategy) returns (r: RecoverOutcome)
      modifies this
      ensures Recovery(r, State()) == Recover(s, old(State()), operation)
    {
      match s {
        case Retry(maxRetries, delay) =>
          r := RetryRecover(maxRetries, delay);
        case Skip =>
          r := Recovered;
      }
    }
  }

  /** `ErrorHandler`. */
  class ErrorHandler {
    var strategies: seq<Strategy>

    constructor()
      ensures strategies == []
    {
      strategies := [];
    }

    /** `add_strategy`. */
    method AddStrategy(s: Strategy)
      modifies this
      ensures strategies == old(strategies) + [s]
    {
      strategies := strategies + [s];
    }

    /** `handle`. */
    method Handle(e: ErrorClass, context: RecoveryContext) returns (r: bool)
      modifies context
      ensures Handling(r, context.State()) == Tried(strategies, e, old(context.State()), context.operation)
    {
      var i := 0;
      while i < |strategies|
        invariant i <= |strategies|
        invariant Tried(strategies[..i], e, old(context.State()), context.operation) == Handling(false, context.State())
      {
        assert strategies[..i + 1][..i] == strategies[..i];
        if Claims(strategies[i], e) {
          var outcome := context.RecoverWith(strategies[i]);
          if outcome == Recovered {
            TriedStops(strategies, e, old(context.State()), context.operation, i + 1);
            return true;
          }
        }
        i := i + 1;
      }
      assert strategies[..i] == strategies;
      return false;
    }
  }
}
