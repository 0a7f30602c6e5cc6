/** The global middleware chain (runtime/mux.go, ServeHTTP lines 108-130) against an
    independent reference: the context obtained by threading the first `n` middlewares. */
module MiddlewareChain {
  import opened MuxTypes
  import opened Pipeline

  /** The context after middlewares `0..n-1` all accepted, or `None` when one of them failed. */
  function ContextAfter(mws: seq<MiddlewareFunc>, r: HttpRequest, ctx: Context, n: nat): Option<Context>
    requires n <= |mws|
  {
    if n == 0 then Some(ctx)
    else
      match ContextAfter(mws, r, ctx, n - 1)
      case None => None
      case Some(c) =>
        match mws[n - 1](c, r)
        case Ok(next) => Some(next)
        case Err(_) => None
  }

  /** The events of calling middlewares `from..to-1`. */
  function MiddlewareCalls(from: nat, to: nat): seq<Event>
    requires from <= to
  {
    seq(to - from, j requires 0 <= j < to - from => MiddlewareCall(from + j))
  }

  /** `o` with `ev` before its events. */
  function Preceded(o: MiddlewareStage, ev: seq<Event>): MiddlewareStage {
    o.(events := ev + o.events)
  }

  lemma PrecededTwice(o: MiddlewareStage, ev1: seq<Event>, ev2: seq<Event>)
    ensures Preceded(Preceded(o, ev2), ev1) == Preceded(o, ev1 + ev2)
  {
    assert ev1 + (ev2 + o.events) == (ev1 + ev2) + o.events;
  }

  /** Once the first `i` middlewares have accepted, the chain continues from `i` with
      the threaded context, after the calls of `0..i-1`. */
  lemma {:induction false} ChainPrefix(mws: seq<MiddlewareFunc>, r: HttpRequest, ctx: Context, i: nat, c: Context)
    requires i <= |mws| && ContextAfter(mws, r, ctx, i) == Some(c)
    ensures RunMiddlewares(mws, r, 0, ctx) == Preceded(RunMiddlewares(mws, r, i, c), MiddlewareCalls(0, i))
    decreases i
  {
    if i == 0 {
      assert MiddlewareCalls(0, 0) == [];
      assert Preceded(RunMiddlewares(mws, r, 0, ctx), []) == RunMiddlewares(mws, r, 0, ctx);
    } else {
      ContextAfterStep(mws, r, ctx, i, c);
      var c0 := ContextAfter(mws, r, ctx, i - 1).value;
      ChainPrefix(mws, r, ctx, i - 1, c0);
      ChainStep(mws, r, i - 1, c0, c);
      PrecededTwice(RunMiddlewares(mws, r, i, c), MiddlewareCalls(0, i - 1), [MiddlewareCall(i - 1)]);
      CallsSnoc(i - 1);
    }
  }

  /** Middleware `i - 1` accepted, with the context the ones before it threaded. */
  lemma ContextAfterStep(mws: seq<MiddlewareFunc>, r: HttpRequest, ctx: Context, i: nat, c: Context)
    requires 0 < i <= |mws| && ContextAfter(mws, r, ctx, i) == Some(c)
    ensures ContextAfter(mws, r, ctx, i - 1).Some?
    ensures mws[i - 1](ContextAfter(mws, r, ctx, i - 1).value, r) == Ok(c)
  {
  }

  /** A middleware that accepts passes its context on to the next one. */
  lemma ChainStep(mws: seq<MiddlewareFunc>, r: HttpRequest, j: nat, c0: Context, c: Context)
    requires j < |mws| && mws[j](c0, r) == Ok(c)
    ensures RunMiddlewares(mws, r, j, c0) == Preceded(RunMiddlewares(mws, r, j + 1, c), [MiddlewareCall(j)])
  {
  }

  lemma CallsSnoc(j: nat)
    ensures MiddlewareCalls(0, j) + [MiddlewareCall(j)] == MiddlewareCalls(0, j + 1)
  {
  }

  /** The first middleware to fail stops the chain: its error is the outcome, and exactly
      the middlewares up to and including it were called. */
  lemma RejectedAt(mws: seq<MiddlewareFunc>, r: HttpRequest, ctx: Context, k: nat, c: Context, f: Failure)
    requires k < |mws| && ContextAfter(mws, r, ctx, k) == Some(c) && mws[k](c, r) == Err(f)
    ensures RunMiddlewares(mws, r, 0, ctx) == Rejected(f, MiddlewareCalls(0, k + 1))
  {
    ChainPrefix(mws, r, ctx, k, c);
    CallsSnoc(k);
  }

  /** When every middleware accepts, the chain passes on the threaded context after
      calling each middleware once, in order. */
  lemma PassedAll(mws: seq<MiddlewareFunc>, r: HttpRequest, ctx: Context, c: Context)
    requires ContextAfter(mws, r, ctx, |mws|) == Some(c)
    ensures RunMiddlewares(mws, r, 0, ctx) == Passed(c, MiddlewareCalls(0, |mws|))
  {
    ChainPrefix(mws, r, ctx, |mws|, c);
  }

  /** Either every middleware accepts, or there is a first one that fails. */
  lemma {:induction false} FirstRejection(mws: seq<MiddlewareFunc>, r: HttpRequest, ctx: Context, n: nat)
    requires n <= |mws|
    ensures ContextAfter(mws, r, ctx, n).None? ==>
              exists k :: 0 <= k < n && ContextAfter(mws, r, ctx, k).Some?
                          && mws[k](ContextAfter(mws, r, ctx, k).value, r).Err?
    decreases n
  {
    if n > 0 && ContextAfter(mws, r, ctx, n).None? {
      if ContextAfter(mws, r, ctx, n - 1).None? {
        FirstRejection(mws, r, ctx, n - 1);
      } else {
        assert mws[n - 1](ContextAfter(mws, r, ctx, n - 1).value, r).Err?;
      }
    }
  }

  /** The chain passes iff threading every middleware yields a context, and it then
      passes on exactly that context. */
  lemma PassedIff(mws: seq<MiddlewareFunc>, r: HttpRequest, ctx: Context)
    ensures RunMiddlewares(mws, r, 0, ctx).Passed? <==> ContextAfter(mws, r, ctx, |mws|).Some?
    ensures RunMiddlewares(mws, r, 0, ctx).Passed? ==>
              RunMiddlewares(mws, r, 0, ctx).ctx == ContextAfter(mws, r, ctx, |mws|).value
  {
    if ContextAfter(mws, r, ctx, |mws|).Some? {
      PassedAll(mws, r, ctx, ContextAfter(mws, r, ctx, |mws|).value);
    } else {
      FirstRejection(mws, r, ctx, |mws|);
      var k :| 0 <= k < |mws| && ContextAfter(mws, r, ctx, k).Some?
               && mws[k](ContextAfter(mws, r, ctx, k).value, r).Err?;
      var c := ContextAfter(mws, r, ctx, k).value;
      RejectedAt(mws, r, ctx, k, c, mws[k](c, r).error);
    }
  }
}
