/** The connection loop of ServeHTTP (runtime/mux.go lines 132-157): connections opened in
    registration order, a closer deferred for each one opened, fields merged last-write-wins. */
module ConnectionLifecycle {
  import opened MuxTypes
  import opened FieldMerge
  import opened Pipeline

  /** Handlers `0..n-1` all open a connection under `ctx`. */
  predicate ConnectsUpTo(hs: seq<Handler>, ctx: Context, n: nat)
    requires n <= |hs|
  {
    forall j :: 0 <= j < n ==> hs[j].createConnection(ctx).Ok?
  }

  /** The fields handler `h` contributes on the connection it opens under `ctx`
      (nothing when it cannot connect). */
  function ConnFields(h: Handler, ctx: Context, kind: FieldKind): Fields {
    match h.createConnection(ctx)
    case Ok(c) => h.FieldsOf(kind, Some(c))
    case Err(_) => map[]
  }

  /** The field maps of handlers `0..n-1`, in registration order. */
  function FieldMaps(hs: seq<Handler>, ctx: Context, kind: FieldKind, n: nat): seq<Fields>
    requires n <= |hs|
  {
    seq(n, j requires 0 <= j < n => ConnFields(hs[j], ctx, kind))
  }

  /** The merged map the loop builds from the first `n` handlers. */
  function MergedUpTo(hs: seq<Handler>, ctx: Context, kind: FieldKind, n: nat): Fields
    requires n <= |hs|
  {
    MergeAll(FieldMaps(hs, ctx, kind, n))
  }

  function Attempts(from: nat, to: nat): seq<Event>
    requires from <= to
  {
    seq(to - from, j requires 0 <= j < to - from => ConnectAttempt(from + j))
  }

  /** `0, 1, ..., n-1` */
  function Indices(n: nat): seq<nat> {
    seq(n, j requires 0 <= j < n => j)
  }

  /** `o` with `ev` before its events and `ds` before its deferred closers. */
  function Prefixed(o: ConnectStage, ev: seq<Event>, ds: seq<nat>): ConnectStage {
    o.(events := ev + o.events, deferred := ds + o.deferred)
  }

  lemma PrefixedTwice(o: ConnectStage, ev1: seq<Event>, ds1: seq<nat>, ev2: seq<Event>, ds2: seq<nat>)
    ensures Prefixed(Prefixed(o, ev2, ds2), ev1, ds1) == Prefixed(o, ev1 + ev2, ds1 + ds2)
  {
    assert ev1 + (ev2 + o.events) == (ev1 + ev2) + o.events;
    assert ds1 + (ds2 + o.deferred) == (ds1 + ds2) + o.deferred;
  }

  lemma MergedStep(hs: seq<Handler>, ctx: Context, kind: FieldKind, n: nat)
    requires n < |hs|
    ensures MergedUpTo(hs, ctx, kind, n + 1)
            == Overwrite(MergedUpTo(hs, ctx, kind, n), ConnFields(hs[n], ctx, kind))
  {
    assert FieldMaps(hs, ctx, kind, n + 1) == FieldMaps(hs, ctx, kind, n) + [ConnFields(hs[n], ctx, kind)];
    MergeSnoc(FieldMaps(hs, ctx, kind, n), ConnFields(hs[n], ctx, kind));
  }

  /** One turn of the loop for a handler that connects. */
  lemma LoopStep(hs: seq<Handler>, ctx: Context, j: nat)
    requires j < |hs| && hs[j].createConnection(ctx).Ok?
    ensures var rest := ConnectHandlers(hs, ctx, j + 1, MergedUpTo(hs, ctx, QueryFields, j + 1),
                                        MergedUpTo(hs, ctx, MutationFields, j + 1));
            ConnectHandlers(hs, ctx, j, MergedUpTo(hs, ctx, QueryFields, j),
                            MergedUpTo(hs, ctx, MutationFields, j))
            == Prefixed(rest, [ConnectAttempt(j)], [j])
  {
    MergedStep(hs, ctx, QueryFields, j);
    MergedStep(hs, ctx, MutationFields, j);
  }

  /** Before the first handler nothing is merged, attempted or deferred. */
  lemma LoopStart(hs: seq<Handler>, ctx: Context)
    ensures var o := ConnectHandlers(hs, ctx, 0, MergedUpTo(hs, ctx, QueryFields, 0),
                                     MergedUpTo(hs, ctx, MutationFields, 0));
            ConnectHandlers(hs, ctx, 0, map[], map[]) == Prefixed(o, Attempts(0, 0), Indices(0))
  {
    assert MergedUpTo(hs, ctx, QueryFields, 0) == map[] by {
      assert FieldMaps(hs, ctx, QueryFields, 0) == [];
    }
    assert MergedUpTo(hs, ctx, MutationFields, 0) == map[] by {
      assert FieldMaps(hs, ctx, MutationFields, 0) == [];
    }
    var o := ConnectHandlers(hs, ctx, 0, map[], map[]);
    assert Attempts(0, 0) == [] && Indices(0) == [];
    assert [] + o.events == o.events && [] + o.deferred == o.deferred;
  }

  /** After handlers `0..i-1` have connected, the loop continues from `i` with their
      fields merged, after attempting each of them and deferring each of their closers. */
  lemma {:induction false} LoopPrefix(hs: seq<Handler>, ctx: Context, i: nat)
    requires i <= |hs| && ConnectsUpTo(hs, ctx, i)
    ensures var rest := ConnectHandlers(hs, ctx, i, MergedUpTo(hs, ctx, QueryFields, i),
                                        MergedUpTo(hs, ctx, MutationFields, i));
            ConnectHandlers(hs, ctx, 0, map[], map[]) == Prefixed(rest, Attempts(0, i), Indices(i))
    decreases i
  {
    if i == 0 {
      LoopStart(hs, ctx);
    } else {
      var j := i - 1;
      LoopPrefix(hs, ctx, j);
      LoopStep(hs, ctx, j);
      var rest := ConnectHandlers(hs, ctx, i, MergedUpTo(hs, ctx, QueryFields, i),
                                  MergedUpTo(hs, ctx, MutationFields, i));
      PrefixedTwice(rest, Attempts(0, j), Indices(j), [ConnectAttempt(j)], [j]);
      AttemptsSnoc(j);
      IndicesSnoc(j);
    }
  }

  lemma AttemptsSnoc(j: nat)
    ensures Attempts(0, j) + [ConnectAttempt(j)] == Attempts(0, j + 1)
  {
  }

  lemma IndicesSnoc(j: nat)
    ensures Indices(j) + [j] == Indices(j + 1)
  {
  }

  /** Handler `i` failing to connect ends the loop: its message is the outcome, handlers
      `0..i` were attempted and the closers of exactly `0..i-1` are deferred. */
  lemma FailsAt(hs: seq<Handler>, ctx: Context, i: nat, e: string)
    requires i < |hs| && ConnectsUpTo(hs, ctx, i) && hs[i].createConnection(ctx) == Err(e)
    ensures ConnectHandlers(hs, ctx, 0, map[], map[]) == ConnectFailed(e, Attempts(0, i + 1), Indices(i))
  {
    LoopPrefix(hs, ctx, i);
    assert Attempts(0, i) + [ConnectAttempt(i)] == Attempts(0, i + 1);
    assert Indices(i) + [] == Indices(i);
  }

  /** When every handler connects, the loop yields the left-to-right merge of their fields,
      having attempted each handler once and deferred each closer once. */
  lemma ConnectsAll(hs: seq<Handler>, ctx: Context)
    requires ConnectsUpTo(hs, ctx, |hs|)
    ensures ConnectHandlers(hs, ctx, 0, map[], map[])
            == Connected(MergedUpTo(hs, ctx, QueryFields, |hs|), MergedUpTo(hs, ctx, MutationFields, |hs|),
                         Attempts(0, |hs|), Indices(|hs|))
  {
    LoopPrefix(hs, ctx, |hs|);
    assert Attempts(0, |hs|) + [] == Attempts(0, |hs|);
    assert Indices(|hs|) + [] == Indices(|hs|);
  }

  /** Either every handler connects, or there is a first one that does not. */
  lemma {:induction false} FirstConnectFailure(hs: seq<Handler>, ctx: Context, n: nat)
    requires n <= |hs|
    ensures !ConnectsUpTo(hs, ctx, n) ==>
              exists i :: 0 <= i < n && ConnectsUpTo(hs, ctx, i) && hs[i].createConnection(ctx).Err?
    decreases n
  {
    if n > 0 && !ConnectsUpTo(hs, ctx, n) {
      if ConnectsUpTo(hs, ctx, n - 1) {
        assert hs[n - 1].createConnection(ctx).Err?;
      } else {
        FirstConnectFailure(hs, ctx, n - 1);
      }
    }
  }

  /** The loop completes iff every handler connects. */
  lemma ConnectedIff(hs: seq<Handler>, ctx: Context)
    ensures ConnectHandlers(hs, ctx, 0, map[], map[]).Connected? <==> ConnectsUpTo(hs, ctx, |hs|)
  {
    if ConnectsUpTo(hs, ctx, |hs|) {
      ConnectsAll(hs, ctx);
    } else {
      FirstConnectFailure(hs, ctx, |hs|);
      var i :| 0 <= i < |hs| && ConnectsUpTo(hs, ctx, i) && hs[i].createConnection(ctx).Err?;
      FailsAt(hs, ctx, i, hs[i].createConnection(ctx).error);
    }
  }

  /** Each deferred closer runs once per time it was deferred. */
  lemma {:induction false} DeferredRunOnce(ds: seq<nat>, j: nat)
    ensures multiset(RunDeferred(ds))[Close(j)] == multiset(ds)[j]
    decreases |ds|
  {
    if ds != [] {
      var init := ds[..|ds| - 1];
      DeferredRunOnce(init, j);
      assert ds == init + [ds[|ds| - 1]];
    }
  }

  /** Deferred closers run last-in first-out: the k-th close is that of the k-th most
      recently deferred entry. */
  lemma {:induction false} DeferredLifo(ds: seq<nat>)
    ensures RunDeferred(ds) == seq(|ds|, k requires 0 <= k < |ds| => Close(ds[|ds| - 1 - k]))
    decreases |ds|
  {
    if ds != [] {
      var init := ds[..|ds| - 1];
      DeferredLifo(init);
      var closes := RunDeferred(ds);
      assert closes == [Close(ds[|ds| - 1])] + RunDeferred(init);
      forall k | 0 <= k < |ds| ensures closes[k] == Close(ds[|ds| - 1 - k]) {
        if k > 0 {
          assert closes[k] == RunDeferred(init)[k - 1] == Close(init[|init| - 1 - (k - 1)]);
        }
      }
    }
  }

  /** After handlers `0..n-1` connected, their closers run in reverse registration order. */
  lemma ClosersReversed(n: nat)
    ensures RunDeferred(Indices(n)) == seq(n, k requires 0 <= k < n => Close(n - 1 - k))
  {
    DeferredLifo(Indices(n));
  }

  /** `Indices(n)` holds each index below `n` once. */
  lemma {:induction false} IndicesOnce(n: nat, j: nat)
    ensures multiset(Indices(n))[j] == if j < n then 1 else 0
    decreases n
  {
    if n > 0 {
      IndicesOnce(n - 1, j);
      assert Indices(n) == Indices(n - 1) + [n - 1];
    }
  }

  /** Closing after `Indices(n)` runs the closer of each handler below `n` exactly once. */
  lemma ClosersOnce(n: nat, j: nat)
    ensures multiset(RunDeferred(Indices(n)))[Close(j)] == if j < n then 1 else 0
  {
    DeferredRunOnce(Indices(n), j);
    IndicesOnce(n, j);
  }
}
