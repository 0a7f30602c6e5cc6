/** Directive dispatch (runtime/mux.go lines 203-237), stated independently of the order
    in which Go happens to iterate the maps involved. */
module DirectiveDispatch {
  import opened MuxTypes
  import opened Strings
  import opened MapOrder
  import opened Pipeline

  /** Directive `d` of method `m` is due for a query text: `m`'s name occurs in the
      text and `d` is registered for `m`. */
  ghost predicate Applies(dirs: DirectiveMap, query: string, m: string, d: string) {
    Contains(query, m) && m in dirs && d in dirs[m]
  }

  /** `methodNames` holds each query field name once and each mutation field name once,
      so a name defined in both maps is listed twice. */
  lemma MethodNamesCount(queries: Fields, mutations: Fields, order: Enumerator, x: string)
    requires IsEnumerator(order)
    ensures multiset(MethodNames(queries, mutations, order))[x]
            == (if x in queries then 1 else 0) + (if x in mutations then 1 else 0)
  {
    EnumerationCount(order(queries.Keys), queries.Keys, x);
    EnumerationCount(order(mutations.Keys), mutations.Keys, x);
  }

  /** A method's directives all pass iff none of those listed returns an error. */
  lemma {:induction false} RunDirectivesPassIff(ds: map<string, GraphQLMiddlewareFunc>, names: seq<string>,
                                                m: string, ctx: Context, r: HttpRequest)
    requires forall d :: d in names ==> d in ds
    ensures RunDirectives(ds, names, m, ctx, r).DirectivesPassed?
            <==> forall d :: d in names ==> ds[d](ctx, r, m).None?
    decreases |names|
  {
    if names != [] {
      RunDirectivesPassIff(ds, names[1..], m, ctx, r);
      assert forall d :: d in names <==> d == names[0] || d in names[1..];
    }
  }

  /** When they pass, each listed directive was called once per listing. */
  lemma {:induction false} RunDirectivesCalls(ds: map<string, GraphQLMiddlewareFunc>, names: seq<string>,
                                              m: string, ctx: Context, r: HttpRequest, d: string)
    requires forall d :: d in names ==> d in ds
    requires RunDirectives(ds, names, m, ctx, r).DirectivesPassed?
    ensures multiset(RunDirectives(ds, names, m, ctx, r).events)[DirectiveCall(m, d)] == multiset(names)[d]
    decreases |names|
  {
    if names != [] {
      RunDirectivesCalls(ds, names[1..], m, ctx, r, d);
      assert names == [names[0]] + names[1..];
    }
  }

  /** A failure is the error of one of the listed directives. */
  lemma {:induction false} RunDirectivesFailure(ds: map<string, GraphQLMiddlewareFunc>, names: seq<string>,
                                                m: string, ctx: Context, r: HttpRequest)
    requires forall d :: d in names ==> d in ds
    requires RunDirectives(ds, names, m, ctx, r).DirectiveFailed?
    ensures exists d :: d in names && ds[d](ctx, r, m) == Some(RunDirectives(ds, names, m, ctx, r).failure)
    decreases |names|
  {
    if ds[names[0]](ctx, r, m).None? {
      RunDirectivesFailure(ds, names[1..], m, ctx, r);
      var d :| d in names[1..] && ds[d](ctx, r, m) == Some(RunDirectives(ds, names[1..], m, ctx, r).failure);
      assert d in names;
    }
  }

  /** The dispatch passes iff no due directive of a listed method returns an error,
      whatever order the maps are iterated in. */
  lemma {:induction false} DispatchPassIff(dirs: DirectiveMap, methods: seq<string>, query: string,
                                           ctx: Context, r: HttpRequest, order: Enumerator)
    requires IsEnumerator(order)
    ensures Dispatch(dirs, methods, query, ctx, r, order).DirectivesPassed?
            <==> forall m, d :: m in methods && Applies(dirs, query, m, d) ==> dirs[m][d](ctx, r, m).None?
    decreases |methods|
  {
    if methods != [] {
      var m0 := methods[0];
      DispatchPassIff(dirs, methods[1..], query, ctx, r, order);
      assert forall m :: m in methods <==> m == m0 || m in methods[1..];
      if Contains(query, m0) && m0 in dirs {
        RunDirectivesPassIff(dirs[m0], order(dirs[m0].Keys), m0, ctx, r);
      }
    }
  }

  /** Every directive called was due for a listed method. */
  lemma {:induction false} DispatchCallsApply(dirs: DirectiveMap, methods: seq<string>, query: string,
                                              ctx: Context, r: HttpRequest, order: Enumerator)
    requires IsEnumerator(order)
    ensures forall e :: e in Dispatch(dirs, methods, query, ctx, r, order).events ==>
              e.methodName in methods && Applies(dirs, query, e.methodName, e.directive)
    decreases |methods|
  {
    if methods != [] {
      DispatchCallsApply(dirs, methods[1..], query, ctx, r, order);
    }
  }

  /** When the dispatch passes, each due directive of method `m` was called exactly as
      many times as `m` is listed, and no other directive was called. */
  lemma {:induction false} DispatchCalls(dirs: DirectiveMap, methods: seq<string>, query: string,
                                         ctx: Context, r: HttpRequest, order: Enumerator, m: string, d: string)
    requires IsEnumerator(order)
    requires Dispatch(dirs, methods, query, ctx, r, order).DirectivesPassed?
    ensures multiset(Dispatch(dirs, methods, query, ctx, r, order).events)[DirectiveCall(m, d)]
            == if Applies(dirs, query, m, d) then multiset(methods)[m] else 0
    decreases |methods|
  {
    if methods != [] {
      var m0 := methods[0];
      DispatchCalls(dirs, methods[1..], query, ctx, r, order, m, d);
      assert methods == [m0] + methods[1..];
      if Contains(query, m0) && m0 in dirs {
        var names := order(dirs[m0].Keys);
        RunDirectivesCalls(dirs[m0], names, m0, ctx, r, d);
        EnumerationCount(names, dirs[m0].Keys, d);
      }
    }
  }

  /** A failed dispatch reports the error of a due directive of a listed method. */
  lemma {:induction false} DispatchFailure(dirs: DirectiveMap, methods: seq<string>, query: string,
                                           ctx: Context, r: HttpRequest, order: Enumerator)
    requires IsEnumerator(order)
    requires Dispatch(dirs, methods, query, ctx, r, order).DirectiveFailed?
    ensures exists m, d :: m in methods && Applies(dirs, query, m, d)
                           && dirs[m][d](ctx, r, m) == Some(Dispatch(dirs, methods, query, ctx, r, order).failure)
    decreases |methods|
  {
    var m0 := methods[0];
    var f := Dispatch(dirs, methods, query, ctx, r, order).failure;
    if Contains(query, m0) && m0 in dirs && RunDirectives(dirs[m0], order(dirs[m0].Keys), m0, ctx, r).DirectiveFailed? {
      RunDirectivesFailure(dirs[m0], order(dirs[m0].Keys), m0, ctx, r);
      var d :| d in order(dirs[m0].Keys) && dirs[m0][d](ctx, r, m0) == Some(f);
      assert Applies(dirs, query, m0, d);
    } else {
      DispatchFailure(dirs, methods[1..], query, ctx, r, order);
      var m, d :| m in methods[1..] && Applies(dirs, query, m, d) && dirs[m][d](ctx, r, m) == Some(f);
      assert m in methods;
    }
  }

  // ---------------------------------------------------------------- over the merged maps

  /** Over `methodNames`: the dispatch passes iff no due directive of a query or mutation
      field returns an error. */
  lemma MethodDirectivesPassIff(dirs: DirectiveMap, queries: Fields, mutations: Fields, query: string,
                                ctx: Context, r: HttpRequest, order: Enumerator)
    requires IsEnumerator(order)
    ensures Dispatch(dirs, MethodNames(queries, mutations, order), query, ctx, r, order).DirectivesPassed?
            <==> forall m, d :: (m in queries || m in mutations) && Applies(dirs, query, m, d)
                                ==> dirs[m][d](ctx, r, m).None?
  {
    var names := MethodNames(queries, mutations, order);
    forall m ensures m in names <==> m in queries || m in mutations {
      MethodNamesCount(queries, mutations, order, m);
    }
    DispatchPassIff(dirs, names, query, ctx, r, order);
  }

  /** Over `methodNames`: when the dispatch passes, a due directive of `m` ran once for
      each of the two maps that defines `m`, so twice for a name that is both a query and
      a mutation; no other directive ran. */
  lemma MethodDirectivesCalls(dirs: DirectiveMap, queries: Fields, mutations: Fields, query: string,
                              ctx: Context, r: HttpRequest, order: Enumerator, m: string, d: string)
    requires IsEnumerator(order)
    requires Dispatch(dirs, MethodNames(queries, mutations, order), query, ctx, r, order).DirectivesPassed?
    ensures multiset(Dispatch(dirs, MethodNames(queries, mutations, order), query, ctx, r, order).events)[DirectiveCall(m, d)]
            == if Applies(dirs, query, m, d)
               then (if m in queries then 1 else 0) + (if m in mutations then 1 else 0)
               else 0
  {
    DispatchCalls(dirs, MethodNames(queries, mutations, order), query, ctx, r, order, m, d);
    MethodNamesCount(queries, mutations, order, m);
  }

  /** Over `methodNames`: a failed dispatch reports the error of a due directive of a
      query or mutation field. */
  lemma MethodDirectivesFailure(dirs: DirectiveMap, queries: Fields, mutations: Fields, query: string,
                                ctx: Context, r: HttpRequest, order: Enumerator)
    requires IsEnumerator(order)
    requires Dispatch(dirs, MethodNames(queries, mutations, order), query, ctx, r, order).DirectiveFailed?
    ensures exists m, d :: (m in queries || m in mutations) && Applies(dirs, query, m, d)
                           && dirs[m][d](ctx, r, m)
                              == Some(Dispatch(dirs, MethodNames(queries, mutations, order), query, ctx, r, order).failure)
  {
    var names := MethodNames(queries, mutations, order);
    DispatchFailure(dirs, names, query, ctx, r, order);
    var m, d :| m in names && Applies(dirs, query, m, d)
                && dirs[m][d](ctx, r, m) == Some(Dispatch(dirs, names, query, ctx, r, order).failure);
    MethodNamesCount(queries, mutations, order, m);
  }

  // ---------------------------------------------------------------- where a failure stops

  /** `e` is a call of a registered directive that returned no error. */
  ghost predicate CallPasses(dirs: DirectiveMap, e: Event, ctx: Context, r: HttpRequest) {
    && e.DirectiveCall? && e.methodName in dirs && e.directive in dirs[e.methodName]
    && dirs[e.methodName][e.directive](ctx, r, e.methodName).None?
  }

  /** `e` is a call of a registered directive that returned error `f`. */
  ghost predicate CallFails(dirs: DirectiveMap, e: Event, ctx: Context, r: HttpRequest, f: Failure) {
    && e.DirectiveCall? && e.methodName in dirs && e.directive in dirs[e.methodName]
    && dirs[e.methodName][e.directive](ctx, r, e.methodName) == Some(f)
  }

  /** The calls `ev` stop at error `f`: the last call returned it and every earlier call
      returned no error. */
  ghost predicate StopsAt(dirs: DirectiveMap, ev: seq<Event>, ctx: Context, r: HttpRequest, f: Failure) {
    && |ev| > 0
    && CallFails(dirs, ev[|ev| - 1], ctx, r, f)
    && forall k :: 0 <= k < |ev| - 1 ==> CallPasses(dirs, ev[k], ctx, r)
  }

  /** A method's directives stop at the first one that returns an error: it is the last
      one called, and its error is the outcome. */
  lemma {:induction false} RunStops(dirs: DirectiveMap, names: seq<string>, m: string, ctx: Context, r: HttpRequest)
    requires m in dirs && forall d :: d in names ==> d in dirs[m]
    requires RunDirectives(dirs[m], names, m, ctx, r).DirectiveFailed?
    ensures StopsAt(dirs, RunDirectives(dirs[m], names, m, ctx, r).events, ctx, r,
                    RunDirectives(dirs[m], names, m, ctx, r).failure)
    decreases |names|
  {
    var o := RunDirectives(dirs[m], names, m, ctx, r);
    var call := DirectiveCall(m, names[0]);
    if dirs[m][names[0]](ctx, r, m).None? {
      var rest := RunDirectives(dirs[m], names[1..], m, ctx, r);
      RunStops(dirs, names[1..], m, ctx, r);
      assert o.events == [call] + rest.events;
      forall k | 0 <= k < |o.events| - 1 ensures CallPasses(dirs, o.events[k], ctx, r) {
        if k > 0 {
          assert o.events[k] == rest.events[k - 1];
        }
      }
      assert o.events[|o.events| - 1] == rest.events[|rest.events| - 1];
    } else {
      assert o.events == [call];
    }
  }

  /** A failed dispatch stops at the first directive that returns an error: that call is
      the last one made, and every directive called before it returned no error. */
  lemma {:induction false} DispatchStops(dirs: DirectiveMap, methods: seq<string>, query: string,
                                         ctx: Context, r: HttpRequest, order: Enumerator)
    requires IsEnumerator(order)
    requires Dispatch(dirs, methods, query, ctx, r, order).DirectiveFailed?
    ensures StopsAt(dirs, Dispatch(dirs, methods, query, ctx, r, order).events, ctx, r,
                    Dispatch(dirs, methods, query, ctx, r, order).failure)
    decreases |methods|
  {
    var m0 := methods[0];
    var o := Dispatch(dirs, methods, query, ctx, r, order);
    if Contains(query, m0) && m0 in dirs {
      var names := order(dirs[m0].Keys);
      var here := RunDirectives(dirs[m0], names, m0, ctx, r);
      if here.DirectiveFailed? {
        RunStops(dirs, names, m0, ctx, r);
      } else {
        var rest := Dispatch(dirs, methods[1..], query, ctx, r, order);
        DispatchStops(dirs, methods[1..], query, ctx, r, order);
        RunPasses(dirs, names, m0, ctx, r);
        StopsAfter(dirs, here.events, rest.events, ctx, r, rest.failure);
      }
    } else {
      DispatchStops(dirs, methods[1..], query, ctx, r, order);
    }
  }

  /** When a method's directives pass, every call made returned no error. */
  lemma RunPasses(dirs: DirectiveMap, names: seq<string>, m: string, ctx: Context, r: HttpRequest)
    requires m in dirs && forall d :: d in names ==> d in dirs[m]
    requires RunDirectives(dirs[m], names, m, ctx, r).DirectivesPassed?
    ensures forall e :: e in RunDirectives(dirs[m], names, m, ctx, r).events ==> CallPasses(dirs, e, ctx, r)
  {
    RunDirectivesPassIff(dirs[m], names, m, ctx, r);
  }

  /** Calls that all passed, followed by calls that stop at `f`, stop at `f`. */
  lemma StopsAfter(dirs: DirectiveMap, passed: seq<Event>, ev: seq<Event>, ctx: Context, r: HttpRequest, f: Failure)
    requires forall e :: e in passed ==> CallPasses(dirs, e, ctx, r)
    requires StopsAt(dirs, ev, ctx, r, f)
    ensures StopsAt(dirs, passed + ev, ctx, r, f)
  {
    var all := passed + ev;
    forall k | 0 <= k < |all| - 1 ensures CallPasses(dirs, all[k], ctx, r) {
      if k < |passed| {
        assert all[k] == passed[k] && passed[k] in passed;
      } else {
        assert all[k] == ev[k - |passed|];
      }
    }
    assert all[|all| - 1] == ev[|ev| - 1];
  }

  /** Over `methodNames`: every directive called is due for a query or mutation field. */
  lemma MethodDirectivesDue(dirs: DirectiveMap, queries: Fields, mutations: Fields, query: string,
                            ctx: Context, r: HttpRequest, order: Enumerator)
    requires IsEnumerator(order)
    ensures forall e :: e in Dispatch(dirs, MethodNames(queries, mutations, order), query, ctx, r, order).events ==>
              (e.methodName in queries || e.methodName in mutations) && Applies(dirs, query, e.methodName, e.directive)
  {
    var names := MethodNames(queries, mutations, order);
    DispatchCallsApply(dirs, names, query, ctx, r, order);
    forall m | m in names ensures m in queries || m in mutations {
      MethodNamesCount(queries, mutations, order, m);
    }
  }
}
