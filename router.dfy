/** The router of jackie/router/router.py: an ordered, mutable table of
    routes and included sub-routers, flattened with prefixes, resolved by
    first match with 405, 404 and WebSocket-close fallbacks, and dispatched
    by ASGI scope type. */
module Routing {
  import opened Base
  import PathMatcher
  import Asgi
  import Responses
  import Streams

  type Matcher = PathMatcher.Matcher

  /** The `methods` argument of `route`: one method name or a collection. */
  datatype Methods = One(name: string) | Many(names: set<string>)

  /** The `matcher` argument of `route` and `include`: a `Matcher`, or a
      pattern string to compile. */
  datatype Pattern = Given(matcher: Matcher) | Text(pattern: string)

  /** An entry of `_routes`: `(methods, matcher, view)`, or
      `(None, matcher, router)` for an include. */
  datatype Entry =
    | RouteEntry(methods: set<string>, matcher: Matcher, view: Asgi.View)
    | IncludeEntry(matcher: Matcher, router: Router)

  /** What `_flat_routes` yields. */
  datatype Flat = Flat(methods: set<string>, matcher: Matcher, view: Asgi.View)

  /** A keyword argument passed to a view: a path parameter, or the set of
      allowed methods handed to `method_not_allowed`. */
  datatype Arg = PathArg(value: PathMatcher.Value) | MethodsArg(methods: set<string>)

  type Bindings = map<string, Arg>

  /** `ResolvedView(view, params)`. */
  datatype Resolved = Resolved(view: Asgi.View, params: Bindings)

  /** The three fallback views of a router. */
  datatype Handlers = Handlers(notFound: Asgi.View, methodNotAllowed: Asgi.View, websocketNotFound: Asgi.View)

  const WEBSOCKET: string := "WEBSOCKET"

  /** The module-level handlers a new router starts with. */
  const NOT_FOUND: Asgi.View := Asgi.NativeView("not_found")
  const METHOD_NOT_ALLOWED: Asgi.View := Asgi.NativeView("method_not_allowed")
  const WEBSOCKET_NOT_FOUND: Asgi.View := Asgi.AsgiWrapped(Asgi.Jackie, Asgi.AsgiApp("websocket_not_found"))

  function MethodSet(m: Methods): (r: set<string>)
    ensures m.One? ==> r == {m.name}
    ensures m.Many? ==> r == m.names
  {
    match m
    case One(name) => {name}
    case Many(names) => names
  }

  /** `matcher if isinstance(matcher, Matcher) else Matcher(matcher)` */
  function MatcherOf(p: Pattern): Result<Matcher, Exception> {
    match p
    case Given(m) => Ok(m)
    case Text(s) =>
      match PathMatcher.Compiled(s)
      case Ok(parts) => Ok(PathMatcher.Matcher(parts))
      case Err(e) => Err(e)
  }

  method MakeMatcher(p: Pattern) returns (r: Result<Matcher, Exception>)
    ensures r == MatcherOf(p)
  {
    match p {
      case Given(m) =>
        return Ok(m);
      case Text(s) =>
        var parts := PathMatcher.Compile(s);
        if parts.Err? {
          return Err(parts.error);
        }
        return Ok(PathMatcher.Matcher(parts.value));
    }
  }

  /** `prefix + matcher` when there is a prefix. */
  function Prefixed(prefix: Option<Matcher>, m: Matcher): Matcher {
    if prefix.None? then m else PathMatcher.Add(prefix.value, m)
  }

  // ---------------------------------------------------------------------
  // The route table

  /** Every router included by `entries` lies in `repr` with its whole
      footprint, and is itself valid. */
  ghost predicate EntriesWithin(entries: seq<Entry>, repr: set<object>)
    reads repr
  {
    forall i | 0 <= i < |entries| && entries[i].IncludeEntry? ::
      var sub := entries[i].router;
      sub in repr && sub.Repr <= repr && sub.Valid()
  }

  /** `_flat_routes(prefix=prefix)` over the given entries. */
  function FlattenEntries(entries: seq<Entry>, prefix: Option<Matcher>, ghost repr: set<object>): seq<Flat>
    requires EntriesWithin(entries, repr)
    reads repr
    decreases repr, 1, |entries|
  {
    if entries == [] then []
    else
      var init := entries[..|entries| - 1];
      var e := entries[|entries| - 1];
      var m := Prefixed(prefix, e.matcher);
      assert EntriesWithin(init, repr) by {
        forall i | 0 <= i < |init| && init[i].IncludeEntry?
          ensures init[i].router in repr && init[i].router.Repr <= repr && init[i].router.Valid()
        {
          assert init[i] == entries[i];
        }
      }
      FlattenEntries(init, prefix, repr) +
      match e
      case RouteEntry(methods, _, view) => [Flat(methods, m, view)]
      case IncludeEntry(_, sub) =>
        assert entries[|entries| - 1].IncludeEntry?;
        sub.Flatten(Some(m))
  }

  class Router {
    /** `_routes`, in registration order. */
    var routes: seq<Entry>
    var notFound: Asgi.View
    var methodNotAllowed: Asgi.View
    /** `_websocket_not_found` has no setter. */
    const websocketNotFound: Asgi.View
    /** This router and every router it reaches through its includes. */
    ghost var Repr: set<object>

    /** The include graph below this router is acyclic. */
    ghost predicate Valid()
      reads this, Repr
      decreases Repr
    {
      && this in Repr
      && forall i | 0 <= i < |routes| && routes[i].IncludeEntry? ::
           var sub := routes[i].router;
           sub in Repr && sub != this && sub.Repr <= Repr && this !in sub.Repr && sub.Valid()
    }

    function Fallbacks(): Handlers
      reads this
    {
      Handlers(notFound, methodNotAllowed, websocketNotFound)
    }

    /** `_flat_routes(prefix=prefix)` */
    function Flatten(prefix: Option<Matcher>): seq<Flat>
      requires Valid()
      reads this, Repr
      decreases Repr, 0, 0
    {
      assert EntriesWithin(routes, Repr - {this}) by {
        forall i | 0 <= i < |routes| && routes[i].IncludeEntry?
          ensures routes[i].router in Repr - {this}
        {
        }
      }
      FlattenEntries(routes, prefix, Repr - {this})
    }

    /** `_flat_routes(prefix)` of the first `n` entries only. */
    function FlattenTo(n: nat, prefix: Option<Matcher>): seq<Flat>
      requires Valid() && n <= |routes|
      reads this, Repr
    {
      EntriesSlice(routes, 0, n, Repr - {this});
      FlattenEntries(routes[..n], prefix, Repr - {this})
    }

    /** `_flat_routes(prefix)` of the entries from the `n`-th on. */
    function FlattenFrom(n: nat, prefix: Option<Matcher>): seq<Flat>
      requires Valid() && n <= |routes|
      reads this, Repr
    {
      EntriesSlice(routes, n, |routes|, Repr - {this});
      FlattenEntries(routes[n..], prefix, Repr - {this})
    }

    /** The flattening around include entry `k`. */
    lemma FlattenSplit(k: nat, prefix: Option<Matcher>)
      requires Valid() && k < |routes| && routes[k].IncludeEntry?
      ensures FlattenTo(k + 1, prefix)
              == FlattenTo(k, prefix) + routes[k].router.Flatten(Some(Prefixed(prefix, routes[k].matcher)))
      ensures Flatten(prefix) == FlattenTo(k + 1, prefix) + FlattenFrom(k + 1, prefix)
    {
      var r := Repr - {this};
      EntriesSlice(routes, 0, k + 1, r);
      assert routes[..k + 1][..k] == routes[..k];
      assert routes[..k + 1] + routes[k + 1..] == routes;
      EntriesSlice(routes, k + 1, |routes|, r);
      FlattenAppend(routes[..k + 1], routes[k + 1..], prefix, r);
    }

    /** Around include entry `k` the flattening reads nothing of its router
        when no other include reaches it. */
    lemma Untouched(k: nat, prefix: Option<Matcher>)
      requires Valid() && k < |routes| && routes[k].IncludeEntry?
      requires forall j | 0 <= j < |routes| && j != k && routes[j].IncludeEntry? ::
                 routes[k].router !in routes[j].router.Repr
      ensures EntriesWithin(routes[..k], Repr - {this} - {routes[k].router})
      ensures EntriesWithin(routes[k + 1..], Repr - {this} - {routes[k].router})
      ensures FlattenTo(k, prefix) == FlattenEntries(routes[..k], prefix, Repr - {this} - {routes[k].router})
      ensures FlattenFrom(k + 1, prefix) == FlattenEntries(routes[k + 1..], prefix, Repr - {this} - {routes[k].router})
    {
      var sub := routes[k].router;
      var r := Repr - {this};
      var out := r - {sub};
      forall j | 0 <= j < |routes| && j != k && routes[j].IncludeEntry?
        ensures routes[j].router in out && routes[j].router.Repr <= out
      {
        assert routes[j].router in routes[j].router.Repr by {
          assert routes[j].router.Valid();
        }
      }
      EntriesSlice(routes, 0, k, r);
      EntriesSlice(routes, k + 1, |routes|, r);
      forall i | 0 <= i < k ensures routes[..k][i] == routes[i] { }
      forall i | k + 1 <= i < |routes| ensures routes[k + 1..][i - k - 1] == routes[i] { }
      FlattenWithin(routes[..k], prefix, out, r);
      FlattenWithin(routes[k + 1..], prefix, out, r);
    }

    /** `Router()`: no routes and the module's fallback views. */
    constructor ()
      ensures Valid() && Repr == {this}
      ensures routes == []
      ensures Fallbacks() == Handlers(NOT_FOUND, METHOD_NOT_ALLOWED, WEBSOCKET_NOT_FOUND)
    {
      routes := [];
      notFound := NOT_FOUND;
      methodNotAllowed := METHOD_NOT_ALLOWED;
      websocketNotFound := WEBSOCKET_NOT_FOUND;
      Repr := {this};
    }

    /** `route(methods, matcher, view)`, and each method shorthand, which is
        `route` with one method name. A pattern that does not compile raises
        before anything is appended. */
    method Route(methods: Methods, pattern: Pattern, view: Asgi.View) returns (err: Option<Exception>)
      requires Valid()
      modifies this
      ensures Valid() && Repr == old(Repr) && Fallbacks() == old(Fallbacks())
      ensures MatcherOf(pattern).Err? ==> err == Some(MatcherOf(pattern).error) && routes == old(routes)
      ensures MatcherOf(pattern).Ok? ==>
                && err == None
                && routes == old(routes) + [RouteEntry(MethodSet(methods), MatcherOf(pattern).value, view)]
                && forall prefix | old(allocated(prefix)) :: Flatten(prefix)
                     == old(Flatten(prefix)) + [Flat(MethodSet(methods), Prefixed(prefix, MatcherOf(pattern).value), view)]
    {
      var m := MakeMatcher(pattern);
      if m.Err? {
        return Some(m.error);
      }
      ghost var before := routes;
      routes := routes + [RouteEntry(MethodSet(methods), m.value, view)];
      assert routes[..|routes| - 1] == before;
      assert forall i | 0 <= i < |routes| && routes[i].IncludeEntry? :: i < |before| && routes[i] == before[i];
      return None;
    }

    /** `include(matcher, router)`. The source accepts a router that reaches
        this one through its own includes; the model requires the include
        graph to stay acyclic, because its flattening is a finite sequence. */
    method Include(pattern: Pattern, sub: Router) returns (err: Option<Exception>)
      requires Valid() && sub.Valid() && this !in sub.Repr
      modifies this
      ensures Valid() && Fallbacks() == old(Fallbacks())
      ensures MatcherOf(pattern).Err? ==>
                err == Some(MatcherOf(pattern).error) && routes == old(routes) && Repr == old(Repr)
      ensures MatcherOf(pattern).Ok? ==>
                && err == None
                && routes == old(routes) + [IncludeEntry(MatcherOf(pattern).value, sub)]
                && Repr == old(Repr) + sub.Repr
                && forall prefix | old(allocated(prefix)) :: Flatten(prefix)
                     == old(Flatten(prefix)) + sub.Flatten(Some(Prefixed(prefix, MatcherOf(pattern).value)))
    {
      var m := MakeMatcher(pattern);
      if m.Err? {
        return Some(m.error);
      }
      ghost var before := routes;
      ghost var inner := Repr - {this};
      assert EntriesWithin(before, inner) by {
        forall i | 0 <= i < |before| && before[i].IncludeEntry?
          ensures before[i].router in inner
        {
        }
      }
      routes := routes + [IncludeEntry(m.value, sub)];
      Repr := Repr + sub.Repr;
      assert routes[..|routes| - 1] == before;
      assert forall i | 0 <= i < |routes| - 1 :: routes[i] == before[i];
      assert Valid();
      forall prefix | old(allocated(prefix))
        ensures Flatten(prefix) == old(Flatten(prefix)) + sub.Flatten(Some(Prefixed(prefix, m.value)))
      {
        FlattenWithin(before, prefix, inner, Repr - {this});
        assert old(Flatten(prefix)) == FlattenEntries(before, prefix, inner);
      }
      return None;
    }

    /** The `not_found(view)` setter. */
    method SetNotFound(view: Asgi.View)
      requires Valid()
      modifies this
      ensures Valid() && routes == old(routes) && Repr == old(Repr)
      ensures Fallbacks() == old(Fallbacks()).(notFound := view)
    {
      notFound := view;
    }

    /** The `method_not_allowed(view)` setter. */
    method SetMethodNotAllowed(view: Asgi.View)
      requires Valid()
      modifies this
      ensures Valid() && routes == old(routes) && Repr == old(Repr)
      ensures Fallbacks() == old(Fallbacks()).(methodNotAllowed := view)
    {
      methodNotAllowed := view;
    }

    /** `_get_view(method, path)`: the loop over the flattened routes with
        its `else` clause. */
    method GetView(verb: string, path: string) returns (r: Resolved)
      requires Valid()
      ensures r == Resolve(Flatten(None), verb, path, {}, Fallbacks())
    {
      var flats := Flatten(None);
      var allowed: set<string> := {};
      var i := 0;
      while i < |flats|
        invariant i <= |flats|
        invariant Resolve(flats[i..], verb, path, allowed, Fallbacks()) == Resolve(flats, verb, path, {}, Fallbacks())
      {
        assert flats[i..][0] == flats[i] && flats[i..][1..] == flats[i + 1..];
        var m := PathMatcher.Match(flats[i].matcher, path);
        if m.Ok? {
          allowed := allowed + flats[i].methods;
          if verb in allowed {
            return Resolved(flats[i].view, PathArgs(m.value));
          }
        }
        i := i + 1;
      }
      if verb == WEBSOCKET {
        r := Resolved(websocketNotFound, map[]);
      } else if allowed != {} {
        r := Resolved(methodNotAllowed, map["methods" := MethodsArg(allowed)]);
      } else {
        r := Resolved(notFound, map[]);
      }
    }

    /** `__call__(scope, receive, send)` up to the application it awaits:
        that application and the `params` of the scope it is given. */
    method Call(scopeType: string, httpMethod: string, path: string, scopeParams: Bindings)
      returns (r: Result<(Asgi.App, Bindings), Exception>)
      requires Valid()
      ensures ScopeMethod(scopeType, httpMethod).Err? ==> r == Err(ScopeMethod(scopeType, httpMethod).error)
      ensures ScopeMethod(scopeType, httpMethod).Ok? ==>
                var res := Resolve(Flatten(None), ScopeMethod(scopeType, httpMethod).value, path, {}, Fallbacks());
                r == Ok(Served(res, scopeParams))
    {
      var verb: string;
      if scopeType == "http" {
        verb := httpMethod;
      } else if scopeType == "websocket" {
        verb := WEBSOCKET;
      } else {
        return Err(ValueError("unsupported scope type: " + scopeType));
      }
      var res := GetView(verb, path);
      return Ok((Asgi.ToAsgi(Asgi.Jackie, res.view), Merge(scopeParams, res.params)));
    }

    /** `JackieRouter.__call__(request, **params)`: the view awaited and
        the keyword arguments it gets. */
    method CallNative(verb: string, path: string, params: Bindings) returns (view: Asgi.View, args: Bindings)
      requires Valid()
      ensures var res := Resolve(Flatten(None), verb, path, {}, Fallbacks());
              view == res.view && args == Merge(params, res.params)
    {
      var res := GetView(verb, path);
      view := res.view;
      args := Merge(params, res.params);
    }
  }

  /** Routes added to a router after it was included are seen through the
      router that includes it: `route` on the router of include entry `k`
      puts the new route, behind both prefixes, right after that router's
      earlier routes in the parent's flattening; everything else stays. */
  method LateRoutesVisible(parent: Router, k: nat, ghost prefix: Option<Matcher>,
                           methods: Methods, pattern: Pattern, view: Asgi.View) returns (err: Option<Exception>)
    requires parent.Valid() && k < |parent.routes| && parent.routes[k].IncludeEntry?
    requires forall j | 0 <= j < |parent.routes| && j != k && parent.routes[j].IncludeEntry? ::
               parent.routes[k].router !in parent.routes[j].router.Repr
    modifies parent.routes[k].router
    ensures parent.Valid() && parent.routes == old(parent.routes) && parent.Repr == old(parent.Repr)
    ensures MatcherOf(pattern).Err? ==>
              err == Some(MatcherOf(pattern).error) && parent.Flatten(prefix) == old(parent.Flatten(prefix))
    ensures MatcherOf(pattern).Ok? ==>
              && err == None
              && parent.Flatten(prefix)
                 == old(parent.FlattenTo(k + 1, prefix))
                    + [Flat(MethodSet(methods),
                            Prefixed(Some(Prefixed(prefix, parent.routes[k].matcher)), MatcherOf(pattern).value), view)]
                    + old(parent.FlattenFrom(k + 1, prefix))
  {
    var sub := parent.routes[k].router;
    ghost var pk := Prefixed(prefix, parent.routes[k].matcher);
    parent.FlattenSplit(k, prefix);
    parent.Untouched(k, prefix);
    ghost var init, mid, tail := parent.FlattenTo(k, prefix), sub.Flatten(Some(pk)), parent.FlattenFrom(k + 1, prefix);
    err := sub.Route(methods, pattern, view);
    Reflattened(Site(parent, k, prefix));
    assert parent.Flatten(prefix) == init + sub.Flatten(Some(pk)) + tail;
    if MatcherOf(pattern).Ok? {
      var added := Flat(MethodSet(methods), Prefixed(Some(pk), MatcherOf(pattern).value), view);
      assert sub.Flatten(Some(pk)) == mid + [added];
      FlatAssoc(init, mid, [added], tail);
    } else {
      assert sub.Flatten(Some(pk)) == mid;
    }
  }

  lemma FlatAssoc(a: seq<Flat>, b: seq<Flat>, c: seq<Flat>, d: seq<Flat>)
    ensures a + (b + c) + d == (a + b) + c + d
  {
  }

  /** The flattening does not depend on how large a footprint it is given. */
  lemma {:induction false} FlattenWithin(entries: seq<Entry>, prefix: Option<Matcher>, r1: set<object>, r2: set<object>)
    requires EntriesWithin(entries, r1) && r1 <= r2
    ensures EntriesWithin(entries, r2)
    ensures FlattenEntries(entries, prefix, r1) == FlattenEntries(entries, prefix, r2)
    decreases |entries|
  {
    if entries != [] {
      var init := entries[..|entries| - 1];
      assert forall i | 0 <= i < |init| :: init[i] == entries[i];
      FlattenWithin(init, prefix, r1, r2);
    }
  }

  lemma EntriesSlice(entries: seq<Entry>, lo: nat, hi: nat, repr: set<object>)
    requires lo <= hi <= |entries| && EntriesWithin(entries, repr)
    ensures EntriesWithin(entries[lo..hi], repr)
  {
    forall i | 0 <= i < hi - lo ensures entries[lo..hi][i] == entries[lo + i] { }
  }

  /** Flattening distributes over concatenated entries. */
  lemma {:induction false} FlattenAppend(x: seq<Entry>, y: seq<Entry>, prefix: Option<Matcher>, repr: set<object>)
    requires EntriesWithin(x, repr) && EntriesWithin(y, repr)
    ensures EntriesWithin(x + y, repr)
    ensures FlattenEntries(x + y, prefix, repr) == FlattenEntries(x, prefix, repr) + FlattenEntries(y, prefix, repr)
    decreases |y|
  {
    EntriesAppend(x, y, repr);
    if y == [] {
      assert x + y == x;
    } else {
      var y0 := y[..|y| - 1];
      EntriesSlice(y, 0, |y| - 1, repr);
      FlattenAppend(x, y0, prefix, repr);
      assert (x + y)[..|x + y| - 1] == x + y0;
      assert (x + y)[|x + y| - 1] == y[|y| - 1];
    }
  }

  lemma EntriesAppend(x: seq<Entry>, y: seq<Entry>, repr: set<object>)
    requires EntriesWithin(x, repr) && EntriesWithin(y, repr)
    ensures EntriesWithin(x + y, repr)
  {
    forall i | 0 <= i < |x + y| && (x + y)[i].IncludeEntry?
      ensures (x + y)[i].router in repr && (x + y)[i].router.Repr <= repr && (x + y)[i].router.Valid()
    {
      if i >= |x| {
        assert (x + y)[i] == y[i - |x|];
      }
    }
  }

  /** Include entry `k` of router `parent`, seen under `prefix`. */
  datatype Site = Site(parent: Router, k: nat, prefix: Option<Matcher>)

  /** Changing only the router of an include entry, keeping it valid and
      its footprint, changes the flattening of the including router only in
      that router's stretch of it. */
  twostate lemma Reflattened(site: Site)
    requires old(site.parent.Valid()) && site.k < |old(site.parent.routes)| && old(site.parent.routes[site.k]).IncludeEntry?
    requires unchanged(site.parent)
    requires forall j | 0 <= j < |site.parent.routes| && j != site.k && site.parent.routes[j].IncludeEntry? ::
               site.parent.routes[site.k].router !in old(site.parent.routes[j].router.Repr)
    requires old(EntriesWithin(site.parent.routes[..site.k],
                               site.parent.Repr - {site.parent} - {site.parent.routes[site.k].router})
                 && EntriesWithin(site.parent.routes[site.k + 1..],
                                  site.parent.Repr - {site.parent} - {site.parent.routes[site.k].router}))
    requires old(site.parent.FlattenTo(site.k, site.prefix)
                 == FlattenEntries(site.parent.routes[..site.k], site.prefix,
                                   site.parent.Repr - {site.parent} - {site.parent.routes[site.k].router}))
    requires old(site.parent.FlattenFrom(site.k + 1, site.prefix)
                 == FlattenEntries(site.parent.routes[site.k + 1..], site.prefix,
                                   site.parent.Repr - {site.parent} - {site.parent.routes[site.k].router}))
    requires unchanged(site.parent.Repr - {site.parent.routes[site.k].router})
    requires site.parent.routes[site.k].router.Valid()
    requires site.parent.routes[site.k].router.Repr == old(site.parent.routes[site.k].router.Repr)
    ensures site.parent.Valid()
    ensures site.parent.Flatten(site.prefix)
            == old(site.parent.FlattenTo(site.k, site.prefix))
               + site.parent.routes[site.k].router.Flatten(Some(Prefixed(site.prefix, site.parent.routes[site.k].matcher)))
               + old(site.parent.FlattenFrom(site.k + 1, site.prefix))
  {
    var r, k, prefix := site.parent, site.k, site.prefix;
    forall j | 0 <= j < |r.routes| && j != k && r.routes[j].IncludeEntry?
      ensures r.routes[j].router.Valid()
    {
      var other := r.routes[j].router;
      assert old(other.Valid()) && other in old(other.Repr);
      ValidFramed(other);
    }
    r.FlattenSplit(k, prefix);
    r.Untouched(k, prefix);
  }

  /** Without includes, `_flat_routes` yields one route per entry, in
      order, each behind the prefix. */
  lemma {:induction false} FlattenRoutesOnly(entries: seq<Entry>, prefix: Option<Matcher>, repr: set<object>)
    requires forall i | 0 <= i < |entries| :: entries[i].RouteEntry?
    ensures EntriesWithin(entries, repr)
    ensures |FlattenEntries(entries, prefix, repr)| == |entries|
    ensures forall i | 0 <= i < |entries| ::
              FlattenEntries(entries, prefix, repr)[i]
              == Flat(entries[i].methods, Prefixed(prefix, entries[i].matcher), entries[i].view)
    decreases |entries|
  {
    if entries != [] {
      var init := entries[..|entries| - 1];
      assert forall i | 0 <= i < |init| :: init[i] == entries[i];
      FlattenRoutesOnly(init, prefix, repr);
    }
  }

  /** A valid router whose footprint did not change is still valid. */
  twostate lemma ValidFramed(r: Router)
    requires old(r.Valid()) && unchanged(old(r.Repr))
    ensures r.Valid()
  {
  }

  // ---------------------------------------------------------------------
  // Resolution

  function PathArgs(p: PathMatcher.Params): (r: Bindings)
    ensures forall k :: k in r <==> k in p
    ensures forall k | k in p :: r[k] == PathArg(p[k])
  {
    map k | k in p :: PathArg(p[k])
  }

  /** The `else` clause of `_get_view`'s loop. */
  function Fallback(verb: string, allowed: set<string>, h: Handlers): Resolved {
    if verb == WEBSOCKET then Resolved(h.websocketNotFound, map[])
    else if allowed != {} then Resolved(h.methodNotAllowed, map["methods" := MethodsArg(allowed)])
    else Resolved(h.notFound, map[])
  }

  /** `_get_view`'s loop from the route `flats[0]` on, with the methods of the
      routes matched so far. */
  function Resolve(flats: seq<Flat>, verb: string, path: string, allowed: set<string>, h: Handlers): Resolved
    decreases |flats|
  {
    if flats == [] then Fallback(verb, allowed, h)
    else match PathMatcher.Matched(flats[0].matcher, path)
      case Err(_) => Resolve(flats[1..], verb, path, allowed, h)
      case Ok(params) =>
        if verb in allowed + flats[0].methods then Resolved(flats[0].view, PathArgs(params))
        else Resolve(flats[1..], verb, path, allowed + flats[0].methods, h)
  }

  /** A route serves the request: its matcher matches the path and its
      methods contain the method. */
  predicate Hit(f: Flat, verb: string, path: string) {
    PathMatcher.Matched(f.matcher, path).Ok? && verb in f.methods
  }

  /** The union of the methods of every route whose matcher matches the path. */
  function AllowedBy(flats: seq<Flat>, path: string): set<string>
    decreases |flats|
  {
    if flats == [] then {}
    else (if PathMatcher.Matched(flats[0].matcher, path).Ok? then flats[0].methods else {}) + AllowedBy(flats[1..], path)
  }

  /** The route chosen is the first one that serves the request, with the
      parameters its matcher found. */
  lemma {:induction false} ResolveFirst(flats: seq<Flat>, verb: string, path: string, allowed: set<string>, h: Handlers, i: nat)
    requires i < |flats| && Hit(flats[i], verb, path)
    requires forall j | 0 <= j < i :: !Hit(flats[j], verb, path)
    requires verb !in allowed
    ensures Resolve(flats, verb, path, allowed, h)
            == Resolved(flats[i].view, PathArgs(PathMatcher.Matched(flats[i].matcher, path).value))
    decreases i
  {
    if i > 0 {
      assert !Hit(flats[0], verb, path);
      forall j | 0 <= j < i - 1
        ensures !Hit(flats[1..][j], verb, path)
      {
        assert flats[1..][j] == flats[j + 1];
      }
      assert flats[1..][i - 1] == flats[i];
      if PathMatcher.Matched(flats[0].matcher, path).Ok? {
        ResolveFirst(flats[1..], verb, path, allowed + flats[0].methods, h, i - 1);
      } else {
        ResolveFirst(flats[1..], verb, path, allowed, h, i - 1);
      }
    }
  }

  /** When no route serves the request: a WebSocket gets the WebSocket
      fallback; otherwise a path some route matched gets the 405 view with
      every method those routes allow (never the one requested); any other
      path gets the 404 view. */
  lemma {:induction false} ResolveMiss(flats: seq<Flat>, verb: string, path: string, allowed: set<string>, h: Handlers)
    requires forall j | 0 <= j < |flats| :: !Hit(flats[j], verb, path)
    requires verb !in allowed
    ensures verb !in AllowedBy(flats, path)
    ensures Resolve(flats, verb, path, allowed, h) == Fallback(verb, allowed + AllowedBy(flats, path), h)
    decreases |flats|
  {
    if flats != [] {
      assert !Hit(flats[0], verb, path);
      forall j | 0 <= j < |flats| - 1
        ensures !Hit(flats[1..][j], verb, path)
      {
        assert flats[1..][j] == flats[j + 1];
      }
      var rest := AllowedBy(flats[1..], path);
      if PathMatcher.Matched(flats[0].matcher, path).Ok? {
        ResolveMiss(flats[1..], verb, path, allowed + flats[0].methods, h);
        assert allowed + flats[0].methods + rest == allowed + AllowedBy(flats, path);
      } else {
        ResolveMiss(flats[1..], verb, path, allowed, h);
        assert allowed + rest == allowed + AllowedBy(flats, path);
      }
    } else {
      assert allowed + AllowedBy(flats, path) == allowed;
    }
  }

  /** The fallbacks, spelled out for a router that serves nothing for the request. */
  lemma FallbackCases(flats: seq<Flat>, verb: string, path: string, h: Handlers)
    requires forall j | 0 <= j < |flats| :: !Hit(flats[j], verb, path)
    ensures var r := Resolve(flats, verb, path, {}, h);
            && (verb == WEBSOCKET ==> r == Resolved(h.websocketNotFound, map[]))
            && (verb != WEBSOCKET && AllowedBy(flats, path) != {} ==>
                  r == Resolved(h.methodNotAllowed, map["methods" := MethodsArg(AllowedBy(flats, path))]))
            && (verb != WEBSOCKET && AllowedBy(flats, path) == {} ==> r == Resolved(h.notFound, map[]))
  {
    ResolveMiss(flats, verb, path, {}, h);
    assert {} + AllowedBy(flats, path) == AllowedBy(flats, path);
  }

  // ---------------------------------------------------------------------
  // Dispatch and parameters

  /** The method `__call__` resolves with, by scope type. */
  function ScopeMethod(scopeType: string, httpMethod: string): (r: Result<string, Exception>)
    ensures scopeType == "http" ==> r == Ok(httpMethod)
    ensures scopeType == "websocket" ==> r == Ok(WEBSOCKET)
    ensures scopeType != "http" && scopeType != "websocket" ==> r == Err(ValueError("unsupported scope type: " + scopeType))
  {
    if scopeType == "http" then Ok(httpMethod)
    else if scopeType == "websocket" then Ok(WEBSOCKET)
    else Err(ValueError("unsupported scope type: " + scopeType))
  }

  /** `{**given, **resolved}`, and `given.update(resolved)`: the resolved
      parameters win. */
  function Merge(given: Bindings, resolved: Bindings): (r: Bindings)
    ensures forall k :: k in r <==> k in given || k in resolved
    ensures forall k | k in resolved :: r[k] == resolved[k]
    ensures forall k | k in given && k !in resolved :: r[k] == given[k]
  {
    given + resolved
  }

  /** `ResolvedApp.__call__`: the application `jackie_to_asgi(view)` and the
      scope's parameters overridden by the resolved ones. */
  function Served(res: Resolved, scopeParams: Bindings): (Asgi.App, Bindings) {
    (Asgi.ToAsgi(Asgi.Jackie, res.view), Merge(scopeParams, res.params))
  }

  /** The ASGI side and the native side of a router run the same view with
      the same parameters. */
  lemma SidesAgree(res: Resolved, params: Bindings)
    requires Asgi.ReducedView(res.view)
    ensures Asgi.ToNative(Asgi.Jackie, Served(res, params).0) == res.view
    ensures Served(res, params).1 == Merge(params, res.params)
  {
    Asgi.DecoratorsUndo(Asgi.Jackie, res.view, Asgi.AsgiApp(""));
  }

  // ---------------------------------------------------------------------
  // Fallback views

  const CONNECT: string := "websocket.connect"
  const CLOSE_MESSAGE: Asgi.Message := Asgi.Message("websocket.close", None, None, None, None)

  /** What `websocket_not_found` sends and how it ends, given what it receives. */
  datatype SocketRun = SocketRun(sent: seq<Asgi.Message>, end: Termination)

  /** `websocket_not_found(scope, receive, send)`: it sends exactly one
      `websocket.close`, and completes, exactly when the first message it
      receives is a connect; on any other message it sends nothing and
      raises `ValueError`. */
  function WebsocketNotFound(inbox: seq<Asgi.Message>): (r: SocketRun)
    ensures r.sent == [] || r.sent == [CLOSE_MESSAGE]
    ensures r.sent == [CLOSE_MESSAGE] <==> r.end.Complete?
    ensures r.end.Complete? <==> inbox != [] && inbox[0].kind == CONNECT
    ensures inbox != [] && inbox[0].kind != CONNECT ==> r.end.Failed? && r.end.error.ValueError?
    ensures inbox == [] ==> r.end.Starved?
  {
    if inbox == [] then SocketRun([], Starved)
    else if inbox[0].kind != CONNECT then SocketRun([], Failed(ValueError("unexpected message: " + inbox[0].kind)))
    else SocketRun([CLOSE_MESSAGE], Complete)
  }

  /** It reads one message only: what follows the first never matters. */
  lemma WebsocketNotFoundCloses(inbox: seq<Asgi.Message>)
    requires inbox != []
    ensures WebsocketNotFound(inbox) == WebsocketNotFound(inbox[..1])
  {
  }

  /** The arguments of `TextResponse(text, status=status, **extra)`. */
  function TextArgs(text: string, status: int, extra: Responses.HeaderList): Responses.Args {
    Responses.Args(Some(status), None, [], None, None, Some(text), None, None, None, None, extra, [])
  }

  function NotFoundArgs(): Responses.Args {
    TextArgs("Not Found", 404, [])
  }

  function MethodNotAllowedArgs(order: seq<string>): Responses.Args {
    TextArgs("Method Not Allowed", 405, [("allow", Join(order, ", "))])
  }

  /** A text response picks the text body and no other. */
  lemma TextSelected(text: string, status: int, extra: Responses.HeaderList, boundary: string)
    ensures Responses.SelectBody(TextArgs(text, status, extra), boundary) == Ok(Some(Responses.TextBody(text)))
  {
    var args := TextArgs(text, status, extra);
    assert Responses.Select(args, boundary, 3, Some(Responses.TextBody(text))) == Ok(Some(Responses.TextBody(text)));
  }

  /** The 404 response: status 404, the text `Not Found`, a plain-text
      content type. */
  lemma NotFoundResponse(boundary: string)
    ensures Responses.SelectBody(NotFoundArgs(), boundary).Ok?
    ensures Responses.FinalStatus(NotFoundArgs(), boundary) == 404
    ensures Responses.Chosen(NotFoundArgs(), boundary).content == [Streams.Chunk(Utf8("Not Found"))]
    ensures Responses.Get(Responses.FinalHeaders(NotFoundArgs(), Responses.Chosen(NotFoundArgs(), boundary)), Responses.CONTENT_TYPE)
            == Some("text/plain; charset=UTF-8")
  {
    TextSelected("Not Found", 404, [], boundary);
    Responses.HeaderPrecedence(NotFoundArgs(), Responses.TextBody("Not Found"), Responses.CONTENT_TYPE);
    Responses.GetFirst(Responses.CONTENT_TYPE, "text/plain; charset=UTF-8", []);
  }

  /** The 405 response: status 405, the text `Method Not Allowed`, a
      plain-text content type, and `Allow` holding the joined methods. */
  lemma MethodNotAllowedResponse(order: seq<string>, boundary: string)
    ensures Responses.SelectBody(MethodNotAllowedArgs(order), boundary).Ok?
    ensures Responses.FinalStatus(MethodNotAllowedArgs(order), boundary) == 405
    ensures Responses.Chosen(MethodNotAllowedArgs(order), boundary).content == [Streams.Chunk(Utf8("Method Not Allowed"))]
    ensures Responses.Get(Responses.FinalHeaders(MethodNotAllowedArgs(order), Responses.Chosen(MethodNotAllowedArgs(order), boundary)), "allow")
            == Some(Join(order, ", "))
    ensures Responses.Get(Responses.FinalHeaders(MethodNotAllowedArgs(order), Responses.Chosen(MethodNotAllowedArgs(order), boundary)), Responses.CONTENT_TYPE)
            == Some("text/plain; charset=UTF-8")
  {
    var args := MethodNotAllowedArgs(order);
    var text := Responses.TextBody("Method Not Allowed");
    TextSelected("Method Not Allowed", 405, [("allow", Join(order, ", "))], boundary);
    assert Responses.Explicit(args) == [("allow", Join(order, ", "))];
    Responses.GetOther("allow", Join(order, ", "), Responses.CONTENT_TYPE);
    Responses.HeaderPrecedence(args, text, "allow");
    Responses.HeaderPrecedence(args, text, Responses.CONTENT_TYPE);
    Responses.GetFirst(Responses.CONTENT_TYPE, "text/plain; charset=UTF-8", []);
  }

  // ---------------------------------------------------------------------
  // The `Allow` header

  /** Python's `<` on strings: code point by code point, a proper prefix first. */
  predicate Below(a: string, b: string)
    decreases |a|
  {
    if a == [] then b != []
    else b != [] && (a[0] < b[0] || (a[0] == b[0] && Below(a[1..], b[1..])))
  }

  lemma {:induction false} BelowIrreflexive(a: string)
    ensures !Below(a, a)
    decreases |a|
  {
    if a != [] {
      BelowIrreflexive(a[1..]);
    }
  }

  lemma {:induction false} BelowTransitive(a: string, b: string, c: string)
    requires Below(a, b) && Below(b, c)
    ensures Below(a, c)
    decreases |a|
  {
    if a != [] && a[0] == b[0] && b[0] == c[0] {
      BelowTransitive(a[1..], b[1..], c[1..]);
    }
  }

  lemma {:induction false} BelowTotal(a: string, b: string)
    requires a != b
    ensures Below(a, b) || Below(b, a)
    decreases |a|
  {
    if a != [] && b != [] && a[0] == b[0] {
      assert a == [a[0]] + a[1..] && b == [b[0]] + b[1..];
      BelowTotal(a[1..], b[1..]);
    }
  }

  /** Every finite non-empty set of strings has a least element, `m`. */
  lemma {:induction false} HasLeast(s: set<string>) returns (m: string)
    requires s != {}
    ensures m in s && forall y | y in s && y != m :: Below(m, y)
    decreases |s|
  {
    var x :| x in s;
    if s == {x} {
      m := x;
    } else {
      var least := HasLeast(s - {x});
      BelowTotal(least, x);
      if Below(x, least) {
        forall y | y in s && y != x
          ensures Below(x, y)
        {
          if y != least {
            BelowTransitive(x, least, y);
          }
        }
        m := x;
      } else {
        m := least;
      }
    }
  }

  predicate Increasing(r: seq<string>) {
    forall i, j | 0 <= i < j < |r| :: Below(r[i], r[j])
  }

  /** `sorted(methods)`: every method once, in increasing order. */
  method Sorted(methods: set<string>) returns (r: seq<string>)
    ensures Increasing(r)
    ensures forall x :: x in r <==> x in methods
    ensures |r| == |methods|
  {
    r := [];
    var rest := methods;
    while rest != {}
      invariant rest <= methods
      invariant forall x :: x in r <==> x in methods && x !in rest
      invariant |r| + |rest| == |methods|
      invariant Increasing(r)
      invariant forall i, y | 0 <= i < |r| && y in rest :: Below(r[i], y)
      decreases |rest|
    {
      ghost var least := HasLeast(rest);
      var m :| m in rest && forall y | y in rest && y != m :: Below(m, y);
      r := r + [m];
      rest := rest - {m};
    }
  }

  /** `method_not_allowed(request, methods)`: a 405 response whose `Allow`
      header lists every allowed method once, sorted. */
  method MethodNotAllowed(methods: set<string>, boundary: string) returns (resp: Responses.Response, order: seq<string>)
    ensures Increasing(order) && |order| == |methods|
    ensures forall x :: x in order <==> x in methods
    ensures resp.status == 405
    ensures Responses.Get(resp.headers, "allow") == Some(Join(order, ", "))
    ensures Responses.Get(resp.headers, Responses.CONTENT_TYPE) == Some("text/plain; charset=UTF-8")
  {
    order := Sorted(methods);
    var args := MethodNotAllowedArgs(order);
    MethodNotAllowedResponse(order, boundary);
    var r := Responses.NewResponse(args, boundary, []);
    resp := r.value;
  }

  /** `not_found(request)` */
  method NotFound(boundary: string) returns (resp: Responses.Response)
    ensures resp.status == 404
    ensures Responses.Get(resp.headers, Responses.CONTENT_TYPE) == Some("text/plain; charset=UTF-8")
  {
    NotFoundResponse(boundary);
    var r := Responses.NewResponse(NotFoundArgs(), boundary, []);
    resp := r.value;
  }
}
