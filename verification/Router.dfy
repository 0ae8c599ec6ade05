/** Route choice: the two scans of dispatch, what they choose, and that the choice is canonical. */
module Routing {
  import opened Request
  import opened Wrappers

  datatype Route<H> = Route(verb: Method, path: string, handler: H, isPrefix: bool)

  predicate Exact<H>(route: Route<H>, verb: Method, path: string) {
    !route.isPrefix && route.verb == verb && route.path == path
  }

  predicate Prefix<H>(route: Route<H>, verb: Method, path: string) {
    route.isPrefix && route.verb == verb && route.path <= path
  }

  predicate Matches<H>(route: Route<H>, verb: Method, path: string) {
    Exact(route, verb, path) || Prefix(route, verb, path)
  }

  /** The documented priority of routes that match: exact before prefix, then the longer prefix. */
  predicate Beats<H>(a: Route<H>, b: Route<H>) {
    (!a.isPrefix && b.isPrefix) || (a.isPrefix && b.isPrefix && |a.path| > |b.path|)
  }

  /**
   * c is the index of the best match: nothing beats it, and nothing before it is as good; None when nothing
   * matches.
   */
  predicate Choice<H>(routes: seq<Route<H>>, verb: Method, path: string, c: Option<nat>) {
    match c
    case None => forall j :: 0 <= j < |routes| ==> !Matches(routes[j], verb, path)
    case Some(i) =>
      && i < |routes|
      && Matches(routes[i], verb, path)
      && (forall j :: 0 <= j < |routes| && Matches(routes[j], verb, path) ==> !Beats(routes[j], routes[i]))
      && (forall j :: 0 <= j < i && Matches(routes[j], verb, path) ==> Beats(routes[i], routes[j]))
  }

  class Router<H> {
    var routes: seq<Route<H>>

    constructor ()
      ensures routes == []
    {
      routes := [];
    }

    method AddRoute(verb: Method, path: string, handler: H)
      modifies this
      ensures routes == old(routes) + [Route(verb, path, handler, false)]
    {
      routes := routes + [Route(verb, path, handler, false)];
    }

    method AddPrefixRoute(verb: Method, prefix: string, handler: H)
      modifies this
      ensures routes == old(routes) + [Route(verb, prefix, handler, true)]
    {
      routes := routes + [Route(verb, prefix, handler, true)];
    }

    /** The chosen route and its handler, or None for a 404; the handler itself runs in the caller. */
    method Dispatch(verb: Method, path: string) returns (handler: Option<H>, chosen: Option<nat>)
      ensures Choice(routes, verb, path, chosen)
      ensures handler == if chosen.None? then None else Some(routes[chosen.value].handler)
    {
      for i := 0 to |routes|
        invariant forall j :: 0 <= j < i ==> !Exact(routes[j], verb, path)
      {
        if !routes[i].isPrefix && routes[i].verb == verb && routes[i].path == path {
          return Some(routes[i].handler), Some(i);
        }
      }

      var best: Option<nat> := None;
      for i := 0 to |routes|
        invariant best.None? ==> forall j :: 0 <= j < i ==> !Prefix(routes[j], verb, path)
        invariant best.Some? ==>
                    && best.value < i && Prefix(routes[best.value], verb, path)
                    && (forall j :: 0 <= j < i && Prefix(routes[j], verb, path) ==>
                          |routes[j].path| <= |routes[best.value].path|)
                    && (forall j :: 0 <= j < best.value && Prefix(routes[j], verb, path) ==>
                          |routes[j].path| < |routes[best.value].path|)
      {
        if routes[i].isPrefix && routes[i].verb == verb && routes[i].path <= path {
          if best.None? || |routes[i].path| > |routes[best.value].path| {
            best := Some(i);
          }
        }
      }
      if best.Some? {
        return Some(routes[best.value].handler), best;
      }
      return None, None;
    }
  }

  /** The priorities leave exactly one choice. */
  lemma ChoiceIsUnique<H>(routes: seq<Route<H>>, verb: Method, path: string, c: Option<nat>, d: Option<nat>)
    requires Choice(routes, verb, path, c) && Choice(routes, verb, path, d)
    ensures c == d
  {
    if c.Some? && d.Some? {
      var x, y := routes[c.value], routes[d.value];
      assert !Beats(x, y) && !Beats(y, x);
    }
  }

  /** The route has this method and, being a prefix route, a path that starts with its own, or else the same path. */
  predicate Fits<H>(route: Route<H>, verb: Method, path: string) {
    && route.verb == verb
    && |route.path| <= |path| && path[..|route.path|] == route.path
    && (!route.isPrefix ==> |route.path| == |path|)
  }

  /**
   * What is chosen: nothing exactly when no route fits; the first exact route if there is one; otherwise the
   * longest fitting prefix, the first of its length.
   */
  lemma ChoiceMeans<H>(routes: seq<Route<H>>, verb: Method, path: string, c: Option<nat>)
    requires Choice(routes, verb, path, c)
    ensures c.None? <==> forall j :: 0 <= j < |routes| ==> !Fits(routes[j], verb, path)
    ensures c.Some? ==>
              && c.value < |routes| && Fits(routes[c.value], verb, path)
              && (!routes[c.value].isPrefix ==>
                    forall j :: 0 <= j < c.value && Fits(routes[j], verb, path) ==> routes[j].isPrefix)
              && (routes[c.value].isPrefix ==>
                    forall j :: 0 <= j < |routes| && Fits(routes[j], verb, path) ==>
                      && routes[j].isPrefix && |routes[j].path| <= |routes[c.value].path|
                      && (j < c.value ==> |routes[j].path| < |routes[c.value].path|))
  {
    forall j | 0 <= j < |routes| ensures Fits(routes[j], verb, path) <==> Matches(routes[j], verb, path) {
      FitsIsMatches(routes[j], verb, path);
    }
    hide Fits;
  }

  lemma FitsIsMatches<H>(route: Route<H>, verb: Method, path: string)
    ensures Fits(route, verb, path) <==> Matches(route, verb, path)
  {
    if route.path == path { assert path[..|path|] == path; }
  }

  predicate SameKey<H>(a: Route<H>, b: Route<H>) {
    a.verb == b.verb && a.path == b.path && a.isPrefix == b.isPrefix
  }

  /** Two matches neither of which beats the other were registered under the same method, path and kind. */
  lemma TiesAreDuplicates<H>(a: Route<H>, b: Route<H>, verb: Method, path: string)
    requires Matches(a, verb, path) && Matches(b, verb, path)
    ensures SameKey(a, b) <==> !Beats(a, b) && !Beats(b, a)
  {
    if a.isPrefix && b.isPrefix && |a.path| == |b.path| {
      assert a.path == path[..|a.path|] == b.path;
    }
  }

  predicate NoDuplicates<H>(routes: seq<Route<H>>) {
    forall i, j :: 0 <= i < j < |routes| ==> !SameKey(routes[i], routes[j])
  }

  /** Registering the same routes in another order never changes the handler, as long as none is registered twice. */
  lemma OrderIsIrrelevant<H>(routes: seq<Route<H>>, routes': seq<Route<H>>, verb: Method, path: string,
                                 c: Option<nat>, c': Option<nat>)
    requires multiset(routes) == multiset(routes') && NoDuplicates(routes)
    requires Choice(routes, verb, path, c) && Choice(routes', verb, path, c')
    ensures c.Some? == c'.Some?
    ensures c.Some? ==> routes[c.value] == routes'[c'.value]
  {
    if c.Some? {
      var j := Relocate(routes, routes', c.value);
    }
    if c'.Some? {
      var i := Relocate(routes', routes, c'.value);
      if c.Some? {
        var j := Relocate(routes, routes', c.value);
        TiesAreDuplicates(routes[c.value], routes[i], verb, path);
        assert SameKey(routes[c.value], routes[i]);
      }
    }
  }

  lemma Relocate<H>(s: seq<Route<H>>, t: seq<Route<H>>, i: nat) returns (j: nat)
    requires multiset(s) == multiset(t) && i < |s|
    ensures j < |t| && t[j] == s[i]
  {
    assert s[i] in multiset(t);
    j :| j < |t| && t[j] == s[i];
  }

  /** Witness: the same route registered twice makes the order matter. */
  lemma DuplicatesMakeOrderMatter()
    ensures var a, b := Route(GET, "/", 1, true), Route(GET, "/", 2, true);
            && Choice([a, b], GET, "/", Some(0)) && Choice([b, a], GET, "/", Some(0))
            && multiset([a, b]) == multiset([b, a]) && [a, b][0].handler != [b, a][0].handler
  {
  }
}
