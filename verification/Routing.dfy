/** Route selection: the first route whose prefix starts the path. */
module Routing {
  import opened Prelude
  import opened Config

  function Prefixes(routes: seq<RouteConfig>): seq<string> {
    seq(|routes|, i requires 0 <= i < |routes| => routes[i].pathPrefix)
  }

  /** `i` is the first prefix in the list that `path` starts with. */
  ghost predicate IsFirst(prefixes: seq<string>, path: string, i: nat) {
    && i < |prefixes| && prefixes[i] <= path
    && forall j :: 0 <= j < i ==> !(prefixes[j] <= path)
  }

  /** `i` is a longest prefix in the list that `path` starts with. */
  ghost predicate IsLongest(prefixes: seq<string>, path: string, i: nat) {
    && i < |prefixes| && prefixes[i] <= path
    && forall j :: 0 <= j < |prefixes| && prefixes[j] <= path ==> |prefixes[j]| <= |prefixes[i]|
  }

  ghost predicate Distinct(prefixes: seq<string>) {
    forall i, j :: 0 <= i < j < |prefixes| ==> prefixes[i] != prefixes[j]
  }

  /** The scan in `route`. */
  method FindRoute(routes: seq<RouteConfig>, path: string) returns (found: Option<nat>)
    ensures found.Some? ==> IsFirst(Prefixes(routes), path, found.value)
    ensures found.None? <==> forall i :: 0 <= i < |routes| ==> !(routes[i].pathPrefix <= path)
    ensures found.Some? ==>
              && found.value < |routes| && routes[found.value].pathPrefix <= path
              && forall j :: 0 <= j < found.value ==> !(routes[j].pathPrefix <= path)
  {
    for i := 0 to |routes|
      invariant forall j :: 0 <= j < i ==> !(routes[j].pathPrefix <= path)
    {
      if routes[i].pathPrefix <= path {
        return Some(i);
      }
    }
    return None;
  }

  lemma ValidMeansDistinct(c: Config, isAddr: string -> bool)
    requires Valid(c, isAddr)
    ensures Distinct(Prefixes(c.routes))
  {
    forall i, j | 0 <= i < j < |c.routes|
      ensures c.routes[i].pathPrefix != c.routes[j].pathPrefix
    {
      assert RouteOk(c.routes, j, isAddr);
    }
  }

  ghost predicate FirstIsLongest(prefixes: seq<string>) {
    forall path, i :: IsFirst(prefixes, path, i) <==> IsLongest(prefixes, path, i)
  }

  ghost predicate NoShadowing(prefixes: seq<string>) {
    forall i, j :: 0 <= i < j < |prefixes| ==> !(prefixes[i] < prefixes[j])
  }

  /** For distinct prefixes, taking the first match is taking the longest, on every path, exactly
      when no earlier prefix is a proper prefix of a later one. */
  lemma FirstIsLongestIff(prefixes: seq<string>)
    requires Distinct(prefixes)
    ensures FirstIsLongest(prefixes) <==> NoShadowing(prefixes)
  {
    if FirstIsLongest(prefixes) {
      forall i, j | 0 <= i < j < |prefixes|
        ensures !(prefixes[i] < prefixes[j])
      {
        LongestExists(prefixes, prefixes[j], j);
        assert IsFirst(prefixes, prefixes[j], j);
      }
    }
    if NoShadowing(prefixes) {
      forall path, i
        ensures IsFirst(prefixes, path, i) <==> IsLongest(prefixes, path, i)
      {
        FirstIsLongestHere(prefixes, path, i);
      }
    }
  }

  /** A prefix is itself a path on which it is a longest match. */
  lemma LongestExists(prefixes: seq<string>, path: string, j: nat)
    requires j < |prefixes| && path == prefixes[j]
    ensures IsLongest(prefixes, path, j)
  {
  }

  lemma FirstIsLongestHere(prefixes: seq<string>, path: string, i: nat)
    requires Distinct(prefixes) && NoShadowing(prefixes)
    ensures IsFirst(prefixes, path, i) <==> IsLongest(prefixes, path, i)
  {
  }

  /** Some path is routed to entry `j`. */
  ghost predicate Selectable(prefixes: seq<string>, j: nat) {
    exists path :: IsFirst(prefixes, path, j)
  }

  /** A route can be selected at all exactly when no earlier prefix starts its own. */
  lemma ReachableIff(prefixes: seq<string>, j: nat)
    requires j < |prefixes|
    ensures Selectable(prefixes, j) <==> forall i :: 0 <= i < j ==> !(prefixes[i] <= prefixes[j])
  {
    if Selectable(prefixes, j) {
      var path :| IsFirst(prefixes, path, j);
      forall i | 0 <= i < j
        ensures !(prefixes[i] <= prefixes[j])
      {
        assert prefixes[j] <= path && !(prefixes[i] <= path);
      }
    }
    if forall i :: 0 <= i < j ==> !(prefixes[i] <= prefixes[j]) {
      assert IsFirst(prefixes, prefixes[j], j);
    }
  }

  /** In a validated configuration the routes are all selectable exactly when the order of the
      list never matters. */
  lemma AllReachableIffLongest(c: Config, isAddr: string -> bool)
    requires Valid(c, isAddr)
    ensures (forall j :: 0 <= j < |c.routes| ==> Selectable(Prefixes(c.routes), j))
            <==> FirstIsLongest(Prefixes(c.routes))
  {
    var prefixes := Prefixes(c.routes);
    ValidMeansDistinct(c, isAddr);
    FirstIsLongestIff(prefixes);
    forall j | 0 <= j < |prefixes|
      ensures Selectable(prefixes, j) <==> forall i :: 0 <= i < j ==> !(prefixes[i] < prefixes[j])
    {
      ReachableIff(prefixes, j);
      assert forall i :: 0 <= i < j && prefixes[i] != prefixes[j] ==>
                           (prefixes[i] <= prefixes[j] <==> prefixes[i] < prefixes[j]);
    }
    assert NoShadowing(prefixes) <==>
           forall j :: 0 <= j < |prefixes| ==> forall i :: 0 <= i < j ==> !(prefixes[i] < prefixes[j]);
  }
}
