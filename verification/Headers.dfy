/** Header rewriting on the way to the upstream and back. */
module Headers {
  import opened Prelude

  /** A header map as a multimap: each present name has a non-empty sequence of values. */
  type Multimap = map<string, seq<string>>

  const HOP_BY_HOP: seq<string> := [
    "connection", "keep-alive", "proxy-authenticate", "proxy-authorization",
    "te", "trailers", "transfer-encoding", "upgrade"
  ]

  function Get(m: Multimap, name: string): seq<string> {
    if name in m then m[name] else []
  }

  ghost predicate NoEmptyEntry(m: Multimap) {
    forall name :: name in m ==> m[name] != []
  }

  lemma SameValuesSameMap(a: Multimap, b: Multimap)
    requires NoEmptyEntry(a) && NoEmptyEntry(b)
    requires forall name :: Get(a, name) == Get(b, name)
    ensures a == b
  {
    forall name
      ensures name in a <==> name in b
      ensures name in a ==> a[name] == b[name]
    {
      assert Get(a, name) == Get(b, name);
    }
  }

  /** The mutable map the proxy edits. `Insert` replaces every value of a name, `Append` adds one. */
  class HeaderMap {
    var entries: Multimap

    constructor (entries: Multimap)
      ensures this.entries == entries
    {
      this.entries := entries;
    }

    method Remove(name: string)
      modifies this
      ensures entries == old(entries) - {name}
    {
      entries := entries - {name};
    }

    method Insert(name: string, value: string)
      modifies this
      ensures entries == old(entries)[name := [value]]
    {
      entries := entries[name := [value]];
    }

    method Append(name: string, value: string)
      modifies this
      ensures entries == old(entries)[name := Get(old(entries), name) + [value]]
    {
      entries := entries[name := Get(entries, name) + [value]];
    }

    method First(name: string) returns (value: Option<string>)
      ensures value == if Get(entries, name) == [] then None else Some(Get(entries, name)[0])
    {
      value := if name in entries && entries[name] != [] then Some(entries[name][0]) else None;
    }

    /** The loop that removes every name on the hop-by-hop list. */
    method StripHopByHop()
      modifies this
      ensures entries == Stripped(old(entries))
      ensures "connection" !in entries && "keep-alive" !in entries && "proxy-authenticate" !in entries
              && "proxy-authorization" !in entries && "te" !in entries && "trailers" !in entries
              && "transfer-encoding" !in entries && "upgrade" !in entries
      ensures forall name ::
                name !in {"connection", "keep-alive", "proxy-authenticate", "proxy-authorization", "te", "trailers",
                          "transfer-encoding", "upgrade"} ==>
                  && (name in entries <==> name in old(entries))
                  && (name in entries ==> entries[name] == old(entries)[name])
    {
      for i := 0 to |HOP_BY_HOP|
        invariant entries == old(entries) - (set name | name in HOP_BY_HOP[..i])
      {
        assert HOP_BY_HOP[..i + 1] == HOP_BY_HOP[..i] + [HOP_BY_HOP[i]];
        Remove(HOP_BY_HOP[i]);
      }
      assert HOP_BY_HOP[..|HOP_BY_HOP|] == HOP_BY_HOP;
      forall name
        ensures name in HOP_BY_HOP <==>
                name in {"connection", "keep-alive", "proxy-authenticate", "proxy-authorization", "te", "trailers",
                         "transfer-encoding", "upgrade"}
      {
        HopByHopNames(name);
      }
    }

    /** The request-side edit. `upstream` is the upstream address as a header value, if it is one. */
    method RewriteForUpstream(upstream: Option<string>, clientIp: string, isTls: bool)
      requires NoEmptyEntry(entries)
      modifies this
      ensures entries == Rewritten(old(entries), upstream, clientIp, isTls)
    {
      ghost var before := entries;
      StripHopByHop();
      if upstream.Some? {
        Insert("host", upstream.value);
      }
      Insert("x-forwarded-for", clientIp);
      Insert("x-forwarded-proto", if isTls then "https" else "http");
      var host := First("host");
      if host.Some? {
        Insert("x-forwarded-host", host.value);
      }
      EditsArePrescribed(before, upstream, clientIp, isTls);
    }

    /** Copies every (name, value) pair, names in whatever order the iteration visits them,
        into a request builder that starts out with no headers. */
    method BuildRequest() returns (built: HeaderMap)
      requires NoEmptyEntry(entries)
      ensures fresh(built) && built.entries == entries
    {
      built := new HeaderMap(map[]);
      var names := entries.Keys;
      while names != {}
        invariant fresh(built) && names <= entries.Keys
        invariant built.entries == entries - names
        decreases |names|
      {
        var name :| name in names;
        ghost var before := built.entries;
        var values := entries[name];
        for i := 0 to |values|
          invariant fresh(built)
          invariant i == 0 ==> built.entries == before
          invariant i > 0 ==> built.entries == before[name := values[..i]]
        {
          assert values[..i + 1] == values[..i] + [values[i]];
          built.Append(name, values[i]);
        }
        assert values[..|values|] == values;
        names := names - {name};
      }
    }
  }

  /** The list, name by name: section 13.5.1 of RFC 2616, as the code spells it. */
  lemma HopByHopNames(name: string)
    ensures name in HOP_BY_HOP <==>
            name in {"connection", "keep-alive", "proxy-authenticate", "proxy-authorization", "te", "trailers",
                     "transfer-encoding", "upgrade"}
  {
    assert HOP_BY_HOP[0] == "connection" && HOP_BY_HOP[1] == "keep-alive" && HOP_BY_HOP[2] == "proxy-authenticate";
    assert HOP_BY_HOP[3] == "proxy-authorization" && HOP_BY_HOP[4] == "te" && HOP_BY_HOP[5] == "trailers";
    assert HOP_BY_HOP[6] == "transfer-encoding" && HOP_BY_HOP[7] == "upgrade";
  }

  function Stripped(m: Multimap): Multimap {
    m - (set name | name in HOP_BY_HOP)
  }

  /** Values the upstream must see under `name`, from the incoming map alone. */
  function Prescribed(m: Multimap, upstream: Option<string>, clientIp: string, isTls: bool, name: string): seq<string> {
    if name in HOP_BY_HOP then []
    else if name == "host" then if upstream.Some? then [upstream.value] else Get(m, "host")
    else if name == "x-forwarded-for" then [clientIp]
    else if name == "x-forwarded-proto" then [if isTls then "https" else "http"]
    else if name == "x-forwarded-host" then
      if upstream.Some? then [upstream.value]
      else if Get(m, "host") != [] then [Get(m, "host")[0]]
      else Get(m, name)
    else Get(m, name)
  }

  function Rewritten(m: Multimap, upstream: Option<string>, clientIp: string, isTls: bool): Multimap {
    map name | name in m.Keys + {"host", "x-forwarded-for", "x-forwarded-proto", "x-forwarded-host"}
               && Prescribed(m, upstream, clientIp, isTls, name) != []
      :: Prescribed(m, upstream, clientIp, isTls, name)
  }

  /** The edits in the order the code makes them. */
  function Edited(m: Multimap, upstream: Option<string>, clientIp: string, isTls: bool): Multimap {
    var m1 := if upstream.Some? then Stripped(m)["host" := [upstream.value]] else Stripped(m);
    var m2 := m1["x-forwarded-for" := [clientIp]]["x-forwarded-proto" := [if isTls then "https" else "http"]];
    if Get(m2, "host") != [] then m2["x-forwarded-host" := [Get(m2, "host")[0]]] else m2
  }

  lemma EditsArePrescribed(m: Multimap, upstream: Option<string>, clientIp: string, isTls: bool)
    requires NoEmptyEntry(m)
    ensures Edited(m, upstream, clientIp, isTls) == Rewritten(m, upstream, clientIp, isTls)
  {
    var edited := Edited(m, upstream, clientIp, isTls);
    NotHopByHop("host");
    forall name
      ensures Get(edited, name) == Prescribed(m, upstream, clientIp, isTls, name)
    {
      NotHopByHop(name);
    }
    forall name
      ensures Get(edited, name) == Get(Rewritten(m, upstream, clientIp, isTls), name)
    {
      RewrittenGet(m, upstream, clientIp, isTls, name);
    }
    assert NoEmptyEntry(edited);
    RewrittenGet(m, upstream, clientIp, isTls, "host");
    SameValuesSameMap(edited, Rewritten(m, upstream, clientIp, isTls));
  }

  lemma NotHopByHop(name: string)
    ensures name in {"host", "x-forwarded-for", "x-forwarded-proto", "x-forwarded-host"} ==> name !in HOP_BY_HOP
    ensures "x-forwarded-for" != "x-forwarded-proto" && "x-forwarded-for" != "x-forwarded-host"
    ensures "x-forwarded-proto" != "x-forwarded-host"
    ensures "host" !in {"x-forwarded-for", "x-forwarded-proto", "x-forwarded-host"}
  {
  }

  /** Name by name, the rewritten map holds what is prescribed. */
  lemma RewrittenGet(m: Multimap, upstream: Option<string>, clientIp: string, isTls: bool, name: string)
    ensures Get(Rewritten(m, upstream, clientIp, isTls), name) == Prescribed(m, upstream, clientIp, isTls, name)
    ensures NoEmptyEntry(Rewritten(m, upstream, clientIp, isTls))
  {
  }

  /** What the rewrite promises, name by name, for an address that is a header value and for one that is not:
      nothing hop-by-hop survives, x-forwarded-for and x-forwarded-proto have exactly the one value each, Host
      is the upstream's if that is a header value, x-forwarded-host repeats the rewritten Host, and every other
      name keeps its values in order. */
  lemma RewriteMeetsSpec(m: Multimap, upstream: Option<string>, clientIp: string, isTls: bool, name: string)
    requires NoEmptyEntry(m)
    ensures var out := Rewritten(m, upstream, clientIp, isTls);
            && (name in {"connection", "keep-alive", "proxy-authenticate", "proxy-authorization", "te", "trailers",
                         "transfer-encoding", "upgrade"} ==>
                  name !in out)
            && "x-forwarded-for" in out && out["x-forwarded-for"] == [clientIp]
            && "x-forwarded-proto" in out && out["x-forwarded-proto"] == [if isTls then "https" else "http"]
            && (upstream.Some? ==>
                  && "host" in out && out["host"] == [upstream.value]
                  && "x-forwarded-host" in out && out["x-forwarded-host"] == [upstream.value])
            && (upstream.None? && "host" in m ==>
                  && "host" in out && out["host"] == m["host"]
                  && "x-forwarded-host" in out && out["x-forwarded-host"] == [m["host"][0]])
            && (upstream.None? && "host" !in m ==>
                  && "host" !in out
                  && ("x-forwarded-host" in out <==> "x-forwarded-host" in m)
                  && ("x-forwarded-host" in m ==> out["x-forwarded-host"] == m["x-forwarded-host"]))
            && (name !in {"connection", "keep-alive", "proxy-authenticate", "proxy-authorization", "te", "trailers",
                          "transfer-encoding", "upgrade", "host", "x-forwarded-for", "x-forwarded-proto",
                          "x-forwarded-host"} ==>
                  (name in out <==> name in m) && (name in m ==> out[name] == m[name]))
  {
    var out := Rewritten(m, upstream, clientIp, isTls);
    NotHopByHop("host");
    NotHopByHop("x-forwarded-for");
    NotHopByHop("x-forwarded-proto");
    NotHopByHop("x-forwarded-host");
    HopByHopNames(name);
    PrescribedIsHeld(m, upstream, clientIp, isTls, name);
    PrescribedIsHeld(m, upstream, clientIp, isTls, "host");
    PrescribedIsHeld(m, upstream, clientIp, isTls, "x-forwarded-for");
    PrescribedIsHeld(m, upstream, clientIp, isTls, "x-forwarded-proto");
    PrescribedIsHeld(m, upstream, clientIp, isTls, "x-forwarded-host");
  }

  lemma PrescribedIsHeld(m: Multimap, upstream: Option<string>, clientIp: string, isTls: bool, name: string)
    ensures var out, values := Rewritten(m, upstream, clientIp, isTls), Prescribed(m, upstream, clientIp, isTls, name);
            (name in out <==> values != []) && (name in out ==> out[name] == values)
  {
    RewrittenGet(m, upstream, clientIp, isTls, name);
  }

  lemma PrescribedAgain(m: Multimap, once: Multimap, upstream: Option<string>, clientIp: string, isTls: bool,
                        name: string)
    requires Get(once, name) == Prescribed(m, upstream, clientIp, isTls, name)
    requires Get(once, "host") == Prescribed(m, upstream, clientIp, isTls, "host")
    ensures Prescribed(once, upstream, clientIp, isTls, name) == Prescribed(m, upstream, clientIp, isTls, name)
  {
  }

  /** Rewriting a rewritten map again changes nothing, also when the address is not a header value. */
  lemma RewriteIsIdempotent(m: Multimap, upstream: Option<string>, clientIp: string, isTls: bool)
    ensures var once := Rewritten(m, upstream, clientIp, isTls);
            Rewritten(once, upstream, clientIp, isTls) == once
  {
    var once := Rewritten(m, upstream, clientIp, isTls);
    var twice := Rewritten(once, upstream, clientIp, isTls);
    RewrittenGet(m, upstream, clientIp, isTls, "host");
    RewrittenGet(once, upstream, clientIp, isTls, "host");
    forall name
      ensures Get(twice, name) == Get(once, name)
    {
      RewrittenGet(m, upstream, clientIp, isTls, name);
      RewrittenGet(once, upstream, clientIp, isTls, name);
      PrescribedAgain(m, once, upstream, clientIp, isTls, name);
    }
    SameValuesSameMap(once, twice);
  }
}
