/**
  Several replicas behind one address: servers that share nothing but the key
  material, each serving the requests routed to it. What they answer is what
  the runs say.
 */
module Deployment {
  import opened Wrappers
  import opened RateLimiter
  import opened Cimd
  import opened Runs
  import opened WebServer
  import H = Handlers

  /** The memory of one server, but for the shared keys. */
  ghost function Own(s: Server): set<object>
    reads s
  {
    s.Repr - {s.keys}
  }

  /** The servers are in order, with one configuration and one set of keys, and share nothing else. */
  ghost predicate Separate(cfg: H.Config, keys: KeyMaterial, servers: seq<Server>)
    reads servers, set s <- servers, o <- s.Repr :: o
  {
    && (forall i :: 0 <= i < |servers| ==> servers[i].Valid() && servers[i].cfg == cfg && servers[i].keys == keys)
    && (forall i, j :: 0 <= i < j < |servers| ==> Own(servers[i]) !! Own(servers[j]))
  }

  /** Together they are in the state of this world. */
  ghost predicate Reflects(keys: KeyMaterial, servers: seq<Server>, w: World)
    reads keys, servers, set s <- servers, o <- s.Repr :: o
  {
    && |w.replicas| == |servers| && keys.minted == w.ledger
    && forall i :: 0 <= i < |servers| ==> servers[i].Valid() && servers[i].State().replica == w.replicas[i]
  }

  /** A server whose own memory did not change is as it was, whatever became of the keys. */
  twostate lemma Untouched(s: Server)
    requires old(s.Valid())
    requires forall o :: o in old(Own(s)) ==> unchanged(o)
    ensures s.Valid() && s.Repr == old(s.Repr) && s.State().replica == old(s.State()).replica
  {
    hide RateLimiter.Valid;
    var own := old(Own(s));
    assert s in own && old(s.Repr) == own + {s.keys};
    assert s.keys !in old(s.regLimiter.Repr()) && s.keys !in old(s.tokenLimiter.Repr());
    assert s.keys !in old(s.cimdLimiter.Repr());
    LimiterUntouched(s.regLimiter);
    LimiterUntouched(s.tokenLimiter);
    LimiterUntouched(s.cimdLimiter);
    assert s.guard.c in own && (s.cimd != null ==> s.cimd.cache in own);
  }

  twostate lemma LimiterUntouched(l: RateLimiter)
    requires old(l.Valid())
    requires forall o :: o in old(l.Repr()) ==> unchanged(o)
    ensures l.Valid() && l.Repr() == old(l.Repr()) && l.counts == old(l.counts)
  {
    assert l in old(l.Repr()) && l.c in old(l.Repr());
    forall k | k in l.c.entries
      ensures unchanged(l.c.entries[k].value)
    {
      assert l.c.entries[k].value in old(l.Repr());
    }
  }

  /** One request, at the replica it is routed to. */
  method ServeOne(cfg: H.Config, keys: KeyMaterial, servers: seq<Server>, a: Action, ghost w: World)
    returns (response: H.Response, ghost after: World)
    requires Separate(cfg, keys, servers) && Reflects(keys, servers, w) && a.replica < |servers|
    modifies servers[a.replica].Repr
    ensures Separate(cfg, keys, servers) && Reflects(keys, servers, after)
    ensures fresh(servers[a.replica].Repr - old(servers[a.replica].Repr))
    ensures forall i :: 0 <= i < |servers| && i != a.replica ==> servers[i].Repr == old(servers[i].Repr)
    ensures var (s, r) := H.Handle(cfg, H.State(w.ledger, w.replicas[a.replica]), a.now, a.request, a.random);
            response == r && after == World(s.ledger, w.replicas[a.replica := s.replica])
  {
    hide H.Handle, Server.Valid;
    var server := servers[a.replica];
    response := server.Handle(a.now, a.request, a.random);
    after := World(keys.minted, w.replicas[a.replica := server.State().replica]);
    forall i | 0 <= i < |servers| && i != a.replica
      ensures servers[i].Valid() && servers[i].Repr == old(servers[i].Repr)
      ensures servers[i].State().replica == old(servers[i].State()).replica
      ensures Own(servers[i]) !! Own(server)
    {
      Untouched(servers[i]);
    }
  }

  /** Servers that remember nothing yet, with memory of their own. */
  ghost predicate AllNew(servers: seq<Server>)
    reads servers, set s <- servers, o <- s.Repr :: o
  {
    forall i :: 0 <= i < |servers| ==> servers[i].Valid() && servers[i].State().replica == BLANK
  }

  method AddServer(cfg: H.Config, cimd: Option<CIMDOptions>, keys: KeyMaterial, servers: seq<Server>)
    returns (more: seq<Server>)
    requires cfg.Sane() && cfg.cimd == if cimd.Some? then Some(SettingsOf(cimd.value)) else None
    requires Separate(cfg, keys, servers) && AllNew(servers)
    ensures |more| == |servers| + 1 && more[..|servers|] == servers && fresh(Own(more[|servers|]))
    ensures Separate(cfg, keys, more) && AllNew(more)
  {
    hide Server.Valid, SettingsOf;
    var s := Server.Assemble(cfg, cimd, keys);
    more := servers + [s];
  }

  /** All replicas, none of which remembers anything. */
  method Start(cfg: H.Config, cimd: Option<CIMDOptions>, replicas: nat) returns (keys: KeyMaterial,
                                                                                 servers: seq<Server>)
    requires cfg.Sane() && cfg.cimd == if cimd.Some? then Some(SettingsOf(cimd.value)) else None
    ensures |servers| == replicas && Separate(cfg, keys, servers)
    ensures Reflects(keys, servers, Blank(cfg, replicas).worlds[0])
    ensures fresh(keys) && forall i :: 0 <= i < |servers| ==> fresh(servers[i].Repr)
  {
    hide Server.Valid, SettingsOf;
    keys := new KeyMaterial();
    servers := [];
    while |servers| < replicas
      invariant |servers| <= replicas && fresh(keys) && keys.minted == map[]
      invariant Separate(cfg, keys, servers) && AllNew(servers)
      invariant forall i :: 0 <= i < |servers| ==> fresh(Own(servers[i]))
    {
      var before := servers;
      servers := AddServer(cfg, cimd, keys, servers);
      assert forall i :: 0 <= i < |before| ==> servers[i] == servers[..|before|][i];
    }
    assert forall i :: 0 <= i < |servers| ==> servers[i].Repr <= Own(servers[i]) + {keys};
  }

  /**
    Any number of replicas serving any sequence of requests: what they answer
    is exactly what the run of those actions says.
   */
  method Serve(cfg: H.Config, cimd: Option<CIMDOptions>, replicas: nat,
               actions: seq<Action>) returns (responses: seq<H.Response>)
    requires cfg.Sane() && cfg.cimd == if cimd.Some? then Some(SettingsOf(cimd.value)) else None
    requires Routed(actions, replicas)
    ensures responses == Execute(cfg, replicas, actions).responses
  {
    hide H.Handle, Server.Valid, SettingsOf, Separate, Reflects, Execute;
    var keys, servers := Start(cfg, cimd, replicas);
    responses := [];
    ghost var run := Blank(cfg, replicas);
    StartsBlank(cfg, replicas, actions);
    for n := 0 to |actions|
      invariant |servers| == replicas && Separate(cfg, keys, servers)
      invariant forall i :: 0 <= i < |servers| ==> fresh(servers[i].Repr)
      invariant run == Execute(cfg, replicas, actions[..n]) && responses == run.responses
      invariant Reflects(keys, servers, run.worlds[n])
    {
      ExecuteOneMore(cfg, replicas, actions, n);
      var response;
      ghost var after;
      response, after := ServeOne(cfg, keys, servers, actions[n], run.worlds[n]);
      responses := responses + [response];
      run := Extend(run, actions[n]);
      assert run.worlds[n + 1] == after;
    }
    assert actions[..|actions|] == actions;
  }

  lemma StartsBlank(cfg: H.Config, replicas: nat, actions: seq<Action>)
    requires cfg.Sane() && Routed(actions, replicas)
    ensures Execute(cfg, replicas, actions[..0]) == Blank(cfg, replicas)
  {
  }
}
