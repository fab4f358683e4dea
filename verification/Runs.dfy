/** Runs: any requests, on any replicas of one deployment, in any order. */
module Runs {
  import opened TtlStore
  import opened Artifacts
  import opened Handlers
  import opened Steps

  /** The ledger is common to all replicas; the rest is each replica's own. */
  datatype World = World(ledger: Ledger, replicas: seq<Replica>)

  datatype Action = Action(replica: nat, now: int, request: Request, random: Fresh)

  /** A history: the actions, the worlds before, between and after them, and the responses. */
  datatype Run = Run(cfg: Config, actions: seq<Action>, worlds: seq<World>, responses: seq<Response>) {

    predicate Shaped() {
      && cfg.Sane()
      && |worlds| == |actions| + 1 && |responses| == |actions|
      && (forall n :: 0 <= n < |worlds| ==> |worlds[n].replicas| == |worlds[0].replicas|)
      && Routed(actions, |worlds[0].replicas|)
    }

    /** What the acting replica sees at step `n`. */
    function StateAt(n: nat): State
      requires Shaped() && n < |actions|
    {
      State(worlds[n].ledger, worlds[n].replicas[actions[n].replica])
    }

    /** Step `n` is the handler's doing, and touches no other replica. */
    ghost predicate StepHolds(n: nat)
      requires Shaped() && n < |actions|
    {
      var a := actions[n];
      var (s, response) := Handle(cfg, StateAt(n), a.now, a.request, a.random);
      && responses[n] == response
      && worlds[n + 1] == World(s.ledger, worlds[n].replicas[a.replica := s.replica])
    }

    /** Nothing has happened yet, on any replica. */
    predicate StartsBlank()
      requires Shaped()
    {
      worlds[0].ledger == map[] && forall r <- worlds[0].replicas :: r == BLANK
    }

    ghost predicate Valid() {
      && Shaped() && StartsBlank()
      && forall n :: 0 <= n < |actions| ==> StepHolds(n)
    }

    ghost predicate FreshAt(n: nat)
      requires Shaped() && n < |actions|
    {
      FreshFor(worlds[n].ledger, actions[n].random)
    }

    /** A run in which random values never repeat. */
    ghost predicate Genuine() {
      Valid() && forall n :: 0 <= n < |actions| ==> FreshAt(n)
    }

    /** All replicas read the same clock. */
    ghost predicate OneClock() {
      forall i, j :: 0 <= i <= j < |actions| ==> actions[i].now <= actions[j].now
    }

    predicate Granted(n: nat)
      requires n < |responses|
    {
      responses[n].TokenGrant?
    }
  }

  const BLANK := Replica(Contents(map[], []), Contents(map[], []), Contents(map[], []),
                         Contents(map[], []), Contents(map[], []))

  /** A run, and one more action. */
  function Extend(run: Run, a: Action): (longer: Run)
    requires run.Shaped() && a.replica < |run.worlds[0].replicas|
    ensures longer.Shaped() && longer.cfg == run.cfg && longer.actions == run.actions + [a]
    ensures |longer.worlds[0].replicas| == |run.worlds[0].replicas|
  {
    var w := run.worlds[|run.actions|];
    var (s, response) := Handle(run.cfg, State(w.ledger, w.replicas[a.replica]), a.now, a.request, a.random);
    Run(run.cfg, run.actions + [a], run.worlds + [World(s.ledger, w.replicas[a.replica := s.replica])],
        run.responses + [response])
  }

  /** The run in which nothing has happened yet. */
  function Blank(cfg: Config, replicas: nat): (run: Run)
    requires cfg.Sane()
    ensures run.Shaped() && run.cfg == cfg && run.actions == [] && |run.worlds[0].replicas| == replicas
  {
    Run(cfg, [], [World(map[], seq(replicas, _ => BLANK))], [])
  }

  /** Every action goes to a replica there is. */
  predicate Routed(actions: seq<Action>, replicas: nat) {
    forall n :: 0 <= n < |actions| ==> actions[n].replica < replicas
  }

  /** Any sequence of actions has its run. */
  function Execute(cfg: Config, replicas: nat, actions: seq<Action>): (run: Run)
    requires cfg.Sane() && Routed(actions, replicas)
    ensures run.Shaped() && run.cfg == cfg && run.actions == actions && |run.worlds[0].replicas| == replicas
  {
    if actions == [] then Blank(cfg, replicas)
    else
      var before := Execute(cfg, replicas, actions[..|actions| - 1]);
      assert before.actions + [actions[|actions| - 1]] == actions;
      Extend(before, actions[|actions| - 1])
  }

  lemma {:induction false} ExecuteIsValid(cfg: Config, replicas: nat, actions: seq<Action>)
    requires cfg.Sane() && Routed(actions, replicas)
    ensures Execute(cfg, replicas, actions).Valid()
  {
    if actions == [] {
    } else {
      ExecuteIsValid(cfg, replicas, actions[..|actions| - 1]);
      ExtendIsValid(Execute(cfg, replicas, actions[..|actions| - 1]), actions[|actions| - 1]);
    }
  }

  lemma ExecuteOneMore(cfg: Config, replicas: nat, actions: seq<Action>, n: nat)
    requires cfg.Sane() && Routed(actions, replicas) && n < |actions|
    ensures Routed(actions[..n + 1], replicas)
    ensures Execute(cfg, replicas, actions[..n + 1]) == Extend(Execute(cfg, replicas, actions[..n]), actions[n])
  {
    hide Extend;
    assert actions[..n + 1][..n] == actions[..n];
  }

  lemma ExtendIsValid(run: Run, a: Action)
    requires run.Valid() && a.replica < |run.worlds[0].replicas|
    ensures Extend(run, a).Valid()
    ensures run.Genuine() && FreshFor(run.worlds[|run.actions|].ledger, a.random) ==> Extend(run, a).Genuine()
  {
    hide Handle, FreshFor;
    var longer := Extend(run, a);
    forall n | 0 <= n < |longer.actions|
      ensures longer.StepHolds(n)
      ensures run.Genuine() && FreshFor(run.worlds[|run.actions|].ledger, a.random) ==> longer.FreshAt(n)
    {
      if n < |run.actions| {
        assert run.StepHolds(n) && (run.Genuine() ==> run.FreshAt(n));
        SamePast(run, longer, n);
      }
    }
    assert longer.worlds[0] == run.worlds[0];
  }

  lemma SamePast(run: Run, longer: Run, n: nat)
    requires run.Shaped() && longer.Shaped() && longer.cfg == run.cfg && n < |run.actions|
    requires run.actions <= longer.actions && run.worlds <= longer.worlds && run.responses <= longer.responses
    ensures longer.actions[n] == run.actions[n] && longer.responses[n] == run.responses[n]
    ensures longer.worlds[n] == run.worlds[n] && longer.worlds[n + 1] == run.worlds[n + 1]
    ensures longer.StepHolds(n) <==> run.StepHolds(n)
  {
    hide Handle;
  }

  // ---- the ledger over a run -----------------------------------------------------------

  lemma LedgerStepAt(run: Run, n: nat)
    requires run.Valid() && n < |run.actions|
    ensures var a := run.actions[n];
            LedgerStep(run.cfg, run.worlds[n].ledger, a.now, a.request, a.random, run.responses[n],
                       run.worlds[n + 1].ledger)
  {
    var a := run.actions[n];
    assert run.StepHolds(n);
    HandleIsLedgerStep(run.cfg, run.StateAt(n), a.now, a.request, a.random);
  }

  lemma LedgerGrows(run: Run, n: nat)
    requires run.Genuine() && n < |run.actions|
    ensures Extends(run.worlds[n].ledger, run.worlds[n + 1].ledger)
  {
    LedgerStepAt(run, n);
    assert run.FreshAt(n);
  }

  lemma {:induction false} LedgerKeeps(run: Run, i: nat, j: nat)
    requires run.Genuine() && i <= j <= |run.actions|
    ensures Extends(run.worlds[i].ledger, run.worlds[j].ledger)
    decreases j
  {
    if i == j {
    } else {
      LedgerKeeps(run, i, j - 1);
      LedgerGrows(run, j - 1);
    }
  }

  /** The step that minted an artifact. */
  lemma {:induction false} MintedAt(run: Run, n: nat, t: string) returns (k: nat)
    requires run.Genuine() && n <= |run.actions| && t in run.worlds[n].ledger
    ensures k < n && t !in run.worlds[k].ledger && t in run.worlds[k + 1].ledger
    ensures run.worlds[k + 1].ledger[t] == run.worlds[n].ledger[t]
  {
    if t in run.worlds[n - 1].ledger {
      LedgerGrows(run, n - 1);
      k := MintedAt(run, n - 1, t);
    } else {
      k := n - 1;
    }
  }
}
