/**
 Moving websites from one web server to another: stage on the target, switch, and undo
 on every failure.  The vhost files are those of the nginx provider.
 */
module Migration {
  import opened Text

  // ----- A web server -----

  /** Config files by domain, the domains linked as enabled, and whether the service runs. */
  datatype Server = Server(available: map<string, string>, enabled: set<string>, running: bool)

  /**
   How one vhost application goes: the file cannot be opened, the write breaks off and leaves some
   text behind (the file was emptied first), the symbolic link or the configuration test fails.
   */
  datatype Fault = NoFault | OpenFails | WriteBreaks(left: string) | LinkFails | TestFails

  function Written(s: Server, domain: string, content: string): Server {
    s.(available := s.available[domain := content], enabled := s.enabled + {domain})
  }

  function Removed(s: Server, domain: string): Server {
    s.(available := s.available - {domain}, enabled := s.enabled - {domain})
  }

  /** The server after applying a vhost. An empty old file counts as no old file. */
  function Applied(s: Server, domain: string, content: string, fault: Fault): Server {
    match fault
    case NoFault => Written(s, domain, content)
    case OpenFails => s
    case WriteBreaks(left) => s.(available := s.available[domain := left])
    case LinkFails => s.(available := s.available[domain := content], enabled := s.enabled - {domain})
    case TestFails =>
      if domain in s.available && s.available[domain] != "" then s.(enabled := s.enabled + {domain})
      else Removed(s, domain)
  }

  class Provider {
    var available: map<string, string>
    var enabled: set<string>
    var running: bool

    ghost function View(): Server
      reads this
    {
      Server(available, enabled, running)
    }

    /** Write, link, test; a failed test puts back the old file or removes the new one. */
    method ApplyVHost(domain: string, content: string, fault: Fault) returns (ok: bool)
      modifies this
      ensures ok == fault.NoFault?
      ensures View() == Applied(old(View()), domain, content, fault)
    {
      var oldContent := if domain in available then available[domain] else "";
      if fault.OpenFails? { return false; }
      if fault.WriteBreaks? {
        available := available[domain := fault.left];
        return false;
      }
      available := available[domain := content];
      enabled := enabled - {domain};
      if fault == LinkFails { return false; }
      enabled := enabled + {domain};
      if fault == TestFails {
        enabled := enabled - {domain};
        if |oldContent| > 0 {
          available := available[domain := oldContent];
          enabled := enabled + {domain};
        } else {
          available := available - {domain};
        }
        return false;
      }
      return true;
    }

    method RemoveVHost(domain: string)
      modifies this
      ensures View() == Removed(old(View()), domain)
    {
      enabled := enabled - {domain};
      available := available - {domain};
    }

    method Start(ok: bool)
      modifies this`running
      ensures View() == old(View()).(running := old(running) || ok)
    {
      if ok { running := true; }
    }

    method Stop(ok: bool)
      modifies this`running
      ensures View() == old(View()).(running := old(running) && !ok)
    {
      if ok { running := false; }
    }
  }

  // ----- A migration -----

  /** A website and its generated configuration; none when the generation fails. */
  datatype Website = Website(domain: string, config: Option<string>)

  /** How the environment answers during one migration. */
  datatype Env = Env(
    installed: bool,
    licensed: bool,
    faults: map<string, Fault>,
    valid: bool,
    stopOk: bool,
    startOk: bool,
    healthy: bool,
    targetStopOk: bool,
    restartOk: bool)

  function FaultOf(env: Env, domain: string): Fault {
    if domain in env.faults then env.faults[domain] else NoFault
  }

  datatype Outcome =
    | NotInstalled
    | Unlicensed
    | NotGenerated
    | StagingFailed(domain: string)
    | ConfigInvalid
    | SourceNotStopped
    | TargetNotStarted
    | Unhealthy
    | Migrated(domains: seq<string>)

  datatype Switch = Switch(outcome: Outcome, source: Server, target: Server)

  /** The configurations by domain; none when one cannot be generated. A later site of the same domain wins. */
  function Generated(sites: seq<Website>, acc: map<string, string>): (r: (bool, map<string, string>)) {
    if sites == [] then (true, acc)
    else match sites[0].config
      case None => (false, acc)
      case Some(c) => Generated(sites[1..], acc[sites[0].domain := c])
  }

  function RemovedAll(s: Server, domains: seq<string>): Server
    decreases |domains|
  {
    if domains == [] then s else RemovedAll(Removed(s, domains[0]), domains[1..])
  }

  datatype Stage = Stage(failed: bool, domain: string, staged: seq<string>, server: Server)

  /** Applying the configurations in turn, up to the first failure. */
  function Staged(s: Server, order: seq<string>, configs: map<string, string>, env: Env, done: seq<string>): Stage
    requires forall d :: d in order ==> d in configs
    decreases |order|
  {
    if order == [] then Stage(false, "", done, s)
    else
      var d := order[0];
      var next := Applied(s, d, configs[d], FaultOf(env, d));
      if FaultOf(env, d) != NoFault then Stage(true, d, done, next)
      else Staged(next, order[1..], configs, env, done + [d])
  }

  /** The whole migration on two servers. */
  function Migration(source: Server, target: Server, sites: seq<Website>, order: seq<string>, env: Env): Switch
    requires Generated(sites, map[]).0 ==> KeyOrder(order, Generated(sites, map[]).1)
  {
    if !env.installed then Switch(NotInstalled, source, target)
    else if !env.licensed then Switch(Unlicensed, source, target)
    else if !Generated(sites, map[]).0 then Switch(NotGenerated, source, target)
    else
      var stage := Staged(target, order, Generated(sites, map[]).1, env, []);
      if stage.failed then Switch(StagingFailed(stage.domain), source, RemovedAll(stage.server, stage.staged))
      else if !env.valid then Switch(ConfigInvalid, source, RemovedAll(stage.server, stage.staged))
      else if source.running && !env.stopOk then Switch(SourceNotStopped, source, RemovedAll(stage.server, stage.staged))
      else if !env.startOk then
        Switch(TargetNotStarted, source.(running := source.running && env.restartOk), RemovedAll(stage.server, stage.staged))
      else if !env.healthy then
        Switch(Unhealthy, source.(running := source.running && env.restartOk),
               RemovedAll(stage.server.(running := !env.targetStopOk), stage.staged))
      else Switch(Migrated(stage.staged), source.(running := false), stage.server.(running := true))
  }

  method GenerateAll(sites: seq<Website>) returns (ok: bool, configs: map<string, string>)
    ensures (ok, configs) == Generated(sites, map[])
  {
    configs := map[];
    var i := 0;
    while i < |sites|
      invariant 0 <= i <= |sites|
      invariant Generated(sites[i..], configs) == Generated(sites, map[])
    {
      assert sites[i..][0] == sites[i] && sites[i..][1..] == sites[i + 1..];
      match sites[i].config {
        case None => return false, configs;
        case Some(c) => configs := configs[sites[i].domain := c];
      }
      i := i + 1;
    }
    assert sites[|sites|..] == [];
    return true, configs;
  }

  method RemoveAll(target: Provider, domains: seq<string>)
    modifies target
    ensures target.View() == RemovedAll(old(target.View()), domains)
  {
    var i := 0;
    while i < |domains|
      invariant 0 <= i <= |domains|
      invariant RemovedAll(target.View(), domains[i..]) == RemovedAll(old(target.View()), domains)
    {
      assert domains[i..][0] == domains[i] && domains[i..][1..] == domains[i + 1..];
      target.RemoveVHost(domains[i]);
      i := i + 1;
    }
    assert domains[|domains|..] == [];
  }

  method StageAll(target: Provider, order: seq<string>, configs: map<string, string>, env: Env)
    returns (failed: bool, domain: string, staged: seq<string>)
    requires forall d :: d in order ==> d in configs
    modifies target
    ensures Stage(failed, domain, staged, target.View()) == Staged(old(target.View()), order, configs, env, [])
  {
    staged := [];
    var i := 0;
    while i < |order|
      invariant 0 <= i <= |order|
      invariant forall d :: d in order[i..] ==> d in configs
      invariant Staged(target.View(), order[i..], configs, env, staged) == Staged(old(target.View()), order, configs, env, [])
    {
      var d := order[i];
      assert order[i..][0] == d && order[i..][1..] == order[i + 1..];
      var ok := target.ApplyVHost(d, configs[d], FaultOf(env, d));
      if !ok { return true, d, staged; }
      staged := staged + [d];
      i := i + 1;
    }
    assert order[|order|..] == [];
    return false, "", staged;
  }

  /** Preflight, generate, stage, validate, switch, check health; every failure is undone. */
  method ExecuteMigration(source: Provider, target: Provider, sites: seq<Website>, order: seq<string>, env: Env)
    returns (r: Outcome)
    requires source != target && (Generated(sites, map[]).0 ==> KeyOrder(order, Generated(sites, map[]).1))
    modifies source, target
    ensures Switch(r, source.View(), target.View()) == Migration(old(source.View()), old(target.View()), sites, order, env)
  {
    if !env.installed { return NotInstalled; }
    if !env.licensed { return Unlicensed; }
    var ok, configs := GenerateAll(sites);
    if !ok { return NotGenerated; }
    var failed, domain, staged := StageAll(target, order, configs, env);
    if failed {
      RemoveAll(target, staged);
      return StagingFailed(domain);
    }
    if !env.valid {
      RemoveAll(target, staged);
      return ConfigInvalid;
    }
    var sourceRunning := source.running;
    if sourceRunning {
      source.Stop(env.stopOk);
      if !env.stopOk {
        RemoveAll(target, staged);
        return SourceNotStopped;
      }
    }
    target.Start(env.startOk);
    if !env.startOk {
      RemoveAll(target, staged);
      if sourceRunning { source.Start(env.restartOk); }
      return TargetNotStarted;
    }
    if !env.healthy {
      target.Stop(env.targetStopOk);
      RemoveAll(target, staged);
      if sourceRunning { source.Start(env.restartOk); }
      return Unhealthy;
    }
    return Migrated(staged);
  }

  // ----- One vhost -----

  /**
   A failed configuration test restores the server exactly when the domain was either absent,
   or present with content and enabled.
   */
  lemma FailedTestRestoresIff(s: Server, domain: string, content: string)
    ensures Applied(s, domain, content, TestFails) == s <==>
            if domain in s.available && s.available[domain] != "" then domain in s.enabled
            else domain !in s.available && domain !in s.enabled
  {
    var r := Removed(s, domain);
    if domain !in s.available && domain !in s.enabled {
      assert r.available == s.available && r.enabled == s.enabled;
    }
    if domain in s.enabled { assert s.enabled + {domain} == s.enabled; }
  }

  /** A failed link is never undone: the file keeps the new content and the domain is no longer enabled. */
  lemma FailedLinkRestoresIff(s: Server, domain: string, content: string)
    ensures Applied(s, domain, content, LinkFails) == s <==>
            domain in s.available && s.available[domain] == content && domain !in s.enabled
  {
    var r := Applied(s, domain, content, LinkFails);
    if domain in s.available && s.available[domain] == content && domain !in s.enabled {
      assert r.available == s.available && r.enabled == s.enabled;
    }
    assert domain in r.available && r.available[domain] == content && domain !in r.enabled;
  }

  /** A write that breaks off is never undone: the server is as before only when the file held that very text. */
  lemma BrokenWriteRestoresIff(s: Server, domain: string, content: string, left: string)
    ensures Applied(s, domain, content, WriteBreaks(left)) == s <==> domain in s.available && s.available[domain] == left
  {
    var r := Applied(s, domain, content, WriteBreaks(left));
    assert domain in r.available && r.available[domain] == left;
    if domain in s.available && s.available[domain] == left { assert r.available == s.available; }
  }

  /** What a failed application finds when it leaves the server as it was. */
  predicate LeavesAlone(s: Server, domain: string, content: string, fault: Fault) {
    match fault
    case NoFault => domain in s.available && s.available[domain] == content && domain in s.enabled
    case OpenFails => true
    case WriteBreaks(left) => domain in s.available && s.available[domain] == left
    case LinkFails => domain in s.available && s.available[domain] == content && domain !in s.enabled
    case TestFails =>
      if domain in s.available && s.available[domain] != "" then domain in s.enabled
      else domain !in s.available && domain !in s.enabled
  }

  lemma FailedApplyRestoresIff(s: Server, domain: string, content: string, fault: Fault)
    requires fault != NoFault
    ensures Applied(s, domain, content, fault).running == s.running
    ensures SameSites(Applied(s, domain, content, fault), s) <==> LeavesAlone(s, domain, content, fault)
  {
    match fault {
      case OpenFails =>
      case WriteBreaks(left) => BrokenWriteRestoresIff(s, domain, content, left);
      case LinkFails => FailedLinkRestoresIff(s, domain, content);
      case TestFails => FailedTestRestoresIff(s, domain, content);
    }
  }

  // ----- All or nothing -----

  /** The text a failed application leaves in the file of a domain that was absent before; none when it leaves no file. */
  function Leftover(content: string, fault: Fault): Option<string> {
    match fault
    case WriteBreaks(left) => Some(left)
    case LinkFails => Some(content)
    case _ => None
  }

  /** The server holds none of the domains. */
  predicate HoldsNone(s: Server, domains: seq<string>) {
    forall d :: d in domains ==> d !in s.available && d !in s.enabled
  }

  /** Two servers with the same files and links. */
  predicate SameSites(a: Server, b: Server) {
    a.available == b.available && a.enabled == b.enabled
  }

  lemma {:induction false} RemovedAllIs(s: Server, domains: seq<string>)
    ensures var r := RemovedAll(s, domains);
            && r.running == s.running
            && r.available == s.available - (set d | d in domains)
            && r.enabled == s.enabled - (set d | d in domains)
    decreases |domains|
  {
    if domains != [] {
      RemovedAllIs(Removed(s, domains[0]), domains[1..]);
      assert (set d | d in domains) == {domains[0]} + (set d | d in domains[1..]);
    } else {
      assert s.available - {} == s.available;
    }
  }

  /** What staging has written: the configurations of the staged domains over the old server. */
  ghost predicate Overlaid(s: Server, r: Server, staged: seq<string>, configs: map<string, string>) {
    && r.running == s.running
    && (forall d :: d in staged ==> d in configs && d in r.available && r.available[d] == configs[d] && d in r.enabled)
    && (forall d :: d !in staged ==> (d in r.available <==> d in s.available) && (d in r.enabled <==> d in s.enabled))
    && (forall d :: d !in staged && d in s.available ==> r.available[d] == s.available[d])
  }

  /** Staging stopped at a domain whose application failed. */
  ghost predicate StoppedAt(s0: Server, st: Stage, configs: map<string, string>, env: Env) {
    && st.domain in configs && st.domain !in st.staged && FaultOf(env, st.domain) != NoFault
    && exists m :: Overlaid(s0, m, st.staged, configs) && st.server == Applied(m, st.domain, configs[st.domain], FaultOf(env, st.domain))
  }

  lemma OneMore(s0: Server, s: Server, done: seq<string>, d: string, configs: map<string, string>)
    requires Overlaid(s0, s, done, configs) && d in configs
    ensures Overlaid(s0, Written(s, d, configs[d]), done + [d], configs)
  {
    forall x ensures x in done + [d] <==> x in done || x == d {}
  }

  /** The domains still to be staged: known, distinct, and not staged yet. */
  ghost predicate Todo(order: seq<string>, configs: map<string, string>, done: seq<string>) {
    && (forall d :: d in order ==> d in configs && d !in done)
    && (forall i, j :: 0 <= i < j < |order| ==> order[i] != order[j])
  }

  lemma TodoTail(order: seq<string>, configs: map<string, string>, done: seq<string>)
    requires order != [] && Todo(order, configs, done)
    ensures order[0] in order && order[0] in configs && order[0] !in done
    ensures Todo(order[1..], configs, done + [order[0]])
    ensures forall x :: x in order[1..] ==> x in order
  {
    var later := order[1..];
    assert forall i :: 0 <= i < |later| ==> later[i] == order[i + 1];
    assert forall x :: x in later ==> x in order && x != order[0];
  }

  lemma {:induction false} StagedWhole(s0: Server, s: Server, order: seq<string>, configs: map<string, string>, env: Env, done: seq<string>)
    requires Overlaid(s0, s, done, configs) && Todo(order, configs, done)
    requires !Staged(s, order, configs, env, done).failed
    ensures var st := Staged(s, order, configs, env, done);
            st.staged == done + order && Overlaid(s0, st.server, st.staged, configs)
    decreases |order|
  {
    if order == [] {
      assert done + order == done;
    } else {
      var d := order[0];
      TodoTail(order, configs, done);
      OneMore(s0, s, done, d, configs);
      StagedWhole(s0, Written(s, d, configs[d]), order[1..], configs, env, done + [d]);
      OrderSplit(done, order);
    }
  }

  lemma OrderSplit(done: seq<string>, order: seq<string>)
    requires order != []
    ensures done + [order[0]] + order[1..] == done + order
  {
  }

  lemma {:induction false} StagedPart(s0: Server, s: Server, order: seq<string>, configs: map<string, string>, env: Env, done: seq<string>)
    requires Overlaid(s0, s, done, configs) && Todo(order, configs, done)
    requires Staged(s, order, configs, env, done).failed
    ensures var st := Staged(s, order, configs, env, done); st.domain in order && StoppedAt(s0, st, configs, env)
    decreases |order|
  {
    var d := order[0];
    TodoTail(order, configs, done);
    if FaultOf(env, d) == NoFault {
      OneMore(s0, s, done, d, configs);
      StagedPart(s0, Written(s, d, configs[d]), order[1..], configs, env, done + [d]);
    }
  }

  lemma {:induction false} StagedFrom(s: Server, order: seq<string>, configs: map<string, string>, env: Env, done: seq<string>)
    requires forall d :: d in order ==> d in configs
    ensures forall d :: d in Staged(s, order, configs, env, done).staged ==> d in done || d in order
    decreases |order|
  {
    if order != [] && FaultOf(env, order[0]) == NoFault {
      StagedFrom(Written(s, order[0], configs[order[0]]), order[1..], configs, env, done + [order[0]]);
    }
  }

  /** Undoing what was staged on a server that held none of it gives that server back. */
  lemma UndoRestores(s0: Server, m: Server, staged: seq<string>, configs: map<string, string>)
    requires Overlaid(s0, m, staged, configs) && HoldsNone(s0, staged)
    ensures SameSites(RemovedAll(m, staged), s0) && RemovedAll(m, staged).running == s0.running
  {
    RemovedAllIs(m, staged);
    var r := RemovedAll(m, staged);
    forall d ensures d in r.available <==> d in s0.available {}
    assert r.available == s0.available;
    forall d ensures d in r.enabled <==> d in s0.enabled {}
    assert r.enabled == s0.enabled;
  }

  /** A failed application on a domain the server does not hold leaves at most one file, and no link. */
  lemma FailedApply(m: Server, d: string, content: string, fault: Fault)
    requires d !in m.available && d !in m.enabled && fault != NoFault
    ensures match Leftover(content, fault)
            case None => Applied(m, d, content, fault) == m
            case Some(left) => Applied(m, d, content, fault) == m.(available := m.available[d := left])
  {
    assert m.enabled - {d} == m.enabled;
    if fault == TestFails { assert m.available - {d} == m.available; }
  }

  /** Removing staged files and leaving behind one more file. */
  lemma UndoAround(s0: Server, m: Server, staged: seq<string>, configs: map<string, string>, d: string, content: string)
    requires Overlaid(s0, m, staged, configs) && HoldsNone(s0, staged) && d !in staged
    ensures var r := RemovedAll(m.(available := m.available[d := content]), staged);
            r.available == s0.available[d := content] && r.enabled == s0.enabled && r.running == s0.running
  {
    UndoRestores(s0, m, staged, configs);
    RemovedAllIs(m, staged);
    RemovedAllIs(m.(available := m.available[d := content]), staged);
    var r := RemovedAll(m.(available := m.available[d := content]), staged);
    assert r.available == RemovedAll(m, staged).available[d := content];
  }

  /** How a migration of generated sites unfolds. */
  lemma Unfolding(source: Server, target: Server, sites: seq<Website>, order: seq<string>, env: Env) returns (st: Stage)
    requires Generated(sites, map[]).0 && KeyOrder(order, Generated(sites, map[]).1) && env.installed && env.licensed
    ensures st == Staged(target, order, Generated(sites, map[]).1, env, [])
    ensures !st.failed ==> st.staged == order && Overlaid(target, st.server, order, Generated(sites, map[]).1)
    ensures st.failed ==> st.domain in order && StoppedAt(target, st, Generated(sites, map[]).1, env)
    ensures st.failed ==> forall d :: d in st.staged ==> d in order
  {
    st := Staged(target, order, Generated(sites, map[]).1, env, []);
    if st.failed {
      StagedPart(target, target, order, Generated(sites, map[]).1, env, []);
    } else {
      StagedWhole(target, target, order, Generated(sites, map[]).1, env, []);
    }
    StagedFrom(target, order, Generated(sites, map[]).1, env, []);
    assert [] + order == order;
  }

  /** Success: the source is stopped, the target runs and serves every requested domain; nothing else on it has changed. */
  lemma SuccessMovesEverything(source: Server, target: Server, sites: seq<Website>, order: seq<string>, env: Env)
    requires Generated(sites, map[]).0 ==> KeyOrder(order, Generated(sites, map[]).1)
    requires Migration(source, target, sites, order, env).outcome.Migrated?
    ensures var m := Migration(source, target, sites, order, env);
            && !m.source.running && SameSites(m.source, source) && m.target.running
            && Overlaid(target, m.target.(running := target.running), order, Generated(sites, map[]).1)
            && m.outcome.domains == order
  {
    var st := Unfolding(source, target, sites, order, env);
  }

  /**
   Failure on a stopped target that held none of the requested domains, with a source that can
   be started again: the source runs as before, the target is stopped and its sites are as
   before - except for the one file of a domain whose write broke off or whose link failed.
   */
  lemma FailureRestores(source: Server, target: Server, sites: seq<Website>, order: seq<string>, env: Env)
    requires Generated(sites, map[]).0 ==> KeyOrder(order, Generated(sites, map[]).1)
    requires !Migration(source, target, sites, order, env).outcome.Migrated?
    requires !target.running && HoldsNone(target, order) && env.restartOk && env.targetStopOk
    ensures var m := Migration(source, target, sites, order, env);
            && m.source == source && !m.target.running && m.target.enabled == target.enabled
            && (m.target == target <==>
                !(m.outcome.StagingFailed? && Leftover("", FaultOf(env, m.outcome.domain)).Some?))
            && (m.target != target ==>
                 (m.outcome.domain in order && m.outcome.domain in Generated(sites, map[]).1 &&
                  (var left := Leftover(Generated(sites, map[]).1[m.outcome.domain], FaultOf(env, m.outcome.domain));
                   left.Some? && m.target.available == target.available[m.outcome.domain := left.value])))
  {
    if env.installed && env.licensed && Generated(sites, map[]).0 {
      var configs := Generated(sites, map[]).1;
      var st := Unfolding(source, target, sites, order, env);
      if st.failed {
        var m :| Overlaid(target, m, st.staged, configs) &&
                 st.server == Applied(m, st.domain, configs[st.domain], FaultOf(env, st.domain));
        assert st.domain !in m.available && st.domain !in m.enabled;
        FailedApply(m, st.domain, configs[st.domain], FaultOf(env, st.domain));
        UndoRestores(target, m, st.staged, configs);
        match Leftover(configs[st.domain], FaultOf(env, st.domain)) {
          case None =>
          case Some(left) =>
            UndoAround(target, m, st.staged, configs, st.domain, left);
            assert st.domain in target.available[st.domain := left];
        }
      } else {
        UndoRestores(target, st.server, order, configs);
        RemovedAllIs(st.server, order);
        RemovedAllIs(st.server.(running := false), order);
      }
    }
  }

  /** An application touches its own domain only, and goes by nothing else. */
  lemma AppliedElsewhere(m: Server, s: Server, d: string, content: string, fault: Fault, x: string)
    requires (d in m.available <==> d in s.available) && (d in m.available ==> m.available[d] == s.available[d])
    requires d in m.enabled <==> d in s.enabled
    ensures LeavesAlone(m, d, content, fault) <==> LeavesAlone(s, d, content, fault)
    ensures var r := Applied(m, d, content, fault);
            x != d ==> (x in r.available <==> x in m.available) && (x in r.available ==> r.available[x] == m.available[x]) &&
                       (x in r.enabled <==> x in m.enabled)
  {
  }

  /** Undoing the staged domains around one failed application. */
  lemma UndoRestoresIff(s0: Server, m: Server, staged: seq<string>, configs: map<string, string>, d: string, content: string, fault: Fault)
    requires Overlaid(s0, m, staged, configs) && d !in staged && fault != NoFault
    ensures SameSites(RemovedAll(Applied(m, d, content, fault), staged), s0) <==>
            HoldsNone(s0, staged) && LeavesAlone(s0, d, content, fault)
  {
    var u := Applied(m, d, content, fault);
    var r := RemovedAll(u, staged);
    RemovedAllIs(u, staged);
    FailedApplyRestoresIff(m, d, content, fault);
    AppliedElsewhere(m, s0, d, content, fault, d);
    forall x | x != d
      ensures (x in u.available <==> x in m.available) && (x in u.available ==> u.available[x] == m.available[x])
      ensures x in u.enabled <==> x in m.enabled
    {
      AppliedElsewhere(m, s0, d, content, fault, x);
    }
    if !HoldsNone(s0, staged) {
      var x :| x in staged && (x in s0.available || x in s0.enabled);
      assert x !in r.available && x !in r.enabled;
    } else if LeavesAlone(s0, d, content, fault) {
      forall x ensures x in r.available <==> x in s0.available {}
      assert r.available == s0.available;
      forall x ensures x in r.enabled <==> x in s0.enabled {}
      assert r.enabled == s0.enabled;
    }
  }

  /**
   Whatever the target held and wherever the migration failed: its sites are as before exactly
   when it held none of the domains staged so far, and the application that failed, if one did,
   found what it leaves alone.
   */
  lemma FailureRestoresIff(source: Server, target: Server, sites: seq<Website>, order: seq<string>, env: Env)
    requires env.installed && env.licensed && Generated(sites, map[]).0 && KeyOrder(order, Generated(sites, map[]).1)
    requires !Migration(source, target, sites, order, env).outcome.Migrated?
    ensures var configs := Generated(sites, map[]).1;
            var st := Staged(target, order, configs, env, []);
            && (st.failed ==> st.domain in configs)
            && (!st.failed ==> st.staged == order)
            && (SameSites(Migration(source, target, sites, order, env).target, target) <==>
                HoldsNone(target, st.staged) &&
                (st.failed ==> LeavesAlone(target, st.domain, configs[st.domain], FaultOf(env, st.domain))))
  {
    var configs := Generated(sites, map[]).1;
    var st := Unfolding(source, target, sites, order, env);
    if st.failed {
      var m :| Overlaid(target, m, st.staged, configs) &&
               st.server == Applied(m, st.domain, configs[st.domain], FaultOf(env, st.domain));
      UndoRestoresIff(target, m, st.staged, configs, st.domain, configs[st.domain], FaultOf(env, st.domain));
    } else {
      LateFailureRestoresIff(source, target, sites, order, env);
    }
  }

  /**
   Undoing after a complete staging deletes the requested domains even if the target had them:
   its sites are restored exactly when it held none of them.
   */
  lemma LateFailureRestoresIff(source: Server, target: Server, sites: seq<Website>, order: seq<string>, env: Env)
    requires Generated(sites, map[]).0 && KeyOrder(order, Generated(sites, map[]).1)
    requires var o := Migration(source, target, sites, order, env).outcome;
             o.ConfigInvalid? || o.SourceNotStopped? || o.TargetNotStarted? || o.Unhealthy?
    ensures SameSites(Migration(source, target, sites, order, env).target, target) <==> HoldsNone(target, order)
  {
    var configs := Generated(sites, map[]).1;
    var st := Unfolding(source, target, sites, order, env);
    RemovedAllIs(st.server, order);
    RemovedAllIs(st.server.(running := !env.targetStopOk), order);
    if HoldsNone(target, order) {
      UndoRestores(target, st.server, order, configs);
    } else {
      var r := Migration(source, target, sites, order, env).target;
      var d :| d in order && (d in target.available || d in target.enabled);
      assert d !in r.available && d !in r.enabled;
    }
  }

  /**
   Whatever the environment does, the source keeps its files, and both servers run at the end
   exactly when the target failed its health check and could not be stopped, and a source that
   had been running was started again.
   */
  lemma NeverBothRunning(source: Server, target: Server, sites: seq<Website>, order: seq<string>, env: Env)
    requires Generated(sites, map[]).0 ==> KeyOrder(order, Generated(sites, map[]).1)
    requires !target.running
    ensures var m := Migration(source, target, sites, order, env);
            && SameSites(m.source, source)
            && (m.source.running && m.target.running <==>
                m.outcome.Unhealthy? && !env.targetStopOk && source.running && env.restartOk)
  {
    if env.installed && env.licensed && Generated(sites, map[]).0 {
      var st := Unfolding(source, target, sites, order, env);
      RemovedAllIs(st.server, st.staged);
      RemovedAllIs(st.server.(running := !env.targetStopOk), st.staged);
    }
  }

  // ----- The outcome by the environment -----

  /** The site that decides the configuration of a domain: the last one that names it. */
  ghost predicate Decides(sites: seq<Website>, i: nat, domain: string) {
    i < |sites| && sites[i].domain == domain && forall j :: i < j < |sites| ==> sites[j].domain != domain
  }

  /** One configuration for each domain, that of its last site; none at all when one site has none. */
  lemma {:induction false} GeneratedIs(sites: seq<Website>, acc: map<string, string>)
    ensures Generated(sites, acc).0 <==> forall w :: w in sites ==> w.config.Some?
    ensures Generated(sites, acc).0 ==> Generated(sites, acc).1.Keys == acc.Keys + (set w | w in sites :: w.domain)
    ensures Generated(sites, acc).0 ==> forall i: nat, d :: Decides(sites, i, d) ==>
              d in Generated(sites, acc).1 && sites[i].config == Some(Generated(sites, acc).1[d])
    ensures Generated(sites, acc).0 ==> forall d :: d in acc && (forall w :: w in sites ==> w.domain != d) ==>
              d in Generated(sites, acc).1 && Generated(sites, acc).1[d] == acc[d]
  {
    if sites != [] {
      var w0, rest := sites[0], sites[1..];
      assert forall w :: w in sites <==> w == w0 || w in rest;
      if w0.config.Some? {
        var next := acc[w0.domain := w0.config.value];
        GeneratedIs(rest, next);
        assert Generated(sites, acc) == Generated(rest, next);
        assert (set w | w in sites :: w.domain) == {w0.domain} + (set w | w in rest :: w.domain);
        if Generated(sites, acc).0 {
          forall i: nat, d | Decides(sites, i, d)
            ensures d in Generated(sites, acc).1 && sites[i].config == Some(Generated(sites, acc).1[d])
          {
            assert forall j :: 0 <= j < |rest| ==> rest[j] == sites[j + 1];
            if i > 0 {
              assert Decides(rest, i - 1, d);
            } else {
              forall w | w in rest ensures w.domain != d {
                var j :| 0 <= j < |rest| && rest[j] == w;
                assert sites[j + 1] == w;
              }
            }
          }
        }
      }
    }
  }

  /** The domain is the first of the walk that meets a fault. */
  ghost predicate FirstFault(order: seq<string>, env: Env, domain: string) {
    exists k :: 0 <= k < |order| && order[k] == domain && FaultOf(env, domain) != NoFault &&
                forall j :: 0 <= j < k ==> FaultOf(env, order[j]) == NoFault
  }

  /** Staging fails exactly on the first domain with a fault. */
  lemma {:induction false} StagingFailsIff(s: Server, order: seq<string>, configs: map<string, string>, env: Env, done: seq<string>)
    requires forall d :: d in order ==> d in configs
    ensures var st := Staged(s, order, configs, env, done);
            && (st.failed <==> exists d :: d in order && FaultOf(env, d) != NoFault)
            && (st.failed ==> FirstFault(order, env, st.domain))
    decreases |order|
  {
    if order != [] {
      var d, rest := order[0], order[1..];
      assert forall x :: x in order <==> x == d || x in rest;
      if FaultOf(env, d) == NoFault {
        var next := Applied(s, d, configs[d], NoFault);
        StagingFailsIff(next, rest, configs, env, done + [d]);
        var st := Staged(next, rest, configs, env, done + [d]);
        if st.failed {
          var k :| 0 <= k < |rest| && rest[k] == st.domain && FaultOf(env, st.domain) != NoFault &&
                   forall j :: 0 <= j < k ==> FaultOf(env, rest[j]) == NoFault;
          assert order[k + 1] == st.domain;
          forall j | 0 <= j < k + 1 ensures FaultOf(env, order[j]) == NoFault {
            if j > 0 { assert order[j] == rest[j - 1]; }
          }
        }
      }
    }
  }

  /** Every website has a configuration. */
  predicate AllGenerated(sites: seq<Website>) {
    forall w :: w in sites ==> w.config.Some?
  }

  /** No domain meets a fault. */
  predicate AllApply(sites: seq<Website>, env: Env) {
    forall w :: w in sites ==> FaultOf(env, w.domain) == NoFault
  }

  /** The walk runs over the domains of the websites. */
  lemma OrderIsTheDomains(sites: seq<Website>, order: seq<string>, env: Env)
    requires AllGenerated(sites) && Generated(sites, map[]).0 && KeyOrder(order, Generated(sites, map[]).1)
    ensures AllApply(sites, env) <==> forall d :: d in order ==> FaultOf(env, d) == NoFault
  {
    GeneratedIs(sites, map[]);
    var domains := set w | w in sites :: w.domain;
    assert forall w :: w in sites ==> w.domain in domains;
    assert forall d :: d in order <==> d in domains;
  }

  /** A migration succeeds exactly when nothing in its way fails. */
  lemma MigratedIff(source: Server, target: Server, sites: seq<Website>, order: seq<string>, env: Env)
    requires Generated(sites, map[]).0 ==> KeyOrder(order, Generated(sites, map[]).1)
    ensures Migration(source, target, sites, order, env).outcome.Migrated? <==>
            && env.installed && env.licensed && AllGenerated(sites) && AllApply(sites, env)
            && env.valid && (source.running ==> env.stopOk) && env.startOk && env.healthy
  {
    GeneratedIs(sites, map[]);
    if Generated(sites, map[]).0 {
      OrderIsTheDomains(sites, order, env);
      StagingFailsIff(target, order, Generated(sites, map[]).1, env, []);
    }
  }

  /** Each failure is named by the first of those conditions that does not hold. */
  lemma FailureIsTheFirst(source: Server, target: Server, sites: seq<Website>, order: seq<string>, env: Env)
    requires Generated(sites, map[]).0 ==> KeyOrder(order, Generated(sites, map[]).1)
    ensures var o := Migration(source, target, sites, order, env).outcome;
            var ready := env.installed && env.licensed && AllGenerated(sites);
            var tested := ready && AllApply(sites, env) && env.valid;
            var free := tested && (source.running ==> env.stopOk);
            && (o.NotInstalled? <==> !env.installed)
            && (o.Unlicensed? <==> env.installed && !env.licensed)
            && (o.NotGenerated? <==> env.installed && env.licensed && !AllGenerated(sites))
            && (o.StagingFailed? <==> ready && !AllApply(sites, env))
            && (o.StagingFailed? ==> FirstFault(order, env, o.domain))
            && (o.ConfigInvalid? <==> ready && AllApply(sites, env) && !env.valid)
            && (o.SourceNotStopped? <==> tested && source.running && !env.stopOk)
            && (o.TargetNotStarted? <==> free && !env.startOk)
            && (o.Unhealthy? <==> free && env.startOk && !env.healthy)
  {
    GeneratedIs(sites, map[]);
    if Generated(sites, map[]).0 {
      OrderIsTheDomains(sites, order, env);
      StagingFailsIff(target, order, Generated(sites, map[]).1, env, []);
    }
  }

  /** Who runs at the end, by the outcome. */
  lemma WhoRuns(source: Server, target: Server, sites: seq<Website>, order: seq<string>, env: Env)
    requires Generated(sites, map[]).0 ==> KeyOrder(order, Generated(sites, map[]).1)
    ensures var m := Migration(source, target, sites, order, env);
            match m.outcome
            case Migrated(_) => !m.source.running && m.target.running
            case Unhealthy => m.source.running == (source.running && env.restartOk) && m.target.running == !env.targetStopOk
            case TargetNotStarted => m.source.running == (source.running && env.restartOk) && m.target.running == target.running
            case _ => m.source == source && m.target.running == target.running
  {
    if env.installed && env.licensed && Generated(sites, map[]).0 {
      var configs := Generated(sites, map[]).1;
      var st := Unfolding(source, target, sites, order, env);
      if st.failed {
        var m :| Overlaid(target, m, st.staged, configs) &&
                 st.server == Applied(m, st.domain, configs[st.domain], FaultOf(env, st.domain));
        FailedApplyRestoresIff(m, st.domain, configs[st.domain], FaultOf(env, st.domain));
      }
      RemovedAllIs(st.server, st.staged);
      RemovedAllIs(st.server.(running := !env.targetStopOk), st.staged);
    }
  }
}
