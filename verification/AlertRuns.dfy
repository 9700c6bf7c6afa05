/**
 Runs of the alert engine: incidents count the upward threshold crossings of a metric.
 */
module AlertRuns {
  import opened Alerts

  datatype State = State(rules: map<nat, Rule>, incidents: map<nat, Incident>)

  datatype Event = Added(rule: Rule) | Sampled(m: Sample)

  /** One call on the engine: a rule stored under its id, or a sample judged against all rules. */
  ghost predicate Next(s: State, e: Event, t: State) {
    match e
    case Added(r) => t == State(s.rules[r.id := r], s.incidents)
    case Sampled(m) => t.rules == s.rules && Evaluated(s.rules, s.rules.Keys, s.incidents, t.incidents, m)
  }

  ghost predicate Good(s: State) {
    RulesById(s.rules) && OneFiring(s.incidents)
  }

  /** Consecutive states of a run. */
  ghost predicate Run(states: seq<State>, events: seq<Event>) {
    && |states| == |events| + 1
    && forall i :: 0 <= i < |events| ==> Next(states[i], events[i], states[i + 1])
  }

  lemma NextIsGood(s: State, e: Event, t: State)
    requires Good(s) && Next(s, e, t)
    ensures Good(t)
  {
    if e.Sampled? { EvaluationKeepsOne(s.rules, s.rules.Keys, s.incidents, t.incidents, e.m); }
  }

  /** In every reachable state each server and rule has at most one firing incident. */
  lemma {:induction false} AlwaysOneFiring(states: seq<State>, events: seq<Event>, n: nat)
    requires Run(states, events) && Good(states[0]) && n < |states|
    ensures Good(states[n])
  {
    if n > 0 {
      AlwaysOneFiring(states, events, n - 1);
      NextIsGood(states[n - 1], events[n - 1], states[n]);
    }
  }

  /** A resolved incident never changes again, and no incident is ever dropped. */
  lemma {:induction false} ResolvedForever(states: seq<State>, events: seq<Event>, a: nat, b: nat, i: nat)
    requires Run(states, events) && a <= b < |states| && i in states[a].incidents
    ensures i in states[b].incidents
    ensures states[a].incidents[i].status == Resolved ==> states[b].incidents[i] == states[a].incidents[i]
  {
    if a < b {
      ResolvedForever(states, events, a, b - 1, i);
      assert Next(states[b - 1], events[b - 1], states[b]);
    }
  }

  // ----- Counting crossings -----

  /** The values a rule sees of a server, in order. */
  function History(events: seq<Event>, server: nat, r: Rule): seq<real> {
    if events == [] then []
    else
      var past := History(events[..|events| - 1], server, r);
      var e := events[|events| - 1];
      if e.Sampled? && e.m.server == server && Reading(r, e.m).Some? then past + [Reading(r, e.m).value] else past
  }

  predicate Above(vs: seq<real>, threshold: real) {
    vs != [] && vs[|vs| - 1] >= threshold
  }

  /** How often the values rise from below the threshold, or from nothing, to it or above. */
  function Crossings(vs: seq<real>, threshold: real): nat {
    if vs == [] then 0
    else
      var past := vs[..|vs| - 1];
      Crossings(past, threshold) + if Above(vs, threshold) && !Above(past, threshold) then 1 else 0
  }

  /** All incidents of a server and rule. */
  function Matching(incidents: map<nat, Incident>, server: nat, rule: nat): set<nat> {
    set i | i in incidents && incidents[i].server == server && incidents[i].rule == rule
  }

  ghost predicate FiringNow(incidents: map<nat, Incident>, server: nat, rule: nat) {
    exists i :: i in incidents && Active(incidents[i], server, rule)
  }

  /** The rule is in force, unchanged, at the front of every event. */
  ghost predicate Kept(states: seq<State>, events: seq<Event>, r: Rule) {
    && r.enabled && |events| < |states|
    && (forall i :: 0 <= i < |events| ==> r.id in states[i].rules && states[i].rules[r.id] == r)
  }

  lemma MatchingSame(s: State, e: Event, t: State, server: nat, r: Rule)
    requires Good(s) && Next(s, e, t) && r.id in s.rules && s.rules[r.id] == r
    requires e.Sampled? && e.m.server == server ==> !Breached(r, e.m) || FiringNow(s.incidents, server, r.id)
    ensures Matching(t.incidents, server, r.id) == Matching(s.incidents, server, r.id)
  {
    forall i ensures i in Matching(t.incidents, server, r.id) <==> i in Matching(s.incidents, server, r.id) {
      assert e.Sampled? && i in t.incidents && i !in s.incidents ==> Quiet(s.incidents, e.m.server, t.incidents[i].rule);
    }
  }

  lemma MatchingMore(s: State, m: Sample, t: State, r: Rule)
    requires Good(s) && Next(s, Sampled(m), t) && r.id in s.rules && s.rules[r.id] == r
    requires Breached(r, m) && !FiringNow(s.incidents, m.server, r.id)
    ensures |Matching(t.incidents, m.server, r.id)| == |Matching(s.incidents, m.server, r.id)| + 1
    ensures FiringNow(t.incidents, m.server, r.id)
  {
    assert Quiet(s.incidents, m.server, r.id);
    assert HasNew(s.incidents, t.incidents, r.id);
    var i :| i in t.incidents && i !in s.incidents && t.incidents[i].rule == r.id;
    assert Active(t.incidents[i], m.server, r.id);
    var a, b := Matching(s.incidents, m.server, r.id), Matching(t.incidents, m.server, r.id);
    forall j ensures j in b <==> j in a || j == i {}
    assert b == a + {i};
  }

  /** After a breach the incident fires; after a normal value it does not; anything else leaves it. */
  lemma FiringAfter(s: State, e: Event, t: State, server: nat, r: Rule)
    requires Good(s) && Next(s, e, t) && r.enabled && r.id in s.rules && s.rules[r.id] == r
    ensures var sees := e.Sampled? && e.m.server == server && Reading(r, e.m).Some?;
            && (sees ==> (FiringNow(t.incidents, server, r.id) <==> Reading(r, e.m).value >= r.threshold))
            && (!sees ==> (FiringNow(t.incidents, server, r.id) <==> FiringNow(s.incidents, server, r.id)))
  {
    if e.Sampled? {
      var m := e.m;
      if FiringNow(s.incidents, server, r.id) {
        var i :| i in s.incidents && Active(s.incidents[i], server, r.id);
        if !Settles(s.incidents[i], s.rules, s.rules.Keys, m) {
          assert Active(t.incidents[i], server, r.id);
        } else {
          NoneAfterClosing(s, m, t, r, i);
        }
      } else if m.server == server && Breached(r, m) {
        MatchingMore(s, m, t, r);
      } else {
        assert Quiet(s.incidents, server, r.id);
        StaysQuiet(s, m, t, server, r);
      }
    }
  }

  lemma NoneAfterClosing(s: State, m: Sample, t: State, r: Rule, i: nat)
    requires Good(s) && Next(s, Sampled(m), t) && r.id in s.rules && s.rules[r.id] == r
    requires i in s.incidents && Active(s.incidents[i], m.server, r.id) && Settles(s.incidents[i], s.rules, s.rules.Keys, m)
    ensures !FiringNow(t.incidents, m.server, r.id)
  {
    forall j | j in t.incidents ensures !Active(t.incidents[j], m.server, r.id) {
      if j in s.incidents && j != i { assert !Rivals(s.incidents[j], s.incidents[i]); }
    }
  }

  lemma StaysQuiet(s: State, m: Sample, t: State, server: nat, r: Rule)
    requires Good(s) && Next(s, Sampled(m), t) && r.id in s.rules && s.rules[r.id] == r
    requires Quiet(s.incidents, server, r.id) && (m.server == server ==> !Breached(r, m))
    ensures !FiringNow(t.incidents, server, r.id)
  {
    forall j | j in t.incidents ensures !Active(t.incidents[j], server, r.id) {
      if j in s.incidents { assert !Active(s.incidents[j], server, r.id); }
    }
  }

  /**
   For a rule kept enabled and unchanged, starting without incidents of its own: the incidents
   of a server are as many as the upward crossings of its threshold, and one of them fires
   exactly when the last value is at or above the threshold.
   */
  lemma {:induction false} IncidentsCountCrossings(states: seq<State>, events: seq<Event>, server: nat, r: Rule)
    requires Run(states, events) && Good(states[0]) && Kept(states, events, r)
    requires Matching(states[0].incidents, server, r.id) == {}
    ensures var n := |events|;
            && |Matching(states[n].incidents, server, r.id)| == Crossings(History(events, server, r), r.threshold)
            && (FiringNow(states[n].incidents, server, r.id) <==> Above(History(events, server, r), r.threshold))
    decreases |events|
  {
    var n := |events|;
    if n == 0 {
      forall i | i in states[0].incidents ensures !Active(states[0].incidents[i], server, r.id) {
        assert i !in Matching(states[0].incidents, server, r.id);
      }
    } else {
      var ss, es, e := states[..n], events[..n - 1], events[n - 1];
      assert Run(ss, es) by { forall i | 0 <= i < |es| ensures Next(ss[i], es[i], ss[i + 1]) { assert Next(states[i], events[i], states[i + 1]); } }
      IncidentsCountCrossings(ss, es, server, r);
      AlwaysOneFiring(states, events, n - 1);
      var s, t := states[n - 1], states[n];
      FiringAfter(s, e, t, server, r);
      var past := History(es, server, r);
      var sees := e.Sampled? && e.m.server == server && Reading(r, e.m).Some?;
      if sees { assert (past + [Reading(r, e.m).value])[..|past|] == past; }
      if sees && Breached(r, e.m) && !FiringNow(s.incidents, server, r.id) {
        MatchingMore(s, e.m, t, r);
      } else {
        MatchingSame(s, e, t, server, r);
      }
    }
  }

  // ----- A disabled rule -----

  lemma SampleSpares(s: State, e: Event, t: State, rule: nat, i: nat)
    requires Good(s) && Next(s, e, t) && rule in s.rules && !s.rules[rule].enabled
    requires i in s.incidents && s.incidents[i].rule == rule
    ensures i in t.incidents && t.incidents[i] == s.incidents[i]
  {
  }

  /** While a rule is stored disabled, nothing touches its incidents: one that was firing keeps firing. */
  lemma {:induction false} DisabledRuleKeepsFiring(states: seq<State>, events: seq<Event>, rule: nat, i: nat, n: nat)
    requires Run(states, events) && Good(states[0]) && n < |states|
    requires forall k :: 0 <= k < n ==> rule in states[k].rules && !states[k].rules[rule].enabled
    requires i in states[0].incidents && states[0].incidents[i].rule == rule
    ensures i in states[n].incidents && states[n].incidents[i] == states[0].incidents[i]
  {
    if n > 0 {
      DisabledRuleKeepsFiring(states, events, rule, i, n - 1);
      AlwaysOneFiring(states, events, n - 1);
      SampleSpares(states[n - 1], events[n - 1], states[n], rule, i);
    }
  }
}
