/**
 The alert engine: each metric sample is judged against every rule; a breach opens an
 incident, a return below the threshold resolves it.
 */
module Alerts {
  import opened Text

  datatype RuleType = Cpu | Memory | Disk | Load | Service

  /** The duration of a rule is stored but plays no part in the evaluation. */
  datatype Rule = Rule(id: nat, name: string, kind: RuleType, threshold: real, durationSec: int, enabled: bool)

  datatype Status = Firing | Resolved

  datatype Incident = Incident(
    server: nat, rule: nat, ruleName: string, status: Status, value: real, threshold: real, startedAt: int, resolvedAt: Option<int>)

  datatype Sample = Sample(server: nat, cpu: real, mem: real, disk: real, now: int)

  /** The value a rule looks at; rules of other types are passed over. */
  function Reading(r: Rule, m: Sample): Option<real> {
    match r.kind
    case Cpu => Some(m.cpu)
    case Memory => Some(m.mem)
    case Disk => Some(m.disk)
    case _ => None
  }

  predicate Breached(r: Rule, m: Sample) {
    r.enabled && Reading(r, m).Some? && Reading(r, m).value >= r.threshold
  }

  predicate Normal(r: Rule, m: Sample) {
    r.enabled && Reading(r, m).Some? && Reading(r, m).value < r.threshold
  }

  predicate Active(inc: Incident, server: nat, rule: nat) {
    inc.server == server && inc.rule == rule && inc.status == Firing
  }

  predicate Quiet(incidents: map<nat, Incident>, server: nat, rule: nat) {
    forall i :: i in incidents ==> !Active(incidents[i], server, rule)
  }

  function Opened(r: Rule, m: Sample): Incident
    requires Reading(r, m).Some?
  {
    Incident(m.server, r.id, r.name, Firing, Reading(r, m).value, r.threshold, m.now, None)
  }

  function Closed(inc: Incident, v: real, now: int): Incident {
    inc.(status := Resolved, value := v, resolvedAt := Some(now))
  }

  // ----- The invariant and one evaluation -----

  /** At most one firing incident for each server and rule. */
  predicate OneFiring(incidents: map<nat, Incident>) {
    forall i, j :: i in incidents && j in incidents && Rivals(incidents[i], incidents[j]) ==> i == j
  }

  /** Two firing incidents of one server and rule. */
  predicate Rivals(a: Incident, b: Incident) {
    a.status == Firing && b.status == Firing && a.server == b.server && a.rule == b.rule
  }

  predicate RulesById(rules: map<nat, Rule>) {
    forall k :: k in rules ==> rules[k].id == k
  }

  /** The incident is resolved by the sample, under one of the rules looked at. */
  predicate Settles(inc: Incident, rules: map<nat, Rule>, seen: set<nat>, m: Sample) {
    inc.status == Firing && inc.server == m.server && inc.rule in seen && inc.rule in rules && Normal(rules[inc.rule], m)
  }

  /** What the evaluation of a sample under the rules in `seen` makes of the incidents. */
  ghost predicate Evaluated(rules: map<nat, Rule>, seen: set<nat>, before: map<nat, Incident>, after: map<nat, Incident>, m: Sample) {
    && (forall i :: i in before ==> i in after)
    && (forall i :: i in before && !Settles(before[i], rules, seen, m) ==> after[i] == before[i])
    && (forall i :: i in before && Settles(before[i], rules, seen, m) ==>
          after[i] == Closed(before[i], Reading(rules[before[i].rule], m).value, m.now))
    && (forall i :: i in after && i !in before ==>
          && after[i].rule in seen && after[i].rule in rules && Breached(rules[after[i].rule], m)
          && Quiet(before, m.server, after[i].rule) && after[i] == Opened(rules[after[i].rule], m))
    && (forall i, j :: i in after && j in after && i !in before && j !in before && after[i].rule == after[j].rule ==> i == j)
    && (forall r :: r in seen && r in rules && Breached(rules[r], m) && Quiet(before, m.server, r) ==> HasNew(before, after, r))
  }

  ghost predicate HasNew(before: map<nat, Incident>, after: map<nat, Incident>, r: nat) {
    exists i :: i in after && i !in before && after[i].rule == r
  }

  lemma NothingSeen(rules: map<nat, Rule>, before: map<nat, Incident>, m: Sample)
    ensures Evaluated(rules, {}, before, before, m)
  {
  }

  /** A rule not seen yet finds its incidents as they were. */
  lemma SameActive(rules: map<nat, Rule>, seen: set<nat>, before: map<nat, Incident>, after: map<nat, Incident>, m: Sample, r: nat, i: nat)
    requires Evaluated(rules, seen, before, after, m) && RulesById(rules) && r !in seen
    ensures i in after && Active(after[i], m.server, r) <==> i in before && Active(before[i], m.server, r)
  {
  }

  /** A rule that neither opens nor resolves anything. */
  lemma SeeIdle(rules: map<nat, Rule>, seen: set<nat>, before: map<nat, Incident>, after: map<nat, Incident>, m: Sample, r: nat)
    requires Evaluated(rules, seen, before, after, m) && RulesById(rules) && r in rules && r !in seen
    requires Breached(rules[r], m) ==> !Quiet(before, m.server, r)
    requires Normal(rules[r], m) ==> Quiet(before, m.server, r)
    ensures Evaluated(rules, seen + {r}, before, after, m)
  {
    forall i | i in before && Settles(before[i], rules, seen + {r}, m) ensures Settles(before[i], rules, seen, m) {
      if before[i].rule == r { assert Active(before[i], m.server, r); }
    }
  }

  /** A rule that opens an incident. */
  lemma SeeBreach(rules: map<nat, Rule>, seen: set<nat>, before: map<nat, Incident>, after: map<nat, Incident>, m: Sample, r: nat, id: nat)
    requires Evaluated(rules, seen, before, after, m) && RulesById(rules) && r in rules && r !in seen
    requires Breached(rules[r], m) && Quiet(before, m.server, r) && id !in after
    ensures Evaluated(rules, seen + {r}, before, after[id := Opened(rules[r], m)], m)
  {
    var u := after[id := Opened(rules[r], m)];
    assert u[id].rule == r;
    forall i | i in before ensures Settles(before[i], rules, seen + {r}, m) == Settles(before[i], rules, seen, m) {}
    forall q | q in seen + {r} && q in rules && Breached(rules[q], m) && Quiet(before, m.server, q) ensures HasNew(before, u, q) {
      if q == r {
        assert id in u && id !in before;
      } else {
        var i :| i in after && i !in before && after[i].rule == q;
        assert i in u && u[i] == after[i];
      }
    }
  }

  /** A rule that resolves its incident. */
  lemma SeeNormal(rules: map<nat, Rule>, seen: set<nat>, before: map<nat, Incident>, after: map<nat, Incident>, m: Sample, r: nat, id: nat)
    requires Evaluated(rules, seen, before, after, m) && RulesById(rules) && r in rules && r !in seen && OneFiring(before)
    requires Normal(rules[r], m) && id in before && Active(before[id], m.server, r)
    ensures id in after && after[id] == before[id]
    ensures Evaluated(rules, seen + {r}, before, after[id := Closed(after[id], Reading(rules[r], m).value, m.now)], m)
  {
    var u := after[id := Closed(after[id], Reading(rules[r], m).value, m.now)];
    forall i | i in before && i != id ensures Settles(before[i], rules, seen + {r}, m) == Settles(before[i], rules, seen, m) {}
    forall q | q in seen + {r} && q in rules && Breached(rules[q], m) && Quiet(before, m.server, q) ensures HasNew(before, u, q) {
      var i :| i in after && i !in before && after[i].rule == q;
      assert i in u && u[i] == after[i];
    }
  }

  class Engine {
    var rules: map<nat, Rule>
    var incidents: map<nat, Incident>
    /** Every id below this one has been given out. */
    var issued: nat

    ghost predicate Valid()
      reads this
    {
      RulesById(rules) && OneFiring(incidents) && forall i :: i in incidents ==> i < issued
    }

    constructor ()
      ensures Valid() && rules == map[] && incidents == map[]
    {
      rules, incidents, issued := map[], map[], 1;
    }

    method NewId() returns (id: nat)
      modifies this`issued
      ensures id == old(issued) && issued == old(issued) + 1
    {
      id := issued;
      issued := issued + 1;
    }

    /** A rule without an id gets a new one; a known id replaces the rule. */
    method AddRule(rule: Rule) returns (stored: Rule)
      requires Valid()
      modifies this
      ensures Valid() && incidents == old(incidents)
      ensures stored == rule.(id := if rule.id == 0 then old(issued) else rule.id) && rules == old(rules)[stored.id := stored]
    {
      stored := rule;
      if stored.id == 0 {
        var id := NewId();
        stored := stored.(id := id);
      }
      rules := rules[stored.id := stored];
    }

    /** Any firing incident of the server and rule. */
    method FindActiveIncident(server: nat, rule: nat) returns (r: Option<nat>)
      ensures r.Some? ==> r.value in incidents && Active(incidents[r.value], server, rule)
      ensures r.None? ==> Quiet(incidents, server, rule)
    {
      var todo := incidents.Keys;
      while todo != {}
        invariant todo <= incidents.Keys
        invariant forall i :: i in incidents && i !in todo ==> !Active(incidents[i], server, rule)
        decreases todo
      {
        var i :| i in todo;
        if Active(incidents[i], server, rule) { return Some(i); }
        todo := todo - {i};
      }
      return None;
    }

    /** Judges a sample against every enabled rule, in whatever order. */
    method EvaluateMetric(m: Sample) returns (newIncidents: seq<nat>)
      requires Valid()
      modifies this`incidents, this`issued
      ensures Valid() && Evaluated(rules, rules.Keys, old(incidents), incidents, m)
      ensures forall i :: i in newIncidents <==> i in incidents && i !in old(incidents)
    {
      newIncidents := [];
      ghost var before := incidents;
      ghost var seen: set<nat> := {};
      NothingSeen(rules, before, m);
      var todo := rules.Keys;
      while todo != {}
        invariant Evaluated(rules, seen, before, incidents, m) && seen == rules.Keys - todo && todo <= rules.Keys
        invariant forall i :: i in incidents ==> i < issued
        invariant forall i :: i in newIncidents <==> i in incidents && i !in before
        decreases todo
      {
        var k :| k in todo;
        var rule := rules[k];
        forall i ensures i in incidents && Active(incidents[i], m.server, k) <==> i in before && Active(before[i], m.server, k) {
          SameActive(rules, seen, before, incidents, m, k, i);
        }
        var value := Reading(rule, m);
        if rule.enabled && value.Some? {
          var activeIncident := FindActiveIncident(m.server, k);
          if value.value >= rule.threshold {
            if activeIncident.None? {
              var id := NewId();
              SeeBreach(rules, seen, before, incidents, m, k, id);
              incidents := incidents[id := Opened(rule, m)];
              newIncidents := newIncidents + [id];
            } else {
              SeeIdle(rules, seen, before, incidents, m, k);
            }
          } else if activeIncident.Some? {
            var id := activeIncident.value;
            SeeNormal(rules, seen, before, incidents, m, k, id);
            incidents := incidents[id := Closed(incidents[id], value.value, m.now)];
          } else {
            SeeIdle(rules, seen, before, incidents, m, k);
          }
        } else {
          SeeIdle(rules, seen, before, incidents, m, k);
        }
        SeenNext(rules.Keys, todo, k);
        seen := seen + {k};
        todo := todo - {k};
      }
      assert seen == rules.Keys;
      EvaluationKeepsOne(rules, seen, before, incidents, m);
    }
  }

  lemma SeenNext(all: set<nat>, todo: set<nat>, k: nat)
    requires todo <= all && k in todo
    ensures (all - todo) + {k} == all - (todo - {k}) && todo - {k} <= all
  {
  }

  /** An evaluation never leaves two firing incidents for one server and rule. */
  lemma EvaluationKeepsOne(rules: map<nat, Rule>, seen: set<nat>, before: map<nat, Incident>, after: map<nat, Incident>, m: Sample)
    requires Evaluated(rules, seen, before, after, m) && OneFiring(before) && RulesById(rules)
    ensures OneFiring(after)
  {
    forall i, j | i in after && j in after && Rivals(after[i], after[j]) ensures i == j {
      assert i in before ==> before[i] == after[i];
      assert j in before ==> before[j] == after[j];
      assert j !in before ==> Quiet(before, m.server, after[j].rule);
      assert i !in before ==> Quiet(before, m.server, after[i].rule);
    }
  }

  /**
   One enabled rule on the processor, the memory or the disk, and the value `v` of that metric
   in the sample: at or above the threshold with nothing firing, exactly one incident is opened;
   with something firing, everything of the rule stays; below it, what fires is resolved.
   */
  lemma RuleEffect(rules: map<nat, Rule>, before: map<nat, Incident>, after: map<nat, Incident>, m: Sample, r: nat, v: real)
    requires Evaluated(rules, rules.Keys, before, after, m) && RulesById(rules) && r in rules && rules[r].enabled
    requires rules[r].kind == Cpu || rules[r].kind == Memory || rules[r].kind == Disk
    requires (rules[r].kind == Cpu ==> v == m.cpu) && (rules[r].kind == Memory ==> v == m.mem) && (rules[r].kind == Disk ==> v == m.disk)
    ensures v >= rules[r].threshold && Quiet(before, m.server, r) ==>
              exists i :: OpenedAs(before, after, i, m.server, rules[r], v, m.now) &&
                          forall j :: j in after && j !in before && after[j].rule == r ==> j == i
    ensures v < rules[r].threshold || !Quiet(before, m.server, r) ==> !HasNew(before, after, r)
    ensures forall i :: i in before && Active(before[i], m.server, r) ==>
              if v < rules[r].threshold then ResolvedAs(before, after, i, v, m.now) else i in after && after[i] == before[i]
    ensures forall i :: i in before && before[i].rule == r && !Active(before[i], m.server, r) ==> i in after && after[i] == before[i]
  {
    if v >= rules[r].threshold && Quiet(before, m.server, r) {
      assert HasNew(before, after, r);
      var i :| i in after && i !in before && after[i].rule == r;
      assert OpenedAs(before, after, i, m.server, rules[r], v, m.now);
    }
  }

  /** The new incident and all its fields. */
  predicate OpenedAs(before: map<nat, Incident>, after: map<nat, Incident>, i: nat, server: nat, rule: Rule, v: real, now: int) {
    && i !in before && i in after && after[i].server == server && after[i].rule == rule.id && after[i].ruleName == rule.name
    && after[i].status == Firing && after[i].value == v && after[i].threshold == rule.threshold
    && after[i].startedAt == now && after[i].resolvedAt == None
  }

  /** The resolved incident: its status, value and end are new, all else is as it was. */
  predicate ResolvedAs(before: map<nat, Incident>, after: map<nat, Incident>, i: nat, v: real, now: int) {
    && i in before && i in after && after[i].status == Resolved && after[i].value == v && after[i].resolvedAt == Some(now)
    && after[i].server == before[i].server && after[i].rule == before[i].rule && after[i].ruleName == before[i].ruleName
    && after[i].threshold == before[i].threshold && after[i].startedAt == before[i].startedAt
  }

  /** Disabled rules, rules of other types and other servers: nothing is opened and nothing changes. */
  lemma NothingElseChanges(rules: map<nat, Rule>, before: map<nat, Incident>, after: map<nat, Incident>, m: Sample, i: nat)
    requires Evaluated(rules, rules.Keys, before, after, m) && RulesById(rules) && i in after
    ensures i !in before ==>
              && after[i].server == m.server && after[i].rule in rules && rules[after[i].rule].enabled
              && !rules[after[i].rule].kind.Load? && !rules[after[i].rule].kind.Service?
    ensures i in before && after[i] != before[i] ==>
              && before[i].server == m.server && before[i].rule in rules && rules[before[i].rule].enabled
              && !rules[before[i].rule].kind.Load? && !rules[before[i].rule].kind.Service?
  {
  }
}
