/**
 A queue of agent tasks between the control plane and the agents: enqueue, fetch, complete.
 */
module AgentTasks {
  datatype Status = Pending | Delivered | Completed | Failed

  datatype Task = Task(server: nat, action: string, status: Status, exitCode: int, output: string)

  /** Tasks waiting for a server. */
  function Waiting(tasks: map<nat, Task>, server: nat): set<nat> {
    set t | t in tasks && tasks[t].server == server && tasks[t].status == Pending
  }

  function Handed(tasks: map<nat, Task>, taken: set<nat>): map<nat, Task> {
    map t | t in tasks :: if t in taken then tasks[t].(status := Delivered) else tasks[t]
  }

  class Manager {
    var tasks: map<nat, Task>
    /** Every id below this one has been given out. */
    var issued: nat

    ghost predicate Valid()
      reads this
    {
      forall t :: t in tasks ==> t < issued
    }

    constructor ()
      ensures Valid() && tasks == map[]
    {
      tasks, issued := map[], 0;
    }

    method Enqueue(server: nat, action: string) returns (id: nat)
      requires Valid()
      modifies this
      ensures Valid() && id !in old(tasks) && tasks == old(tasks)[id := Task(server, action, Pending, 0, "")]
    {
      id := issued;
      issued := issued + 1;
      tasks := tasks[id := Task(server, action, Pending, 0, "")];
    }

    /** Hands out copies of all waiting tasks of a server, in no particular order, and marks them delivered. */
    method FetchPendingForServer(server: nat) returns (pending: seq<nat>)
      requires Valid()
      modifies this
      ensures Valid() && tasks == Handed(old(tasks), Waiting(old(tasks), server))
      ensures forall t :: t in pending <==> t in old(tasks) && old(tasks)[t].server == server && old(tasks)[t].status == Pending
      ensures tasks.Keys == old(tasks).Keys
      ensures forall t :: t in tasks ==>
                tasks[t] == if t in pending then Task(server, old(tasks)[t].action, Delivered, old(tasks)[t].exitCode, old(tasks)[t].output)
                            else old(tasks)[t]
      ensures forall i, j :: 0 <= i < j < |pending| ==> pending[i] != pending[j]
    {
      pending := [];
      ghost var before := tasks;
      ghost var w := Waiting(before, server);
      var todo := tasks.Keys;
      assert Handed(before, {}) == before;
      while todo != {}
        invariant todo <= before.Keys && tasks == Handed(before, w - todo) && issued == old(issued)
        invariant forall t :: t in pending <==> t in w - todo
        invariant forall i, j :: 0 <= i < j < |pending| ==> pending[i] != pending[j]
        decreases todo
      {
        var t :| t in todo;
        HandedNext(before, w, todo, t);
        if tasks[t].server == server && tasks[t].status == Pending {
          tasks := tasks[t := tasks[t].(status := Delivered)];
          pending := pending + [t];
        }
        todo := todo - {t};
      }
      assert w - todo == w;
    }

    /** Any status is accepted, whatever the current one. */
    method Complete(id: nat, status: Status, exitCode: int, output: string) returns (found: bool)
      requires Valid()
      modifies this
      ensures Valid() && found == (id in old(tasks))
      ensures tasks == if found then old(tasks)[id := old(tasks)[id].(status := status, exitCode := exitCode, output := output)]
                       else old(tasks)
    {
      if id !in tasks { return false; }
      tasks := tasks[id := tasks[id].(status := status, exitCode := exitCode, output := output)];
      return true;
    }
  }

  lemma HandedNext(before: map<nat, Task>, w: set<nat>, todo: set<nat>, t: nat)
    requires todo <= before.Keys && t in todo && w <= before.Keys
    ensures t in Handed(before, w - todo) && Handed(before, w - todo)[t] == before[t]
    ensures t in w ==> Handed(before, w - (todo - {t})) == Handed(before, w - todo)[t := before[t].(status := Delivered)]
    ensures t !in w ==> Handed(before, w - (todo - {t})) == Handed(before, w - todo)
    ensures forall x :: x in w - (todo - {t}) <==> x in w - todo || (x == t && t in w)
  {
    if t !in w { assert w - (todo - {t}) == w - todo; }
  }

  // ----- Runs -----

  datatype Event = Enqueued(id: nat, task: Task) | Fetched(server: nat, ids: seq<nat>) | Finished(id: nat, status: Status, exitCode: int, output: string)

  /** One call on the queue, with what it returned. */
  ghost predicate Next(s: map<nat, Task>, e: Event, t: map<nat, Task>) {
    match e
    case Enqueued(id, task) => id !in s && task.status == Pending && t == s[id := task]
    case Fetched(server, ids) =>
      && t == Handed(s, Waiting(s, server))
      && (forall x :: x in ids <==> x in Waiting(s, server))
      && (forall i, j :: 0 <= i < j < |ids| ==> ids[i] != ids[j])
    case Finished(id, status, exitCode, output) =>
      t == if id in s then s[id := s[id].(status := status, exitCode := exitCode, output := output)] else s
  }

  ghost predicate Run(states: seq<map<nat, Task>>, events: seq<Event>) {
    && |states| == |events| + 1
    && forall i :: 0 <= i < |events| ==> Next(states[i], events[i], states[i + 1])
  }

  /** Agents report only final results. */
  predicate FinalReports(events: seq<Event>) {
    forall i :: 0 <= i < |events| && events[i].Finished? ==> events[i].status == Completed || events[i].status == Failed
  }

  /** A task no longer waiting never waits again, and no task changes its server or is dropped. */
  lemma {:induction false} NeverPendingAgain(states: seq<map<nat, Task>>, events: seq<Event>, a: nat, b: nat, id: nat)
    requires Run(states, events) && FinalReports(events) && a <= b < |states| && id in states[a]
    ensures id in states[b] && states[b][id].server == states[a][id].server
    ensures states[a][id].status != Pending ==> states[b][id].status != Pending
  {
    if a < b {
      NeverPendingAgain(states, events, a, b - 1, id);
      assert Next(states[b - 1], events[b - 1], states[b]);
    }
  }

  /** Each task is delivered by at most one fetch, once, and only to its own server. */
  lemma DeliveredAtMostOnce(states: seq<map<nat, Task>>, events: seq<Event>, a: nat, b: nat, id: nat)
    requires Run(states, events) && FinalReports(events) && a < |events| && b < |events|
    requires events[a].Fetched? && events[b].Fetched? && id in events[a].ids && id in events[b].ids
    ensures a == b && id in states[a] && states[a][id].server == events[a].server
  {
    assert Next(states[a], events[a], states[a + 1]) && Next(states[b], events[b], states[b + 1]);
    if a < b {
      NeverPendingAgain(states, events, a + 1, b, id);
    } else if b < a {
      NeverPendingAgain(states, events, b + 1, a, id);
    }
  }

  /** A fetch leaves nothing waiting for its server, and touches no other server's tasks. */
  lemma FetchDrains(s: map<nat, Task>, server: nat)
    ensures Waiting(Handed(s, Waiting(s, server)), server) == {}
    ensures forall t :: t in s && s[t].server != server ==> Handed(s, Waiting(s, server))[t] == s[t]
  {
  }

  /** Every enqueued task is handed to the next fetch of its server, unless a report reaches it first. */
  lemma {:induction false} NextFetchDelivers(states: seq<map<nat, Task>>, events: seq<Event>, a: nat, b: nat, id: nat)
    requires Run(states, events) && a < b < |events| && events[a].Enqueued? && events[a].id == id
    requires events[b].Fetched? && events[b].server == events[a].task.server
    requires forall k :: a < k < b ==>
      !(events[k].Finished? && events[k].id == id) && !(events[k].Fetched? && events[k].server == events[a].task.server)
    ensures id in events[b].ids
  {
    StillWaiting(states, events, a, b, id);
    assert Next(states[a], events[a], states[a + 1]) && Next(states[b], events[b], states[b + 1]);
  }

  lemma {:induction false} StillWaiting(states: seq<map<nat, Task>>, events: seq<Event>, a: nat, b: nat, id: nat)
    requires Run(states, events) && a < b < |states| && a < |events| && events[a].Enqueued? && events[a].id == id
    requires forall k :: a < k < b ==>
      !(events[k].Finished? && events[k].id == id) && !(events[k].Fetched? && events[k].server == events[a].task.server)
    ensures id in states[b] && states[b][id] == events[a].task
  {
    assert Next(states[b - 1], events[b - 1], states[b]);
    if a + 1 < b { StillWaiting(states, events, a, b - 1, id); }
  }

  /** A report may set any status: it is handed out again by the next fetch exactly when it is reported as pending. */
  lemma RedeliveredIff(s: map<nat, Task>, e: Event, t: map<nat, Task>, f: Event, u: map<nat, Task>)
    requires e.Finished? && e.id in s && Next(s, e, t) && f.Fetched? && f.server == s[e.id].server && Next(t, f, u)
    ensures e.id in f.ids <==> e.status == Pending
  {
    assert t[e.id].server == f.server && t[e.id].status == e.status;
  }
}
