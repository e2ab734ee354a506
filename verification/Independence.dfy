/**
 * Requests that share no budget do not show in each other's runs: leaving some of them out of a run
 * leaves a run in which the others fare as before.
 */
module Independence {
  import opened Prelude
  import opened Classify
  import opened RateLimit
  import opened Pipeline
  import opened Invariants

  ghost function KeptEvents(events: seq<Event>, keep: set<nat>): (r: seq<Event>)
  {
    if events == [] then [] else (if events[0].id in keep then [events[0]] else []) + KeptEvents(events[1..], keep)
  }

  ghost function KeptTrace(trace: seq<Entry>, keep: set<nat>): (r: seq<Entry>)
  {
    if trace == [] then [] else (if trace[0].id in keep then [trace[0]] else []) + KeptTrace(trace[1..], keep)
  }

  ghost function KeptTasks(tasks: map<nat, Task>, keep: set<nat>): (r: map<nat, Task>)
  {
    map id | id in tasks && id in keep :: tasks[id]
  }

  /** The entry is a check against this budget. */
  ghost predicate ChecksBudget(e: Entry, scope: Scope, name: string)
  {
    e.action.Checked? && e.action.scope == scope && e.action.principal == name
  }

  /** Only kept requests checked this budget. */
  ghost predicate Owned(trace: seq<Entry>, keep: set<nat>, scope: Scope, name: string)
  {
    forall i :: 0 <= i < |trace| && ChecksBudget(trace[i], scope, name) ==> trace[i].id in keep
  }

  /** No budget was checked both by a kept request and by another. */
  ghost predicate Separate(trace: seq<Entry>, keep: set<nat>)
  {
    forall i :: 0 <= i < |trace| && trace[i].action.Checked? && trace[i].id in keep ==>
      Owned(trace, keep, trace[i].action.scope, trace[i].action.principal)
  }

  ghost predicate OwnedAgree(a: Limits, b: Limits, trace: seq<Entry>, keep: set<nat>)
  {
    forall scope, name :: Owned(trace, keep, scope, name) ==> AgreeOn(a, b, scope, name)
  }

  /** `t` is `s` without the other requests, as far as the kept ones can tell. */
  ghost predicate Pruned(s: State, t: State, keep: set<nat>, final: seq<Entry>)
  {
    && t.tasks == KeptTasks(s.tasks, keep)
    && t.trace == KeptTrace(s.trace, keep)
    && OwnedAgree(s.shared.limits, t.shared.limits, final, keep)
  }

  // --- Limiters -----------------------------------------------------------------------------

  /** A check made on both sides is answered alike and keeps every agreement. */
  lemma SameCheck(a: Limits, b: Limits, scope: Scope, name: string, now: nat, sc: Scope, nm: string)
    requires AgreeOn(a, b, scope, name) && AgreeOn(a, b, sc, nm)
    ensures CheckRate(a, scope, name, now).admitted == CheckRate(b, scope, name, now).admitted
    ensures AgreeOn(CheckRate(a, scope, name, now).limits, CheckRate(b, scope, name, now).limits, sc, nm)
  {
  }

  /** A check made on one side only keeps the agreements on other budgets. */
  lemma OtherCheck(a: Limits, b: Limits, scope: Scope, name: string, now: nat, sc: Scope, nm: string)
    requires AgreeOn(a, b, sc, nm) && (sc != scope || nm != name)
    ensures AgreeOn(CheckRate(a, scope, name, now).limits, b, sc, nm)
  {
  }

  lemma LimitsAfter(shared: Shared, actions: seq<Action>)
    requires |actions| <= 1
    ensures PerformAll(shared, actions).limits
         == if actions != [] && actions[0].Checked?
            then CheckRate(shared.limits, actions[0].scope, actions[0].principal, actions[0].now).limits
            else shared.limits
  {
    if actions != [] {
      assert PerformAll(shared, actions) == Perform(shared, actions[0]);
    }
  }

  // --- Traces ---------------------------------------------------------------------------------

  lemma {:induction false} KeptAppend(a: seq<Entry>, b: seq<Entry>, keep: set<nat>)
    ensures KeptTrace(a + b, keep) == KeptTrace(a, keep) + KeptTrace(b, keep)
    decreases |a|
  {
    if a == [] {
      assert a + b == b;
    } else {
      KeptAppend(a[1..], b, keep);
      Uncons(a, b);
      Associate(if a[0].id in keep then [a[0]] else [], KeptTrace(a[1..], keep), KeptTrace(b, keep));
    }
  }

  lemma KeptEntries(id: nat, actions: seq<Action>, keep: set<nat>)
    requires |actions| <= 1
    ensures KeptTrace(Entries(id, actions), keep) == if id in keep then Entries(id, actions) else []
  {
    if actions == [] {
      assert Entries(id, actions) == [];
    } else {
      assert Entries(id, actions) == [Entry(id, actions[0])];
      assert Entries(id, actions)[1..] == [];
    }
  }

  lemma MoveIsShort(cfg: Config, s: State, e: Event)
    requires Enabled(cfg, s, e)
    ensures |MoveOf(cfg, s, e).actions| <= 1
    ensures MoveOf(cfg, s, e).actions != [] ==>
              var n, trace := |s.trace|, Apply(cfg, s, e).trace;
              |trace| == n + 1 && trace[n] == Entry(e.id, MoveOf(cfg, s, e).actions[0])
  {
  }

  lemma {:induction false} TraceGrows(cfg: Config, s: State, events: seq<Event>)
    requires Run(cfg, s, events).Some?
    ensures s.trace <= Run(cfg, s, events).value.trace
    decreases |events|
  {
    if events == [] {
    } else {
      TraceGrows(cfg, Apply(cfg, s, events[0]), events[1..]);
    }
  }

  // --- One step ---------------------------------------------------------------------------------

  /** What a step adds to the trace is part of the final trace. */
  ghost predicate Recorded(cfg: Config, s: State, e: Event, final: seq<Entry>)
    requires Enabled(cfg, s, e)
  {
    Apply(cfg, s, e).trace <= final
  }

  /** Another request's step leaves the kept ones' view as it is. */
  lemma DroppedStep(cfg: Config, s: State, t: State, e: Event, keep: set<nat>, final: seq<Entry>)
    requires Pruned(s, t, keep, final) && Enabled(cfg, s, e) && e.id !in keep && Recorded(cfg, s, e, final)
    ensures Pruned(Apply(cfg, s, e), t, keep, final)
  {
    var m, s' := MoveOf(cfg, s, e), Apply(cfg, s, e);
    MoveIsShort(cfg, s, e);
    assert KeptTasks(s'.tasks, keep) == KeptTasks(s.tasks, keep);
    KeptAppend(s.trace, Entries(e.id, m.actions), keep);
    KeptEntries(e.id, m.actions, keep);
    LimitsAfter(s.shared, m.actions);
    if m.actions != [] && m.actions[0].Checked? {
      var action := m.actions[0];
      assert final[|s.trace|] == Entry(e.id, action);
      forall scope, name | Owned(final, keep, scope, name)
        ensures AgreeOn(s'.shared.limits, t.shared.limits, scope, name)
      {
        assert !ChecksBudget(final[|s.trace|], scope, name);
        OtherCheck(s.shared.limits, t.shared.limits, action.scope, action.principal, action.now, scope, name);
      }
    }
  }

  /** A kept request's step is possible in the pruned state, and is the same move. */
  lemma KeptMove(cfg: Config, s: State, t: State, e: Event, keep: set<nat>, final: seq<Entry>)
    requires Pruned(s, t, keep, final) && Separate(final, keep)
    requires Enabled(cfg, s, e) && e.id in keep && Recorded(cfg, s, e, final)
    ensures Enabled(cfg, t, e)
    ensures MoveOf(cfg, t, e) == MoveOf(cfg, s, e) && RequestOf(cfg, t, e) == RequestOf(cfg, s, e)
  {
    if e.CheckLimit? {
      MoveIsShort(cfg, s, e);
      var action := MoveOf(cfg, s, e).actions[0];
      assert final[|s.trace|] == Entry(e.id, action);
      assert Owned(final, keep, action.scope, action.principal);
      SameCheck(s.shared.limits, t.shared.limits, action.scope, action.principal, action.now,
                action.scope, action.principal);
    }
  }

  lemma KeptStep(cfg: Config, s: State, t: State, e: Event, keep: set<nat>, final: seq<Entry>)
    requires Pruned(s, t, keep, final) && Separate(final, keep)
    requires Enabled(cfg, s, e) && e.id in keep && Recorded(cfg, s, e, final)
    ensures Enabled(cfg, t, e) && Pruned(Apply(cfg, s, e), Apply(cfg, t, e), keep, final)
  {
    KeptMove(cfg, s, t, e, keep, final);
    var m, s', t' := MoveOf(cfg, s, e), Apply(cfg, s, e), Apply(cfg, t, e);
    MoveIsShort(cfg, s, e);
    assert t'.tasks == KeptTasks(s'.tasks, keep);
    KeptAppend(s.trace, Entries(e.id, m.actions), keep);
    KeptEntries(e.id, m.actions, keep);
    LimitsAfter(s.shared, m.actions);
    LimitsAfter(t.shared, m.actions);
    if m.actions != [] && m.actions[0].Checked? {
      var action := m.actions[0];
      assert final[|s.trace|] == Entry(e.id, action);
      assert Owned(final, keep, action.scope, action.principal);
      forall scope, name | Owned(final, keep, scope, name)
        ensures AgreeOn(s'.shared.limits, t'.shared.limits, scope, name)
      {
        SameCheck(s.shared.limits, t.shared.limits, action.scope, action.principal, action.now, scope, name);
      }
    }
  }

  // --- Whole runs ---------------------------------------------------------------------------------

  lemma {:induction false} PrunedRun(
    cfg: Config, s: State, t: State, events: seq<Event>, keep: set<nat>, final: seq<Entry>)
    requires Pruned(s, t, keep, final) && Separate(final, keep)
    requires Run(cfg, s, events).Some? && Run(cfg, s, events).value.trace == final
    ensures Run(cfg, t, KeptEvents(events, keep)).Some?
    ensures Pruned(Run(cfg, s, events).value, Run(cfg, t, KeptEvents(events, keep)).value, keep, final)
    decreases |events|
  {
    if events == [] {
    } else {
      var e, rest := events[0], events[1..];
      TraceGrows(cfg, Apply(cfg, s, e), rest);
      if e.id in keep {
        KeptStep(cfg, s, t, e, keep, final);
        PrunedRun(cfg, Apply(cfg, s, e), Apply(cfg, t, e), rest, keep, final);
        assert KeptEvents(events, keep)[1..] == KeptEvents(rest, keep);
      } else {
        DroppedStep(cfg, s, t, e, keep, final);
        PrunedRun(cfg, Apply(cfg, s, e), t, rest, keep, final);
        assert KeptEvents(events, keep) == KeptEvents(rest, keep);
      }
    }
  }

  /**
   * Leave any requests out of a run that checked no budget a kept request checked: what is left is
   * a run, in which every kept request stands where it stood and did what it did.
   */
  lemma OthersDoNotShow(cfg: Config, events: seq<Event>, s: State, keep: set<nat>)
    returns (t: State)
    requires Run(cfg, Initial(cfg), events) == Some(s) && Separate(s.trace, keep)
    ensures Run(cfg, Initial(cfg), KeptEvents(events, keep)) == Some(t)
    ensures t.tasks == KeptTasks(s.tasks, keep) && t.trace == KeptTrace(s.trace, keep)
  {
    var start := Initial(cfg);
    assert KeptTasks(start.tasks, keep) == start.tasks;
    PrunedRun(cfg, start, start, events, keep, s.trace);
    t := Run(cfg, start, KeptEvents(events, keep)).value;
  }

  // --- Refused requests ---------------------------------------------------------------------------

  /** A request that never came to the limiters. */
  ghost predicate NeverChecked(trace: seq<Entry>, id: nat)
  {
    forall i :: 0 <= i < |trace| && trace[i].id == id ==> !trace[i].action.Checked?
  }

  lemma RefusedNeverChecked(cfg: Config, s: State, id: nat)
    requires Reachable(cfg, s) && id in s.tasks && s.tasks[id].pc.Finishing?
    requires var fate := s.tasks[id].pc.fate;
             fate.AuthFailed? || fate.Oversize? || fate.Unclassified? || fate.Refused?
    ensures NeverChecked(s.trace, id)
  {
    ReachableTask(cfg, s, id);
    forall i | 0 <= i < |s.trace| && s.trace[i].id == id
      ensures !s.trace[i].action.Checked?
    {
      ProjectHas(s.trace, i);
    }
  }

  lemma {:induction false} KeptChecks(trace: seq<Entry>, keep: set<nat>)
    requires forall i :: 0 <= i < |trace| && trace[i].id !in keep ==> !trace[i].action.Checked?
    ensures ChecksOf(Actions(KeptTrace(trace, keep))) == ChecksOf(Actions(trace))
  {
    if trace == [] {
    } else {
      var head, rest := trace[0], trace[1..];
      KeptChecks(rest, keep);
      assert Actions(trace)[0] == head.action && Actions(trace)[1..] == Actions(rest);
      if head.id in keep {
        var kept := KeptTrace(trace, keep);
        assert Actions(kept)[0] == head.action && Actions(kept)[1..] == Actions(KeptTrace(rest, keep));
      } else {
        assert KeptTrace(trace, keep) == KeptTrace(rest, keep);
        assert CheckIn(head.action) + ChecksOf(Actions(rest)) == ChecksOf(Actions(rest));
      }
    }
  }

  /**
   * A request answered 401, 413, 400 or 403 might as well not have come: without its events the
   * rest is a run, with the same limiters and with every other request standing where it stood.
   */
  lemma RefusedMightNotHaveCome(cfg: Config, events: seq<Event>, s: State, id: nat)
    returns (t: State)
    requires Run(cfg, Initial(cfg), events) == Some(s) && id in s.tasks && s.tasks[id].pc.Finishing?
    requires var fate := s.tasks[id].pc.fate;
             fate.AuthFailed? || fate.Oversize? || fate.Unclassified? || fate.Refused?
    ensures Run(cfg, Initial(cfg), KeptEvents(events, s.tasks.Keys - {id})) == Some(t)
    ensures t.tasks == s.tasks - {id} && t.shared.limits == s.shared.limits
  {
    var keep := s.tasks.Keys - {id};
    RefusedNeverChecked(cfg, s, id);
    AllTraced(cfg, s);
    t := OthersDoNotShow(cfg, events, s, keep);
    assert KeptTasks(s.tasks, keep) == s.tasks - {id};
    SameLimits(cfg, s, t, keep);
  }

  lemma AllTraced(cfg: Config, s: State)
    requires Reachable(cfg, s)
    ensures forall i :: 0 <= i < |s.trace| ==> s.trace[i].id in s.tasks
  {
    ReachableIsGood(cfg, s);
  }

  lemma SameLimits(cfg: Config, s: State, t: State, keep: set<nat>)
    requires Reachable(cfg, s) && Reachable(cfg, t) && t.trace == KeptTrace(s.trace, keep)
    requires forall i :: 0 <= i < |s.trace| && s.trace[i].id !in keep ==> !s.trace[i].action.Checked?
    ensures t.shared.limits == s.shared.limits
  {
    KeptChecks(s.trace, keep);
    ReachableLedger(cfg, s);
    ReachableLedger(cfg, t);
    LimitsLedger(InitialShared(cfg), Actions(s.trace));
    LimitsLedger(InitialShared(cfg), Actions(t.trace));
  }

  // --- One principal's requests ---------------------------------------------------------------------

  lemma {:induction false} ProjectUpTo(trace: seq<Entry>, j: nat)
    requires j < |trace|
    ensures Project(trace[..j], trace[j].id) + [trace[j].action] <= Project(trace, trace[j].id)
  {
    var last := |trace| - 1;
    if j == last {
    } else {
      ProjectUpTo(trace[..last], j);
      assert trace[..last][..j] == trace[..j];
    }
  }

  /** No request checks twice. */
  lemma NoRequestChecksTwice(cfg: Config, s: State, i: nat, j: nat)
    requires Reachable(cfg, s) && i < j < |s.trace|
    requires s.trace[i].action.Checked? && s.trace[j].action.Checked? && s.trace[j].id in s.tasks
    ensures s.trace[i].id != s.trace[j].id
  {
    var id := s.trace[j].id;
    ReachableTask(cfg, s, id);
    ProjectUpTo(s.trace, j);
    assert s.trace[..j][i] == s.trace[i];
    ProjectHas(s.trace[..j], i);
    var before := Project(s.trace[..j], id);
    assert Past(cfg, s.tasks[id])[|before|].Checked?;
    CheckComesFirst(cfg, s.tasks[id], |before|);
  }

  lemma CheckComesFirst(cfg: Config, task: Task, k: nat)
    requires TaskOk(cfg, task) && k < |Past(cfg, task)| && Past(cfg, task)[k].Checked?
    ensures k == 0
  {
  }

  /** The requests that checked no budget but this one. */
  ghost function Users(s: State, scope: Scope, name: string): (r: set<nat>)
  {
    set id | id in s.tasks && UsesOnly(s.trace, id, scope, name)
  }

  ghost predicate UsesOnly(trace: seq<Entry>, id: nat, scope: Scope, name: string)
  {
    forall i :: 0 <= i < |trace| && trace[i].id == id && trace[i].action.Checked? ==>
      ChecksBudget(trace[i], scope, name)
  }

  lemma UsersAreSeparate(cfg: Config, s: State, scope: Scope, name: string)
    requires Reachable(cfg, s)
    ensures Separate(s.trace, Users(s, scope, name))
  {
    AllTraced(cfg, s);
    var keep := Users(s, scope, name);
    forall j | 0 <= j < |s.trace| && ChecksBudget(s.trace[j], scope, name)
      ensures s.trace[j].id in keep
    {
      forall i | 0 <= i < |s.trace| && s.trace[i].id == s.trace[j].id && s.trace[i].action.Checked?
        ensures ChecksBudget(s.trace[i], scope, name)
      {
        if i < j {
          NoRequestChecksTwice(cfg, s, i, j);
        } else if j < i {
          NoRequestChecksTwice(cfg, s, j, i);
        }
      }
    }
    forall i | 0 <= i < |s.trace| && s.trace[i].action.Checked? && s.trace[i].id in keep
      ensures Owned(s.trace, keep, s.trace[i].action.scope, s.trace[i].action.principal)
    {
      assert ChecksBudget(s.trace[i], scope, name);
    }
  }

  /**
   * One noisy caller cannot touch another: leave every request that used another (scope, principal)
   * budget out of a run, and each request of this one stands where it stood and did what it did.
   */
  lemma OthersCannotExhaust(cfg: Config, events: seq<Event>, s: State, scope: Scope, name: string)
    returns (t: State)
    requires Run(cfg, Initial(cfg), events) == Some(s)
    ensures Run(cfg, Initial(cfg), KeptEvents(events, Users(s, scope, name))) == Some(t)
    ensures t.tasks == KeptTasks(s.tasks, Users(s, scope, name))
    ensures t.trace == KeptTrace(s.trace, Users(s, scope, name))
  {
    UsersAreSeparate(cfg, s, scope, name);
    t := OthersDoNotShow(cfg, events, s, Users(s, scope, name));
  }
}
