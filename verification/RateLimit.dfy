/**
 * Per-principal, per-scope rate limiting. Each key of a limiter holds the arrival time up to which
 * its budget is used: a check is admitted when one more request still fits between now and a
 * minute's worth of budget ahead of now. Arrival times are kept in units of 1/budget nanosecond,
 * in which one request takes PERIOD units, so that replenishing is exact.
 */
module RateLimit {
  import opened Prelude
  import opened Classify

  /** One minute in nanoseconds. */
  const PERIOD: nat := 60_000_000_000

  /** A keyed limiter; a key never seen has used nothing. */
  datatype Limiter = Limiter(budget: nat, cells: map<string, nat>)

  /** The two limiters; `None` where the configured budget is 0. */
  datatype Limits = Limits(read: Option<Limiter>, write: Option<Limiter>)

  datatype Verdict = Verdict(limits: Limits, admitted: bool)

  function Max(a: nat, b: nat): (r: nat)
  {
    if a >= b then a else b
  }

  function ArrivalOf(limiter: Limiter, key: string): (r: nat)
  {
    if key in limiter.cells then limiter.cells[key] else 0
  }

  /** Room for one more request at this time. */
  predicate Admits(arrival: nat, budget: nat, now: nat)
  {
    Max(arrival, now * budget) + PERIOD <= now * budget + budget * PERIOD
  }

  function CheckKey(limiter: Limiter, key: string, now: nat): (r: (Limiter, bool))
  {
    var arrival := ArrivalOf(limiter, key);
    if Admits(arrival, limiter.budget, now)
    then (limiter.(cells := limiter.cells[key := Max(arrival, now * limiter.budget) + PERIOD]), true)
    else (limiter, false)
  }

  function Build(perMinute: nat): (r: Option<Limiter>)
  {
    if perMinute == 0 then None else Some(Limiter(perMinute, map[]))
  }

  function InitialLimits(readPerMinute: nat, writePerMinute: nat): (r: Limits)
  {
    Limits(Build(readPerMinute), Build(writePerMinute))
  }

  function LimiterFor(limits: Limits, scope: Scope): (r: Option<Limiter>)
  {
    match scope
    case Read => limits.read
    case Write => limits.write
  }

  function CheckRate(limits: Limits, scope: Scope, key: string, now: nat): (r: Verdict)
  {
    match LimiterFor(limits, scope)
    case None => Verdict(limits, true)
    case Some(limiter) =>
      var (after, admitted) := CheckKey(limiter, key, now);
      Verdict(if scope.Read? then limits.(read := Some(after)) else limits.(write := Some(after)), admitted)
  }

  // --- Runs of checks -------------------------------------------------------------------

  datatype Check = Check(scope: Scope, key: string, now: nat)

  /** Limiter state after a run of checks. */
  function After(limits: Limits, run: seq<Check>): (r: Limits)
    decreases |run|
  {
    if run == [] then limits
    else After(CheckRate(limits, run[0].scope, run[0].key, run[0].now).limits, run[1..])
  }

  /** The answers given to a run of checks, in order. */
  function Answers(limits: Limits, run: seq<Check>): (r: seq<bool>)
    ensures |r| == |run|
    decreases |run|
  {
    if run == [] then []
    else
      var v := CheckRate(limits, run[0].scope, run[0].key, run[0].now);
      [v.admitted] + Answers(v.limits, run[1..])
  }

  predicate Concerns(check: Check, scope: Scope, key: string)
  {
    check.scope == scope && check.key == key
  }

  /** The checks of a run made for one (scope, key). */
  function Only(run: seq<Check>, scope: Scope, key: string): (r: seq<Check>)
  {
    if run == [] then []
    else (if Concerns(run[0], scope, key) then [run[0]] else []) + Only(run[1..], scope, key)
  }

  /** The answers, out of those for a whole run, to the checks made for one (scope, key). */
  function AnswersTo(run: seq<Check>, answers: seq<bool>, scope: Scope, key: string): (r: seq<bool>)
    requires |run| == |answers|
  {
    if run == [] then []
    else (if Concerns(run[0], scope, key) then [answers[0]] else []) + AnswersTo(run[1..], answers[1..], scope, key)
  }

  /** The limiters agree on the budget of one (scope, key) and on how much of it is used. */
  ghost predicate AgreeOn(a: Limits, b: Limits, scope: Scope, key: string)
  {
    match (LimiterFor(a, scope), LimiterFor(b, scope))
    case (None, None) => true
    case (Some(l), Some(m)) => l.budget == m.budget && ArrivalOf(l, key) == ArrivalOf(m, key)
    case _ => false
  }

  lemma {:induction false} RunsAgree(a: Limits, b: Limits, run: seq<Check>, scope: Scope, key: string)
    requires AgreeOn(a, b, scope, key)
    ensures AnswersTo(run, Answers(a, run), scope, key) == Answers(b, Only(run, scope, key))
    ensures AgreeOn(After(a, run), After(b, Only(run, scope, key)), scope, key)
    decreases |run|
  {
    if run == [] {
    } else {
      var head := run[0];
      var v := CheckRate(a, head.scope, head.key, head.now);
      assert Answers(a, run)[1..] == Answers(v.limits, run[1..]);
      if Concerns(head, scope, key) {
        var w := CheckRate(b, scope, key, head.now);
        RunsAgree(v.limits, w.limits, run[1..], scope, key);
        assert Only(run, scope, key)[1..] == Only(run[1..], scope, key);
      } else {
        RunsAgree(v.limits, b, run[1..], scope, key);
        assert Only(run, scope, key) == Only(run[1..], scope, key);
      }
    }
  }

  /**
   * Isolation: in every run the answers for one (scope, key), and what is left of its budget, are
   * those of the run in which nobody else ever asked.
   */
  lemma ChecksAreIsolated(limits: Limits, run: seq<Check>, scope: Scope, key: string)
    ensures AnswersTo(run, Answers(limits, run), scope, key) == Answers(limits, Only(run, scope, key))
    ensures AgreeOn(After(limits, run), After(limits, Only(run, scope, key)), scope, key)
  {
    RunsAgree(limits, limits, run, scope, key);
  }

  lemma {:induction false} RunAppend(limits: Limits, a: seq<Check>, b: seq<Check>)
    ensures After(limits, a + b) == After(After(limits, a), b)
    ensures Answers(limits, a + b) == Answers(limits, a) + Answers(After(limits, a), b)
    decreases |a|
  {
    if a == [] {
      assert a + b == b;
    } else {
      assert (a + b)[0] == a[0] && (a + b)[1..] == a[1..] + b;
      RunAppend(CheckRate(limits, a[0].scope, a[0].key, a[0].now).limits, a[1..], b);
    }
  }

  // --- The rate bound -------------------------------------------------------------------

  /** Admissions for one (scope, key) at times from `from` to `until`. */
  function Admissions(run: seq<Check>, answers: seq<bool>, scope: Scope, key: string, from: nat, until: nat): (n: nat)
    requires |run| == |answers|
  {
    if run == [] then 0
    else (if Concerns(run[0], scope, key) && answers[0] && from <= run[0].now <= until then 1 else 0)
         + Admissions(run[1..], answers[1..], scope, key, from, until)
  }

  function BudgetOf(limits: Limits, scope: Scope): (r: nat)
  {
    match LimiterFor(limits, scope) case None => 0 case Some(l) => l.budget
  }

  function ArrivalFor(limits: Limits, scope: Scope, key: string): (r: nat)
  {
    match LimiterFor(limits, scope) case None => 0 case Some(l) => ArrivalOf(l, key)
  }

  /** A check uses its own budget when it admits, and leaves everything else alone. */
  lemma CheckEffect(limits: Limits, check: Check, scope: Scope, key: string)
    requires LimiterFor(limits, scope).Some?
    ensures var v, n := CheckRate(limits, check.scope, check.key, check.now), BudgetOf(limits, scope);
            && LimiterFor(v.limits, scope).Some? && BudgetOf(v.limits, scope) == n
            && (Concerns(check, scope, key) ==> (v.admitted <==> Admits(ArrivalFor(limits, scope, key), n, check.now)))
            && (ArrivalFor(v.limits, scope, key)
                == if Concerns(check, scope, key) && v.admitted
                   then Max(ArrivalFor(limits, scope, key), check.now * n) + PERIOD
                   else ArrivalFor(limits, scope, key))
  {
  }

  lemma AdmissionsStep(limits: Limits, run: seq<Check>, scope: Scope, key: string, from: nat, until: nat)
    requires run != []
    ensures var v := CheckRate(limits, run[0].scope, run[0].key, run[0].now);
            Admissions(run, Answers(limits, run), scope, key, from, until) ==
            (if Concerns(run[0], scope, key) && v.admitted && from <= run[0].now <= until then 1 else 0)
            + Admissions(run[1..], Answers(v.limits, run[1..]), scope, key, from, until)
  {
    var v := CheckRate(limits, run[0].scope, run[0].key, run[0].now);
    assert Answers(limits, run)[1..] == Answers(v.limits, run[1..]);
  }

  /** From this arrival time on, `k` requests fit into the window. */
  ghost predicate Fits(arrival: nat, n: nat, from: nat, until: nat, k: nat)
  {
    k > 0 ==> Max(arrival, from * n) + k * PERIOD <= until * n + n * PERIOD
  }

  lemma ScaledMonotone(a: nat, b: nat, n: nat)
    requires a <= b
    ensures a * n <= b * n
  {
  }

  /** An admission outside the window only uses up budget; one inside makes room for one fewer. */
  lemma FitsStep(arrival: nat, n: nat, now: nat, from: nat, until: nat, later: nat)
    requires Admits(arrival, n, now)
    requires Fits(Max(arrival, now * n) + PERIOD, n, from, until, later)
    ensures Fits(arrival, n, from, until, later)
    ensures from <= now <= until ==> Fits(arrival, n, from, until, 1 + later)
  {
    if from <= now <= until {
      ScaledMonotone(from, now, n);
      ScaledMonotone(now, until, n);
      assert (1 + later) * PERIOD == PERIOD + later * PERIOD;
    }
  }

  /** No order of the clock readings is assumed. */
  lemma {:induction false} WindowFits(limits: Limits, run: seq<Check>, scope: Scope, key: string, from: nat, until: nat)
    requires LimiterFor(limits, scope).Some?
    ensures Fits(ArrivalFor(limits, scope, key), BudgetOf(limits, scope), from, until,
                 Admissions(run, Answers(limits, run), scope, key, from, until))
    decreases |run|
  {
    if run == [] {
    } else {
      var v := CheckRate(limits, run[0].scope, run[0].key, run[0].now);
      CheckEffect(limits, run[0], scope, key);
      WindowFits(v.limits, run[1..], scope, key, from, until);
      AdmissionsStep(limits, run, scope, key, from, until);
      if Concerns(run[0], scope, key) && v.admitted {
        FitsStep(ArrivalFor(limits, scope, key), BudgetOf(limits, scope), run[0].now, from, until,
                 Admissions(run[1..], Answers(v.limits, run[1..]), scope, key, from, until));
      }
    }
  }

  /**
   * Rate bound: whatever else happens and in whatever order the clock readings arrive, the
   * admissions for one (scope, key) with readings in a window are at most the budget plus what a
   * minute's budget pays for in the window's length.
   */
  lemma RateBound(limits: Limits, run: seq<Check>, scope: Scope, key: string, from: nat, until: nat)
    requires BudgetOf(limits, scope) > 0 && from <= until
    ensures Admissions(run, Answers(limits, run), scope, key, from, until)
         <= BudgetOf(limits, scope) + (until - from) * BudgetOf(limits, scope) / PERIOD
  {
    WindowFits(limits, run, scope, key, from, until);
    var n, k := BudgetOf(limits, scope), Admissions(run, Answers(limits, run), scope, key, from, until);
    assert until * n == (until - from) * n + from * n;
    ScaledMonotone(0, until - from, n);
    DivideBound(k, n, (until - from) * n);
  }

  lemma DivideBound(k: nat, n: nat, paid: nat)
    requires k * PERIOD <= n * PERIOD + paid
    ensures k <= n + paid / PERIOD
  {
    assert paid < (paid / PERIOD + 1) * PERIOD;
  }

  lemma {:induction false} AbsentAdmitsAll(limits: Limits, run: seq<Check>, scope: Scope)
    requires LimiterFor(limits, scope).None?
    ensures LimiterFor(After(limits, run), scope).None?
    ensures forall i :: 0 <= i < |run| && run[i].scope == scope ==> Answers(limits, run)[i]
    decreases |run|
  {
    if run == [] {
    } else {
      var v := CheckRate(limits, run[0].scope, run[0].key, run[0].now);
      AbsentAdmitsAll(v.limits, run[1..], scope);
      assert forall i :: 1 <= i < |run| ==> run[i] == run[1..][i - 1];
    }
  }

  /** A configured budget of 0 admits every request of its scope, in every run. */
  lemma NoBudgetAdmitsAll(readPerMinute: nat, writePerMinute: nat, run: seq<Check>, scope: Scope)
    requires (if scope == Read then readPerMinute else writePerMinute) == 0
    ensures forall i :: 0 <= i < |run| && run[i].scope == scope ==>
              Answers(InitialLimits(readPerMinute, writePerMinute), run)[i]
  {
    AbsentAdmitsAll(InitialLimits(readPerMinute, writePerMinute), run, scope);
  }

  // --- What the budget guarantees ---------------------------------------------------------

  /** The same check, `m` times over. */
  function Repeated(check: Check, m: nat): (r: seq<Check>)
    ensures |r| == m
  {
    seq(m, i => check)
  }

  lemma OnePeriodMore(base: nat, k: nat)
    ensures base + (k + 1) * PERIOD == base + PERIOD + k * PERIOD
  {
  }

  /** Of a burst, exactly the checks are admitted that fit between the arrival time and a minute's budget. */
  lemma {:induction false} BurstIsExact(limits: Limits, check: Check, m: nat, i: nat)
    requires LimiterFor(limits, check.scope).Some? && i < m
    ensures var n := BudgetOf(limits, check.scope);
            Answers(limits, Repeated(check, m))[i] <==>
            Max(ArrivalFor(limits, check.scope, check.key), check.now * n) + (i + 1) * PERIOD
            <= check.now * n + n * PERIOD
    decreases m
  {
    var n, v := BudgetOf(limits, check.scope), CheckRate(limits, check.scope, check.key, check.now);
    var base := Max(ArrivalFor(limits, check.scope, check.key), check.now * n);
    CheckEffect(limits, check, check.scope, check.key);
    assert Repeated(check, m)[1..] == Repeated(check, m - 1);
    OnePeriodMore(base, i);
    if i > 0 {
      BurstIsExact(v.limits, check, m - 1, i - 1);
    }
  }

  /** What a burst that fits uses. */
  lemma {:induction false} BurstUses(limits: Limits, check: Check, m: nat)
    requires LimiterFor(limits, check.scope).Some?
    requires var n := BudgetOf(limits, check.scope);
             Max(ArrivalFor(limits, check.scope, check.key), check.now * n) + m * PERIOD <= check.now * n + n * PERIOD
    ensures var after, n := After(limits, Repeated(check, m)), BudgetOf(limits, check.scope);
            && LimiterFor(after, check.scope).Some? && BudgetOf(after, check.scope) == n
            && Max(ArrivalFor(after, check.scope, check.key), check.now * n)
            == Max(ArrivalFor(limits, check.scope, check.key), check.now * n) + m * PERIOD
    decreases m
  {
    if m == 0 {
    } else {
      var n, v := BudgetOf(limits, check.scope), CheckRate(limits, check.scope, check.key, check.now);
      CheckEffect(limits, check, check.scope, check.key);
      OnePeriodMore(Max(ArrivalFor(limits, check.scope, check.key), check.now * n), m - 1);
      assert Repeated(check, m)[1..] == Repeated(check, m - 1);
      BurstUses(v.limits, check, m - 1);
    }
  }

  lemma FitsWhole(i: nat, n: nat)
    ensures (i + 1) * PERIOD <= n * PERIOD <==> i < n
  {
  }

  lemma FitsPaid(i: nat, paid: nat)
    ensures (i + 1) * PERIOD <= paid <==> i < paid / PERIOD
  {
  }

  /** Time `d` after a burst of the whole budget `n`. */
  lemma FitsAfterBurst(arrival: nat, now: nat, d: nat, n: nat, i: nat)
    requires n > 0 && Max(arrival, now * n) == now * n + n * PERIOD
    ensures Max(arrival, (now + d) * n) + (i + 1) * PERIOD <= (now + d) * n + n * PERIOD
       <==> i < n && i < d * n / PERIOD
  {
    ScaledMonotone(1, n, PERIOD);
    assert (now + d) * n == now * n + d * n;
    FitsWhole(i, n);
    FitsPaid(i, d * n);
  }

  /** Checks made up to time `t` use no more than the budget of `t` and the minute after it. */
  lemma {:induction false} UseBounded(limits: Limits, run: seq<Check>, scope: Scope, key: string, t: nat)
    requires LimiterFor(limits, scope).Some?
    requires ArrivalFor(limits, scope, key) <= (t + PERIOD) * BudgetOf(limits, scope)
    requires forall i :: 0 <= i < |run| && Concerns(run[i], scope, key) ==> run[i].now <= t
    ensures LimiterFor(After(limits, run), scope).Some?
    ensures BudgetOf(After(limits, run), scope) == BudgetOf(limits, scope)
    ensures ArrivalFor(After(limits, run), scope, key) <= (t + PERIOD) * BudgetOf(limits, scope)
    decreases |run|
  {
    if run == [] {
    } else {
      var n, v := BudgetOf(limits, scope), CheckRate(limits, run[0].scope, run[0].key, run[0].now);
      CheckEffect(limits, run[0], scope, key);
      if Concerns(run[0], scope, key) {
        ScaledMonotone(run[0].now, t, n);
        assert (t + PERIOD) * n == t * n + n * PERIOD;
      }
      UseBounded(v.limits, run[1..], scope, key, t);
    }
  }

  /** In either scope, a key that was never checked gets exactly its configured budget at once; 0 is no limit. */
  lemma BurstAdmitted(readPerMinute: nat, writePerMinute: nat, check: Check, m: nat, i: nat)
    requires i < m
    ensures var n := if check.scope == Read then readPerMinute else writePerMinute;
            Answers(InitialLimits(readPerMinute, writePerMinute), Repeated(check, m))[i] <==> n == 0 || i < n
  {
    var n := if check.scope == Read then readPerMinute else writePerMinute;
    var limits := InitialLimits(readPerMinute, writePerMinute);
    if n == 0 {
      NoBudgetAdmitsAll(readPerMinute, writePerMinute, Repeated(check, m), check.scope);
    } else {
      BurstIsExact(limits, check, m, i);
      FitsWhole(i, n);
    }
  }

  lemma ReplenishedBudget(limits: Limits, run: seq<Check>, check: Check, t: nat, m: nat, i: nat)
    requires LimiterFor(limits, check.scope).Some? && ArrivalFor(limits, check.scope, check.key) == 0
    requires forall k :: 0 <= k < |run| && Concerns(run[k], check.scope, check.key) ==> run[k].now <= t
    requires t + PERIOD <= check.now && i < m
    ensures Answers(After(limits, run), Repeated(check, m))[i] <==> i < BudgetOf(limits, check.scope)
  {
    var n := BudgetOf(limits, check.scope);
    ScaledMonotone(0, t + PERIOD, n);
    ScaledMonotone(t + PERIOD, check.now, n);
    UseBounded(limits, run, check.scope, check.key, t);
    BurstIsExact(After(limits, run), check, m, i);
    FitsWhole(i, n);
  }

  /**
   * A minute after its last check, however many were made before and by whom, a key gets exactly
   * its whole budget at once again.
   */
  lemma ReplenishedAfterMinute(
    readPerMinute: nat, writePerMinute: nat, run: seq<Check>, check: Check, t: nat, m: nat, i: nat)
    requires forall k :: 0 <= k < |run| && Concerns(run[k], check.scope, check.key) ==> run[k].now <= t
    requires t + 60_000_000_000 <= check.now && i < m
    ensures var n := if check.scope == Read then readPerMinute else writePerMinute;
            var before := After(InitialLimits(readPerMinute, writePerMinute), run);
            Answers(before, Repeated(check, m))[i] <==> n == 0 || i < n
  {
    var n := if check.scope == Read then readPerMinute else writePerMinute;
    var limits := InitialLimits(readPerMinute, writePerMinute);
    if n == 0 {
      AbsentAdmitsAll(limits, run, check.scope);
      AbsentAdmitsAll(After(limits, run), Repeated(check, m), check.scope);
    } else {
      ReplenishedBudget(limits, run, check, t, m, i);
    }
  }

  /**
   * Budget comes back evenly: after its whole budget of n was taken at one instant, a key gets,
   * `d` nanoseconds later, exactly floor(d * n / 60 s) more at once, and never more than n.
   */
  lemma ReplenishedEvenly(readPerMinute: nat, writePerMinute: nat, check: Check, d: nat, m: nat, i: nat)
    requires (if check.scope == Read then readPerMinute else writePerMinute) > 0 && i < m
    ensures var n := if check.scope == Read then readPerMinute else writePerMinute;
            var used := After(InitialLimits(readPerMinute, writePerMinute), Repeated(check, n));
            Answers(used, Repeated(check.(now := check.now + d), m))[i] <==>
            i < n && i < d * n / 60_000_000_000
  {
    var n := if check.scope == Read then readPerMinute else writePerMinute;
    var limits, later := InitialLimits(readPerMinute, writePerMinute), check.(now := check.now + d);
    BurstUses(limits, check, n);
    BurstIsExact(After(limits, Repeated(check, n)), later, m, i);
    FitsAfterBurst(ArrivalFor(After(limits, Repeated(check, n)), check.scope, check.key), check.now, d, n, i);
  }

  // --- The limiters as the program holds them --------------------------------------------

  class RateLimiters {
    var read: Option<Limiter>
    var write: Option<Limiter>

    constructor (readPerMinute: nat, writePerMinute: nat)
      ensures State() == InitialLimits(readPerMinute, writePerMinute)
    {
      read, write := Build(readPerMinute), Build(writePerMinute);
    }

    function State(): (r: Limits)
      reads this
    {
      Limits(read, write)
    }

    method Check(scope: Scope, key: string, now: nat) returns (admitted: bool)
      modifies this
      ensures Verdict(State(), admitted) == CheckRate(old(State()), scope, key, now)
    {
      var limiter := LimiterFor(State(), scope);
      match limiter
      case None => admitted := true;
      case Some(l) =>
        var (after, ok) := CheckKey(l, key, now);
        match scope {
          case Read => read := Some(after);
          case Write => write := Some(after);
        }
        admitted := ok;
    }
  }
}
