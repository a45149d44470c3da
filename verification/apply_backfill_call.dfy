/** One call of apply-mode `run_batch` as a function of what it meets: between two transactions of the batch come the
    steps of others, and each step of the batch follows from where it stands and from the call's inputs. */
module ApplyBackfillCalls {
  import opened Common
  import opened BackfillStore
  import opened HistoricalFetch
  import opened ApplyBackfill
  import opened ApplyBackfillCounters

  /** The inputs: settings, what the provider reports, how the live pipeline ends for a message, and what others do
      before the batch's t-th step. */
  datatype Call = Call(
    maxAttempts: nat, batchSize: nat, uidvalidity: nat, total: nat, others: nat -> seq<Step>, process: nat -> Outcome)
  {
    ghost predicate Valid() {
      forall t: nat, step :: step in others(t) ==> !step.ByBatch()
    }
  }

  predicate InFlight(l: Local) { !l.Idle? && !l.Raised? }

  /** The step the batch takes from here. */
  ghost function Own(c: Call, s: System): Step {
    match s.local
    case Idle => Begin
    case Started(after) =>
      var (messages, scan) := TheBatch(s.world.mailbox, after, c.batchSize); Fetch(c.batchSize, messages, scan)
    case Fetched(_, _, _) => Discover(c.uidvalidity, c.total)
    case Looping(_, _, _) => Check
    case Working(rest, _, _) => Process(if rest == [] then NotHandled else c.process(rest[0]))
    case Recorded(_, _, _) => Commit
    case Finishing(_, _, _, _) => Finish
    case Raised => Check
  }

  /** What others do before the t-th step; nothing before the call begins and after it ends. */
  function Between(c: Call, t: nat, l: Local): seq<Step> {
    if InFlight(l) then c.others(t) else []
  }

  predicate Over(t: nat, l: Local) { t > 0 && !InFlight(l) }

  ghost function Turn(c: Call, t: nat, s: System): System {
    if Over(t, s.local) then s
    else
      var met := Exec(c.maxAttempts, s, Between(c, t, s.local));
      Apply(c.maxAttempts, met, Own(c, met))
  }

  ghost function Turns(c: Call, t: nat, s: System, n: nat): System
    decreases n
  {
    if n == 0 then s else Turns(c, t + 1, Turn(c, t, s), n - 1)
  }

  lemma {:induction false} TurnsConcat(c: Call, t: nat, s: System, a: nat, b: nat)
    ensures Turns(c, t, s, a + b) == Turns(c, t + a, Turns(c, t, s, a), b)
    decreases a
  {
    if a > 0 { TurnsConcat(c, t + 1, Turn(c, t, s), a - 1, b); }
  }

  /** `run` gives the state after each number of turns. */
  ghost predicate IsRun(c: Call, run: nat -> System) {
    forall n: nat {:trigger Turn(c, n, run(n))} :: run(n + 1) == Turn(c, n, run(n))
  }

  ghost function RunOf(c: Call, s: System): nat -> System { (n: nat) => Turns(c, 0, s, n) }

  lemma RunOfRuns(c: Call, s: System)
    ensures IsRun(c, RunOf(c, s)) && RunOf(c, s)(0) == s
  {
    forall n: nat ensures RunOf(c, s)(n + 1) == Turn(c, n, RunOf(c, s)(n)) {
      TurnsConcat(c, 0, s, n, 1);
      assert Turns(c, n, Turns(c, 0, s, n), 1) == Turns(c, n + 1, Turn(c, n, Turns(c, 0, s, n)), 0);
    }
  }

  /** From the state before a turn, the state others leave, and the state after the batch's own step. */
  lemma OneTurn(c: Call, run: nat -> System, t: nat, before: System, met: System, after: System)
    requires IsRun(c, run) && before == run(t) && !Over(t, before.local)
    requires met == Exec(c.maxAttempts, before, Between(c, t, before.local)) && after == Apply(c.maxAttempts, met, Own(c, met))
    ensures after == run(t + 1)
  {
    assert run(t + 1) == Turn(c, t, run(t));
  }

  // ---------------------------------------------------------------- a call is determined, and is a run

  lemma {:induction false} OverStays(c: Call, t: nat, s: System, n: nat)
    requires Over(t, s.local)
    ensures Turns(c, t, s, n) == s
    decreases n
  {
    if n > 0 { OverStays(c, t + 1, s, n - 1); }
  }

  /** Where a call ends depends on nothing but the state it starts from and its inputs. */
  lemma CallDetermined(c: Call, s: System, n: nat, k: nat)
    requires 0 < n <= k && !InFlight(Turns(c, 0, s, n).local)
    ensures Turns(c, 0, s, k) == Turns(c, 0, s, n)
  {
    TurnsConcat(c, 0, s, n, k - n);
    OverStays(c, n, Turns(c, 0, s, n), k - n);
  }

  /** The steps taken in these turns. */
  ghost function Script(c: Call, t: nat, s: System, n: nat): seq<Step>
    decreases n
  {
    if n == 0 || Over(t, s.local) then []
    else
      var between := Between(c, t, s.local);
      between + [Own(c, Exec(c.maxAttempts, s, between))] + Script(c, t + 1, Turn(c, t, s), n - 1)
  }

  lemma {:induction false} ExecConcat(m: nat, s: System, before: seq<Step>, after: seq<Step>)
    ensures Exec(m, s, before + after) == Exec(m, Exec(m, s, before), after)
    decreases |before|
  {
    if before == [] {
      assert before + after == after;
    } else {
      assert (before + after)[1..] == before[1..] + after;
      ExecConcat(m, Apply(m, s, before[0]), before[1..], after);
    }
  }

  lemma ExecExtend(m: nat, s: System, before: seq<Step>, step: Step)
    ensures Exec(m, s, before + [step]) == Apply(m, Exec(m, s, before), step)
  {
    ExecConcat(m, s, before, [step]);
    ExecOne(m, Exec(m, s, before), step, []);
    assert [step] + [] == [step];
  }

  lemma TurnRuns(c: Call, t: nat, s: System, rest: seq<Step>)
    requires !Over(t, s.local)
    ensures var between := Between(c, t, s.local);
      Exec(c.maxAttempts, s, between + [Own(c, Exec(c.maxAttempts, s, between))] + rest)
        == Exec(c.maxAttempts, Turn(c, t, s), rest)
  {
    var between := Between(c, t, s.local);
    var own := Own(c, Exec(c.maxAttempts, s, between));
    ExecExtend(c.maxAttempts, s, between, own);
    ExecConcat(c.maxAttempts, s, between + [own], rest);
  }

  /** A call is a run of the machine: the steps of others in their order, and between them the batch's own. */
  lemma {:induction false} ScriptRuns(c: Call, t: nat, s: System, n: nat)
    ensures Exec(c.maxAttempts, s, Script(c, t, s, n)) == Turns(c, t, s, n)
    decreases n
  {
    if n > 0 {
      if Over(t, s.local) {
        OverStays(c, t, s, n);
      } else {
        TurnRuns(c, t, s, Script(c, t + 1, Turn(c, t, s), n - 1));
        ScriptRuns(c, t + 1, Turn(c, t, s), n - 1);
      }
    }
  }

  lemma {:induction false} ScriptHasNoCrash(c: Call, t: nat, s: System, n: nat)
    requires c.Valid()
    ensures forall step <- Script(c, t, s, n) :: !step.Crash?
    decreases n
  {
    if n > 0 && !Over(t, s.local) {
      assert forall step <- Between(c, t, s.local) :: !step.ByBatch();
      ScriptHasNoCrash(c, t + 1, Turn(c, t, s), n - 1);
    }
  }
}
