/** One call of the bulk apply `run_batch` as a function of what it meets: between two commands or transactions of the
    batch come the steps of others, and each step of the batch follows from where it stands, from which provider calls
    raise, and from the UIDVALIDITY its connection has seen. */
module BulkApplyCalls {
  import opened Common
  import opened BulkRows
  import opened BulkApply
  import BulkApplySafety
  import BulkApplyTermination

  /** What the call meets: the steps others take before its t-th own step, and which of its provider calls raise. */
  datatype Call = Call(others: nat -> seq<Step>, fails: nat -> bool) {
    ghost predicate Valid() {
      forall t: nat, step :: step in others(t) ==> !step.ByBatch() && (step.MailboxChanges? ==> step.mail.Valid())
    }
  }

  /** `known` is the UIDVALIDITY the connection has seen; once it has changed every fetch raises. */
  datatype Stage = Stage(s: System, known: Option<nat>)

  ghost function TheBatch(w: World): seq<Item> {
    if w.job.None? then [] else BulkApplyTermination.NextItems(w.rows, Queue(w.rows), w.job.value.batchSize)
  }

  predicate FetchRaises(c: Call, t: nat, g: Stage) {
    c.fails(t) || (g.known.Some? && g.known.value != g.s.world.mail.uidvalidity)
  }

  /** The step the batch takes from here. */
  ghost function Own(c: Call, t: nat, g: Stage): Step {
    match g.s.local
    case Idle => ReadBatch(TheBatch(g.s.world))
    case Batch(todo) => if todo == [] then Close else Take
    case Fetching(_, _, _) => if FetchRaises(c, t, g) then ProviderFails else Fetch
    case Acting(_, _, _, left, _) => if left != [] && c.fails(t) then ProviderFails else Send
    case Result(_, _, _, _) => Mark
  }

  /** What others do before the t-th step; nothing before the call begins and after it ends. */
  function Between(c: Call, t: nat, l: Local): seq<Step> { if l.Idle? then [] else c.others(t) }

  predicate Over(t: nat, l: Local) { t > 0 && l.Idle? }

  /** The batch's own step. */
  ghost function Act(c: Call, t: nat, g: Stage): Stage {
    var step := Own(c, t, g);
    Stage(Apply(g.s, step), if step.Fetch? then Some(g.s.world.mail.uidvalidity) else g.known)
  }

  ghost function Turn(c: Call, t: nat, g: Stage): Stage {
    if Over(t, g.s.local) then g else Act(c, t, Stage(Exec(g.s, Between(c, t, g.s.local)), g.known))
  }

  ghost function Turns(c: Call, t: nat, g: Stage, n: nat): Stage
    decreases n
  {
    if n == 0 then g else Turns(c, t + 1, Turn(c, t, g), n - 1)
  }

  lemma {:induction false} TurnsConcat(c: Call, t: nat, g: Stage, a: nat, b: nat)
    ensures Turns(c, t, g, a + b) == Turns(c, t + a, Turns(c, t, g, a), b)
    decreases a
  {
    if a > 0 { TurnsConcat(c, t + 1, Turn(c, t, g), a - 1, b); }
  }

  /** `run` gives the stage after each number of turns. */
  ghost predicate IsRun(c: Call, run: nat -> Stage) {
    forall n: nat {:trigger Turn(c, n, run(n))} :: run(n + 1) == Turn(c, n, run(n))
  }

  ghost function RunOf(c: Call, g: Stage): nat -> Stage { (n: nat) => Turns(c, 0, g, n) }

  lemma RunOfRuns(c: Call, g: Stage)
    ensures IsRun(c, RunOf(c, g)) && RunOf(c, g)(0) == g
  {
    forall n: nat ensures RunOf(c, g)(n + 1) == Turn(c, n, RunOf(c, g)(n)) {
      TurnsConcat(c, 0, g, n, 1);
      assert Turns(c, n, Turns(c, 0, g, n), 1) == Turns(c, n + 1, Turn(c, n, Turns(c, 0, g, n)), 0);
    }
  }

  /** From the stage before a turn, the stage others leave, and the stage after the batch's own step. */
  lemma OneTurn(c: Call, run: nat -> Stage, t: nat, before: Stage, met: Stage, after: Stage)
    requires IsRun(c, run) && before == run(t) && !Over(t, before.s.local)
    requires met == Stage(Exec(before.s, Between(c, t, before.s.local)), before.known) && after == Act(c, t, met)
    ensures after == run(t + 1)
  {
    assert run(t + 1) == Turn(c, t, run(t));
  }

  // ---------------------------------------------------------------- a call is determined, and is a run

  lemma {:induction false} OverStays(c: Call, t: nat, g: Stage, n: nat)
    requires Over(t, g.s.local)
    ensures Turns(c, t, g, n) == g
    decreases n
  {
    if n > 0 { OverStays(c, t + 1, g, n - 1); }
  }

  /** Where a call ends depends on nothing but the state it starts from and what it meets. */
  lemma CallDetermined(c: Call, g: Stage, n: nat, k: nat)
    requires 0 < n <= k && Turns(c, 0, g, n).s.local.Idle?
    ensures Turns(c, 0, g, k) == Turns(c, 0, g, n)
  {
    TurnsConcat(c, 0, g, n, k - n);
    OverStays(c, n, Turns(c, 0, g, n), k - n);
  }

  /** The steps taken in these turns. */
  ghost function Script(c: Call, t: nat, g: Stage, n: nat): seq<Step>
    decreases n
  {
    if n == 0 || Over(t, g.s.local) then []
    else
      var between := Between(c, t, g.s.local);
      between + [Own(c, t, Stage(Exec(g.s, between), g.known))] + Script(c, t + 1, Turn(c, t, g), n - 1)
  }

  lemma ExecExtend(s: System, before: seq<Step>, step: Step)
    ensures Exec(s, before + [step]) == Apply(Exec(s, before), step)
  {
    BulkApplySafety.ExecConcat(s, before, [step]);
    assert Exec(Apply(Exec(s, before), step), []) == Apply(Exec(s, before), step);
  }

  lemma TurnRuns(c: Call, t: nat, g: Stage, rest: seq<Step>)
    requires !Over(t, g.s.local)
    ensures var between := Between(c, t, g.s.local);
      Exec(g.s, between + [Own(c, t, Stage(Exec(g.s, between), g.known))] + rest) == Exec(Turn(c, t, g).s, rest)
  {
    var between := Between(c, t, g.s.local);
    var own := Own(c, t, Stage(Exec(g.s, between), g.known));
    ExecExtend(g.s, between, own);
    BulkApplySafety.ExecConcat(g.s, between + [own], rest);
  }

  /** A call is a run of the machine: the steps of others in their order, and between them the batch's own. */
  lemma {:induction false} ScriptRuns(c: Call, t: nat, g: Stage, n: nat)
    ensures Exec(g.s, Script(c, t, g, n)) == Turns(c, t, g, n).s
    decreases n
  {
    if n > 0 {
      if Over(t, g.s.local) {
        OverStays(c, t, g, n);
      } else {
        TurnRuns(c, t, g, Script(c, t + 1, Turn(c, t, g), n - 1));
        ScriptRuns(c, t + 1, Turn(c, t, g), n - 1);
      }
    }
  }

  lemma {:induction false} ScriptHasNoCrash(c: Call, t: nat, g: Stage, n: nat)
    requires c.Valid()
    ensures forall step <- Script(c, t, g, n) :: !step.Crash?
    decreases n
  {
    if n > 0 && !Over(t, g.s.local) {
      assert forall step <- Between(c, t, g.s.local) :: !step.ByBatch();
      ScriptHasNoCrash(c, t + 1, Turn(c, t, g), n - 1);
    }
  }
}
