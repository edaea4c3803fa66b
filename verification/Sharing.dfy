/** A compiled program stays correct when it shares the processor. */
module Sharing {
  import opened Words
  import opened Machine
  import opened Scheduling
  import opened Isolation
  import Setting
  import Programs
  import Tpp

  /** A run of the processor on its own is as many turns of the job. */
  lemma {:induction false} RunIsSolo(n: nat, s: State, extras: seq<seq<byte>>)
    requires Run(n, s).Next? && |extras| == n
    ensures Solo(extras, s) == Some(Run(n, s).s)
  {
    hide Step, PageAt;
    if n > 0 {
      RunShorter(n - 1, s);
      RunIsSolo(n - 1, s, extras[..n - 1]);
      RunAppend(n - 1, 1, s);
      LastCycle(Run(n - 1, s).s, extras[n - 1]);
    }
  }

  lemma {:induction false} RunShorter(n: nat, s: State)
    requires Run(n + 1, s).Next?
    ensures Run(n, s).Next?
  {
    hide Cycle;
    if n > 0 {
      RunShorter(n - 1, Cycle(s).s);
    }
  }

  lemma LastCycle(s: State, extra: seq<byte>)
    requires Run(1, s).Next?
    ensures Turn(s, extra).Some? && Turn(s, extra).value.s == Run(1, s).s
  {
    hide Step, PageAt;
  }

  /** A program that runs alone to a state reaches the same state, registers,
      stacks and variables alike, in the same number of its own turns among any
      other jobs, as long as none writes to what it reads. Others may ask for
      memory meanwhile. */
  lemma ProgramShares(ws: seq<World>, extras: seq<seq<byte>>, j: nat, seen: iset<int>,
                      g: Setting.Env, r: Tpp.Result<Tpp.Signal>, n: nat, t: State, fuel: nat)
    requires Driven(ws, extras) && Sound(ws[0].jobs) && Live(ws[0], j) && UndisturbedRun(ws, j, seen)
    requires Programs.RunsProgram(g, r, StateOf(ws[0], j), n, t, fuel) && Turns(ws, j) == n
    ensures var last := ws[|ws| - 1];
            Live(last, j) && last.jobs.slots[j].value == ContextOf(t) && Grown(StateOf(last, j), t, seen)
  {
    hide Iterate, Sound, UndisturbedRun, Solo, Run, Turns, Grown, Cycle, HandleException;
    JobsAreIsolated(ws, extras, j, seen);
    RunIsSolo(n, StateOf(ws[0], j), OwnExtras(ws, extras, j));
  }
}
