/** The dispatcher's objects: jobs with stacks of their own, the domain that
    holds them, and the processor they are loaded into in turn. */
module Dispatcher {
  import opened Words
  import opened Isa
  import opened Machine
  import opened Stack
  import opened Pages
  import opened Processor
  import opened Protection
  import opened Scheduling

  class Job {
    var instructionPointer: u32
    var stack: VStack
    var callStack: VStack
    var regs: seq<u32>
    var exceptionHandlers: seq<u32>
    var flags: Flags
    var exceptionFlag: bool
    var jobId: nat

    /** A job has two stacks of its own, both in use from the start. */
    ghost predicate Ok(max: nat)
      reads this, stack, callStack
    {
      && |regs| == REGISTERS && |exceptionHandlers| == 4
      && stack.Valid() && callStack.Valid() && stack.max == max && callStack.max == max
      && stack != callStack && stack.content != null && callStack.content != null && stack.content != callStack.content
    }

    ghost function Saved(max: nat): Context
      reads this, stack, stack.content, callStack, callStack.content
      requires Ok(max)
    {
      Context(instructionPointer, regs, stack.Contents(), callStack.Contents(),
              flags, exceptionFlag, exceptionHandlers)
    }

    constructor (ip: u32, id: nat, max: nat)
      requires 1 <= max <= LARGEST_MAX
      ensures Ok(max) && Saved(max) == Newborn(ip) && jobId == id
      ensures fresh(stack) && fresh(callStack) && fresh(stack.content) && fresh(callStack.content)
    {
      instructionPointer, jobId := ip, id;
      stack := new VStack(max);
      callStack := new VStack(max);
      regs, exceptionHandlers := seq(REGISTERS, _ => 0), [0, 0, 0, 0];
      flags, exceptionFlag := Flags(false, false, false, false), false;
      new;
      var _ := stack.Push(0);
      var _ := callStack.Push(0);
    }
  }

  /** Two jobs share no stack. */
  ghost predicate Separate(a: Job, b: Job)
    reads a, b, a.stack, a.callStack, b.stack, b.callStack
  {
    && a != b
    && a.stack != b.stack && a.stack != b.callStack && a.callStack != b.stack && a.callStack != b.callStack
    && a.stack.content != b.stack.content && a.stack.content != b.callStack.content
    && a.callStack.content != b.stack.content && a.callStack.content != b.callStack.content
  }

  // ----- many jobs -----

  ghost function StacksOf(js: seq<Job?>): set<VStack>
    reads js
  {
    (set i | 0 <= i < |js| && js[i] != null :: js[i].stack) + (set i | 0 <= i < |js| && js[i] != null :: js[i].callStack)
  }

  ghost function BuffersOf(js: seq<Job?>): set<array?<u64>>
    reads js, StacksOf(js)
  {
    set s | s in StacksOf(js) :: s.content
  }

  /** Every job knows its slot, and no two share a stack. */
  ghost predicate JobsOk(js: seq<Job?>, max: nat)
    reads js, StacksOf(js)
  {
    && (forall i :: 0 <= i < |js| && js[i] != null ==> js[i].Ok(max) && js[i].jobId == i)
    && (forall i, j :: 0 <= i < j < |js| && js[i] != null && js[j] != null ==> Separate(js[i], js[j]))
  }

  ghost function EntryOf(j: Job?, max: nat): (c: Option<Context>)
    reads j, if j == null then {} else {j.stack, j.callStack}
    reads if j == null then {} else {j.stack.content, j.callStack.content}
    requires j != null ==> j.Ok(max)
    ensures c.None? <==> j == null
  {
    if j == null then None else Some(j.Saved(max))
  }

  /** The contexts a table of jobs holds. */
  ghost function Slots(js: seq<Job?>, max: nat): (s: seq<Option<Context>>)
    reads js, StacksOf(js), BuffersOf(js)
    requires JobsOk(js, max)
    ensures |s| == |js| && forall i :: 0 <= i < |js| ==> s[i] == EntryOf(js[i], max)
  {
    seq(|js|, i requires 0 <= i < |js| && JobsOk(js, max) reads js, StacksOf(js), BuffersOf(js) => EntryOf(js[i], max))
  }

  /** The objects one job is made of. */
  ghost function Parts(j: Job): set<object?>
    reads j, j.stack, j.callStack
  {
    {j, j.stack, j.callStack, j.stack.content, j.callStack.content}
  }

  /** Every object the jobs are made of. */
  ghost function Owned(js: seq<Job?>): set<object?>
    reads js, StacksOf(js)
  {
    (set i | 0 <= i < |js| && js[i] != null :: js[i] as object?)
    + (set k | k in StacksOf(js) :: k as object?) + (set b | b in BuffersOf(js) :: b as object?)
  }

  /** `own` covers every object the jobs are made of. */
  ghost predicate Holds(own: set<object?>, js: seq<Job?>)
    reads js, StacksOf(js)
  {
    forall i :: 0 <= i < |js| && js[i] != null ==> Parts(js[i]) <= own
  }

  lemma PartsOwned(js: seq<Job?>)
    ensures Holds(Owned(js), js)
  {
    forall i | 0 <= i < |js| && js[i] != null ensures Parts(js[i]) <= Owned(js) {
      assert js[i].stack in StacksOf(js) && js[i].callStack in StacksOf(js);
      assert js[i].stack.content in BuffersOf(js) && js[i].callStack.content in BuffersOf(js);
    }
  }

  lemma OwnedIsPart(js: seq<Job?>, x: object?) returns (i: nat)
    requires x in Owned(js)
    ensures i < |js| && js[i] != null && x in Parts(js[i])
  {
    if k :| 0 <= k < |js| && js[k] != null && x == js[k] {
      i := k;
    } else if s :| s in StacksOf(js) && (x == s || x == s.content) {
      i :| 0 <= i < |js| && js[i] != null && (s == js[i].stack || s == js[i].callStack);
    }
  }

  /** Every job that was not in its slot before is a new one, with new stacks. */
  twostate predicate OthersNew(was: seq<Job?>, new js: seq<Job?>)
    reads js, StacksOf(js)
  {
    forall i :: 0 <= i < |js| && js[i] != null && !(i < |was| && js[i] == was[i]) ==>
      && fresh(js[i]) && fresh(js[i].stack) && fresh(js[i].callStack)
      && fresh(js[i].stack.content) && fresh(js[i].callStack.content)
  }

  function Nulls(n: nat): (s: seq<Job?>)
    ensures |s| == n && forall i :: 0 <= i < n ==> s[i] == null
  {
    seq(n, _ => null)
  }

  lemma MoreSlots(js: seq<Job?>, n: nat, max: nat)
    requires JobsOk(js, max)
    ensures JobsOk(js + Nulls(n), max) && Slots(js + Nulls(n), max) == Slots(js, max) + NoJobs(n)
  {
    hide Separate;
  }

  lemma SlotSet(js: seq<Job?>, id: nat, j: Job?, max: nat)
    requires JobsOk(js, max) && id < |js|
    requires j != null ==> j.Ok(max) && j.jobId == id
    requires j != null ==> forall i :: 0 <= i < |js| && i != id && js[i] != null ==> Separate(j, js[i])
    ensures JobsOk(js[id := j], max) && Slots(js[id := j], max) == Slots(js, max)[id := EntryOf(j, max)]
  {
    hide Job.Saved, Job.Ok;
    var after := js[id := j];
    forall i, k | 0 <= i < k < |js| && after[i] != null && after[k] != null
      ensures Separate(after[i], after[k])
    {
    }
  }

  /** The two tables differ at most in the one slot. */
  ghost predicate ElsewhereSame(t: Jobs, t': Jobs, id: nat) {
    && t.active == t'.active && |t.slots| == |t'.slots|
    && forall i :: 0 <= i < |t.slots| && i != id ==> t'.slots[i] == t.slots[i]
  }

  lemma ElsewhereTwice(t: Jobs, t': Jobs, t'': Jobs, id: nat)
    requires ElsewhereSame(t, t', id) && ElsewhereSame(t', t'', id)
    ensures ElsewhereSame(t, t'', id)
  {
  }

  lemma SoundElsewhere(t: Jobs, t': Jobs, id: nat)
    requires ElsewhereSame(t, t', id) && id < |t.slots| && t.slots[id].Some? && t'.slots[id].Some?
    ensures Scheduling.Sound(t) <==> Scheduling.Sound(t')
  {
    hide Count;
    assert t'.slots == t.slots[id := t'.slots[id]];
    CountSet(t.slots, id, t'.slots[id]);
  }

  /** The table after a turn that may have dispatched a job. */
  function Spawned(t: Jobs, u: Turned): Jobs {
    if u.spawn.Some? then Dispatched(t, u.spawn.value) else t
  }

  lemma NoSpawn(t: Jobs, u: Turned)
    requires u.spawn.None?
    ensures Spawned(t, u) == t
  {
  }

  /** Dispatching looks only at which slots are free. */
  lemma DispatchElsewhere(t: Jobs, t': Jobs, id: nat, ip: u32)
    requires ElsewhereSame(t, t', id) && id < |t.slots| && t.slots[id].Some? && t'.slots[id].Some?
    requires Scheduling.Sound(t)
    ensures ElsewhereSame(Dispatched(t, ip), Dispatched(t', ip), id)
  {
    hide Count, Newborn;
    SoundElsewhere(t, t', id);
    DispatchKeeps(t, ip);
    DispatchKeeps(t', ip);
    SameFree(GrownTable(t).slots, GrownTable(t').slots);
  }

  lemma SpawnElsewhere(t: Jobs, t': Jobs, u: Turned, id: nat)
    requires ElsewhereSame(t, t', id) && id < |t.slots| && t.slots[id].Some? && t'.slots[id].Some?
    requires Scheduling.Sound(t)
    ensures ElsewhereSame(Spawned(t, u), Spawned(t', u), id)
  {
    hide Dispatched, Count;
    if u.spawn.Some? {
      DispatchElsewhere(t, t', id, u.spawn.value);
    }
  }

  lemma SameFree(s: seq<Option<Context>>, s': seq<Option<Context>>)
    requires |s| == |s'| && forall i :: 0 <= i < |s| ==> (s[i].None? <==> s'[i].None?)
    ensures FirstFree(s) == FirstFree(s')
  {
    hide FirstFree;
    var i, j := FirstFree(s), FirstFree(s');
    assert i < |s| ==> s'[i].None?;
    assert j < |s| ==> s[j].None?;
  }

  /** The table when the first round begins. */
  function BootJobs(init: u32): Jobs {
    Jobs(Scheduling.EMPTY.slots[0 := Some(Newborn(0).(regs := Newborn(0).regs[0 := init]))], 1)
  }

  /** Sixteen slots, one of them taken: by a job that begins at address 0 and is
      told in R0 where the program starts. */
  lemma BootJobsAre(init: u32)
    ensures var t := BootJobs(init);
            && |t.slots| == 16 && t.active == 1 && (forall k :: 1 <= k < 16 ==> t.slots[k].None?)
            && t.slots[0].Some? && t.slots[0].value.regs[0] == init
            && Unborn(t.slots[0].value.(regs := t.slots[0].value.regs[0 := 0]), 0)
  {
    NewbornIsUnborn(0);
  }

  lemma BootSlot()
    ensures Dispatched(Scheduling.EMPTY, 0) == Jobs(Scheduling.EMPTY.slots[0 := Some(Newborn(0))], 1)
    ensures FirstFree(GrownTable(Scheduling.EMPTY).slots) == 0
    ensures forall init: u32 :: Scheduling.Sound(BootJobs(init))
  {
    hide Count;
    CountNone(FIRST_SLOTS);
    forall init: u32
      ensures Scheduling.Sound(BootJobs(init))
    {
      CountSet(Scheduling.EMPTY.slots, 0, Some(Newborn(0).(regs := Newborn(0).regs[0 := init])));
    }
  }

  /** The table of jobs. It grows by reallocation, so it is a sequence here. */
  class Domain {
    var jobs: seq<Job?>
    var currentJobId: u32
    var numberOfActiveJobs: int
    var totalNumberOfJobs: nat
    const maxStack: nat

    ghost predicate Shaped()
      reads this, jobs, StacksOf(jobs)
    {
      1 <= maxStack <= LARGEST_MAX && |jobs| == totalNumberOfJobs && JobsOk(jobs, maxStack)
    }

    ghost function Table(): Jobs
      reads this, jobs, StacksOf(jobs), BuffersOf(jobs)
      requires Shaped()
    {
      Jobs(Slots(jobs, maxStack), numberOfActiveJobs)
    }

    ghost predicate Valid()
      reads this, jobs, StacksOf(jobs), BuffersOf(jobs)
    {
      Shaped() && Scheduling.Sound(Table())
    }

    constructor (max: nat)
      requires 1 <= max <= LARGEST_MAX
      ensures Valid() && Table() == Scheduling.EMPTY && currentJobId == 0 && maxStack == max
    {
      maxStack := max;
      jobs := Nulls(16);
      currentJobId, numberOfActiveJobs, totalNumberOfJobs := 0, 0, 16;
      new;
      assert Table().slots == NoJobs(FIRST_SLOTS);
      CountNone(FIRST_SLOTS);
    }

    /** Sixteen more slots, all free. */
    method GrowTable()
      requires Shaped()
      modifies `jobs, `totalNumberOfJobs
      ensures Shaped() && jobs == old(jobs) + Nulls(FIRST_SLOTS)
      ensures Table() == old(Table()).(slots := old(Table()).slots + NoJobs(FIRST_SLOTS))
    {
      hide EntryOf, Separate, Job.Ok;
      MoreSlots(jobs, FIRST_SLOTS, maxStack);
      jobs, totalNumberOfJobs := jobs + Nulls(FIRST_SLOTS), totalNumberOfJobs + 16;
    }

    /** A new job shares nothing with those there are. */
    method NewJob(ip: u32, id: nat) returns (job: Job)
      requires Shaped()
      ensures fresh(job) && fresh(job.stack) && fresh(job.callStack) && job.jobId == id
      ensures fresh(job.stack.content) && fresh(job.callStack.content)
      ensures job.Ok(maxStack) && EntryOf(job, maxStack) == Some(Newborn(ip))
      ensures Shaped() && Table() == old(Table())
      ensures forall i :: 0 <= i < |jobs| && jobs[i] != null ==> Separate(job, jobs[i])
    {
      hide Newborn;
      job := new Job(ip, id, maxStack);
    }

    method Place(job: Job?, id: nat)
      requires Shaped() && id < |jobs|
      requires job != null ==> job.Ok(maxStack) && job.jobId == id
      requires job != null ==> forall i :: 0 <= i < |jobs| && i != id && jobs[i] != null ==> Separate(job, jobs[i])
      modifies `jobs
      ensures Shaped() && jobs == old(jobs)[id := job] && (job != null ==> job.Ok(maxStack))
      ensures Table() == old(Table()).(slots := old(Table()).slots[id := old(EntryOf(job, maxStack))])
    {
      hide EntryOf, Separate, Job.Ok;
      SlotSet(jobs, id, job, maxStack);
      jobs := jobs[id := job];
    }

    method Adjust(change: int)
      requires Shaped()
      modifies `numberOfActiveJobs
      ensures Shaped() && Table() == old(Table()).(active := old(numberOfActiveJobs) + change)
    {
      hide EntryOf, Separate, Job.Ok;
      numberOfActiveJobs := numberOfActiveJobs + change;
    }

    lemma TableFields()
      requires Shaped()
      ensures Table().active == numberOfActiveJobs && |Table().slots| == |jobs| == totalNumberOfJobs
      ensures forall i :: 0 <= i < |jobs| ==> (Table().slots[i].None? <==> jobs[i] == null)
    {
    }

    lemma SlotIs(id: nat)
      requires Shaped() && id < |jobs| && jobs[id] != null
      ensures jobs[id].Ok(maxStack) && id < |Table().slots| && Table().slots[id] == Some(jobs[id].Saved(maxStack))
    {
      hide Job.Saved, Job.Ok, Separate;
    }

    /** The scan for a free slot. */
    method FindFree() returns (id: nat)
      requires Shaped()
      ensures Shaped() && Table() == old(Table()) && id == FirstFree(Table().slots)
    {
      hide FirstFree, Table, JobsOk;
      TableFields();
      id := 0;
      while id < totalNumberOfJobs && jobs[id] != null
        modifies {}
        invariant 0 <= id <= FirstFree(Table().slots)
      {
        id := id + 1;
      }
    }

    /** The lowest free slot, which there always is, in a table that grows when it
        is one short of full. */
    method DispatchJob(ip: u32) returns (id: nat)
      requires Valid()
      modifies `jobs, `totalNumberOfJobs, `numberOfActiveJobs
      ensures Valid() && id == FirstFree(GrownTable(old(Table())).slots) && Table() == Dispatched(old(Table()), ip)
      ensures id < |jobs| && jobs[id] != null
      ensures jobs[id].Ok(maxStack) && Unborn(jobs[id].Saved(maxStack), ip)
      ensures fresh(jobs[id]) && fresh(jobs[id].stack) && fresh(jobs[id].callStack)
      ensures fresh(jobs[id].stack.content) && fresh(jobs[id].callStack.content)
      ensures forall i :: 0 <= i < |jobs| && i != id ==> jobs[i] == if i < old(|jobs|) then old(jobs[i]) else null
    {
      hide Count, FirstFree, Newborn, EntryOf, Separate, Job.Ok, Table, Shaped, JobsOk;
      ghost var t := Table();
      DispatchKeeps(t, ip);
      TableFields();
      if numberOfActiveJobs >= totalNumberOfJobs - 1 {
        GrowTable();
      }
      TableFields();
      id := FindFree();
      var job := NewJob(ip, id);
      NewbornIsUnborn(ip);
      Place(job, id);
      Adjust(1);
      TableFields();
      SlotIs(id);
    }

    /** The slot is freed with its two stacks; any other number is ignored. */
    method ExitJob(id: nat)
      requires Valid() && id != totalNumberOfJobs
      modifies `jobs, `numberOfActiveJobs
      ensures Valid() && Table() == Exited(old(Table()), id)
    {
      hide Count, EntryOf, Separate, Job.Ok;
      ExitKeeps(Table(), id);
      if id > totalNumberOfJobs {
        return;
      }
      TableFields();
      if jobs[id] != null {
        Place(null, id);
        Adjust(-1);
      }
    }

    // ----- contexts in and out of the processor -----

    ghost predicate Attached(cpu: Cpu, id: nat)
      reads this, jobs, cpu
    {
      && id < |jobs| && jobs[id] != null
      && cpu.stack == jobs[id].stack && cpu.callStack == jobs[id].callStack
    }

    /** Copies a job's context into the processor; the stacks are the job's own. */
    method LoadJobState(cpu: Cpu, id: nat) returns (ok: bool)
      requires Shaped() && cpu.memory.Length < 0x1_0000_0000 && cpu.table.Valid()
      requires |cpu.regs| == REGISTERS && |cpu.exceptionHandlers| == 4
      modifies cpu
      ensures Shaped() && Table() == old(Table())
      ensures ok == (numberOfActiveJobs != 0 && id < |jobs| && jobs[id] != null)
      ensures !ok ==> unchanged(cpu)
      ensures cpu.memory == old(cpu.memory) && cpu.table == old(cpu.table)
      ensures ok ==> Attached(cpu, id) && cpu.Valid() && cpu.Narrow()
      ensures ok ==> cpu.View() == Join(Table().slots[id].value, cpu.memory[..], cpu.table.types[..], maxStack)
    {
      if numberOfActiveJobs == 0 || id >= totalNumberOfJobs || jobs[id] == null {
        return false;
      }
      var job := jobs[id];
      CopyIn(cpu, job);
      ok := true;
    }

    method CopyIn(cpu: Cpu, job: Job)
      requires job.Ok(maxStack) && cpu.memory.Length < 0x1_0000_0000 && cpu.table.Valid()
      requires |cpu.regs| == REGISTERS && |cpu.exceptionHandlers| == 4
      modifies cpu
      ensures cpu.memory == old(cpu.memory) && cpu.table == old(cpu.table)
      ensures cpu.stack == job.stack && cpu.callStack == job.callStack && cpu.Valid() && cpu.Narrow()
      ensures cpu.View() == Join(job.Saved(maxStack), cpu.memory[..], cpu.table.types[..], maxStack)
    {
      hide VStack.Valid, VStack.Contents, PageTable.Valid;
      cpu.instructionPointer := job.instructionPointer;
      cpu.stack, cpu.callStack := job.stack, job.callStack;
      cpu.flags := job.flags;
      cpu.exceptionFlag, cpu.exceptionHandlers := job.exceptionFlag, job.exceptionHandlers;
      cpu.regs := seq(REGISTERS, i requires 0 <= i < REGISTERS && |job.regs| == REGISTERS reads job => job.regs[i] as u64);
      assert Low32s(cpu.regs) == job.regs;
    }

    /** Copies the processor's state into the job. Registers lose their upper
        halves here. */
    method SaveJobState(cpu: Cpu, id: nat)
      requires Shaped() && cpu.Valid() && (id < |jobs| && jobs[id] != null ==> Attached(cpu, id))
      modifies if id < |jobs| && jobs[id] != null then {jobs[id]} else {}
      ensures Shaped() && cpu.Valid() && cpu.View() == old(cpu.View())
      ensures id < |jobs| && jobs[id] != null ==> jobs[id].stack == cpu.stack && jobs[id].callStack == cpu.callStack
      ensures Table() == if id < |jobs| && jobs[id] != null
                         then old(Table()).(slots := old(Table()).slots[id := Some(ContextOf(cpu.View()))])
                         else old(Table())
    {
      if id >= totalNumberOfJobs || jobs[id] == null {
        return;
      }
      hide VStack.Valid, VStack.Contents, PageTable.Valid, Job.Saved, Job.Ok, Cpu.Valid, Cpu.View;
      CopyOut(cpu, jobs[id]);
      assert Table().slots == old(Table()).slots[id := Some(ContextOf(cpu.View()))];
    }

    method CopyOut(cpu: Cpu, job: Job)
      requires job.Ok(maxStack) && cpu.Valid() && cpu.stack == job.stack && cpu.callStack == job.callStack
      modifies job
      ensures job.Ok(maxStack) && cpu.Valid() && cpu.View() == old(cpu.View())
      ensures job.stack == old(job.stack) && job.callStack == old(job.callStack) && job.jobId == old(job.jobId)
      ensures job.Saved(maxStack) == ContextOf(cpu.View())
    {
      hide VStack.Valid, VStack.Contents, PageTable.Valid, Low32s;
      job.instructionPointer := cpu.instructionPointer;
      job.stack, job.callStack := cpu.stack, cpu.callStack;
      job.flags := cpu.flags;
      job.exceptionFlag, job.exceptionHandlers := cpu.exceptionFlag, cpu.exceptionHandlers;
      job.regs := Low32s(cpu.regs);
    }

    // ----- one round of the loop -----

    /** One instruction of the job in the processor leaves every other job alone. */
    method EmulateJob(cpu: Cpu, id: nat) returns (r: Stop)
      requires Shaped() && Attached(cpu, id) && cpu.Valid() && cpu.Narrow()
      modifies cpu, cpu.stack, cpu.stack.content, cpu.callStack, cpu.callStack.content, cpu.memory
      ensures Shaped() && Attached(cpu, id) && cpu.Valid() && cpu.memory == old(cpu.memory) && cpu.table == old(cpu.table)
      ensures Came(Step(old(cpu.View())), r, old(cpu.View()), cpu.View())
      ensures r.Trapped? ==> cpu.Narrow()
      ensures cpu.stack == old(cpu.stack) && (cpu.stack.content == old(cpu.stack.content) || fresh(cpu.stack.content))
      ensures cpu.callStack == old(cpu.callStack)
      ensures cpu.callStack.content == old(cpu.callStack.content) || fresh(cpu.callStack.content)
      ensures ElsewhereSame(old(Table()), Table(), id)
    {
      hide Step, Came, Cpu.View, VStack.Contents, VStack.Valid, PageTable.Valid;
      r := cpu.EmulateInstruction();
    }

    /** A heap request of the job in the processor. */
    method AllocForJob(cpu: Cpu, id: nat, extra: seq<byte>) returns (r: Stop)
      requires Shaped() && Attached(cpu, id) && cpu.Valid()
      modifies cpu, cpu.stack, cpu.stack.content
      ensures Shaped() && Attached(cpu, id) && cpu.Valid()
      ensures match AfterAlloc(old(cpu.View()), extra)
              case Some(t) => r == Continued && cpu.View() == t
              case None => r != Continued
      ensures ElsewhereSame(old(Table()), Table(), id)
      ensures cpu.stack == old(cpu.stack) && (cpu.stack.content == old(cpu.stack.content) || fresh(cpu.stack.content))
      ensures cpu.callStack == old(cpu.callStack) && cpu.callStack.content == old(cpu.callStack.content)
      ensures cpu.memory == old(cpu.memory) || fresh(cpu.memory)
    {
      hide AfterAlloc, Cpu.View, VStack.Contents, VStack.Valid, PageTable.Valid;
      r := cpu.AllocMemory(extra);
    }

    method FaultJob(cpu: Cpu, id: nat) returns (r: Stop)
      requires Shaped() && Attached(cpu, id) && cpu.Valid() && cpu.Narrow()
      modifies cpu, cpu.stack, cpu.stack.content
      ensures Shaped() && Attached(cpu, id) && cpu.Valid()
      ensures Came(HandleException(old(cpu.View()), INVALID_ACCESS), r, old(cpu.View()), cpu.View())
      ensures ElsewhereSame(old(Table()), Table(), id)
      ensures cpu.stack == old(cpu.stack) && (cpu.stack.content == old(cpu.stack.content) || fresh(cpu.stack.content))
      ensures cpu.callStack == old(cpu.callStack) && cpu.callStack.content == old(cpu.callStack.content)
      ensures cpu.memory == old(cpu.memory)
    {
      hide HandleException, Came, Cpu.View, VStack.Contents, VStack.Valid, PageTable.Valid;
      r := cpu.HandleCpuException(INVALID_ACCESS);
    }

    /** Dispatching a job while another is in the processor. */
    method SpawnFor(cpu: Cpu, id: nat, entry: u32)
      requires Valid() && Attached(cpu, id) && cpu.Valid()
      modifies `jobs, `totalNumberOfJobs, `numberOfActiveJobs, cpu`instructionPointer
      ensures Valid() && Attached(cpu, id) && cpu.Valid() && Table() == Dispatched(old(Table()), entry)
      ensures OthersNew(old(jobs), jobs)
      ensures jobs[id] == old(jobs[id])
      ensures cpu.View() == old(cpu.View()).(ip := Low32(old(cpu.View()).ip + 2))
    {
      hide Shaped, Table, JobsOk, Cpu.Valid, Cpu.View, GrownTable, FirstFree, Count, Newborn;
      MoveOn(cpu);
      DispatchKeeps(Table(), entry);
      TableFields();
      var newId := DispatchJob(entry);
      assert newId != id;
      TableFields();
    }

    method MoveOn(cpu: Cpu)
      requires Valid() && cpu.Valid()
      modifies cpu`instructionPointer
      ensures Valid() && cpu.Valid() && Table() == old(Table())
      ensures cpu.View() == old(cpu.View()).(ip := Low32(old(cpu.View()).ip + 2))
    {
      hide EntryOf, Job.Ok, Separate, VStack.Contents, VStack.Valid, PageTable.Valid, Low32s, Count, Low32;
      cpu.GoTo(Low32((cpu.instructionPointer as int) + 2));
      assert Shaped();
      assert Table() == old(Table());
    }

    /** SYSCALL_DISPATCH of the job in the processor. */
    method ServeDispatchFor(cpu: Cpu, id: nat) returns (r: Stop)
      requires Valid() && Attached(cpu, id) && cpu.Valid() && cpu.Narrow()
      modifies cpu, cpu.stack, cpu.stack.content, `jobs, `totalNumberOfJobs, `numberOfActiveJobs
      ensures match ServeDispatch(old(cpu.View()))
              case None => r != Continued
              case Some(u) =>
                && r == Continued && Shaped() && Attached(cpu, id) && cpu.Valid() && cpu.View() == u.s
                && jobs[id] == old(jobs[id])
                && ElsewhereSame(Spawned(old(Table()), u), Table(), id)
      ensures OthersNew(old(jobs), jobs)
      ensures cpu.stack == old(cpu.stack) && (cpu.stack.content == old(cpu.stack.content) || fresh(cpu.stack.content))
      ensures cpu.callStack == old(cpu.callStack) && cpu.callStack.content == old(cpu.callStack.content)
      ensures cpu.memory == old(cpu.memory)
    {
      hide HandleException, Shaped, Table, JobsOk, Cpu.View, Cpu.Valid, Cpu.Narrow, Dispatched, Item, Count, Low32;
      var entry := EntryPoint(cpu);
      InProcessor(cpu);
      if entry > cpu.memory.Length {
        r := FaultJob(cpu, id);
      } else {
        SpawnFor(cpu, id, entry);
        r := Continued;
      }
    }

    method EntryPoint(cpu: Cpu) returns (entry: u32)
      requires Valid() && cpu.Valid() && cpu.Narrow()
      ensures Valid() && Table() == old(Table()) && cpu.Valid() && cpu.Narrow() && cpu.View() == old(cpu.View())
      ensures entry == Low32(Item(cpu.View().ds, 1))
    {
      hide Item, EntryOf, Job.Ok, Separate, Count, Low32;
      var top := cpu.TopItem(1);
      entry := Low32(top);
      assert Shaped();
      assert Table() == old(Table());
    }

    lemma InProcessor(cpu: Cpu)
      requires cpu.Valid()
      ensures |cpu.View().mem| == cpu.memory.Length < 0x1_0000_0000
    {
    }

    /** A system call of the job in the processor. */
    method ServeCall(cpu: Cpu, id: nat, n: byte, extra: seq<byte>) returns (r: Stop)
      requires Valid() && Attached(cpu, id) && cpu.Valid() && cpu.Narrow()
      modifies cpu, cpu.stack, cpu.stack.content, `jobs, `totalNumberOfJobs, `numberOfActiveJobs
      ensures match Serve(old(cpu.View()), n, extra)
              case None => r != Continued
              case Some(u) =>
                && r == Continued && Shaped() && Attached(cpu, id) && cpu.Valid() && cpu.View() == u.s
                && jobs[id] == old(jobs[id])
                && ElsewhereSame(Spawned(old(Table()), u), Table(), id)
      ensures OthersNew(old(jobs), jobs)
      ensures cpu.stack == old(cpu.stack) && (cpu.stack.content == old(cpu.stack.content) || fresh(cpu.stack.content))
      ensures cpu.callStack == old(cpu.callStack) && cpu.callStack.content == old(cpu.callStack.content)
      ensures cpu.memory == old(cpu.memory) || fresh(cpu.memory)
    {
      hide AfterAlloc, ServeDispatch, Shaped, Table, JobsOk, Cpu.View, Cpu.Valid, Cpu.Narrow, Count, ElsewhereSame, Dispatched;
      if n == SYSCALL_ALLOC {
        r := AllocForJob(cpu, id, extra);
      } else if n == SYSCALL_DISPATCH {
        r := ServeDispatchFor(cpu, id);
      } else {
        r := Trapped(n);
      }
    }

    /** One turn of the job in the processor, system calls included. Its own slot
        is stale until it is saved. */
    method TurnFor(cpu: Cpu, id: nat, extra: seq<byte>) returns (r: Stop)
      requires Valid() && Attached(cpu, id) && cpu.Valid() && cpu.Narrow()
      modifies cpu, cpu.stack, cpu.stack.content, cpu.callStack, cpu.callStack.content, cpu.memory
      modifies `jobs, `totalNumberOfJobs, `numberOfActiveJobs
      ensures match Turn(old(cpu.View()), extra)
              case None => r != Continued
              case Some(u) =>
                && r == Continued && Shaped() && Attached(cpu, id) && cpu.Valid() && cpu.View() == u.s
                && jobs[id] == old(jobs[id])
                && ElsewhereSame(Spawned(old(Table()), u), Table(), id)
      ensures OthersNew(old(jobs), jobs)
      ensures cpu.stack == old(cpu.stack) && (cpu.stack.content == old(cpu.stack.content) || fresh(cpu.stack.content))
      ensures cpu.callStack == old(cpu.callStack)
      ensures cpu.callStack.content == old(cpu.callStack.content) || fresh(cpu.callStack.content)
      ensures cpu.memory == old(cpu.memory) || fresh(cpu.memory)
    {
      hide Step, Serve, Shaped, Table, JobsOk, Cpu.View, Cpu.Valid, Cpu.Narrow, Spawned, Count, ElsewhereSame;
      ghost var t0 := Table();
      TableFields();
      r := EmulateJob(cpu, id);
      ghost var t1 := Table();
      TableFields();
      SoundElsewhere(t0, t1, id);
      if r.Trapped? {
        ghost var u := Serve(cpu.View(), r.n, extra);
        r := ServeCall(cpu, id, r.n, extra);
        if r == Continued {
          SpawnElsewhere(t0, t1, u.value, id);
          ElsewhereTwice(Spawned(t0, u.value), Spawned(t1, u.value), Table(), id);
        }
      } else if r == Continued {
        NoSpawn(t0, Turn(old(cpu.View()), extra).value);
      }
    }

    // ----- the loop -----

    /** The machine as the loop sees it. */
    ghost function WorldOf(cpu: Cpu): World
      reads this, jobs, StacksOf(jobs), BuffersOf(jobs), cpu, cpu.memory, cpu.table, cpu.table.types
      requires Shaped() && cpu.memory.Length < 0x1_0000_0000
    {
      World(Table(), currentJobId, cpu.instructionPointer, cpu.memory[..], cpu.table.types[..], maxStack)
    }

    ghost predicate Ready(cpu: Cpu)
      reads this, jobs, StacksOf(jobs), BuffersOf(jobs), cpu, cpu.table
    {
      && Valid() && cpu.memory.Length < 0x1_0000_0000 && cpu.table.Valid()
      && |cpu.regs| == REGISTERS && |cpu.exceptionHandlers| == 4
    }

    /** The counter moves on; past the end of the table it starts again at 0. */
    method Advance()
      requires Shaped()
      modifies `currentJobId
      ensures Shaped() && Table() == old(Table()) && currentJobId == Scheduling.Advance(old(currentJobId), |jobs|)
    {
      hide EntryOf, Job.Ok, Separate;
      if currentJobId >= totalNumberOfJobs {
        currentJobId := 0xFFFF_FFFF;
      }
      currentJobId := Low32((currentJobId as int) + 1);
    }

    lemma ViewParts(cpu: Cpu)
      requires cpu.Valid()
      ensures var s := cpu.View();
              && s.ip == cpu.instructionPointer && s.mem == cpu.memory[..] && s.pages == cpu.table.types[..]
              && cpu.memory.Length < 0x1_0000_0000 && cpu.table.Valid()
              && |cpu.regs| == REGISTERS && |cpu.exceptionHandlers| == 4
    {
    }

    /** The turn of a job that has been loaded, and the save after it. */
    method RunLoaded(cpu: Cpu, id: nat, extra: seq<byte>, ghost w: World) returns (r: Stop)
      requires Valid() && Attached(cpu, id) && cpu.Valid() && cpu.Narrow()
      requires w.jobs == Table() && w.current == id == currentJobId && w.limit == maxStack
      requires Live(w, id) && cpu.View() == StateOf(w, id)
      modifies cpu, cpu.stack, cpu.stack.content, cpu.callStack, cpu.callStack.content, cpu.memory, jobs[id], this
      ensures match Turn(StateOf(w, id), extra)
              case None => r != Continued
              case Some(u) =>
                && r == Continued && Ready(cpu)
                && WorldOf(cpu) == Saved(w, Spawned(w.jobs, u), u.s)
      ensures OthersNew(old(jobs), jobs)
      ensures old(jobs[id]).stack == old(jobs[id].stack) && old(jobs[id]).callStack == old(jobs[id].callStack)
      ensures cpu.stack == old(cpu.stack) && (cpu.stack.content == old(cpu.stack.content) || fresh(cpu.stack.content))
      ensures cpu.callStack == old(cpu.callStack)
      ensures cpu.callStack.content == old(cpu.callStack.content) || fresh(cpu.callStack.content)
      ensures cpu.memory == old(cpu.memory) || fresh(cpu.memory)
    {
      hide Turn, Table, JobsOk, Shaped, Cpu.View, Cpu.Valid, Cpu.Narrow, Dispatched, Count, PageTable.Valid;
      r := TurnFor(cpu, id, extra);
      if r != Continued {
        return;
      }
      Finish(cpu, id, w, Turn(StateOf(w, id), extra).value);
    }

    method Finish(cpu: Cpu, id: nat, ghost w: World, ghost u: Turned)
      requires Shaped() && cpu.Valid() && Attached(cpu, id) && cpu.View() == u.s
      requires Live(w, id) && Scheduling.Sound(w.jobs) && w.current == id == currentJobId && w.limit == maxStack
      requires ElsewhereSame(Spawned(w.jobs, u), Table(), id)
      modifies jobs[id], `currentJobId
      ensures Ready(cpu) && Attached(cpu, id)
      ensures forall i :: 0 <= i < |jobs| && jobs[i] != null ==>
                jobs[i].stack == old(jobs[i].stack) && jobs[i].callStack == old(jobs[i].callStack)
      ensures WorldOf(cpu) == Saved(w, Spawned(w.jobs, u), u.s)
    {
      hide Table, JobsOk, Shaped, Cpu.View, Cpu.Valid, Cpu.Narrow, Dispatched, Count, PageTable.Valid;
      ghost var expected := Spawned(w.jobs, u);
      ghost var t1 := Table();
      TableFields();
      SaveAndAdvance(cpu, id);
      SlotSaved(w, u, expected, t1, Table(), id);
      TableFields();
    }

    /** Whatever the jobs hold afterwards they held before, or it is new. */
    method RunOwned(cpu: Cpu, id: nat, extra: seq<byte>, ghost w: World, ghost own: set<object?>)
      returns (r: Stop, ghost now: set<object?>)
      requires Valid() && Attached(cpu, id) && cpu.Valid() && cpu.Narrow()
      requires w.jobs == Table() && w.current == id == currentJobId && w.limit == maxStack
      requires Holds(own, jobs) && Live(w, id) && cpu.View() == StateOf(w, id)
      modifies cpu, cpu.memory, own, this
      ensures match Turn(StateOf(w, id), extra)
              case None => r != Continued
              case Some(u) =>
                && r == Continued && Ready(cpu)
                && WorldOf(cpu) == Saved(w, Spawned(w.jobs, u), u.s)
      ensures Holds(now, jobs) && fresh(now - own)
      ensures cpu.memory == old(cpu.memory) || fresh(cpu.memory)
    {
      hide Turn, Table, JobsOk, Shaped, Cpu.View, Cpu.Valid, Cpu.Narrow, Dispatched, Count,
           PageTable.Valid, Owned, Separate, Job.Ok, EntryOf, Job.Saved, VStack.Valid, VStack.Contents, Saved, StateOf, Live;
      r := RunLoaded(cpu, id, extra, w);
      forall x | x in Owned(jobs) && x !in own ensures fresh(x) {
        var i := OwnedIsPart(jobs, x);
      }
      now := own + Owned(jobs);
      PartsOwned(jobs);
    }

    method SaveAndAdvance(cpu: Cpu, id: nat)
      requires Shaped() && cpu.Valid() && Attached(cpu, id)
      modifies jobs[id], `currentJobId
      ensures Shaped() && cpu.memory.Length < 0x1_0000_0000 && cpu.table.Valid()
      ensures |cpu.regs| == REGISTERS && |cpu.exceptionHandlers| == 4
      ensures Attached(cpu, id)
      ensures WorldOf(cpu) == old(World(Table().(slots := Table().slots[id := Some(ContextOf(cpu.View()))]),
                                        Scheduling.Advance(currentJobId, |jobs|),
                                        cpu.View().ip, cpu.View().mem, cpu.View().pages, maxStack))
    {
      hide Table, JobsOk, Shaped, Cpu.View, Cpu.Valid, PageTable.Valid;
      TableFields();
      SaveJobState(cpu, id);
      ViewParts(cpu);
      TableFields();
      Advance();
    }

    lemma SlotSaved(w: World, u: Turned, expected: Jobs, t1: Jobs, t2: Jobs, id: nat)
      requires expected == Spawned(w.jobs, u)
      requires Live(w, id) && Scheduling.Sound(w.jobs) && id == w.current
      requires ElsewhereSame(expected, t1, id) && id < |t1.slots|
      requires t2 == t1.(slots := t1.slots[id := Some(ContextOf(u.s))])
      ensures t2 == Saved(w, expected, u.s).jobs && Scheduling.Sound(t2)
    {
      hide Count, Newborn, Dispatched;
      if u.spawn.Some? {
        DispatchKeeps(w.jobs, u.spawn.value);
      }
      assert t2.slots == expected.slots[id := Some(ContextOf(u.s))];
      SoundElsewhere(expected, t2, id);
    }

    method FirstJob()
      requires Shaped()
      modifies `currentJobId
      ensures Shaped() && Table() == old(Table()) && currentJobId == 0
    {
      hide EntryOf, Job.Ok, Separate;
      currentJobId := 0;
    }

    method PutRegister(cpu: Cpu, v: u32)
      requires Shaped() && cpu.Valid()
      modifies cpu`regs
      ensures Shaped() && cpu.Valid() && Table() == old(Table())
      ensures cpu.View() == old(cpu.View()).(regs := old(cpu.View()).regs[0 := v])
    {
      hide EntryOf, Job.Ok, Separate, VStack.Contents, VStack.Valid, PageTable.Valid, Low32s;
      SmallWord(v);
      cpu.SetRegister(0, v);
    }

    /** What the loop does before its first round: one job at address 0, told in
        R0 where the program starts. */
    method Boot(cpu: Cpu, init: u32) returns (ghost own: set<object?>)
      requires Ready(cpu) && Table() == Scheduling.EMPTY
      modifies this, cpu
      ensures Ready(cpu) && cpu.memory == old(cpu.memory) && cpu.table == old(cpu.table)
      ensures Holds(own, jobs) && fresh(own)
      ensures WorldOf(cpu) == World(BootJobs(init), 0, 0, cpu.memory[..], cpu.table.types[..], maxStack)
    {
      hide JobsOk, Table, Shaped, Cpu.View, Cpu.Valid, Cpu.Narrow, Count, StacksOf, BuffersOf;
      BootTable();
      ghost var slots := Table().slots;
      var ok := LoadJobState(cpu, 0);
      PutRegister(cpu, init);
      SaveJobState(cpu, 0);
      ViewParts(cpu);
      assert Table().slots == BootJobs(init).slots;
      BootSlot();
      own := Parts(jobs[0]);
    }

    method BootTable()
      requires Valid() && Table() == Scheduling.EMPTY
      modifies `jobs, `totalNumberOfJobs, `numberOfActiveJobs, `currentJobId
      ensures Shaped() && Table() == Jobs(Scheduling.EMPTY.slots[0 := Some(Newborn(0))], 1)
      ensures currentJobId == 0 && numberOfActiveJobs == 1 && |jobs| > 0 && jobs[0] != null
      ensures forall i :: 0 < i < |jobs| ==> jobs[i] == null
      ensures fresh(Parts(jobs[0]))
    {
      hide JobsOk, Table, Shaped, Dispatched, GrownTable, FirstFree, Count, Newborn;
      BootSlot();
      TableFields();
      var id := DispatchJob(0);
      FirstJob();
      TableFields();
    }

    lemma LiveCounts(t: Jobs, id: nat)
      requires Scheduling.Sound(t) && id < |t.slots| && t.slots[id].Some?
      ensures t.active != 0
    {
      hide Count;
      CountSet(t.slots, id, None);
    }

    /** One round of the processor loop does to the machine what `Iterate` says.
        The jobs keep to the objects in `own` and new ones. */
    method Round(cpu: Cpu, extra: seq<byte>, ghost own: set<object?>) returns (r: Stop, ghost now: set<object?>)
      requires Ready(cpu) && Holds(own, jobs)
      modifies this, cpu, cpu.memory, own
      ensures match Iterate(old(WorldOf(cpu)), extra)
              case None => r != Continued
              case Some(w) => r == Continued && Ready(cpu) && WorldOf(cpu) == w
      ensures Holds(now, jobs) && fresh(now - own)
      ensures cpu.memory == old(cpu.memory) || fresh(cpu.memory)
    {
      hide Turn, PageAt, Table, JobsOk, Cpu.View, Cpu.Valid, Cpu.Narrow, Saved, Dispatched, Count;
      ghost var w := WorldOf(cpu);
      TableFields();
      var ty := cpu.table.TypeAt(cpu.instructionPointer);
      if ty != Executable {
        return Broken(NotExecutable), own;
      }
      var id := currentJobId;
      if id < |jobs| && jobs[id] != null {
        LiveCounts(Table(), id);
      }
      var ok := LoadJobState(cpu, id);
      if ok {
        r, now := RunOwned(cpu, id, extra, w, own);
      } else {
        Advance();
        r, now := Continued, own;
      }
    }

    /** The processor loop: the first job, then round after round until one ends
        it. */
    method CpuLoop(cpu: Cpu, init: u32, extras: seq<seq<byte>>) returns (r: Stop)
      requires Ready(cpu) && Table() == Scheduling.EMPTY
      modifies this, cpu, cpu.memory
      ensures match Rounds(World(BootJobs(init), 0, 0, old(cpu.memory[..]), old(cpu.table.types[..]), maxStack), extras)
              case None => r != Continued
              case Some(w) => r == Continued && Ready(cpu) && WorldOf(cpu) == w
    {
      hide JobsOk, Table, Cpu.View, Cpu.Valid, Count, Iterate, BootJobs, PageTable.Valid;
      ghost var own := Boot(cpu, init);
      ghost var w := WorldOf(cpu);
      var i := 0;
      r := Continued;
      while i < |extras|
        invariant 0 <= i <= |extras| && r == Continued
        invariant Ready(cpu) && Rounds(w, extras[..i]) == Some(WorldOf(cpu))
        invariant Holds(own, jobs) && fresh(own) && (cpu.memory == old(cpu.memory) || fresh(cpu.memory))
      {
        assert extras[..i + 1][..i] == extras[..i];
        r, own := Round(cpu, extras[i], own);
        if r != Continued {
          RoundsEnd(w, extras, i + 1);
          return;
        }
        i := i + 1;
      }
      assert extras[..i] == extras;
    }
  }
}
