// The spinlock of mm.c: any number of processes exchanging one word, one step at a time.
module Spinlock {
  const RETRIES := 1000

  // Where a process is: outside, before the first exchange, before exchange i of the retry loop,
  // in mm_do_lock_slow, or between mm_do_lock and mm_do_unlock.
  datatype Phase = Outside | Fast | Retry(i: nat) | Slow | Inside

  datatype Event = Enter(p: nat) | Exit(p: nat)

  // `log` records who got and who released the lock, in order.
  datatype State = State(locked: nat, procs: seq<Phase>, log: seq<Event>)

  datatype Step = Call(p: nat) | Exchange(p: nat) | Unlock(p: nat)

  predicate Start(s: State) {
    s.locked == 0 && s.log == [] && forall p :: 0 <= p < |s.procs| ==> s.procs[p].Outside?
  }

  predicate Spinning(ph: Phase) {
    ph.Fast? || ph.Retry? || ph.Slow?
  }

  // Where a failed exchange leaves the process.
  function Failed(ph: Phase): Phase {
    match ph
    case Fast => Retry(0)
    case Retry(i) => if i + 1 < RETRIES then Retry(i + 1) else Slow
    case _ => Slow
  }

  predicate Enabled(s: State, st: Step) {
    && st.p < |s.procs|
    && match st
       case Call(p) => s.procs[p].Outside?
       case Exchange(p) => Spinning(s.procs[p])
       case Unlock(p) => s.procs[p].Inside?
  }

  // xchgl writes 1 and returns the old word in one step; movl writes 0.
  function Next(s: State, st: Step): State
    requires Enabled(s, st)
  {
    match st
    case Call(p) => s.(procs := s.procs[p := Fast])
    case Exchange(p) =>
      if s.locked == 0 then State(1, s.procs[p := Inside], s.log + [Enter(p)])
      else State(1, s.procs[p := Failed(s.procs[p])], s.log)
    case Unlock(p) => State(0, s.procs[p := Outside], s.log + [Exit(p)])
  }

  ghost predicate CanRun(s: State, steps: seq<Step>)
    decreases |steps|
  {
    steps != [] ==> Enabled(s, steps[0]) && CanRun(Next(s, steps[0]), steps[1..])
  }

  function Run(s: State, steps: seq<Step>): State
    requires CanRun(s, steps)
    decreases |steps|
  {
    if steps == [] then s else Run(Next(s, steps[0]), steps[1..])
  }

  // The word is 1 exactly when somebody is inside, and never two are.
  ghost predicate Exclusive(s: State) {
    && (s.locked == 0 || s.locked == 1)
    && (s.locked == 1 <==> exists p :: 0 <= p < |s.procs| && s.procs[p].Inside?)
    && (forall p, q :: 0 <= p < |s.procs| && 0 <= q < |s.procs| && s.procs[p].Inside? && s.procs[q].Inside? ==> p == q)
  }

  // Critical sections follow one another: every Enter(p) is followed at once by Exit(p).
  predicate Serial(log: seq<Event>)
    decreases |log|
  {
    if log == [] then true
    else if |log| == 1 then log[0].Enter?
    else log[0].Enter? && log[1] == Exit(log[0].p) && Serial(log[2..])
  }

  // The log ends inside a critical section of p exactly when p is inside.
  ghost predicate LogFits(s: State) {
    && Serial(s.log)
    && (s.locked == 1 <==> |s.log| % 2 == 1)
    && forall p :: 0 <= p < |s.procs| ==> (s.procs[p].Inside? <==> |s.log| % 2 == 1 && s.log[|s.log| - 1] == Enter(p))
  }

  lemma {:induction false} SerialEnter(log: seq<Event>, p: nat)
    requires Serial(log) && |log| % 2 == 0
    ensures Serial(log + [Enter(p)])
    decreases |log|
  {
    if log != [] {
      SerialEnter(log[2..], p);
      assert (log + [Enter(p)])[2..] == log[2..] + [Enter(p)];
    }
  }

  lemma {:induction false} SerialExit(log: seq<Event>, p: nat)
    requires Serial(log) && |log| % 2 == 1 && log[|log| - 1] == Enter(p)
    ensures Serial(log + [Exit(p)])
    decreases |log|
  {
    if |log| > 1 {
      SerialExit(log[2..], p);
      assert (log + [Exit(p)])[2..] == log[2..] + [Exit(p)];
    } else {
      assert (log + [Exit(p)])[2..] == [];
    }
  }

  lemma StepKeeps(s: State, st: Step)
    requires Exclusive(s) && LogFits(s) && Enabled(s, st)
    ensures Exclusive(Next(s, st)) && LogFits(Next(s, st))
  {
    var s' := Next(s, st);
    if st.Exchange? && s.locked == 0 {
      SerialEnter(s.log, st.p);
      assert s'.procs[st.p].Inside?;
    } else if st.Unlock? {
      SerialExit(s.log, st.p);
    } else if s.locked == 1 {
      var q :| 0 <= q < |s.procs| && s.procs[q].Inside?;
      assert s'.procs[q].Inside?;
    }
  }

  // Mutual exclusion over every interleaving of every number of processes.
  lemma {:induction false} RunsExclude(s: State, steps: seq<Step>)
    requires Exclusive(s) && LogFits(s) && CanRun(s, steps)
    ensures Exclusive(Run(s, steps)) && LogFits(Run(s, steps))
    decreases |steps|
  {
    if steps != [] {
      StepKeeps(s, steps[0]);
      RunsExclude(Next(s, steps[0]), steps[1..]);
    }
  }

  lemma MutualExclusion(s: State, steps: seq<Step>)
    requires Start(s) && CanRun(s, steps)
    ensures Exclusive(Run(s, steps)) && Serial(Run(s, steps).log)
  {
    RunsExclude(s, steps);
  }

  // The lock is never lost: when nobody is inside, whoever exchanges next gets in.
  lemma NobodyInsideNextGetsIn(s: State, steps: seq<Step>, p: nat)
    requires Start(s) && CanRun(s, steps) && p < |Run(s, steps).procs| && Spinning(Run(s, steps).procs[p])
    ensures Next(Run(s, steps), Exchange(p)).procs[p].Inside? <==>
            forall q :: 0 <= q < |Run(s, steps).procs| ==> !Run(s, steps).procs[q].Inside?
  {
    RunsExclude(s, steps);
  }
}
