/** The GPU lock shared by training workers and deploys, as processes taking interleaved steps.

    A worker stops serving, polls free VRAM, claims a run, trains, and restarts serving; a deploy loads
    an adapter, may unload it again, and unloads the previous one. Everything a process does to the
    serving stack is one `Event` on a shared trace. What the outside world answers (a stop that fails,
    a VRAM reading, a lost claim, a SIGTERM, a SIGKILL) is the choice of the next step. */
module GpuProtocol {
  import opened Wrappers

  datatype Act = Stop | VramLow | VramFree | Train | Start | Health   // a worker's cycle
               | Load | Unload                                        // a deploy
               | Killed

  datatype Event = Event(proc: nat, act: Act)

  datatype Pc = Idle
              | WorkerWaits | WorkerLocked | Polling | Claiming | Training | Restarting | Checking
              | DeployWaits | DeployLocked | Loaded | Retired
              | Leaving

  datatype State = State(pcs: map<nat, Pc>, lock: Option<nat>, trace: seq<Event>)

  datatype Step =
    | Begin(p: nat, worker: bool)   // a run was selected, or a deploy request arrived
    | Acquire(p: nat)
    | GiveUp(p: nat)                // the lock timeout
    | DoStop(p: nat, ok: bool)      // not ok: the stop failed or SIGTERM arrived during it
    | Read(p: nat, free: bool)      // free: the reading reached the threshold
    | Abandon(p: nat)               // VRAM timeout, lost claim, end of training, any error, SIGTERM
    | ClaimRun(p: nat)
    | TrainStep(p: nat)
    | DoStart(p: nat)               // returns or raises, the cycle goes on either way
    | DoHealth(p: nat)
    | Refuse(p: nat)                // checksum or base model refused, or the load itself failed
    | DoLoad(p: nat)
    | DoUnload(p: nat, toRetired: bool)
    | Settle(p: nat)                // nothing left to unload
    | Release(p: nat)
    | Kill(p: nat)                  // SIGKILL: the kernel drops the lock, nothing else runs

  function PcOf(s: State, p: nat): Pc { if p in s.pcs then s.pcs[p] else Idle }

  predicate InCycle(pc: Pc) { pc in {WorkerLocked, Polling, Claiming, Training, Restarting, Checking} }

  predicate InDeploy(pc: Pc) { pc in {DeployLocked, Loaded, Retired} }

  predicate InLock(pc: Pc) { InCycle(pc) || InDeploy(pc) || pc == Leaving }

  predicate EnabledAt(pc: Pc, t: Step) {
    match t
    case Begin(_, _) => pc == Idle
    case Acquire(_) => pc == WorkerWaits || pc == DeployWaits
    case GiveUp(_) => pc == WorkerWaits || pc == DeployWaits
    case DoStop(_, _) => pc == WorkerLocked
    case Read(_, _) => pc == Polling
    case Abandon(_) => pc == Polling || pc == Claiming || pc == Training
    case ClaimRun(_) => pc == Claiming
    case TrainStep(_) => pc == Training
    case DoStart(_) => pc == Restarting
    case DoHealth(_) => pc == Checking
    case Refuse(_) => pc == DeployLocked
    case DoLoad(_) => pc == DeployLocked
    case DoUnload(_, toRetired) => pc == Loaded || (pc == Retired && !toRetired)
    case Settle(_) => pc == Loaded || pc == Retired
    case Release(_) => pc == Leaving
    case Kill(_) => pc != Idle
  }

  predicate Enabled(s: State, t: Step) {
    EnabledAt(PcOf(s, t.p), t) && (t.Acquire? ==> s.lock == None)
  }

  function Next(t: Step, pc: Pc): Pc {
    match t
    case Begin(_, worker) => if worker then WorkerWaits else DeployWaits
    case Acquire(_) => if pc == WorkerWaits then WorkerLocked else DeployLocked
    case GiveUp(_) => Idle
    case DoStop(_, ok) => if ok then Polling else Restarting
    case Read(_, free) => if free then Claiming else Polling
    case Abandon(_) => Restarting
    case ClaimRun(_) => Training
    case TrainStep(_) => Training
    case DoStart(_) => Checking
    case DoHealth(_) => Leaving
    case Refuse(_) => Leaving
    case DoLoad(_) => Loaded
    case DoUnload(_, toRetired) => if toRetired then Retired else Leaving
    case Settle(_) => Leaving
    case Release(_) => Idle
    case Kill(_) => Idle
  }

  function Emitted(t: Step): seq<Event> {
    match t
    case DoStop(p, _) => [Event(p, Stop)]
    case Read(p, free) => [Event(p, if free then VramFree else VramLow)]
    case TrainStep(p) => [Event(p, Train)]
    case DoStart(p) => [Event(p, Start)]
    case DoHealth(p) => [Event(p, Health)]
    case DoLoad(p) => [Event(p, Load)]
    case DoUnload(p, _) => [Event(p, Unload)]
    case Kill(p) => [Event(p, Killed)]
    case _ => []
  }

  function Apply(s: State, t: Step): State
    requires Enabled(s, t)
  {
    var lock := match t
                case Acquire(p) => Some(p)
                case Release(_) => None
                case Kill(p) => if s.lock == Some(p) then None else s.lock
                case _ => s.lock;
    var shown := if t.Kill? && s.lock != Some(t.p) then [] else Emitted(t);
    State(s.pcs[t.p := Next(t, PcOf(s, t.p))], lock, s.trace + shown)
  }

  const INIT := State(map[], None, [])

  ghost predicate IsRun(states: seq<State>, steps: seq<Step>) {
    && |states| == |steps| + 1 && states[0] == INIT
    && forall i :: 0 <= i < |steps| ==> Enabled(states[i], steps[i]) && states[i + 1] == Apply(states[i], steps[i])
  }

  // ----- The language of one holder's block -----

  // Where a block of `p`'s events stands. `trained`-ness is implicit: Train is allowed only in Free.
  datatype Phase = Fresh | Stopped | Free | Started | Cycled | Hot | Swapped | Cut | Bad

  function Advance(ph: Phase, a: Act): Phase {
    match (ph, a)
    case (Fresh, Stop) => Stopped
    case (Fresh, Load) => Hot
    case (Fresh, Killed) => Cut
    case (Stopped, VramLow) => Stopped
    case (Stopped, VramFree) => Free
    case (Stopped, Start) => Started
    case (Stopped, Killed) => Cut
    case (Free, Train) => Free
    case (Free, Start) => Started
    case (Free, Killed) => Cut
    case (Started, Health) => Cycled
    case (Started, Killed) => Cut
    case (Cycled, Killed) => Cut
    case (Hot, Unload) => Swapped
    case (Hot, Killed) => Cut
    case (Swapped, Unload) => Swapped
    case (Swapped, Killed) => Cut
    case _ => Bad
  }

  function PhaseOf(p: nat, w: seq<Event>): Phase {
    if w == [] then Fresh
    else if w[|w| - 1].proc != p then Bad
    else Advance(PhaseOf(p, w[..|w| - 1]), w[|w| - 1].act)
  }

  // A finished block: a whole training cycle, a whole deploy, nothing at all, or cut short by SIGKILL.
  predicate Whole(p: nat, w: seq<Event>) { WholePhase(PhaseOf(p, w)) }

  predicate WholePhase(ph: Phase) { ph == Fresh || ph == Cycled || ph == Hot || ph == Swapped || ph == Cut }

  // The trace is `blocks` back to back, block k all by process owners[k], then the lock holder's
  // block so far.
  ghost predicate Decomposes(s: State, owners: seq<nat>, blocks: seq<seq<Event>>, open: seq<Event>) {
    && |owners| == |blocks|
    && s.trace == Flatten(blocks) + open
    && (forall k :: 0 <= k < |blocks| ==> Whole(owners[k], blocks[k]))
    && (s.lock == None ==> open == [])
    && (s.lock.Some? ==> Agrees(PcOf(s, s.lock.value), PhaseOf(s.lock.value, open)))
  }

  function Flatten(blocks: seq<seq<Event>>): seq<Event> {
    if blocks == [] then [] else Flatten(blocks[..|blocks| - 1]) + blocks[|blocks| - 1]
  }

  // What a holder's program counter says about its block so far.
  predicate Agrees(pc: Pc, ph: Phase) {
    match pc
    case WorkerLocked => ph == Fresh
    case Polling => ph == Stopped
    case Claiming => ph == Free
    case Training => ph == Free
    case Restarting => ph == Stopped || ph == Free
    case Checking => ph == Started
    case DeployLocked => ph == Fresh
    case Loaded => ph == Hot
    case Retired => ph == Swapped
    case Leaving => ph == Fresh || ph == Cycled || ph == Hot || ph == Swapped
    case _ => false
  }

  ghost predicate Mutex(s: State) {
    && (forall p :: p in s.pcs && InLock(s.pcs[p]) ==> s.lock == Some(p))
    && (s.lock.Some? ==> s.lock.value in s.pcs && InLock(s.pcs[s.lock.value]))
  }

  lemma MutexKept(s: State, t: Step)
    requires Mutex(s) && Enabled(s, t)
    ensures Mutex(Apply(s, t))
  {
  }

  lemma {:induction false} MutexAlways(states: seq<State>, steps: seq<Step>, i: nat)
    requires IsRun(states, steps) && i < |states|
    ensures Mutex(states[i])
  {
    if i > 0 {
      MutexAlways(states, steps, i - 1);
      MutexKept(states[i - 1], steps[i - 1]);
    }
  }

  lemma PhaseGrows(p: nat, w: seq<Event>, a: Act)
    ensures PhaseOf(p, w + [Event(p, a)]) == Advance(PhaseOf(p, w), a)
  {
    assert (w + [Event(p, a)])[..|w|] == w;
  }

  lemma FlattenGrows(blocks: seq<seq<Event>>, b: seq<Event>)
    ensures Flatten(blocks + [b]) == Flatten(blocks) + b
  {
    assert (blocks + [b])[..|blocks|] == blocks;
  }

  function PhaseAfter(ph: Phase, t: Step): Phase {
    if Emitted(t) == [] then ph else Advance(ph, Emitted(t)[0].act)
  }

  // Program counters and phases move together, and a process lets the lock go only on a whole block.
  lemma PcAndPhase(pc: Pc, ph: Phase, t: Step)
    requires EnabledAt(pc, t) && InLock(pc) && Agrees(pc, ph)
    ensures t.Release? || t.Kill? ==> WholePhase(PhaseAfter(ph, t))
    ensures !t.Release? && !t.Kill? ==> Agrees(Next(t, pc), PhaseAfter(ph, t))
  {
    match t
    case Read(_, _) =>
    case Abandon(_) =>
    case DoUnload(_, _) =>
    case Kill(_) =>
    case _ =>
  }

  lemma PhaseFollows(p: nat, open: seq<Event>, t: Step)
    requires t.p == p
    ensures PhaseOf(p, open + Emitted(t)) == PhaseAfter(PhaseOf(p, open), t)
  {
    if Emitted(t) == [] {
      assert open + Emitted(t) == open;
    } else {
      PhaseGrows(p, open, Emitted(t)[0].act);
    }
  }

  // A step of the holder: its block grows, and closes when the lock is let go.
  lemma HolderStep(s: State, t: Step, owners: seq<nat>, blocks: seq<seq<Event>>, open: seq<Event>)
      returns (owners': seq<nat>, blocks': seq<seq<Event>>, open': seq<Event>)
    requires Mutex(s) && Enabled(s, t) && s.lock == Some(t.p)
    requires Decomposes(s, owners, blocks, open)
    ensures Decomposes(Apply(s, t), owners', blocks', open')
  {
    var s' := Apply(s, t);
    var grown := open + Emitted(t);
    PcAndPhase(PcOf(s, t.p), PhaseOf(t.p, open), t);
    PhaseFollows(t.p, open, t);
    assert s'.trace == Flatten(blocks) + grown;
    if s'.lock == None {
      owners', blocks', open' := owners + [t.p], blocks + [grown], [];
      FlattenGrows(blocks, grown);
      assert Flatten(blocks') + [] == Flatten(blocks');
    } else {
      owners', blocks', open' := owners, blocks, grown;
    }
  }

  // A step of any other process leaves the trace alone.
  lemma OutsiderStep(s: State, t: Step, owners: seq<nat>, blocks: seq<seq<Event>>, open: seq<Event>)
    requires Mutex(s) && Enabled(s, t) && s.lock != Some(t.p)
    requires Decomposes(s, owners, blocks, open)
    ensures Decomposes(Apply(s, t), owners, blocks, open)
  {
    var s' := Apply(s, t);
    assert !InLock(PcOf(s, t.p));
    assert s'.trace == s.trace;
    if t.Acquire? { assert PhaseOf(t.p, open) == Fresh; }
  }

  // Main result 1: in every interleaving the trace is whole blocks, each by one process and each a
  // complete stop / start / health cycle or a complete deploy (or one cut short by SIGKILL), followed
  // by the open block of the process that holds the lock.
  lemma {:induction false} TraceIsBlocks(states: seq<State>, steps: seq<Step>, i: nat)
      returns (owners: seq<nat>, blocks: seq<seq<Event>>, open: seq<Event>)
    requires IsRun(states, steps) && i < |states|
    ensures Decomposes(states[i], owners, blocks, open)
  {
    if i == 0 {
      owners, blocks, open := [], [], [];
    } else {
      owners, blocks, open := TraceIsBlocks(states, steps, i - 1);
      MutexAlways(states, steps, i - 1);
      if states[i - 1].lock == Some(steps[i - 1].p) {
        owners, blocks, open := HolderStep(states[i - 1], steps[i - 1], owners, blocks, open);
      } else {
        OutsiderStep(states[i - 1], steps[i - 1], owners, blocks, open);
      }
    }
  }

  // Main result 2: two processes are never inside the lock together.
  lemma OneProcessInside(states: seq<State>, steps: seq<Step>, i: nat, p: nat, q: nat)
    requires IsRun(states, steps) && i < |states|
    requires InLock(PcOf(states[i], p)) && InLock(PcOf(states[i], q))
    ensures p == q
  {
    MutexAlways(states, steps, i);
  }

  // ----- What the blocks mean, event by event -----

  // Event k of the word is covered: an earlier Stop and a reading at or above the threshold after it,
  // with every event from that Stop up to k by the same process and none of them restarting serving
  // or touching an adapter.
  ghost predicate Covered(w: seq<Event>, k: nat) {
    k < |w| && exists a, b :: Covers(w, k, a, b)
  }

  ghost predicate Covers(w: seq<Event>, k: nat, a: nat, b: nat) {
    && a < b < k < |w|
    && w[a].act == Stop && w[b].act == VramFree
    && (forall j :: a <= j <= k ==> w[j].proc == w[k].proc)
    && (forall j :: a < j <= k ==> w[j].act in {VramLow, VramFree, Train})
  }

  lemma {:induction false} TrainCoveredInWord(p: nat, w: seq<Event>, k: nat)
    requires PhaseOf(p, w) != Bad && k < |w| && w[k].act == Train
    ensures Covered(w, k)
    decreases |w|
  {
    var front := w[..|w| - 1];
    if k < |front| {
      TrainCoveredInWord(p, front, k);
      var a, b :| Covers(front, k, a, b);
      assert Covers(w, k, a, b);
    } else {
      var b := FreeShape(p, front);
      assert Covers(w, k, 0, b);
    }
  }

  lemma {:induction false} StoppedShape(p: nat, w: seq<Event>)
    requires PhaseOf(p, w) == Stopped
    ensures |w| > 0 && w[0] == Event(p, Stop)
    ensures forall j :: 0 < j < |w| ==> w[j] == Event(p, VramLow)
    decreases |w|
  {
    var front := w[..|w| - 1];
    if PhaseOf(p, front) == Fresh {
      FreshIsEmpty(p, front);
    } else {
      StoppedShape(p, front);
    }
  }

  lemma FreshIsEmpty(p: nat, w: seq<Event>)
    requires PhaseOf(p, w) == Fresh
    ensures w == []
  {
  }

  // A block in which VRAM is free: Stop, low readings, one good reading, training only.
  lemma {:induction false} FreeShape(p: nat, w: seq<Event>) returns (b: nat)
    requires PhaseOf(p, w) == Free
    ensures 0 < b < |w| && w[0] == Event(p, Stop) && w[b] == Event(p, VramFree)
    ensures forall j :: 0 < j < b ==> w[j] == Event(p, VramLow)
    ensures forall j :: b < j < |w| ==> w[j] == Event(p, Train)
    decreases |w|
  {
    var front := w[..|w| - 1];
    if PhaseOf(p, front) == Stopped {
      StoppedShape(p, front);
      b := |front|;
    } else {
      b := FreeShape(p, front);
    }
  }

  // A finished training cycle: exactly one Start and one Health check, and they are its last events.
  lemma CycleShape(p: nat, w: seq<Event>)
    requires PhaseOf(p, w) == Cycled
    ensures |w| >= 3 && w[0] == Event(p, Stop)
    ensures w[|w| - 2] == Event(p, Start) && w[|w| - 1] == Event(p, Health)
    ensures forall j :: 0 < j < |w| - 2 ==> w[j].proc == p && w[j].act in {VramLow, VramFree, Train}
  {
    var v := w[..|w| - 1];
    var u := v[..|v| - 1];
    assert w == u + [Event(p, Start), Event(p, Health)];
    if PhaseOf(p, u) == Stopped {
      StoppedShape(p, u);
    } else {
      var b := FreeShape(p, u);
    }
    assert forall j :: 0 < j < |u| ==> w[j] == u[j];
  }

  lemma {:induction false} DeployShape(p: nat, w: seq<Event>)
    requires PhaseOf(p, w) == Hot || PhaseOf(p, w) == Swapped
    ensures |w| > 0 && w[0] == Event(p, Load)
    ensures forall j :: 0 < j < |w| ==> w[j] == Event(p, Unload)
    decreases |w|
  {
    var front := w[..|w| - 1];
    if PhaseOf(p, front) == Fresh {
      FreshIsEmpty(p, front);
    } else {
      DeployShape(p, front);
    }
  }

  // However a cycle went - failed stop, VRAM timeout, lost claim, training error, SIGTERM - a finished
  // block that stopped serving and was not cut by SIGKILL restarts it once and checks it once, last.
  lemma StoppedServingIsRestarted(p: nat, w: seq<Event>)
    requires Whole(p, w) && w != [] && w[0].act == Stop && w[|w| - 1].act != Killed
    ensures |w| >= 3 && w[|w| - 2] == Event(p, Start) && w[|w| - 1] == Event(p, Health)
    ensures forall j :: 0 < j < |w| - 2 ==> w[j].proc == p && w[j].act in {VramLow, VramFree, Train}
  {
    if PhaseOf(p, w) == Hot || PhaseOf(p, w) == Swapped { DeployShape(p, w); }
    assert PhaseOf(p, w) == Cycled;
    CycleShape(p, w);
  }

  // Main result 3: wherever the trace says Train, serving had been stopped, VRAM was read free after
  // that stop, and nothing else - no restart, no other process, no adapter load or unload - came in
  // between.
  lemma TrainingIsCovered(states: seq<State>, steps: seq<Step>, i: nat, k: nat)
    requires IsRun(states, steps) && i < |states|
    requires k < |states[i].trace| && states[i].trace[k].act == Train
    ensures Covered(states[i].trace, k)
  {
    var owners, blocks, open := TraceIsBlocks(states, steps, i);
    var closed := Flatten(blocks);
    if k < |closed| {
      assert closed[k] == states[i].trace[k];
      CoveredInBlocks(owners, blocks, k);
      CoveredIn([], closed, open, k);
      assert [] + closed + open == states[i].trace;
    } else {
      assert open != [] && states[i].lock.Some?;
      var q := k - |closed|;
      assert open[q] == states[i].trace[k];
      TrainCoveredInWord(states[i].lock.value, open, q);
      CoveredIn(closed, open, [], q);
      assert closed + open + [] == states[i].trace;
    }
  }

  lemma CoveredIn(x: seq<Event>, w: seq<Event>, y: seq<Event>, k: nat)
    requires Covered(w, k)
    ensures Covered(x + w + y, |x| + k)
  {
    var a, b :| Covers(w, k, a, b);
    CoversIn(x, w, y, k, a, b);
  }

  lemma CoversIn(x: seq<Event>, w: seq<Event>, y: seq<Event>, k: nat, a: nat, b: nat)
    requires Covers(w, k, a, b)
    ensures Covers(x + w + y, |x| + k, |x| + a, |x| + b)
  {
    var t := x + w + y;
    assert forall j :: 0 <= j < |w| ==> t[|x| + j] == w[j];
    assert forall j :: |x| <= j < |x| + |w| ==> t[j] == w[j - |x|];
  }

  lemma {:induction false} CoveredInBlocks(owners: seq<nat>, blocks: seq<seq<Event>>, k: nat)
    requires |owners| == |blocks| && forall m :: 0 <= m < |blocks| ==> Whole(owners[m], blocks[m])
    requires k < |Flatten(blocks)| && Flatten(blocks)[k].act == Train
    ensures Covered(Flatten(blocks), k)
    decreases |blocks|
  {
    var n := |blocks| - 1;
    var front, last := Flatten(blocks[..n]), blocks[n];
    if k < |front| {
      CoveredInBlocks(owners[..n], blocks[..n], k);
      CoveredIn([], front, last, k);
      assert [] + front + last == Flatten(blocks);
    } else {
      TrainCoveredInWord(owners[n], last, k - |front|);
      CoveredIn(front, last, [], k - |front|);
      assert front + last + [] == Flatten(blocks);
    }
  }
}
