/** The shared company registry of lab 3: init_shm and the release of a slot, run by any number of
    processes that take `lock` around every access. Each step is one call, one slot visited by a loop,
    or one critical section's end. */
module Registry {
  import opened Options


  const SLOTS: nat := 50

  type Pid = nat

  datatype Slot = Slot(name: string, done: nat, isEmpty: bool)

  const ZEROED := Slot("", 0, false)

  datatype Pc =
    | Start                       // before the first semTake
    | Locked                      // holds `lock`, before shm_open
    | Opened(creator: bool)       // creator: shm_open with O_EXCL succeeded, so is_init stays 0
    | Mapped(creator: bool)       // after ftruncate and mmap
    | Filling(i: nat)             // after memset, in the loop that marks the slots empty
    | Attached                    // `lock` given back
    | Scanning(i: nat)            // a company looks for an empty slot, holding `lock`
    | Claimed(i: nat)             // has taken slot i, still holds `lock`
    | Owner(i: nat)               // init_shm has returned i
    | Counting(i: nat)            // one of its diggers holds `lock`
    | Closing(i: nat)             // command E holds `lock`
    | NoSlot                      // init_shm has returned 50
    | Watching                    // the monitor holds `lock`
    | Gone

  datatype Process = Process(name: string, company: bool, pc: Pc)

  /** The life of the memory object: not there, being created, initialised, or left uninitialised
      because its creator failed to map it. */
  datatype Phase = Absent | Creating(pid: Pid) | Ready | Broken

  /** mem is the shared memory object. phase, fills (how often it was initialised) and owners (who has
      claimed each slot) are history variables that no step looks at. */
  datatype State = State(procs: map<Pid, Process>, lock: Option<Pid>, present: bool, mem: seq<Slot>,
                         phase: Phase, fills: nat, owners: seq<Option<Pid>>)

  datatype Event =
    | Launch(pid: Pid, name: string, company: bool)
    | Take(pid: Pid)            // semTake(lock), for whatever the process wants it next
    | TakeToClose(pid: Pid)     // semTake(lock) of command E
    | Fail(pid: Pid)            // shm_open, ftruncate or mmap fails: give the lock and exit
    | Act(pid: Pid)             // the next step inside a critical section

  function Init(): State {
    State(map[], None, false, seq(SLOTS, _ => ZEROED), Absent, 0, seq(SLOTS, _ => None))
  }

  predicate HoldsLock(pc: Pc) {
    pc.Locked? || pc.Opened? || pc.Mapped? || pc.Filling? || pc.Scanning? || pc.Claimed? || pc.Counting?
    || pc.Closing? || pc.Watching?
  }

  /** The slot that a process has claimed and not released. */
  function Owned(pc: Pc): Option<nat> {
    match pc
    case Claimed(i) => Some(i)
    case Owner(i) => Some(i)
    case Counting(i) => Some(i)
    case Closing(i) => Some(i)
    case _ => None
  }

  /** Past shm_open of an existing object, or past the initialisation. */
  predicate IsAttached(pc: Pc) {
    pc.Attached? || pc.Scanning? || pc.NoSlot? || pc.Watching? || Owned(pc).Some?
  }

  /** Creating the object, and not yet through with its initialisation. */
  predicate IsCreating(pc: Pc) {
    pc == Opened(true) || pc == Mapped(true) || pc.Filling?
  }

  predicate Enabled(s: State, e: Event) {
    match e
    case Launch(pid, _, _) => pid !in s.procs
    case Take(pid) =>
      && pid in s.procs && s.lock.None?
      && var pc := s.procs[pid].pc; pc.Start? || pc.Attached? || pc.Owner?
    case TakeToClose(pid) => pid in s.procs && s.lock.None? && s.procs[pid].pc.Owner?
    case Fail(pid) => pid in s.procs && (s.procs[pid].pc.Locked? || s.procs[pid].pc.Opened?)
    case Act(pid) =>
      && pid in s.procs && HoldsLock(s.procs[pid].pc)
      && var pc := s.procs[pid].pc;
         match pc
         case Scanning(i) => i <= SLOTS
         case Filling(i) => i <= SLOTS
         case Counting(i) => i < SLOTS
         case Closing(i) => i < SLOTS
         case _ => true
  }

  function At(s: State, pid: Pid, pc: Pc): State
    requires pid in s.procs
  {
    s.(procs := s.procs[pid := s.procs[pid].(pc := pc)])
  }

  function Taken(pc: Pc, company: bool): Pc {
    match pc
    case Start => Locked
    case Attached => if company then Scanning(0) else Watching
    case Owner(i) => Counting(i)
    case _ => pc
  }

  /** One step of the process that holds `lock`. */
  function ActStep(s: State, pid: Pid): State
    requires Enabled(s, Act(pid)) && |s.mem| == |s.owners| == SLOTS
  {
    var p := s.procs[pid];
    match p.pc
    case Locked =>
      if s.present then At(s, pid, Opened(false))
      else At(s, pid, Opened(true)).(present := true, phase := Creating(pid))
    case Opened(creator) => At(s, pid, Mapped(creator))
    case Mapped(creator) =>
      if creator then At(s, pid, Filling(0)).(mem := seq(SLOTS, _ => ZEROED), fills := s.fills + 1)
      else At(s, pid, Attached).(lock := None)
    case Filling(i) =>
      if i < SLOTS then At(s, pid, Filling(i + 1)).(mem := s.mem[i := s.mem[i].(isEmpty := true)])
      else At(s, pid, Attached).(lock := None, phase := Ready)
    case Scanning(i) =>
      if i == SLOTS then At(s, pid, NoSlot).(lock := None)
      else if s.mem[i].isEmpty then
        At(s, pid, Claimed(i)).(mem := s.mem[i := s.mem[i].(name := p.name, isEmpty := false)],
                                owners := s.owners[i := Some(pid)])
      else At(s, pid, Scanning(i + 1))
    case Claimed(i) => At(s, pid, Owner(i)).(lock := None)
    case Counting(i) =>
      At(s, pid, Owner(i)).(lock := None, mem := s.mem[i := s.mem[i].(done := s.mem[i].done + 1)])
    case Closing(i) =>
      At(s, pid, Gone).(lock := None, mem := s.mem[i := s.mem[i].(isEmpty := true, done := 0)],
                        owners := s.owners[i := None])
    case Watching => At(s, pid, Attached).(lock := None)
    case _ => s
  }

  function Apply(s: State, e: Event): State
    requires Enabled(s, e) && |s.mem| == |s.owners| == SLOTS
  {
    match e
    case Launch(pid, name, company) => s.(procs := s.procs[pid := Process(name, company, Start)])
    case Take(pid) =>
      At(s, pid, Taken(s.procs[pid].pc, s.procs[pid].company)).(lock := Some(pid))
    case TakeToClose(pid) => At(s, pid, Closing(s.procs[pid].pc.i)).(lock := Some(pid))
    case Fail(pid) =>
      At(s, pid, Gone).(lock := None, phase := if s.procs[pid].pc == Opened(true) then Broken else s.phase)
    case Act(pid) => ActStep(s, pid)
  }

  // ---------------------------------------------------------------- the invariant

  ghost predicate LockOk(s: State) {
    && (forall p | p in s.procs :: HoldsLock(s.procs[p].pc) <==> s.lock == Some(p))
    && (s.lock.Some? ==> s.lock.value in s.procs)
  }

  /** Which program points a process can be at in each phase. */
  predicate PcOk(phase: Phase, p: Pid, pc: Pc) {
    match phase
    case Absent => pc.Start? || pc.Locked? || pc.Gone?
    case Creating(q) => if p == q then IsCreating(pc) else pc.Start? || pc.Gone?
    case _ => !IsCreating(pc)
  }

  ghost predicate LifeOk(s: State) {
    && (s.phase.Absent? <==> !s.present)
    && (s.phase.Creating? ==> s.phase.pid in s.procs)
    && (forall p | p in s.procs :: PcOk(s.phase, p, s.procs[p].pc))
    && s.fills == if s.phase.Ready? || IsFilling(s) then 1 else 0
  }

  ghost predicate IsFilling(s: State) {
    s.phase.Creating? && s.phase.pid in s.procs && s.procs[s.phase.pid].pc.Filling?
  }

  ghost predicate OwnersOk(s: State) {
    && |s.mem| == |s.owners| == SLOTS
    && (forall i | 0 <= i < SLOTS && s.owners[i].Some? ::
          var p := s.owners[i].value;
          && p in s.procs && Owned(s.procs[p].pc) == Some(i)
          && !s.mem[i].isEmpty && s.mem[i].name == s.procs[p].name)
    && (forall p | p in s.procs && Owned(s.procs[p].pc).Some? ::
          var i := Owned(s.procs[p].pc).value;
          i < SLOTS && s.owners[i] == Some(p) && s.procs[p].company)
  }

  /** Slot i is empty exactly when nobody owns it, once the object is initialised. */
  ghost predicate SlotOk(s: State, i: nat)
    requires i < |s.mem| && i < |s.owners|
  {
    && (s.owners[i].None? ==> s.mem[i].done == 0)
    && (s.phase.Ready? ==> (s.mem[i].isEmpty <==> s.owners[i].None?))
    && (!s.phase.Ready? ==> s.owners[i].None? && (s.mem[i].isEmpty <==> IsFilling(s) && i < FilledUpTo(s)))
  }

  ghost function FilledUpTo(s: State): nat
    requires IsFilling(s)
  {
    s.procs[s.phase.pid].pc.i
  }

  ghost predicate MemOk(s: State) {
    && OwnersOk(s)
    && (forall i | 0 <= i < SLOTS :: SlotOk(s, i))
    && (forall p | p in s.procs && s.procs[p].pc.Filling? :: s.procs[p].pc.i <= SLOTS)
    && (forall p | p in s.procs && s.procs[p].pc.Scanning? ::
          && s.procs[p].pc.i <= SLOTS && s.procs[p].company
          && forall j | 0 <= j < s.procs[p].pc.i :: !s.mem[j].isEmpty)
  }

  ghost predicate Inv(s: State) {
    LockOk(s) && LifeOk(s) && MemOk(s)
  }

  // ---------------------------------------------------------------- every step keeps it

  lemma LaunchKeeps(s: State, e: Event)
    requires Inv(s) && e.Launch? && Enabled(s, e)
    ensures Inv(Apply(s, e))
  {
    var t := Apply(s, e);
    assert forall p | p in s.procs :: p in t.procs && t.procs[p] == s.procs[p];
    assert forall i | 0 <= i < SLOTS :: SlotOk(s, i) ==> SlotOk(t, i);
  }

  /** What every other step has in common: process pid moves to pc and holds the lock there or not. */
  ghost predicate OneMoves(s: State, t: State, pid: Pid, pc: Pc) {
    && pid in s.procs
    && t.procs == s.procs[pid := s.procs[pid].(pc := pc)]
    && (s.lock == Some(pid) || s.lock.None?)
    && t.lock == if HoldsLock(pc) then Some(pid) else None
  }

  lemma MoveKeepsLock(s: State, t: State, pid: Pid, pc: Pc)
    requires LockOk(s) && OneMoves(s, t, pid, pc)
    ensures LockOk(t)
    ensures forall p | p in s.procs && p != pid :: !HoldsLock(s.procs[p].pc) && p in t.procs && t.procs[p] == s.procs[p]
  {
  }

  /** The phase stays, and pc belongs to it. */
  lemma MoveKeepsLife(s: State, t: State, pid: Pid, pc: Pc)
    requires LockOk(s) && LifeOk(s) && OneMoves(s, t, pid, pc)
    requires t.phase == s.phase && t.present == s.present && PcOk(t.phase, pid, pc)
    requires t.fills == if t.phase.Ready? || (t.phase == Creating(pid) && pc.Filling?) then 1 else 0
    ensures LifeOk(t)
    ensures IsFilling(t) <==> t.phase == Creating(pid) && pc.Filling?
  {
    MoveKeepsLock(s, t, pid, pc);
  }

  lemma MoveKeepsOwners(s: State, t: State, pid: Pid, pc: Pc)
    requires OwnersOk(s) && OneMoves(s, t, pid, pc) && t.owners == s.owners && |t.mem| == SLOTS
    requires Owned(pc) == Owned(s.procs[pid].pc)
    requires forall i | 0 <= i < SLOTS && s.owners[i].Some? ::
               t.mem[i].isEmpty == s.mem[i].isEmpty && t.mem[i].name == s.mem[i].name
    ensures OwnersOk(t)
  {
  }

  /** A move that touches no slot; a scan moves on only past slots that are not empty. */
  lemma PlainMoveKeeps(s: State, t: State, pid: Pid, pc: Pc)
    requires Inv(s) && OneMoves(s, t, pid, pc)
    requires t.phase == s.phase && t.present == s.present && t.fills == s.fills
    requires t.mem == s.mem && t.owners == s.owners
    requires PcOk(s.phase, pid, pc) && Owned(pc) == Owned(s.procs[pid].pc)
    requires !pc.Filling? && !s.procs[pid].pc.Filling?
    requires pc.Scanning? ==> pc.i <= SLOTS && s.procs[pid].company && forall j | 0 <= j < pc.i :: !s.mem[j].isEmpty
    ensures Inv(t)
  {
    MoveKeepsLock(s, t, pid, pc);
    MoveKeepsLife(s, t, pid, pc);
    MoveKeepsOwners(s, t, pid, pc);
    SlotsStay(s, t);
  }

  lemma SlotsStay(s: State, t: State)
    requires |s.mem| == |s.owners| == SLOTS && forall i | 0 <= i < SLOTS :: SlotOk(s, i)
    requires t.mem == s.mem && t.owners == s.owners && t.phase == s.phase
    requires !IsFilling(s) && !IsFilling(t)
    ensures forall i | 0 <= i < SLOTS :: SlotOk(t, i)
  {
    forall i | 0 <= i < SLOTS
      ensures SlotOk(t, i)
    {
      assert SlotOk(s, i);
    }
  }

  lemma TakeKeeps(s: State, e: Event)
    requires Inv(s) && (e.Take? || e.TakeToClose?) && Enabled(s, e)
    ensures Inv(Apply(s, e))
  {
    var t := Apply(s, e);
    PlainMoveKeeps(s, t, e.pid, t.procs[e.pid].pc);
  }

  lemma FailKeeps(s: State, pid: Pid)
    requires Inv(s) && Enabled(s, Fail(pid))
    ensures Inv(Apply(s, Fail(pid)))
  {
    var t := Apply(s, Fail(pid));
    MoveKeepsLock(s, t, pid, Gone);
    MoveKeepsOwners(s, t, pid, Gone);
    forall i | 0 <= i < SLOTS
      ensures SlotOk(t, i)
    {
      assert SlotOk(s, i);
    }
  }

  /** shm_open. */
  lemma LockedKeeps(s: State, pid: Pid)
    requires Inv(s) && Enabled(s, Act(pid)) && s.procs[pid].pc.Locked?
    ensures Inv(ActStep(s, pid))
  {
    var t := ActStep(s, pid);
    var pc := t.procs[pid].pc;
    if s.present {
      PlainMoveKeeps(s, t, pid, pc);
    } else {
      MoveKeepsLock(s, t, pid, pc);
      MoveKeepsOwners(s, t, pid, pc);
      forall i | 0 <= i < SLOTS
        ensures SlotOk(t, i)
      {
        assert SlotOk(s, i);
      }
    }
  }

  /** memset, which finds no slot in use. */
  lemma MappedKeeps(s: State, pid: Pid)
    requires Inv(s) && Enabled(s, Act(pid)) && s.procs[pid].pc.Mapped?
    ensures Inv(ActStep(s, pid))
  {
    var t := ActStep(s, pid);
    var pc := t.procs[pid].pc;
    if s.procs[pid].pc.creator {
      MoveKeepsLock(s, t, pid, pc);
      MoveKeepsLife(s, t, pid, pc);
      forall i | 0 <= i < SLOTS
        ensures SlotOk(t, i) && s.owners[i].None?
      {
        assert SlotOk(s, i);
      }
      MoveKeepsOwners(s, t, pid, pc);
    } else {
      PlainMoveKeeps(s, t, pid, pc);
    }
  }

  lemma FillingKeeps(s: State, pid: Pid)
    requires Inv(s) && Enabled(s, Act(pid)) && s.procs[pid].pc.Filling?
    ensures Inv(ActStep(s, pid))
  {
    var t := ActStep(s, pid);
    var pc := t.procs[pid].pc;
    MoveKeepsLock(s, t, pid, pc);
    forall i | 0 <= i < SLOTS
      ensures SlotOk(t, i) && s.owners[i].None?
    {
      assert SlotOk(s, i);
    }
    MoveKeepsOwners(s, t, pid, pc);
  }

  lemma ClaimKeepsOwners(s: State, t: State, pid: Pid, i: nat)
    requires OwnersOk(s) && OneMoves(s, t, pid, Claimed(i)) && i < SLOTS && s.owners[i].None?
    requires Owned(s.procs[pid].pc).None? && s.procs[pid].company
    requires t.mem == s.mem[i := s.mem[i].(name := s.procs[pid].name, isEmpty := false)]
    requires t.owners == s.owners[i := Some(pid)]
    ensures OwnersOk(t)
  {
  }

  lemma ClaimKeeps(s: State, pid: Pid, i: nat)
    requires Inv(s) && Enabled(s, Act(pid)) && s.procs[pid].pc == Scanning(i)
    requires i < SLOTS && s.mem[i].isEmpty
    ensures Inv(ActStep(s, pid))
  {
    var t := ActStep(s, pid);
    MoveKeepsLock(s, t, pid, Claimed(i));
    MoveKeepsLife(s, t, pid, Claimed(i));
    assert SlotOk(s, i);
    ClaimKeepsOwners(s, t, pid, i);
    forall j | 0 <= j < SLOTS
      ensures SlotOk(t, j)
    {
      assert SlotOk(s, j);
    }
  }

  lemma GiveUpKeeps(s: State, pid: Pid)
    requires Inv(s) && Enabled(s, Act(pid)) && s.procs[pid].pc == Scanning(SLOTS)
    ensures Inv(ActStep(s, pid))
  {
    PlainMoveKeeps(s, ActStep(s, pid), pid, NoSlot);
  }

  lemma AdvanceKeeps(s: State, pid: Pid, i: nat)
    requires Inv(s) && Enabled(s, Act(pid)) && s.procs[pid].pc == Scanning(i)
    requires i < SLOTS && !s.mem[i].isEmpty
    ensures Inv(ActStep(s, pid))
  {
    PlainMoveKeeps(s, ActStep(s, pid), pid, Scanning(i + 1));
  }

  lemma ScanningKeeps(s: State, pid: Pid)
    requires Inv(s) && Enabled(s, Act(pid)) && s.procs[pid].pc.Scanning?
    ensures Inv(ActStep(s, pid))
  {
    var i := s.procs[pid].pc.i;
    if i == SLOTS {
      GiveUpKeeps(s, pid);
    } else if s.mem[i].isEmpty {
      ClaimKeeps(s, pid, i);
    } else {
      AdvanceKeeps(s, pid, i);
    }
  }

  lemma CountingKeeps(s: State, pid: Pid)
    requires Inv(s) && Enabled(s, Act(pid)) && s.procs[pid].pc.Counting?
    ensures Inv(ActStep(s, pid))
  {
    var t := ActStep(s, pid);
    var pc := t.procs[pid].pc;
    MoveKeepsLock(s, t, pid, pc);
    MoveKeepsLife(s, t, pid, pc);
    MoveKeepsOwners(s, t, pid, pc);
    forall i | 0 <= i < SLOTS
      ensures SlotOk(t, i)
    {
      assert SlotOk(s, i);
    }
  }

  lemma ClosingKeeps(s: State, pid: Pid)
    requires Inv(s) && Enabled(s, Act(pid)) && s.procs[pid].pc.Closing?
    ensures Inv(ActStep(s, pid))
  {
    var t := ActStep(s, pid);
    MoveKeepsLock(s, t, pid, Gone);
    MoveKeepsLife(s, t, pid, Gone);
    assert SlotOk(s, s.procs[pid].pc.i);
    forall i | 0 <= i < SLOTS
      ensures SlotOk(t, i)
    {
      assert SlotOk(s, i);
    }
  }

  lemma StepKeeps(s: State, e: Event)
    requires Inv(s) && Enabled(s, e)
    ensures Inv(Apply(s, e))
  {
    match e {
      case Launch(_, _, _) => LaunchKeeps(s, e);
      case Take(_) => TakeKeeps(s, e);
      case TakeToClose(_) => TakeKeeps(s, e);
      case Fail(pid) => FailKeeps(s, pid);
      case Act(pid) => ActKeeps(s, pid);
    }
  }

  lemma ActKeeps(s: State, pid: Pid)
    requires Inv(s) && Enabled(s, Act(pid))
    ensures Inv(ActStep(s, pid))
  {
    var pc := s.procs[pid].pc;
    if pc.Locked? {
      LockedKeeps(s, pid);
    } else if pc.Mapped? {
      MappedKeeps(s, pid);
    } else if pc.Filling? {
      FillingKeeps(s, pid);
    } else if pc.Scanning? {
      ScanningKeeps(s, pid);
    } else if pc.Counting? {
      CountingKeeps(s, pid);
    } else if pc.Closing? {
      ClosingKeeps(s, pid);
    } else {
      PlainMoveKeeps(s, ActStep(s, pid), pid, ActStep(s, pid).procs[pid].pc);
    }
  }

  // ---------------------------------------------------------------- runs

  lemma InitKeeps()
    ensures Inv(Init())
  {
  }

  /** The state after any interleaving; an event that is not enabled changes nothing. */
  ghost function After(es: seq<Event>): (s: State)
    ensures |s.mem| == |s.owners| == SLOTS
  {
    if es == [] then Init()
    else
      var s := After(es[..|es| - 1]);
      var e := es[|es| - 1];
      if Enabled(s, e) then Apply(s, e) else s
  }

  lemma {:induction false} AfterKeeps(es: seq<Event>)
    ensures Inv(After(es))
  {
    if es == [] {
      InitKeeps();
    } else {
      AfterKeeps(es[..|es| - 1]);
      var s := After(es[..|es| - 1]);
      if Enabled(s, es[|es| - 1]) {
        StepKeeps(s, es[|es| - 1]);
      }
    }
  }

  /** Two processes that have claimed a slot and not released it never share one; the slot shows the
      name of its owner. */
  lemma SlotsAreNotShared(es: seq<Event>)
    ensures var s := After(es);
            && (forall p | p in s.procs && Owned(s.procs[p].pc).Some? ::
                  var i := Owned(s.procs[p].pc).value;
                  i < SLOTS && !s.mem[i].isEmpty && s.mem[i].name == s.procs[p].name)
            && (forall p, q | p in s.procs && q in s.procs && p != q && Owned(s.procs[p].pc).Some? ::
                  Owned(s.procs[p].pc) != Owned(s.procs[q].pc))
  {
    AfterKeeps(es);
  }

  /** The lowest empty slot, or the number of slots if there is none. */
  function FirstEmpty(mem: seq<Slot>): (i: nat)
    ensures i <= |mem| && (i < |mem| ==> mem[i].isEmpty)
    ensures forall j | 0 <= j < i :: !mem[j].isEmpty
  {
    if mem == [] then 0
    else
      var m := |mem| - 1;
      var i := FirstEmpty(mem[..m]);
      if i == m && !mem[m].isEmpty then m + 1 else i
  }

  lemma FirstEmptyIs(mem: seq<Slot>, i: nat)
    requires i <= |mem| && (i < |mem| ==> mem[i].isEmpty)
    requires forall j | 0 <= j < i :: !mem[j].isEmpty
    ensures FirstEmpty(mem) == i
  {
  }

  /** The scan, one slot a step and amid any other processes, claims the lowest empty slot, and gives up
      exactly if there is none. */
  lemma ScanIsFirstFit(es: seq<Event>, p: Pid)
    ensures var s := After(es);
            p in s.procs && s.procs[p].pc.Scanning? ==>
              && Enabled(s, Act(p))
              && var pc := ActStep(s, p).procs[p].pc;
                 if s.procs[p].pc.i == FirstEmpty(s.mem) then
                   pc == if FirstEmpty(s.mem) < SLOTS then Claimed(FirstEmpty(s.mem)) else NoSlot
                 else pc == Scanning(s.procs[p].pc.i + 1) && pc.i <= FirstEmpty(s.mem)
  {
    if p in After(es).procs && After(es).procs[p].pc.Scanning? {
      AfterKeeps(es);
      ScanStep(After(es), p);
    }
  }

  lemma ScanStep(s: State, p: Pid)
    requires Inv(s) && p in s.procs && s.procs[p].pc.Scanning?
    ensures Enabled(s, Act(p)) && s.procs[p].pc.i <= FirstEmpty(s.mem)
    ensures var i := s.procs[p].pc.i;
            ActStep(s, p).procs[p].pc
            == if i == FirstEmpty(s.mem) then if i < SLOTS then Claimed(i) else NoSlot else Scanning(i + 1)
  {
    var i := s.procs[p].pc.i;
    if i == SLOTS || s.mem[i].isEmpty {
      FirstEmptyIs(s.mem, i);
    }
  }

  /** The object is initialised at most once, before any claim; it is initialised by the time it can be
      attached to if and only if its creator did not fail, and if its creator failed nobody ever owns a
      slot. */
  lemma InitialisedOnce(es: seq<Event>, p: Pid)
    requires p in After(es).procs
    ensures var s := After(es);
            && s.fills <= 1
            && (Owned(s.procs[p].pc).Some? ==> s.fills == 1)
            && (IsAttached(s.procs[p].pc) ==> (s.fills == 1 <==> !s.phase.Broken?))
            && (s.phase.Broken? ==> Owned(s.procs[p].pc).None? && FirstEmpty(s.mem) == SLOTS)
  {
    AfterKeeps(es);
    InitialisedOnceIn(After(es), p);
  }

  lemma InitialisedOnceIn(s: State, p: Pid)
    requires Inv(s) && p in s.procs
    ensures s.fills <= 1
    ensures Owned(s.procs[p].pc).Some? ==> s.fills == 1
    ensures IsAttached(s.procs[p].pc) ==> (s.fills == 1 <==> !s.phase.Broken?)
    ensures s.phase.Broken? ==> Owned(s.procs[p].pc).None? && FirstEmpty(s.mem) == SLOTS
  {
    if Owned(s.procs[p].pc).Some? {
      assert SlotOk(s, Owned(s.procs[p].pc).value);
    }
    if s.phase.Broken? && FirstEmpty(s.mem) < SLOTS {
      assert SlotOk(s, FirstEmpty(s.mem));
    }
  }

  /** A company finds no slot in an initialised object only if 50 other processes own one each. */
  lemma FullMeansAllOwned(es: seq<Event>, i: nat)
    requires After(es).phase.Ready? && FirstEmpty(After(es).mem) == SLOTS && i < SLOTS
    ensures exists p :: p in After(es).procs && Owned(After(es).procs[p].pc) == Some(i)
  {
    var s := After(es);
    AfterKeeps(es);
    assert SlotOk(s, i);
    assert s.owners[i].value in s.procs;
  }

  /** An empty slot is clean: whoever claims it starts to count at zero. */
  lemma EmptySlotsAreClean(es: seq<Event>, i: nat)
    requires i < SLOTS
    ensures var s := After(es);
            s.mem[i].isEmpty ==> s.mem[i].done == 0
  {
    AfterKeeps(es);
    assert SlotOk(After(es), i);
  }

  // ---------------------------------------------------------------- progress

  /** How many steps the holder of `lock` needs at most to give it back. */
  function StepsLeft(pc: Pc): nat {
    match pc
    case Locked => SLOTS + 4
    case Opened(_) => SLOTS + 3
    case Mapped(_) => SLOTS + 2
    case Filling(i) => if i <= SLOTS then SLOTS + 1 - i else 0
    case Scanning(i) => if i <= SLOTS then SLOTS + 2 - i else 0
    case _ => 1
  }

  lemma HolderIsEnabled(s: State, pid: Pid)
    requires Inv(s) && s.lock == Some(pid)
    ensures Enabled(s, Act(pid))
  {
    if Owned(s.procs[pid].pc).Some? {
      assert s.owners[Owned(s.procs[pid].pc).value] == Some(pid);
    }
  }

  lemma HolderSteps(s: State, pid: Pid)
    requires |s.mem| == |s.owners| == SLOTS && s.lock == Some(pid) && Enabled(s, Act(pid))
    ensures var t := ActStep(s, pid);
            t.lock.Some? ==> t.lock == Some(pid) && StepsLeft(t.procs[pid].pc) < StepsLeft(s.procs[pid].pc)
  {
  }

  /** The steps es, all enabled, lead from s to t. */
  ghost predicate LeadsTo(s: State, es: seq<Event>, t: State)
    requires |s.mem| == |s.owners| == SLOTS
    decreases |es|
  {
    if es == [] then s == t
    else Enabled(s, es[0]) && LeadsTo(Apply(s, es[0]), es[1..], t)
  }

  lemma Prepend(s: State, e: Event, es: seq<Event>, t: State)
    requires |s.mem| == |s.owners| == SLOTS && Enabled(s, e) && LeadsTo(Apply(s, e), es, t)
    ensures LeadsTo(s, [e] + es, t)
  {
    assert ([e] + es)[1..] == es;
  }

  lemma {:induction false} AfterLeadsTo(history: seq<Event>, es: seq<Event>, t: State)
    requires LeadsTo(After(history), es, t)
    ensures After(history + es) == t
    decreases |es|
  {
    if es == [] {
      assert history + es == history;
    } else {
      assert (history + [es[0]])[..|history|] == history;
      AfterLeadsTo(history + [es[0]], es[1..], t);
      assert history + es == history + [es[0]] + es[1..];
    }
  }

  /** Steps of process pid inside critical sections. */
  predicate Alone(es: seq<Event>, pid: Pid) {
    forall i | 0 <= i < |es| :: es[i] == Act(pid)
  }

  lemma {:induction false} HolderGives(s: State, pid: Pid) returns (es: seq<Event>, t: State)
    requires Inv(s) && s.lock == Some(pid)
    ensures LeadsTo(s, es, t) && Alone(es, pid) && t.lock.None? && |es| <= StepsLeft(s.procs[pid].pc)
    decreases StepsLeft(s.procs[pid].pc)
  {
    HolderIsEnabled(s, pid);
    HolderSteps(s, pid);
    t := ActStep(s, pid);
    es := [];
    if t.lock.Some? {
      ActKeeps(s, pid);
      es, t := HolderGives(t, pid);
    }
    Prepend(s, Act(pid), es, t);
    es := [Act(pid)] + es;
  }

  /** Every critical section ends: whoever holds `lock` in any run gives it back after at most 54 steps of
      its own. */
  lemma SectionEnds(history: seq<Event>, pid: Pid) returns (es: seq<Event>)
    requires After(history).lock == Some(pid)
    ensures After(history + es).lock.None? && Alone(es, pid) && |es| <= 54
  {
    AfterKeeps(history);
    var t;
    es, t := HolderGives(After(history), pid);
    AfterLeadsTo(history, es, t);
  }

  // ---------------------------------------------------------------- a broken registry

  lemma {:induction false} BrokenScan(s: State, q: Pid, i: nat) returns (es: seq<Event>, t: State)
    requires Inv(s) && s.phase.Broken? && q in s.procs && s.procs[q].pc == Scanning(i)
    ensures LeadsTo(s, es, t) && Alone(es, q) && q in t.procs && t.procs[q].pc.NoSlot? && t.fills == 0
    decreases SLOTS - i
  {
    t := ActStep(s, q);
    es := [];
    if i < SLOTS {
      assert SlotOk(s, i);
      ActKeeps(s, q);
      es, t := BrokenScan(t, q, i + 1);
    }
    Prepend(s, Act(q), es, t);
    es := [Act(q)] + es;
  }

  /** The way of a company to its scan, past an object that is there. */
  function Arrival(q: Pid, name: string): seq<Event> {
    [Launch(q, name, true), Take(q), Act(q), Act(q), Act(q), Take(q)]
  }

  lemma Attaches(s: State, q: Pid) returns (t: State)
    requires |s.mem| == |s.owners| == SLOTS && q in s.procs
    requires s.procs[q].pc == Opened(false) && s.procs[q].company
    ensures LeadsTo(s, [Act(q), Act(q), Take(q)], t) && t.phase == s.phase && t.mem == s.mem
    ensures q in t.procs && t.procs[q].pc == Scanning(0) && t.procs[q].name == s.procs[q].name
  {
    var s1 := Apply(s, Act(q));
    var s2 := Apply(s1, Act(q));
    t := Apply(s2, Take(q));
    assert LeadsTo(t, [], t);
    Prepend(s2, Take(q), [], t);
    Prepend(s1, Act(q), [Take(q)], t);
    Prepend(s, Act(q), [Act(q), Take(q)], t);
    assert [Act(q), Act(q), Take(q)] == [Act(q)] + [Act(q), Take(q)];
  }

  lemma Arrives(s: State, q: Pid, name: string) returns (t: State)
    requires |s.mem| == |s.owners| == SLOTS && s.present && s.lock.None? && q !in s.procs
    ensures LeadsTo(s, Arrival(q, name), t) && t.phase == s.phase && t.mem == s.mem
    ensures q in t.procs && t.procs[q].pc == Scanning(0) && t.procs[q].name == name
  {
    var s1 := Apply(s, Launch(q, name, true));
    var s2 := Apply(s1, Take(q));
    var s3 := Apply(s2, Act(q));
    t := Attaches(s3, q);
    Prepend(s2, Act(q), [Act(q), Act(q), Take(q)], t);
    Prepend(s1, Take(q), [Act(q), Act(q), Act(q), Take(q)], t);
    Prepend(s, Launch(q, name, true), [Take(q), Act(q), Act(q), Act(q), Take(q)], t);
    assert Arrival(q, name) == [Launch(q, name, true)] + [Take(q), Act(q), Act(q), Act(q), Take(q)];
  }

  lemma BrokenStays(s: State, e: Event)
    requires Inv(s) && s.phase.Broken? && Enabled(s, e)
    ensures Apply(s, e).phase.Broken? && Apply(s, e).fills == 0
  {
    if e.Act? {
      assert !IsCreating(s.procs[e.pid].pc);
    }
  }

  /** Once its creator has failed, no process ever initialises the object, whatever happens next. */
  lemma {:induction false} BrokenForEver(history: seq<Event>, es: seq<Event>)
    requires After(history).phase.Broken?
    ensures After(history + es).phase.Broken? && After(history + es).fills == 0
    decreases |es|
  {
    if es == [] {
      AfterKeeps(history);
      assert history + es == history;
    } else {
      var m := |es| - 1;
      BrokenForEver(history, es[..m]);
      AfterKeeps(history + es[..m]);
      assert (history + es)[..|history + es| - 1] == history + es[..m];
      if Enabled(After(history + es[..m]), es[m]) {
        BrokenStays(After(history + es[..m]), es[m]);
      }
    }
  }

  /** In any run in which the creator of the object has failed, however long ago, every company that arrives
      finds no slot. */
  lemma LaterCompanyFindsNoSlot(failed: seq<Event>, since: seq<Event>, q: Pid, name: string) returns (es: seq<Event>)
    requires After(failed).phase.Broken?
    requires var s := After(failed + since); s.lock.None? && q !in s.procs
    ensures var t := After(failed + since + Arrival(q, name) + es);
            Alone(es, q) && q in t.procs && t.procs[q].pc.NoSlot? && t.fills == 0
  {
    var history := failed + since;
    BrokenForEver(failed, since);
    AfterKeeps(history);
    var u := Arrives(After(history), q, name);
    AfterLeadsTo(history, Arrival(q, name), u);
    AfterKeeps(history + Arrival(q, name));
    var t;
    es, t := BrokenScan(u, q, 0);
    AfterLeadsTo(history + Arrival(q, name), es, t);
  }

  /** There are such runs: the first process creates the object and cannot size it. */
  lemma CreationCanFail(p: Pid, name: string, company: bool)
    ensures var s := After([Launch(p, name, company), Take(p), Act(p), Fail(p)]);
            s.phase.Broken? && s.lock.None? && s.procs.Keys == {p}
  {
    var es := [Launch(p, name, company), Take(p), Act(p), Fail(p)];
    var s0 := Init();
    var s1 := Apply(s0, es[0]);
    var s2 := Apply(s1, es[1]);
    var s3 := Apply(s2, es[2]);
    var t := Apply(s3, es[3]);
    assert LeadsTo(t, [], t);
    Prepend(s3, es[3], [], t);
    Prepend(s2, es[2], [es[3]], t);
    Prepend(s1, es[1], [es[2], es[3]], t);
    Prepend(s0, es[0], [es[1], es[2], es[3]], t);
    assert es == [es[0]] + [es[1], es[2], es[3]];
    AfterLeadsTo([], es, t);
    assert [] + es == es;
  }

  // ---------------------------------------------------------------- a registry that works

  lemma {:induction false} FillsUp(s: State, p: Pid, i: nat) returns (es: seq<Event>, t: State)
    requires Inv(s) && s.phase == Creating(p) && p in s.procs && s.procs[p].pc == Filling(i)
    ensures LeadsTo(s, es, t) && Alone(es, p) && t.phase.Ready? && t.lock.None?
    ensures t.procs.Keys == s.procs.Keys && t.procs[p].pc.Attached?
    decreases SLOTS - i
  {
    t := ActStep(s, p);
    es := [];
    if i < SLOTS {
      ActKeeps(s, p);
      es, t := FillsUp(t, p, i + 1);
    }
    Prepend(s, Act(p), es, t);
    es := [Act(p)] + es;
  }

  lemma Creates(p: Pid, name: string, company: bool) returns (t: State)
    ensures LeadsTo(Init(), [Launch(p, name, company), Take(p), Act(p), Act(p), Act(p)], t)
    ensures t.phase == Creating(p) && t.procs.Keys == {p} && t.procs[p].pc == Filling(0)
  {
    var s1 := Apply(Init(), Launch(p, name, company));
    var s2 := Apply(s1, Take(p));
    var s3 := Apply(s2, Act(p));
    var s4 := Apply(s3, Act(p));
    t := Apply(s4, Act(p));
    assert LeadsTo(t, [], t);
    Prepend(s4, Act(p), [], t);
    Prepend(s3, Act(p), [Act(p)], t);
    Prepend(s2, Act(p), [Act(p), Act(p)], t);
    Prepend(s1, Take(p), [Act(p), Act(p), Act(p)], t);
    Prepend(Init(), Launch(p, name, company), [Take(p), Act(p), Act(p), Act(p)], t);
    assert [Launch(p, name, company), Take(p), Act(p), Act(p), Act(p)]
           == [Launch(p, name, company)] + [Take(p), Act(p), Act(p), Act(p)];
  }

  /** The first process, undisturbed, leaves an initialised registry with fifty empty slots. */
  lemma FirstProcessInitialises(p: Pid, name: string, company: bool) returns (es: seq<Event>)
    ensures var s := After(es);
            && s.phase.Ready? && s.lock.None? && s.fills == 1 && s.procs.Keys == {p}
            && forall i | 0 <= i < SLOTS :: s.mem[i].isEmpty && s.mem[i].done == 0
  {
    var start := [Launch(p, name, company), Take(p), Act(p), Act(p), Act(p)];
    var u := Creates(p, name, company);
    AfterLeadsTo([], start, u);
    assert [] + start == start;
    AfterKeeps(start);
    var rest, t := FillsUp(u, p, 0);
    AfterLeadsTo(start, rest, t);
    es := start + rest;
    AfterKeeps(es);
    InitialisedSlots(t, p);
  }

  lemma InitialisedSlots(s: State, p: Pid)
    requires Inv(s) && s.phase.Ready? && s.procs.Keys == {p} && s.procs[p].pc.Attached?
    ensures s.fills == 1 && forall i | 0 <= i < SLOTS :: s.mem[i].isEmpty && s.mem[i].done == 0
  {
    forall i | 0 <= i < SLOTS
      ensures s.mem[i].isEmpty && s.mem[i].done == 0
    {
      assert SlotOk(s, i);
    }
  }

  lemma TakesSlot(s: State, q: Pid, i: nat) returns (es: seq<Event>, t: State)
    requires Inv(s) && q in s.procs && s.procs[q].pc == Scanning(i) && i < SLOTS && s.mem[i].isEmpty
    ensures LeadsTo(s, es, t) && Alone(es, q) && t.lock.None?
    ensures q in t.procs && t.procs[q].pc == Owner(i)
    ensures t.mem == s.mem[i := Slot(s.procs[q].name, s.mem[i].done, false)]
  {
    var u := ActStep(s, q);
    t := ActStep(u, q);
    assert LeadsTo(t, [], t);
    Prepend(u, Act(q), [], t);
    Prepend(s, Act(q), [Act(q)], t);
    es := [Act(q)] + [Act(q)];
    assert [Act(q)] + [] == [Act(q)];
  }

  lemma {:induction false} ScanFinds(s: State, q: Pid, i: nat) returns (es: seq<Event>, t: State)
    requires Inv(s) && q in s.procs && s.procs[q].pc == Scanning(i) && i <= FirstEmpty(s.mem) < SLOTS
    ensures LeadsTo(s, es, t) && Alone(es, q) && t.lock.None?
    ensures q in t.procs && t.procs[q].pc == Owner(FirstEmpty(s.mem))
    ensures t.mem == s.mem[FirstEmpty(s.mem) := Slot(s.procs[q].name, s.mem[FirstEmpty(s.mem)].done, false)]
    decreases SLOTS - i
  {
    if i == FirstEmpty(s.mem) {
      es, t := TakesSlot(s, q, i);
    } else {
      ScanStep(s, q);
      ActKeeps(s, q);
      es, t := ScanFinds(ActStep(s, q), q, i + 1);
      Prepend(s, Act(q), es, t);
      es := [Act(q)] + es;
    }
  }

  /** In any run, a company that arrives while the registry is initialised and not full gets the lowest empty
      slot, writes its name there and starts to count at zero. */
  lemma CompanyGetsSlot(history: seq<Event>, q: Pid, name: string) returns (es: seq<Event>)
    requires var s := After(history);
             s.phase.Ready? && s.lock.None? && q !in s.procs && FirstEmpty(s.mem) < SLOTS
    ensures var s, t := After(history), After(history + Arrival(q, name) + es);
            var i := FirstEmpty(s.mem);
            && Alone(es, q) && t.lock.None? && q in t.procs && t.procs[q].pc == Owner(i)
            && t.mem == s.mem[i := Slot(name, 0, false)]
  {
    AfterKeeps(history);
    EmptySlotsAreClean(history, FirstEmpty(After(history).mem));
    var u := Arrives(After(history), q, name);
    AfterLeadsTo(history, Arrival(q, name), u);
    AfterKeeps(history + Arrival(q, name));
    var t;
    es, t := ScanFinds(u, q, 0);
    AfterLeadsTo(history + Arrival(q, name), es, t);
  }

  /** An owner can have a load counted: its slot's counter, and nothing else, becomes one larger. */
  lemma OwnerCounts(s: State, p: Pid, i: nat) returns (t: State)
    requires Inv(s) && s.lock.None? && p in s.procs && s.procs[p].pc == Owner(i)
    ensures LeadsTo(s, [Take(p), Act(p)], t) && i < SLOTS
    ensures t == s.(mem := s.mem[i := s.mem[i].(done := s.mem[i].done + 1)])
  {
    var u := Apply(s, Take(p));
    t := ActStep(u, p);
    assert LeadsTo(t, [], t);
    Prepend(u, Act(p), [], t);
    Prepend(s, Take(p), [Act(p)], t);
    assert [Take(p), Act(p)] == [Take(p)] + [Act(p)] && [Act(p)] == [Act(p)] + [];
    assert t.procs == s.procs;
  }

  /** In any run, while process p owns slot i, the slot keeps its name, and its counter changes only when p
      counts a load, by one, and when p releases the slot, to zero. */
  lemma OwnedSlotCounts(history: seq<Event>, p: Pid, i: nat, e: Event)
    ensures var s := After(history);
            p in s.procs && Owned(s.procs[p].pc) == Some(i) && Enabled(s, e) ==>
              var t := Apply(s, e);
              && i < SLOTS == |t.mem| && t.mem[i].name == s.mem[i].name
              && t.mem[i].done == (if e == Act(p) && s.procs[p].pc.Counting? then s.mem[i].done + 1
                                   else if e == Act(p) && s.procs[p].pc.Closing? then 0
                                   else s.mem[i].done)
  {
    AfterKeeps(history);
    var s := After(history);
    if p in s.procs && Owned(s.procs[p].pc) == Some(i) && Enabled(s, e) {
      OwnedSlotStep(s, p, i, e);
    }
  }

  lemma OwnedSlotStep(s: State, p: Pid, i: nat, e: Event)
    requires Inv(s) && p in s.procs && Owned(s.procs[p].pc) == Some(i) && Enabled(s, e)
    ensures var t := Apply(s, e);
            && i < SLOTS == |t.mem| && t.mem[i].name == s.mem[i].name
            && t.mem[i].done == (if e == Act(p) && s.procs[p].pc.Counting? then s.mem[i].done + 1
                                 else if e == Act(p) && s.procs[p].pc.Closing? then 0
                                 else s.mem[i].done)
  {
    assert SlotOk(s, i);
    if e.Act? && Owned(s.procs[e.pid].pc).Some? {
      assert s.owners[Owned(s.procs[e.pid].pc).value] == Some(e.pid);
    }
    if e.Act? && s.procs[e.pid].pc.Mapped? {
      assert s.lock == Some(e.pid);
    }
  }

  // ---------------------------------------------------------------- the loops of init_shm

  /** The loops of init_shm and the release in company.c, each of which runs under `lock`. */
  class CompanyRegistry {
    const companies: array<Slot>

    constructor ()
      ensures companies.Length == SLOTS && fresh(companies)
      ensures forall j | 0 <= j < SLOTS :: companies[j] == Slot("", 0, true)
    {
      companies := new Slot[SLOTS](_ => ZEROED);
      new;
      for i := 0 to SLOTS
        invariant forall j | 0 <= j < SLOTS :: companies[j] == Slot("", 0, j < i)
      {
        companies[i] := companies[i].(isEmpty := true);
      }
    }

    method Claim(name: string) returns (i: nat)
      requires companies.Length == SLOTS
      modifies companies
      ensures i == FirstEmpty(old(companies[..]))
      ensures i < SLOTS ==>
                companies[..] == old(companies[..])[i := Slot(name, old(companies[..])[i].done, false)]
      ensures i == SLOTS ==> companies[..] == old(companies[..])
    {
      i := 0;
      while i < SLOTS
        invariant i <= SLOTS && companies[..] == old(companies[..])
        invariant forall j | 0 <= j < i :: !companies[j].isEmpty
      {
        if companies[i].isEmpty {
          companies[i] := companies[i].(name := name);
          companies[i] := companies[i].(isEmpty := false);
          break;
        }
        i := i + 1;
      }
    }

    method Release(i: nat)
      requires companies.Length == SLOTS && i < SLOTS
      modifies companies
      ensures companies[..] == old(companies[..])[i := Slot(old(companies[..])[i].name, 0, true)]
    {
      companies[i] := companies[i].(isEmpty := true);
      companies[i] := companies[i].(done := 0);
    }
  }

  /** A claim moves the first empty slot up; releasing the claimed slot moves it back, so that the next
      claim takes the same slot again. */
  lemma ReleaseUndoesClaim(mem: seq<Slot>, name: string)
    requires FirstEmpty(mem) < |mem|
    ensures var i := FirstEmpty(mem);
            var claimed := mem[i := Slot(name, mem[i].done, false)];
            var released := claimed[i := Slot(name, 0, true)];
            && FirstEmpty(claimed) > i && FirstEmpty(released) == i
            && (forall j | 0 <= j < |mem| && j != i :: released[j] == mem[j])
  {
    var i := FirstEmpty(mem);
    var claimed := mem[i := Slot(name, mem[i].done, false)];
    var released := claimed[i := Slot(name, 0, true)];
    assert forall j | 0 <= j <= i :: !claimed[j].isEmpty;
    FirstEmptyIs(released, i);
  }
}
