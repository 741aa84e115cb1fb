/** The digger protocol of labs 2 and 3 as a state machine: any number of digger tasks, two counting
    semaphores, the mutex `lock` of the shared registry, and the command task that spawns and deletes
    diggers. */
module Diggers {

  const SHOVELS: nat := 3
  const MAX_DIGGERS: nat := 50

  type Id = nat

  /** In lab 3 an upper digger counts each finished load in shared memory, under `lock`, and the command
      E releases the company's slot. In lab 2 nothing is counted and E deletes every digger. */
  datatype Lab = Lab2 | Lab3

  /** The program points of digger_in_hole (L...) and digger_up_the_hole (U...). */
  datatype Pc =
    | LResting              // before taskSafe
    | LSafe                 // waiting for a shovel
    | LWorking              // holds a shovel
    | LDug                  // has given the soil
    | LGave                 // has given the shovel back
    | UWaiting              // waiting for soil
    | UTook                 // has taken soil, not yet safe
    | USafe                 // waiting for a shovel, with a timeout
    | UTimedOut             // got no shovel
    | UReturned             // has handed the soil back
    | UWorking              // holds soil and a shovel
    | ULocked               // holds `lock` as well
    | UCounting(read: nat)  // has read n_of_soil_done
    | UCounted              // has written it
    | UUnlocked             // has given `lock` back
    | UGave                 // has given the shovel back

  predicate IsLower(pc: Pc) {
    pc.LResting? || pc.LSafe? || pc.LWorking? || pc.LDug? || pc.LGave?
  }

  predicate IsUpper(pc: Pc) {
    !IsLower(pc)
  }

  predicate HoldsShovel(pc: Pc) {
    pc.LWorking? || pc.LDug? || pc.UWorking? || pc.ULocked? || pc.UCounting? || pc.UCounted? || pc.UUnlocked?
  }

  predicate CarriesLoad(pc: Pc) {
    pc.UTook? || pc.USafe? || pc.UTimedOut? || pc.UWorking? || pc.ULocked? || pc.UCounting?
  }

  predicate HoldsLock(pc: Pc) {
    pc.ULocked? || pc.UCounting? || pc.UCounted?
  }

  /** Between taskSafe and taskUnsafe; taskDelete waits until the task has left this section. */
  predicate Protected(pc: Pc) {
    !(pc.LResting? || pc.UWaiting? || pc.UTook?)
  }

  /** Who holds `lock`: nobody, a digger, the command task, or a task of another process. */
  datatype Lock = Free | Digger(id: Id) | Main | Other

  /** What the command task is doing. EndLower(i) and EndUpper(i) are the two loops of E in lab 2,
      Releasing and Released the critical section of E in lab 3. */
  datatype Command =
    Ready | DeletingLower | DeletingUpper | EndLower(i: nat) | EndUpper(i: nat) | Releasing | Released | Ended

  /** lower and upper are the id arrays up to their counters; done is n_of_soil_done. The last four
      fields are history variables. */
  datatype State = State(
    tasks: map<Id, Pc>, lower: seq<Id>, upper: seq<Id>, nextId: Id,
    shovels: nat, heap: nat, lock: Lock, done: nat, command: Command,
    dug: nat, finished: nat, lost: nat, upperDeletions: nat)

  datatype Event =
    | SpawnLower | SpawnUpper      // commands i and I
    | AskLower | AskUpper | AskEnd // commands o, O and E
    | Proceed                      // the command task makes its next step
    | Act(id: Id)                  // a digger makes its next step
    | Timeout(id: Id)              // a digger's semTake of a shovel times out
    | OtherTakes | OtherGives      // a task of another process takes or gives `lock`

  function Init(): State {
    State(map[], [], [], 0, SHOVELS, 0, Free, 0, Ready, 0, 0, 0, 0)
  }

  // ---------------------------------------------------------------- steps of a digger

  predicate CanAct(lab: Lab, s: State, id: Id) {
    && id in s.tasks
    && match s.tasks[id]
       case LSafe => s.shovels > 0
       case USafe => s.shovels > 0
       case UWaiting => s.heap > 0
       case UWorking => lab.Lab2? || s.lock.Free?
       case _ => true
  }

  function Moved(s: State, id: Id, pc: Pc): State {
    s.(tasks := s.tasks[id := pc])
  }

  function ActStep(lab: Lab, s: State, id: Id): State
    requires CanAct(lab, s, id)
  {
    match s.tasks[id]
    case LResting => Moved(s, id, LSafe)
    case LSafe => Moved(s, id, LWorking).(shovels := s.shovels - 1)
    case LWorking => Moved(s, id, LDug).(heap := s.heap + 1, dug := s.dug + 1)
    case LDug => Moved(s, id, LGave).(shovels := s.shovels + 1)
    case LGave => Moved(s, id, LResting)
    case UWaiting => Moved(s, id, UTook).(heap := s.heap - 1)
    case UTook => Moved(s, id, USafe)
    case USafe => Moved(s, id, UWorking).(shovels := s.shovels - 1)
    case UTimedOut => Moved(s, id, UReturned).(heap := s.heap + 1)
    case UReturned => Moved(s, id, UWaiting)
    case UWorking =>
      if lab.Lab2? then Moved(s, id, UGave).(shovels := s.shovels + 1, finished := s.finished + 1)
      else Moved(s, id, ULocked).(lock := Digger(id))
    case ULocked => Moved(s, id, UCounting(s.done))
    case UCounting(v) => Moved(s, id, UCounted).(done := v + 1, finished := s.finished + 1)
    case UCounted => Moved(s, id, UUnlocked).(lock := Free)
    case UUnlocked => Moved(s, id, UGave).(shovels := s.shovels + 1)
    case UGave => Moved(s, id, UWaiting)
  }

  // ---------------------------------------------------------------- steps of the command task

  /** The task that the command task is deleting. */
  predicate HasTarget(s: State) {
    match s.command
    case DeletingLower => |s.lower| > 0
    case DeletingUpper => |s.upper| > 0
    case EndLower(i) => i < |s.lower|
    case EndUpper(i) => i < |s.upper|
    case _ => false
  }

  function Target(s: State): Id
    requires HasTarget(s)
  {
    match s.command
    case DeletingLower => s.lower[|s.lower| - 1]
    case DeletingUpper => s.upper[|s.upper| - 1]
    case EndLower(i) => s.lower[i]
    case EndUpper(i) => s.upper[i]
  }

  predicate CanProceed(s: State) {
    if HasTarget(s) then Target(s) in s.tasks && !Protected(s.tasks[Target(s)])
    else
      match s.command
      case EndLower(_) => true
      case EndUpper(_) => true
      case Releasing => s.lock.Free?
      case Released => true
      case _ => false
  }

  /** taskDelete of an unprotected task. */
  function Deleted(s: State, t: Id): State
    requires t in s.tasks
  {
    var pc := s.tasks[t];
    s.(tasks := s.tasks - {t},
       lost := if pc.UTook? then s.lost + 1 else s.lost,
       upperDeletions := if IsUpper(pc) then s.upperDeletions + 1 else s.upperDeletions)
  }

  function ProceedStep(s: State): State
    requires CanProceed(s)
  {
    if HasTarget(s) then
      var d := Deleted(s, Target(s));
      match s.command
      case DeletingLower => d.(lower := s.lower[..|s.lower| - 1], command := Ready)
      case DeletingUpper => d.(upper := s.upper[..|s.upper| - 1], command := Ready)
      case EndLower(i) => d.(command := EndLower(i + 1))
      case EndUpper(i) => d.(command := EndUpper(i + 1))
    else
      match s.command
      case EndLower(_) => s.(command := EndUpper(0))
      case EndUpper(_) => s.(lower := [], upper := [], command := Ready)
      case Releasing => s.(lock := Main, command := Released)
      case Released => s.(lock := Free, done := 0, command := Ended)
  }

  // ---------------------------------------------------------------- all steps

  predicate Enabled(lab: Lab, s: State, e: Event) {
    && !s.command.Ended?
    && match e
       case SpawnLower => s.command.Ready? && |s.lower| < MAX_DIGGERS
       case SpawnUpper => s.command.Ready? && |s.lower| < MAX_DIGGERS
       case AskLower => s.command.Ready? && |s.lower| > 0
       case AskUpper => s.command.Ready? && |s.upper| > 0
       case AskEnd => s.command.Ready?
       case Proceed => CanProceed(s)
       case Act(id) => CanAct(lab, s, id)
       case Timeout(id) => id in s.tasks && s.tasks[id].USafe?
       case OtherTakes => s.lock.Free?
       case OtherGives => s.lock.Other?
  }

  function Apply(lab: Lab, s: State, e: Event): State
    requires Enabled(lab, s, e)
  {
    match e
    case SpawnLower =>
      s.(tasks := s.tasks[s.nextId := LResting], lower := s.lower + [s.nextId], nextId := s.nextId + 1)
    case SpawnUpper =>
      s.(tasks := s.tasks[s.nextId := UWaiting], upper := s.upper + [s.nextId], nextId := s.nextId + 1)
    case AskLower => s.(command := DeletingLower)
    case AskUpper => s.(command := DeletingUpper)
    case AskEnd => s.(command := if lab.Lab2? then EndLower(0) else Releasing)
    case Proceed => ProceedStep(s)
    case Act(id) => ActStep(lab, s, id)
    case Timeout(id) => Moved(s, id, UTimedOut)
    case OtherTakes => s.(lock := Other)
    case OtherGives => s.(lock := Free)
  }

  // ---------------------------------------------------------------- counting tasks

  ghost function Select(tasks: map<Id, Pc>, p: Pc -> bool): set<Id> {
    set t | t in tasks && p(tasks[t])
  }

  ghost function Count(tasks: map<Id, Pc>, p: Pc -> bool): nat {
    |Select(tasks, p)|
  }

  lemma CountSplit(tasks: map<Id, Pc>, t: Id, p: Pc -> bool)
    ensures Count(tasks, p) == Count(tasks - {t}, p) + if t in tasks && p(tasks[t]) then 1 else 0
  {
    assert Select(tasks - {t}, p) == Select(tasks, p) - {t};
  }

  lemma CountMoved(tasks: map<Id, Pc>, t: Id, pc: Pc, p: Pc -> bool)
    ensures Count(tasks[t := pc], p) + (if t in tasks && p(tasks[t]) then 1 else 0)
            == Count(tasks, p) + if p(pc) then 1 else 0
  {
    CountSplit(tasks, t, p);
    CountSplit(tasks[t := pc], t, p);
    assert tasks[t := pc] - {t} == tasks - {t};
  }

  // ---------------------------------------------------------------- the invariant

  ghost predicate ShovelsConserved(s: State) {
    s.shovels + Count(s.tasks, HoldsShovel) == SHOVELS
  }

  ghost predicate SoilConserved(s: State) {
    && s.dug == s.heap + Count(s.tasks, CarriesLoad) + s.finished + s.lost
    && s.lost <= s.upperDeletions
  }

  ghost predicate LockOk(lab: Lab, s: State) {
    && (forall t | t in s.tasks :: HoldsLock(s.tasks[t]) <==> s.lock == Digger(t))
    && (s.lock.Digger? ==> s.lock.id in s.tasks)
    && (s.lock.Main? <==> s.command.Released?)
    && (forall t | t in s.tasks && s.tasks[t].UCounting? :: s.tasks[t].read == s.done)
    && (lab.Lab2? ==> s.done == 0 && forall t | t in s.tasks :: !HoldsLock(s.tasks[t]))
    && (lab.Lab3? && !s.command.Ended? ==> s.done == s.finished)
    && (s.command.Ended? ==> s.done == 0)
  }

  /** The lower and upper diggers that the id arrays still stand for. */
  ghost function LiveLower(s: State): seq<Id> {
    match s.command
    case EndLower(i) => if i <= |s.lower| then s.lower[i..] else []
    case EndUpper(_) => []
    case _ => s.lower
  }

  ghost function LiveUpper(s: State): seq<Id> {
    match s.command
    case EndUpper(i) => if i <= |s.upper| then s.upper[i..] else []
    case _ => s.upper
  }

  /** The ids are in the order in which the diggers were spawned. */
  ghost predicate Ascending(ids: seq<Id>) {
    forall i, j | 0 <= i < j < |ids| :: ids[i] < ids[j]
  }

  ghost predicate RosterOk(s: State) {
    && Ascending(s.lower) && Ascending(s.upper)
    && (forall t | t in s.tasks :: t < s.nextId)
    && (forall t | t in s.lower :: t < s.nextId)
    && (forall t | t in s.upper :: t < s.nextId)
    && (forall t :: t in s.tasks && IsLower(s.tasks[t]) <==> t in LiveLower(s))
    && (forall t :: t in s.tasks && IsUpper(s.tasks[t]) <==> t in LiveUpper(s))
    && |s.lower| <= MAX_DIGGERS
    && (s.command.DeletingLower? ==> |s.lower| > 0)
    && (s.command.DeletingUpper? ==> |s.upper| > 0)
    && (s.command.EndLower? ==> s.command.i <= |s.lower|)
    && (s.command.EndUpper? ==> s.command.i <= |s.upper|)
  }

  ghost predicate Inv(lab: Lab, s: State) {
    ShovelsConserved(s) && SoilConserved(s) && LockOk(lab, s) && RosterOk(s)
  }

  lemma MovedCounts(s: State, id: Id, pc: Pc)
    requires id in s.tasks
    ensures Count(Moved(s, id, pc).tasks, HoldsShovel) + (if HoldsShovel(s.tasks[id]) then 1 else 0)
            == Count(s.tasks, HoldsShovel) + if HoldsShovel(pc) then 1 else 0
    ensures Count(Moved(s, id, pc).tasks, CarriesLoad) + (if CarriesLoad(s.tasks[id]) then 1 else 0)
            == Count(s.tasks, CarriesLoad) + if CarriesLoad(pc) then 1 else 0
  {
    CountMoved(s.tasks, id, pc, HoldsShovel);
    CountMoved(s.tasks, id, pc, CarriesLoad);
  }

  lemma MoveKeepsRoster(s: State, t: State, id: Id, pc: Pc)
    requires RosterOk(s) && id in s.tasks
    requires t.tasks == s.tasks[id := pc] && (IsLower(pc) <==> IsLower(s.tasks[id]))
    requires t.lower == s.lower && t.upper == s.upper && t.nextId == s.nextId && t.command == s.command
    ensures RosterOk(t)
  {
    assert LiveLower(t) == LiveLower(s) && LiveUpper(t) == LiveUpper(s);
  }

  lemma ActShape(lab: Lab, s: State, id: Id) returns (pc: Pc)
    requires CanAct(lab, s, id)
    ensures var t := ActStep(lab, s, id);
            && t.tasks == s.tasks[id := pc] && (IsLower(pc) <==> IsLower(s.tasks[id]))
            && t.lower == s.lower && t.upper == s.upper && t.nextId == s.nextId && t.command == s.command
            && t.lost == s.lost
  {
    pc := ActStep(lab, s, id).tasks[id];
  }

  lemma ActConserves(lab: Lab, s: State, id: Id)
    requires ShovelsConserved(s) && SoilConserved(s) && CanAct(lab, s, id)
    ensures ShovelsConserved(ActStep(lab, s, id)) && SoilConserved(ActStep(lab, s, id))
  {
    MovedCounts(s, id, ActStep(lab, s, id).tasks[id]);
  }

  /** A step that leaves `lock` and the counter alone. */
  lemma MoveKeepsLock(lab: Lab, s: State, t: State, id: Id, pc: Pc)
    requires LockOk(lab, s) && id in s.tasks && t.tasks == s.tasks[id := pc]
    requires t.lock == s.lock && t.command == s.command && t.done == s.done
    requires (HoldsLock(pc) <==> HoldsLock(s.tasks[id])) && (pc.UCounting? ==> pc.read == s.done)
    requires lab.Lab3? ==> t.finished == s.finished
    ensures LockOk(lab, t)
  {
  }

  predicate IsLockStep(lab: Lab, pc: Pc) {
    lab.Lab3? && (pc.UWorking? || pc.ULocked? || pc.UCounting? || pc.UCounted?)
  }

  /** The four steps of the critical section. */
  lemma LockStepKeepsLock(lab: Lab, s: State, id: Id)
    requires LockOk(lab, s) && CanAct(lab, s, id) && !s.command.Ended? && IsLockStep(lab, s.tasks[id])
    ensures LockOk(lab, ActStep(lab, s, id))
  {
  }

  lemma OtherStepShape(lab: Lab, s: State, id: Id) returns (pc: Pc)
    requires CanAct(lab, s, id) && !IsLockStep(lab, s.tasks[id]) && !HoldsLock(s.tasks[id])
    ensures var t := ActStep(lab, s, id);
            && t.tasks == s.tasks[id := pc] && !HoldsLock(pc)
            && t.lock == s.lock && t.command == s.command && t.done == s.done
            && (lab.Lab3? ==> t.finished == s.finished)
  {
    pc := ActStep(lab, s, id).tasks[id];
  }

  lemma ActKeepsLock(lab: Lab, s: State, id: Id)
    requires LockOk(lab, s) && CanAct(lab, s, id) && !s.command.Ended?
    ensures LockOk(lab, ActStep(lab, s, id))
  {
    if IsLockStep(lab, s.tasks[id]) {
      LockStepKeepsLock(lab, s, id);
    } else {
      var pc := OtherStepShape(lab, s, id);
      MoveKeepsLock(lab, s, ActStep(lab, s, id), id, pc);
    }
  }

  lemma ActKeepsRoster(lab: Lab, s: State, id: Id)
    requires RosterOk(s) && CanAct(lab, s, id)
    ensures RosterOk(ActStep(lab, s, id))
  {
    var pc := ActShape(lab, s, id);
    MoveKeepsRoster(s, ActStep(lab, s, id), id, pc);
  }

  lemma ActKeeps(lab: Lab, s: State, id: Id)
    requires Inv(lab, s) && Enabled(lab, s, Act(id))
    ensures Inv(lab, Apply(lab, s, Act(id)))
  {
    ActConserves(lab, s, id);
    ActKeepsLock(lab, s, id);
    ActKeepsRoster(lab, s, id);
  }

  lemma TimeoutKeeps(lab: Lab, s: State, id: Id)
    requires Inv(lab, s) && Enabled(lab, s, Timeout(id))
    ensures Inv(lab, Apply(lab, s, Timeout(id)))
  {
    var t := Moved(s, id, UTimedOut);
    MovedCounts(s, id, UTimedOut);
    MoveKeepsLock(lab, s, t, id, UTimedOut);
    MoveKeepsRoster(s, t, id, UTimedOut);
  }

  /** A task with a new id, with empty hands, has joined the diggers. */
  ghost predicate Joined(s: State, t: State, pc: Pc) {
    && !HoldsShovel(pc) && !CarriesLoad(pc) && !HoldsLock(pc)
    && t.tasks == s.tasks[s.nextId := pc] && t.nextId == s.nextId + 1
    && t.lower == (if IsLower(pc) then s.lower + [s.nextId] else s.lower)
    && t.upper == (if IsUpper(pc) then s.upper + [s.nextId] else s.upper)
    && t.(tasks := s.tasks, nextId := s.nextId, lower := s.lower, upper := s.upper) == s
  }

  lemma JoinKeepsCounts(s: State, t: State, pc: Pc)
    requires Joined(s, t, pc) && s.nextId !in s.tasks && ShovelsConserved(s) && SoilConserved(s)
    ensures ShovelsConserved(t) && SoilConserved(t)
  {
    CountMoved(s.tasks, s.nextId, pc, HoldsShovel);
    CountMoved(s.tasks, s.nextId, pc, CarriesLoad);
  }

  lemma JoinKeepsLock(lab: Lab, s: State, t: State, pc: Pc)
    requires Joined(s, t, pc) && s.nextId !in s.tasks && LockOk(lab, s)
    ensures LockOk(lab, t)
  {
  }

  lemma AppendAscends(ids: seq<Id>, x: Id)
    requires Ascending(ids) && forall y | y in ids :: y < x
    ensures Ascending(ids + [x])
  {
    forall i | 0 <= i < |ids|
      ensures ids[i] < x
    {
      assert ids[i] in ids;
    }
  }

  lemma JoinKeepsRoster(s: State, t: State, pc: Pc)
    requires Joined(s, t, pc) && RosterOk(s) && s.command.Ready? && |t.lower| <= MAX_DIGGERS
    ensures RosterOk(t)
  {
    assert s.nextId !in s.lower && s.nextId !in s.upper;
    AppendAscends(s.lower, s.nextId);
    AppendAscends(s.upper, s.nextId);
    forall x
      ensures x in t.tasks && IsLower(t.tasks[x]) <==> x in LiveLower(t)
      ensures x in t.tasks && IsUpper(t.tasks[x]) <==> x in LiveUpper(t)
    {
      assert x in LiveLower(t) <==> x in LiveLower(s) || (x == s.nextId && IsLower(pc));
      assert x in LiveUpper(t) <==> x in LiveUpper(s) || (x == s.nextId && IsUpper(pc));
    }
  }

  lemma SpawnKeeps(lab: Lab, s: State, e: Event)
    requires Inv(lab, s) && (e.SpawnLower? || e.SpawnUpper?) && Enabled(lab, s, e)
    ensures Inv(lab, Apply(lab, s, e))
  {
    var t := Apply(lab, s, e);
    var pc := if e.SpawnLower? then LResting else UWaiting;
    assert s.nextId !in s.tasks;
    JoinKeepsCounts(s, t, pc);
    JoinKeepsLock(lab, s, t, pc);
    JoinKeepsRoster(s, t, pc);
  }

  lemma DeletionCounts(s: State, t: Id)
    requires t in s.tasks && !Protected(s.tasks[t])
    requires ShovelsConserved(s) && SoilConserved(s)
    ensures ShovelsConserved(Deleted(s, t)) && SoilConserved(Deleted(s, t))
  {
    CountSplit(s.tasks, t, HoldsShovel);
    CountSplit(s.tasks, t, CarriesLoad);
  }

  lemma DeletionKeepsLock(lab: Lab, s: State, t: Id)
    requires LockOk(lab, s) && t in s.tasks && !Protected(s.tasks[t])
    ensures LockOk(lab, Deleted(s, t))
  {
  }

  lemma WithoutLast(ids: seq<Id>)
    requires Ascending(ids) && ids != []
    ensures forall x :: x in ids[..|ids| - 1] <==> x in ids && x != ids[|ids| - 1]
  {
    assert ids == ids[..|ids| - 1] + [ids[|ids| - 1]];
  }

  lemma WithoutFirst(ids: seq<Id>, i: nat)
    requires Ascending(ids) && i < |ids|
    ensures forall x :: x in ids[i + 1..] <==> x in ids[i..] && x != ids[i]
  {
    assert ids[i..] == [ids[i]] + ids[i + 1..];
  }

  lemma LiveAfterLower(s: State)
    requires RosterOk(s) && HasTarget(s) && CanProceed(s) && (s.command.DeletingLower? || s.command.EndLower?)
    ensures forall x :: x in LiveLower(ProceedStep(s)) <==> x in LiveLower(s) && x != Target(s)
    ensures LiveUpper(ProceedStep(s)) == LiveUpper(s) && Target(s) in LiveLower(s)
  {
    if s.command.DeletingLower? {
      WithoutLast(s.lower);
    } else {
      WithoutFirst(s.lower, s.command.i);
      assert s.lower[s.command.i..][0] == Target(s);
    }
  }

  lemma LiveAfterUpper(s: State)
    requires RosterOk(s) && HasTarget(s) && CanProceed(s) && (s.command.DeletingUpper? || s.command.EndUpper?)
    ensures forall x :: x in LiveUpper(ProceedStep(s)) <==> x in LiveUpper(s) && x != Target(s)
    ensures LiveLower(ProceedStep(s)) == LiveLower(s) && Target(s) in LiveUpper(s)
  {
    if s.command.DeletingUpper? {
      WithoutLast(s.upper);
    } else {
      WithoutFirst(s.upper, s.command.i);
      assert s.upper[s.command.i..][0] == Target(s);
    }
  }

  lemma DeletionKeepsRoster(s: State)
    requires RosterOk(s) && HasTarget(s) && CanProceed(s)
    ensures RosterOk(ProceedStep(s))
  {
    if s.command.DeletingLower? || s.command.EndLower? {
      LiveAfterLower(s);
    } else {
      LiveAfterUpper(s);
    }
  }

  lemma ProceedKeeps(lab: Lab, s: State)
    requires Inv(lab, s) && Enabled(lab, s, Proceed)
    ensures Inv(lab, Apply(lab, s, Proceed))
  {
    if HasTarget(s) {
      DeletionCounts(s, Target(s));
      DeletionKeepsLock(lab, s, Target(s));
      DeletionKeepsRoster(s);
    } else {
      CommandMoveKeepsRoster(s);
    }
  }

  lemma CommandMoveKeepsRoster(s: State)
    requires RosterOk(s) && !HasTarget(s) && CanProceed(s)
    ensures RosterOk(ProceedStep(s))
  {
    var t := ProceedStep(s);
    if s.command.EndLower? {
      assert s.lower[s.command.i..] == [] && s.upper[0..] == s.upper;
    } else if s.command.EndUpper? {
      assert s.upper[s.command.i..] == [];
    }
    assert LiveLower(t) == LiveLower(s) && LiveUpper(t) == LiveUpper(s);
  }

  lemma RequestKeeps(lab: Lab, s: State, e: Event)
    requires Inv(lab, s) && Enabled(lab, s, e)
    requires e.AskLower? || e.AskUpper? || e.AskEnd? || e.OtherTakes? || e.OtherGives?
    ensures Inv(lab, Apply(lab, s, e))
  {
    var t := Apply(lab, s, e);
    assert s.lower[0..] == s.lower;
    assert LiveLower(t) == LiveLower(s) && LiveUpper(t) == LiveUpper(s);
  }

  lemma StepKeeps(lab: Lab, s: State, e: Event)
    requires Inv(lab, s) && Enabled(lab, s, e)
    ensures Inv(lab, Apply(lab, s, e))
  {
    match e {
      case SpawnLower => SpawnKeeps(lab, s, e);
      case SpawnUpper => SpawnKeeps(lab, s, e);
      case Proceed => ProceedKeeps(lab, s);
      case Act(id) => ActKeeps(lab, s, id);
      case Timeout(id) => TimeoutKeeps(lab, s, id);
      case _ => RequestKeeps(lab, s, e);
    }
  }

  // ---------------------------------------------------------------- runs

  lemma InitKeeps(lab: Lab)
    ensures Inv(lab, Init())
  {
    assert Select(Init().tasks, HoldsShovel) == {} && Select(Init().tasks, CarriesLoad) == {};
  }

  /** The state after any interleaving; an event that is not enabled changes nothing. */
  ghost function After(lab: Lab, es: seq<Event>): State {
    if es == [] then Init()
    else
      var s := After(lab, es[..|es| - 1]);
      var e := es[|es| - 1];
      if Enabled(lab, s, e) then Apply(lab, s, e) else s
  }

  lemma {:induction false} AfterKeeps(lab: Lab, es: seq<Event>)
    ensures Inv(lab, After(lab, es))
  {
    if es == [] {
      InitKeeps(lab);
    } else {
      var s := After(lab, es[..|es| - 1]);
      AfterKeeps(lab, es[..|es| - 1]);
      if Enabled(lab, s, es[|es| - 1]) {
        StepKeeps(lab, s, es[|es| - 1]);
      }
    }
  }

  /** In every run, free shovels and diggers holding one add up to the number of shovels, so at most
      three diggers work at once. */
  lemma ShovelsAreConserved(lab: Lab, es: seq<Event>)
    ensures var s := After(lab, es);
            && s.shovels + |Select(s.tasks, HoldsShovel)| == SHOVELS
            && |Select(s.tasks, HoldsShovel)| <= 3
  {
    AfterKeeps(lab, es);
  }

  /** Loads dug are on the heap, in the hands of upper diggers, finished or lost; no more loads are lost
      than upper diggers deleted, and the shared counter never exceeds the loads dug. */
  lemma SoilIsConserved(lab: Lab, es: seq<Event>)
    ensures var s := After(lab, es);
            && s.dug == s.heap + |Select(s.tasks, CarriesLoad)| + s.finished + s.lost
            && s.lost <= s.upperDeletions
            && s.done <= s.finished <= s.dug
            && (lab.Lab3? && !s.command.Ended? ==> s.done == s.finished)
  {
    AfterKeeps(lab, es);
  }

  /** A step loses a load exactly if it deletes an upper digger between its semTake of the soil and its
      taskSafe. */
  lemma LossesByDeletionOnly(lab: Lab, s: State, e: Event)
    requires Enabled(lab, s, e)
    ensures var t := Apply(lab, s, e);
            && s.lost <= t.lost <= s.lost + 1
            && (t.lost == s.lost + 1
                <==> e.Proceed? && HasTarget(s) && Target(s) in s.tasks && s.tasks[Target(s)].UTook?)
  {
    if e.Act? {
      var pc := ActShape(lab, s, e.id);
    } else if e.Proceed? && HasTarget(s) {
      assert ProceedStep(s).lost == Deleted(s, Target(s)).lost;
    }
  }

  lemma ProceedRemoves(s: State)
    requires CanProceed(s)
    ensures ProceedStep(s).tasks == if HasTarget(s) then s.tasks - {Target(s)} else s.tasks
  {
  }

  /** A deletion never takes away a digger that holds a shovel or `lock`. */
  lemma DeletionIsDeferred(lab: Lab, s: State, t: Id)
    requires Inv(lab, s) && CanProceed(s)
    requires t in s.tasks && t !in ProceedStep(s).tasks
    ensures !HoldsShovel(s.tasks[t]) && s.lock != Digger(t)
    ensures IsLower(s.tasks[t]) ==> s.tasks[t].LResting?
  {
    ProceedRemoves(s);
  }

  lemma NobodyLeft(s: State)
    requires RosterOk(s) && s.command.EndUpper? && s.command.i == |s.upper|
    ensures s.tasks == map[]
    ensures Select(s.tasks, HoldsShovel) == {} && Select(s.tasks, CarriesLoad) == {}
  {
    forall x
      ensures x !in s.tasks
    {
      assert x !in LiveLower(s) && x !in LiveUpper(s);
    }
  }

  /** When the command E of lab 2 has gone through both id arrays, no digger is left and all shovels are
      back. */
  lemma EndReturnsAllShovels(es: seq<Event>)
    requires After(Lab2, es).command == EndUpper(|After(Lab2, es).upper|)
    ensures var s := After(Lab2, es);
            && s.tasks == map[] && s.shovels == SHOVELS && s.dug == s.heap + s.finished + s.lost
            && Enabled(Lab2, s, Proceed)
            && Apply(Lab2, s, Proceed) == s.(command := Ready, lower := [], upper := [])
  {
    AfterKeeps(Lab2, es);
    NobodyLeft(After(Lab2, es));
  }

  function ElementsOf(ids: seq<Id>): (xs: set<Id>)
    ensures forall x :: x in xs <==> x in ids
    ensures |xs| <= |ids|
  {
    if ids == [] then {} else ElementsOf(ids[..|ids| - 1]) + {ids[|ids| - 1]}
  }

  /** There are never more than 50 live lower diggers. */
  lemma LowerDiggersAreBounded(lab: Lab, es: seq<Event>)
    ensures |Select(After(lab, es).tasks, IsLower)| <= MAX_DIGGERS
  {
    var s := After(lab, es);
    AfterKeeps(lab, es);
    assert Select(s.tasks, IsLower) == ElementsOf(LiveLower(s));
  }

  // ---------------------------------------------------------------- deadlock

  /** A step of a digger or of the holder of `lock`; a timeout is neither. */
  predicate IsProgress(s: State, e: Event) {
    e.Act? || (s.lock.Other? && e.OtherGives?) || (s.lock.Main? && e.Proceed?)
  }

  /** Nobody can move: `lock` is free, and every digger is an upper digger with empty hands that waits for
      soil while the heap is empty. This includes the state without any digger. */
  predicate OnlyWaiting(s: State) {
    && s.lock.Free?
    && forall t | t in s.tasks :: s.tasks[t].UWaiting? && s.heap == 0
  }

  /** The owner of `lock` can always move. */
  lemma LockHolderMoves(lab: Lab, s: State) returns (e: Event)
    requires Inv(lab, s) && !s.command.Ended? && !s.lock.Free?
    ensures Enabled(lab, s, e) && IsProgress(s, e)
  {
    match s.lock {
      case Digger(id) => e := Act(id);
      case Main => e := Proceed;
      case Other => e := OtherGives;
    }
  }

  lemma SomeHolder(lab: Lab, s: State) returns (h: Id)
    requires ShovelsConserved(s) && LockOk(lab, s) && s.shovels == 0
    ensures h in s.tasks && HoldsShovel(s.tasks[h]) && (!s.lock.Digger? ==> !HoldsLock(s.tasks[h]))
  {
    assert |Select(s.tasks, HoldsShovel)| == SHOVELS;
    h :| h in Select(s.tasks, HoldsShovel);
  }

  /** A digger that waits for a shovel either gets one or some holder can move. */
  lemma ShovelIsFreeOrHolderMoves(lab: Lab, s: State, waiting: Id) returns (e: Event)
    requires Inv(lab, s) && !s.command.Ended? && s.lock.Free?
    requires waiting in s.tasks && (s.tasks[waiting].LSafe? || s.tasks[waiting].USafe?)
    ensures Enabled(lab, s, e) && IsProgress(s, e)
  {
    if s.shovels > 0 {
      e := Act(waiting);
    } else {
      var h := SomeHolder(lab, s);
      e := Act(h);
    }
  }

  lemma SomeoneMoves(lab: Lab, s: State) returns (e: Event)
    requires Inv(lab, s) && !s.command.Ended? && !OnlyWaiting(s)
    ensures Enabled(lab, s, e) && IsProgress(s, e)
  {
    if !s.lock.Free? {
      e := LockHolderMoves(lab, s);
    } else {
      var t :| t in s.tasks && !(s.tasks[t].UWaiting? && s.heap == 0);
      if s.tasks[t].LSafe? || s.tasks[t].USafe? {
        e := ShovelIsFreeOrHolderMoves(lab, s, t);
      } else {
        e := Act(t);
      }
    }
  }

  lemma OnlyWaitingIsStuck(lab: Lab, s: State, e: Event)
    requires OnlyWaiting(s)
    ensures !(Enabled(lab, s, e) && IsProgress(s, e))
  {
  }

  /** In every run, some digger or lock holder can move, other than by a timeout, unless there is nothing
      left to do but wait for soil. */
  lemma StuckExactly(lab: Lab, es: seq<Event>)
    requires !After(lab, es).command.Ended?
    ensures var s := After(lab, es);
            (exists e :: Enabled(lab, s, e) && IsProgress(s, e)) <==> !OnlyWaiting(s)
  {
    var s := After(lab, es);
    AfterKeeps(lab, es);
    if OnlyWaiting(s) {
      forall e {
        OnlyWaitingIsStuck(lab, s, e);
      }
    } else {
      var e := SomeoneMoves(lab, s);
    }
  }

  /** While a lower digger lives, the protocol is never deadlocked. */
  lemma NoDeadlockWithLowerDigger(lab: Lab, es: seq<Event>)
    ensures var s := After(lab, es);
            !s.command.Ended? && (exists t :: t in s.tasks && IsLower(s.tasks[t])) ==>
              exists e :: Enabled(lab, s, e) && IsProgress(s, e)
  {
    if !After(lab, es).command.Ended? {
      StuckExactly(lab, es);
    }
  }

  // ---------------------------------------------------------------- progress

  /** The command task has not begun to end the process. */
  predicate IsRunning(s: State) {
    !s.command.Released? && !s.command.Ended?
  }

  /** The steps es, all enabled, lead from s to t. */
  ghost predicate LeadsTo(lab: Lab, s: State, es: seq<Event>, t: State)
    decreases |es|
  {
    if es == [] then s == t
    else Enabled(lab, s, es[0]) && LeadsTo(lab, Apply(lab, s, es[0]), es[1..], t)
  }

  /** Steps of diggers, and the giving back of `lock` by other processes; no timeouts. */
  predicate OfDiggers(es: seq<Event>) {
    forall i | 0 <= i < |es| :: es[i].Act? || es[i].OtherGives?
  }

  lemma {:induction false} LeadsOn(lab: Lab, s: State, es: seq<Event>, t: State, fs: seq<Event>, u: State)
    requires LeadsTo(lab, s, es, t) && LeadsTo(lab, t, fs, u)
    ensures LeadsTo(lab, s, es + fs, u)
    decreases |es|
  {
    if es == [] {
      assert es + fs == fs;
    } else {
      LeadsOn(lab, Apply(lab, s, es[0]), es[1..], t, fs, u);
      assert (es + fs)[1..] == es[1..] + fs;
    }
  }

  lemma Prepend(lab: Lab, s: State, e: Event, es: seq<Event>, t: State)
    requires Enabled(lab, s, e) && LeadsTo(lab, Apply(lab, s, e), es, t)
    ensures LeadsTo(lab, s, [e] + es, t)
  {
    assert ([e] + es)[1..] == es;
  }

  /** How many steps a holder of a shovel is from digging a load or giving its shovel back. */
  function Distance(pc: Pc): nat {
    match pc
    case LWorking => 1
    case LDug => 1
    case UWorking => 5
    case ULocked => 4
    case UCounting(_) => 3
    case UCounted => 2
    case UUnlocked => 1
    case _ => 0
  }

  /** A digger with a shovel that is not kept from `lock` soon digs a load or gives the shovel back. */
  lemma {:induction false} HolderFinishes(lab: Lab, s: State, h: Id) returns (es: seq<Event>, t: State)
    requires h in s.tasks && HoldsShovel(s.tasks[h]) && IsRunning(s)
    requires s.lock == if HoldsLock(s.tasks[h]) then Digger(h) else Free
    ensures LeadsTo(lab, s, es, t) && OfDiggers(es) && |es| <= Distance(s.tasks[h])
    ensures t.dug > s.dug || (t.dug == s.dug && t.shovels > 0)
    ensures forall x | x in s.tasks && x != h :: x in t.tasks && t.tasks[x] == s.tasks[x]
    ensures IsRunning(t)
    decreases Distance(s.tasks[h])
  {
    var u := Apply(lab, s, Act(h));
    if HoldsShovel(u.tasks[h]) && u.dug == s.dug {
      es, t := HolderFinishes(lab, u, h);
    } else {
      es, t := [], u;
    }
    Prepend(lab, s, Act(h), es, t);
    es := [Act(h)] + es;
  }

  /** When no shovel is free, a few steps of a holder free one or dig a load. */
  lemma ShovelCanBeFreed(lab: Lab, s: State) returns (es: seq<Event>, t: State)
    requires ShovelsConserved(s) && LockOk(lab, s) && IsRunning(s) && s.shovels == 0
    ensures LeadsTo(lab, s, es, t) && OfDiggers(es) && |es| <= 6
    ensures t.dug > s.dug || (t.dug == s.dug && t.shovels > 0)
    ensures forall x | x in s.tasks && !HoldsShovel(s.tasks[x]) :: x in t.tasks && t.tasks[x] == s.tasks[x]
    ensures IsRunning(t)
  {
    if s.lock.Digger? {
      es, t := HolderFinishes(lab, s, s.lock.id);
    } else {
      var h := SomeHolder(lab, s);
      if s.lock.Free? {
        es, t := HolderFinishes(lab, s, h);
      } else {
        var u := Apply(lab, s, OtherGives);
        es, t := HolderFinishes(lab, u, h);
        Prepend(lab, s, OtherGives, es, t);
        es := [OtherGives] + es;
      }
    }
  }

  /** With a shovel free, a lower digger that is not working needs at most five steps of its own. */
  lemma {:induction false} LowerDigs(lab: Lab, s: State, d: Id, k: nat) returns (es: seq<Event>, t: State)
    requires d in s.tasks && IsRunning(s)
    requires match s.tasks[d]
             case LWorking => true
             case LSafe => s.shovels > 0 && k >= 1
             case LResting => s.shovels > 0 && k >= 2
             case LGave => s.shovels > 0 && k >= 3
             case LDug => k >= 4
             case _ => false
    ensures LeadsTo(lab, s, es, t) && OfDiggers(es) && |es| <= k + 1 && t.dug > s.dug
    decreases k
  {
    var u := Apply(lab, s, Act(d));
    if s.tasks[d].LWorking? {
      es, t := [], u;
    } else {
      es, t := LowerDigs(lab, u, d, k - 1);
    }
    Prepend(lab, s, Act(d), es, t);
    es := [Act(d)] + es;
  }

  /** Not only is some step possible: whenever a lower digger lives and the process is not about to end,
      even while the command task waits to delete that digger, at most eleven steps, none a timeout, lead
      to another load being dug. */
  lemma AnotherLoadCanBeDug(lab: Lab, history: seq<Event>, d: Id) returns (es: seq<Event>, t: State)
    requires var s := After(lab, history);
             IsRunning(s) && d in s.tasks && IsLower(s.tasks[d])
    ensures LeadsTo(lab, After(lab, history), es, t) && OfDiggers(es) && |es| <= 11
    ensures t.dug > After(lab, history).dug
  {
    var s := After(lab, history);
    AfterKeeps(lab, history);
    if s.shovels > 0 || s.tasks[d].LWorking? || s.tasks[d].LDug? {
      es, t := LowerDigs(lab, s, d, 4);
    } else {
      es, t := ShovelCanBeFreed(lab, s);
      if t.dug == s.dug {
        var fs, u := LowerDigs(lab, t, d, 4);
        LeadsOn(lab, s, es, t, fs, u);
        es, t := es + fs, u;
      }
    }
  }

  // ---------------------------------------------------------------- deletions complete

  /** How many steps of its own a digger is from the end of its safe section. */
  function StepsInside(pc: Pc): nat {
    match pc
    case LSafe => 4
    case LWorking => 3
    case LDug => 2
    case LGave => 1
    case USafe => 7
    case UTimedOut => 2
    case UReturned => 1
    case UWorking => 6
    case ULocked => 5
    case UCounting(_) => 4
    case UCounted => 3
    case UUnlocked => 2
    case UGave => 1
    case _ => 0
  }

  /** The command task does the same in t as in s. */
  predicate SameCommand(s: State, t: State) {
    t.command == s.command && t.lower == s.lower && t.upper == s.upper
  }

  /** Digger h is kept neither from a shovel nor from `lock`. */
  predicate IsFree(s: State, h: Id) {
    && h in s.tasks && IsRunning(s)
    && s.lock == (if HoldsLock(s.tasks[h]) then Digger(h) else Free)
    && (s.tasks[h].LSafe? || s.tasks[h].USafe? ==> s.shovels > 0)
  }

  /** Free shovels and the one of h, if it has one. */
  function Within(s: State, h: Id): nat
    requires h in s.tasks
  {
    s.shovels + if HoldsShovel(s.tasks[h]) then 1 else 0
  }

  /** Nothing but digger h, the counts and `lock` differs. */
  ghost predicate OnlyMoved(s: State, t: State, h: Id) {
    && SameCommand(s, t) && h in s.tasks && h in t.tasks
    && (forall x | x in s.tasks && x != h :: x in t.tasks && t.tasks[x] == s.tasks[x])
  }

  /** An upper digger in its safe section with a load that it will finish. */
  predicate WillFinish(pc: Pc) {
    pc.USafe? || pc.UWorking? || pc.ULocked? || pc.UCounting?
  }

  /** The loads that digger d can get at: those on the heap and the one in its hands. */
  function LoadsFor(s: State, d: Id): nat
    requires d in s.tasks
  {
    s.heap + if CarriesLoad(s.tasks[d]) then 1 else 0
  }

  /** From s to t digger d loses no load, or a load has been finished. */
  ghost predicate Keeps(s: State, t: State, d: Id) {
    && d in s.tasks && d in t.tasks && (IsUpper(t.tasks[d]) <==> IsUpper(s.tasks[d]))
    && t.finished >= s.finished
    && (t.finished == s.finished ==>
          LoadsFor(t, d) >= LoadsFor(s, d) && (WillFinish(s.tasks[d]) ==> WillFinish(t.tasks[d])))
  }

  ghost predicate LoadsStay(s: State, t: State) {
    forall d | d in s.tasks :: Keeps(s, t, d)
  }

  /** A step of h towards the end of its safe section. */
  ghost predicate IsOwnStep(lab: Lab, s: State, h: Id) {
    && Enabled(lab, s, Act(h))
    && var t := Apply(lab, s, Act(h));
       && h in s.tasks && IsFree(t, h) && OnlyMoved(s, t, h) && Within(t, h) >= Within(s, h)
       && StepsInside(t.tasks[h]) < StepsInside(s.tasks[h])
       && t.heap >= s.heap && Keeps(s, t, h)
  }

  lemma LowerStep(lab: Lab, s: State, h: Id)
    requires IsFree(s, h) && Protected(s.tasks[h]) && IsLower(s.tasks[h])
    ensures IsOwnStep(lab, s, h)
  {
  }

  lemma UpperStep(lab: Lab, s: State, h: Id)
    requires IsFree(s, h) && Protected(s.tasks[h]) && IsUpper(s.tasks[h]) && !IsLockStep(Lab3, s.tasks[h])
    ensures IsOwnStep(lab, s, h)
  {
  }

  lemma LockStep(lab: Lab, s: State, h: Id)
    requires IsFree(s, h) && IsLockStep(Lab3, s.tasks[h])
    ensures IsOwnStep(lab, s, h)
  {
  }

  lemma OwnStep(lab: Lab, s: State, h: Id)
    requires IsFree(s, h) && Protected(s.tasks[h])
    ensures IsOwnStep(lab, s, h)
  {
    if IsLower(s.tasks[h]) {
      LowerStep(lab, s, h);
    } else if IsLockStep(Lab3, s.tasks[h]) {
      LockStep(lab, s, h);
    } else {
      UpperStep(lab, s, h);
    }
  }

  /** A digger that is kept neither from a shovel nor from `lock` leaves its safe section by itself. */
  lemma {:induction false} Leaves(lab: Lab, s: State, h: Id) returns (es: seq<Event>, t: State)
    requires IsFree(s, h)
    ensures LeadsTo(lab, s, es, t) && OfDiggers(es) && |es| <= StepsInside(s.tasks[h])
    ensures OnlyMoved(s, t, h) && !Protected(t.tasks[h]) && t.lock.Free? && t.shovels >= Within(s, h)
    ensures t.heap >= s.heap && Keeps(s, t, h)
    decreases StepsInside(s.tasks[h])
  {
    if !Protected(s.tasks[h]) {
      es, t := [], s;
    } else {
      OwnStep(lab, s, h);
      es, t := Leaves(lab, Apply(lab, s, Act(h)), h);
      Prepend(lab, s, Act(h), es, t);
      es := [Act(h)] + es;
    }
  }

  lemma {:induction false} LeadsToKeeps(lab: Lab, s: State, es: seq<Event>, t: State)
    requires Inv(lab, s) && LeadsTo(lab, s, es, t)
    ensures Inv(lab, t)
    decreases |es|
  {
    if es != [] {
      StepKeeps(lab, s, es[0]);
      LeadsToKeeps(lab, Apply(lab, s, es[0]), es[1..], t);
    }
  }

  /** Whoever holds `lock` gives it back. */
  lemma LockIsGiven(lab: Lab, s: State) returns (es: seq<Event>, t: State)
    requires LockOk(lab, s) && IsRunning(s)
    ensures LeadsTo(lab, s, es, t) && OfDiggers(es) && |es| <= 5
    ensures SameCommand(s, t) && t.lock.Free? && LoadsStay(s, t)
  {
    if s.lock.Digger? {
      es, t := Leaves(lab, s, s.lock.id);
    } else if s.lock.Other? {
      es, t := [OtherGives], Apply(lab, s, OtherGives);
      OneStep(lab, s, OtherGives);
    } else {
      es, t := [], s;
    }
  }

  /** A digger gets a shovel to be free, if it needs one. */
  lemma ShovelIsGiven(lab: Lab, s: State, d: Id) returns (es: seq<Event>, t: State)
    requires ShovelsConserved(s) && LockOk(lab, s) && IsRunning(s) && s.lock.Free? && d in s.tasks
    ensures LeadsTo(lab, s, es, t) && OfDiggers(es) && |es| <= 6
    ensures SameCommand(s, t) && IsFree(t, d) && LoadsStay(s, t)
  {
    if (s.tasks[d].LSafe? || s.tasks[d].USafe?) && s.shovels == 0 {
      var h := SomeHolder(lab, s);
      es, t := Leaves(lab, s, h);
    } else {
      es, t := [], s;
    }
  }

  lemma BecomesFree(lab: Lab, s: State, d: Id) returns (es: seq<Event>, t: State)
    requires Inv(lab, s) && IsRunning(s) && d in s.tasks
    ensures LeadsTo(lab, s, es, t) && OfDiggers(es) && |es| <= 11
    ensures SameCommand(s, t) && IsFree(t, d) && Keeps(s, t, d)
  {
    var fs, u := LockIsGiven(lab, s);
    LeadsToKeeps(lab, s, fs, u);
    var gs;
    gs, t := ShovelIsGiven(lab, u, d);
    LeadsOn(lab, s, fs, u, gs, t);
    es := fs + gs;
  }

  /** Any digger can leave its safe section: at most eighteen steps bring it out, none of them a timeout. */
  lemma AnyoneLeaves(lab: Lab, s: State, d: Id) returns (es: seq<Event>, t: State)
    requires Inv(lab, s) && IsRunning(s) && d in s.tasks
    ensures LeadsTo(lab, s, es, t) && OfDiggers(es) && |es| <= 18
    ensures SameCommand(s, t) && Keeps(s, t, d) && !Protected(t.tasks[d])
  {
    var fs, u := BecomesFree(lab, s, d);
    var gs;
    gs, t := Leaves(lab, u, d);
    LeadsOn(lab, s, fs, u, gs, t);
    es := fs + gs;
  }

  // ---------------------------------------------------------------- loads are finished

  lemma IsSafeWithLoad(lab: Lab, s: State, u: Id) returns (es: seq<Event>, t: State)
    requires !s.command.Ended? && u in s.tasks
    requires s.tasks[u].UTook? || (s.tasks[u].UWaiting? && s.heap > 0)
    ensures LeadsTo(lab, s, es, t) && OfDiggers(es) && |es| <= 2
    ensures u in t.tasks && t.tasks[u].USafe? && t.finished == s.finished && t.command == s.command
  {
    if s.tasks[u].UTook? {
      es, t := [Act(u)], Apply(lab, s, Act(u));
      OneStep(lab, s, Act(u));
    } else {
      var s1 := Apply(lab, s, Act(u));
      OneStep(lab, s1, Act(u));
      t := Apply(lab, s1, Act(u));
      Prepend(lab, s, Act(u), [Act(u)], t);
      es := [Act(u)] + [Act(u)];
    }
  }

  /** An upper digger that can get at a load finishes one, unless another digger finishes one before. */
  lemma UpperWorks(lab: Lab, s: State, u: Id) returns (es: seq<Event>, t: State)
    requires Inv(lab, s) && IsRunning(s)
    requires u in s.tasks && IsUpper(s.tasks[u]) && LoadsFor(s, u) > 0
    ensures LeadsTo(lab, s, es, t) && OfDiggers(es) && |es| <= 38 && t.finished > s.finished
  {
    es, t := AnyoneLeaves(lab, s, u);
    if t.finished == s.finished {
      LeadsToKeeps(lab, s, es, t);
      var fs, v := UpperWorksOutside(lab, t, u);
      LeadsOn(lab, s, es, t, fs, v);
      es, t := es + fs, v;
    }
  }

  lemma UpperWorksOutside(lab: Lab, s: State, u: Id) returns (es: seq<Event>, t: State)
    requires Inv(lab, s) && IsRunning(s)
    requires u in s.tasks && IsUpper(s.tasks[u]) && !Protected(s.tasks[u]) && LoadsFor(s, u) > 0
    ensures LeadsTo(lab, s, es, t) && OfDiggers(es) && |es| <= 20 && t.finished > s.finished
  {
    var fs, v := IsSafeWithLoad(lab, s, u);
    LeadsToKeeps(lab, s, fs, v);
    var gs;
    gs, t := AnyoneLeaves(lab, v, u);
    LeadsOn(lab, s, fs, v, gs, t);
    es := fs + gs;
  }

  /** Each step finishes one load at most. */
  lemma {:induction false} FirstFinish(lab: Lab, s: State, es: seq<Event>, t: State)
    returns (fs: seq<Event>, u: State)
    requires LeadsTo(lab, s, es, t) && OfDiggers(es) && t.finished > s.finished
    ensures LeadsTo(lab, s, fs, u) && OfDiggers(fs) && |fs| <= |es|
    ensures u.finished == s.finished + 1 && u.command == s.command
    decreases |es|
  {
    var s1 := Apply(lab, s, es[0]);
    StepFinishes(lab, s, es[0]);
    if s1.finished > s.finished {
      OneStep(lab, s, es[0]);
      fs, u := [es[0]], s1;
    } else {
      fs, u := FirstFinish(lab, s1, es[1..], t);
      Prepend(lab, s, es[0], fs, u);
      fs := [es[0]] + fs;
    }
  }

  lemma StepFinishes(lab: Lab, s: State, e: Event)
    requires Enabled(lab, s, e) && (e.Act? || e.OtherGives?)
    ensures var t := Apply(lab, s, e); s.finished <= t.finished <= s.finished + 1 && t.command == s.command
  {
  }

  /** In every run, as long as the process does not end, a live upper digger and a load on the heap or in its
      hands are enough: at most 38 steps, none a timeout, lead to one more finished load, which lab 3 also
      counts. */
  lemma LoadCanBeFinished(lab: Lab, history: seq<Event>, u: Id) returns (es: seq<Event>, t: State)
    requires var s := After(lab, history);
             IsRunning(s) && u in s.tasks && IsUpper(s.tasks[u]) && (s.heap > 0 || CarriesLoad(s.tasks[u]))
    ensures var s := After(lab, history);
            && LeadsTo(lab, s, es, t) && OfDiggers(es) && |es| <= 38
            && t.finished == s.finished + 1 && (lab.Lab3? ==> t.done == s.done + 1)
  {
    var s := After(lab, history);
    AfterKeeps(lab, history);
    var fs, v := UpperWorks(lab, s, u);
    es, t := FirstFinish(lab, s, fs, v);
    LeadsToKeeps(lab, s, es, t);
  }

  lemma TargetLives(s: State)
    requires RosterOk(s) && HasTarget(s)
    ensures Target(s) in s.tasks && IsRunning(s)
  {
    assert Target(s) in LiveLower(s) || Target(s) in LiveUpper(s) by {
      if s.command.EndLower? {
        assert s.lower[s.command.i..][0] == Target(s);
      } else if s.command.EndUpper? {
        assert s.upper[s.command.i..][0] == Target(s);
      }
    }
  }

  /** What the deletion of the target leaves to do. */
  function Later(c: Command): Command {
    match c
    case EndLower(i) => EndLower(i + 1)
    case EndUpper(i) => EndUpper(i + 1)
    case _ => Ready
  }

  lemma TargetGoes(s: State)
    requires HasTarget(s) && CanProceed(s)
    ensures var t := ProceedStep(s);
            && Target(s) !in t.tasks && t.command == Later(s.command)
            && (s.command.EndLower? || s.command.EndUpper? ==> t.lower == s.lower && t.upper == s.upper)
  {
    ProceedRemoves(s);
  }

  lemma OneStep(lab: Lab, s: State, e: Event)
    requires Enabled(lab, s, e)
    ensures LeadsTo(lab, s, [e], Apply(lab, s, e))
  {
    assert LeadsTo(lab, Apply(lab, s, e), [e][1..], Apply(lab, s, e));
  }

  /** A deferred deletion completes after at most nineteen steps. */
  lemma DeletionCompletes(lab: Lab, s: State) returns (es: seq<Event>, t: State)
    requires Inv(lab, s) && HasTarget(s)
    ensures LeadsTo(lab, s, es, t) && |es| <= 19
    ensures Target(s) !in t.tasks && t.command == Later(s.command)
    ensures s.command.EndLower? || s.command.EndUpper? ==> t.lower == s.lower && t.upper == s.upper
  {
    TargetLives(s);
    var fs, u := AnyoneLeaves(lab, s, Target(s));
    assert Target(u) == Target(s);
    TargetGoes(u);
    OneStep(lab, u, Proceed);
    t := Apply(lab, u, Proceed);
    LeadsOn(lab, s, fs, u, [Proceed], t);
    es := fs + [Proceed];
  }

  /** d is the youngest of the live diggers of its kind. */
  ghost predicate IsYoungest(s: State, d: Id, lower: bool) {
    && d in s.tasks && IsLower(s.tasks[d]) == lower
    && forall x | x in s.tasks && IsLower(s.tasks[x]) == lower :: x <= d
  }

  /** Whenever the commands o and O delete, they delete the youngest lower or upper digger, and nobody else. */
  lemma YoungestIsDeleted(lab: Lab, history: seq<Event>) returns (d: Id)
    ensures var s := After(lab, history);
            (s.command.DeletingLower? || s.command.DeletingUpper?) && Enabled(lab, s, Proceed) ==>
              && IsYoungest(s, d, s.command.DeletingLower?)
              && Apply(lab, s, Proceed).tasks == s.tasks - {d}
  {
    var s := After(lab, history);
    AfterKeeps(lab, history);
    d := 0;
    if (s.command.DeletingLower? || s.command.DeletingUpper?) && CanProceed(s) {
      d := Target(s);
      YoungestGoes(s);
    }
  }

  lemma YoungestGoes(s: State)
    requires RosterOk(s) && (s.command.DeletingLower? || s.command.DeletingUpper?) && CanProceed(s)
    ensures HasTarget(s) && IsYoungest(s, Target(s), s.command.DeletingLower?)
    ensures ProceedStep(s).tasks == s.tasks - {Target(s)}
  {
    ProceedRemoves(s);
    var ids := if s.command.DeletingLower? then s.lower else s.upper;
    var last := |ids| - 1;
    assert Target(s) == ids[last] && ids[last] in ids;
    forall x | x in ids
      ensures x <= Target(s)
    {
      var i :| 0 <= i < |ids| && ids[i] == x;
      assert i < last ==> ids[i] < ids[last];
    }
  }

  /** How many deletions and changes of loop the command E of lab 2 has still to make. */
  function Remaining(s: State): int {
    match s.command
    case EndLower(i) => |s.lower| - i + |s.upper| + 2
    case EndUpper(i) => |s.upper| - i + 1
    case _ => 0
  }

  /** One deletion or change of loop of the command E. */
  lemma EndGoesOn(s: State) returns (es: seq<Event>, t: State)
    requires Inv(Lab2, s) && (s.command.EndLower? || s.command.EndUpper?)
    ensures LeadsTo(Lab2, s, es, t) && |es| <= 19 && Inv(Lab2, t)
    ensures t.command.EndLower? || t.command.EndUpper? || (t.command.Ready? && t.tasks == map[])
    ensures 0 <= Remaining(t) < Remaining(s)
  {
    if HasTarget(s) {
      es, t := DeletionCompletes(Lab2, s);
    } else {
      if s.command.EndUpper? {
        NobodyLeft(s);
      }
      es, t := [Proceed], Apply(Lab2, s, Proceed);
      OneStep(Lab2, s, Proceed);
    }
    LeadsToKeeps(Lab2, s, es, t);
  }

  lemma {:induction false} EndFinishes(s: State) returns (es: seq<Event>, t: State)
    requires Inv(Lab2, s) && (s.command.EndLower? || s.command.EndUpper?)
    ensures LeadsTo(Lab2, s, es, t) && |es| <= 19 * Remaining(s)
    ensures t.command.Ready? && t.tasks == map[] && t.shovels == SHOVELS && t.dug == t.heap + t.finished + t.lost
    decreases Remaining(s)
  {
    es, t := EndGoesOn(s);
    if t.command.Ready? {
      assert Select(t.tasks, HoldsShovel) == {} && Select(t.tasks, CarriesLoad) == {};
    } else {
      var fs, u := EndFinishes(t);
      LeadsOn(Lab2, s, es, t, fs, u);
      es, t := es + fs, u;
    }
  }

  /** The command E of lab 2, given in any reachable state in which the command task listens, can always
      come to its end, whatever the diggers hold: then nobody is left and all shovels are back. */
  lemma EndCompletes(history: seq<Event>) returns (es: seq<Event>, t: State)
    requires After(Lab2, history).command.Ready?
    ensures var s := After(Lab2, history);
            && LeadsTo(Lab2, s, [AskEnd] + es, t) && |es| <= 19 * (|s.lower| + |s.upper| + 2)
            && t.command.Ready? && t.tasks == map[] && t.shovels == SHOVELS
            && t.dug == t.heap + t.finished + t.lost
  {
    var s := After(Lab2, history);
    AfterKeeps(Lab2, history);
    var u := Apply(Lab2, s, AskEnd);
    RequestKeeps(Lab2, s, AskEnd);
    es, t := EndFinishes(u);
    Prepend(Lab2, s, AskEnd, es, t);
  }

  /** The two steps of the command E of lab 3 under `lock`. */
  lemma Releases(s: State) returns (t: State)
    requires s.command.Releasing? && s.lock.Free?
    ensures LeadsTo(Lab3, s, [Proceed, Proceed], t)
    ensures t.command.Ended? && t.done == 0 && t.lock.Free? && t.tasks == s.tasks && t.finished == s.finished
  {
    var u := Apply(Lab3, s, Proceed);
    t := Apply(Lab3, u, Proceed);
    OneStep(Lab3, u, Proceed);
    Prepend(Lab3, s, Proceed, [Proceed], t);
    assert [Proceed, Proceed] == [Proceed] + [Proceed];
  }

  /** The command E of lab 3, given in any reachable state in which the command task listens, can come to its
      end in at most seven more steps: the counter is zero, and `lock` is free. */
  lemma ReleaseCompletes(history: seq<Event>) returns (es: seq<Event>, t: State)
    requires After(Lab3, history).command.Ready?
    ensures LeadsTo(Lab3, After(Lab3, history), [AskEnd] + es, t) && |es| <= 7
    ensures t.command.Ended? && t.done == 0 && t.lock.Free?
  {
    var s := After(Lab3, history);
    AfterKeeps(Lab3, history);
    var u := Apply(Lab3, s, AskEnd);
    RequestKeeps(Lab3, s, AskEnd);
    var fs, v := LockIsGiven(Lab3, u);
    t := Releases(v);
    LeadsOn(Lab3, u, fs, v, [Proceed, Proceed], t);
    es := fs + [Proceed, Proceed];
    Prepend(Lab3, s, AskEnd, es, t);
  }

  // ---------------------------------------------------------------- the deadlock is real

  lemma AfterSnoc(lab: Lab, history: seq<Event>, e: Event)
    requires Enabled(lab, After(lab, history), e)
    ensures After(lab, history + [e]) == Apply(lab, After(lab, history), e)
  {
    assert (history + [e])[..|history|] == history;
  }

  lemma {:induction false} AfterLeadsTo(lab: Lab, history: seq<Event>, es: seq<Event>, t: State)
    requires LeadsTo(lab, After(lab, history), es, t)
    ensures After(lab, history + es) == t
    decreases |es|
  {
    if es == [] {
      assert history + es == history;
    } else {
      AfterSnoc(lab, history, es[0]);
      AfterLeadsTo(lab, history + [es[0]], es[1..], t);
      assert history + es == history + [es[0]] + es[1..];
    }
  }

  lemma TwoDiggers(lab: Lab) returns (t: State)
    ensures LeadsTo(lab, Init(), [SpawnLower, SpawnUpper], t)
    ensures t == Init().(tasks := map[0 := LResting, 1 := UWaiting], lower := [0], upper := [1], nextId := 2)
  {
    var u := Apply(lab, Init(), SpawnLower);
    t := Apply(lab, u, SpawnUpper);
    OneStep(lab, u, SpawnUpper);
    Prepend(lab, Init(), SpawnLower, [SpawnUpper], t);
    assert [SpawnLower] + [SpawnUpper] == [SpawnLower, SpawnUpper];
  }

  lemma LowerGoes(lab: Lab, s: State) returns (t: State)
    requires s == Init().(tasks := map[0 := LResting, 1 := UWaiting], lower := [0], upper := [1], nextId := 2)
    ensures LeadsTo(lab, s, [AskLower, Proceed], t)
    ensures OnlyWaiting(t) && t.command.Ready? && t.tasks == map[1 := UWaiting]
  {
    var u := Apply(lab, s, AskLower);
    assert Target(u) == 0;
    ProceedRemoves(u);
    OneStep(lab, u, Proceed);
    t := Apply(lab, u, Proceed);
    Prepend(lab, s, AskLower, [Proceed], t);
    assert [AskLower] + [Proceed] == [AskLower, Proceed];
  }

  lemma DeadlockRun(lab: Lab) returns (t: State)
    ensures LeadsTo(lab, After(lab, []), [SpawnLower, SpawnUpper] + [AskLower, Proceed], t)
    ensures OnlyWaiting(t) && t.command.Ready? && t.tasks == map[1 := UWaiting]
  {
    var s := TwoDiggers(lab);
    t := LowerGoes(lab, s);
    LeadsOn(lab, Init(), [SpawnLower, SpawnUpper], s, [AskLower, Proceed], t);
  }

  /** A run that ends with an upper digger waiting for ever: the only lower digger is deleted before it has
      dug anything. */
  lemma DeadlockIsReachable(lab: Lab)
    ensures var s := After(lab, [SpawnLower, SpawnUpper, AskLower, Proceed]);
            OnlyWaiting(s) && s.command.Ready? && s.tasks == map[1 := UWaiting]
  {
    var es := [SpawnLower, SpawnUpper] + [AskLower, Proceed];
    var t := DeadlockRun(lab);
    AfterLeadsTo(lab, [], es, t);
    assert [] + es == es == [SpawnLower, SpawnUpper, AskLower, Proceed];
  }

  // ---------------------------------------------------------------- other states that runs reach

  /** Any number of lower diggers up to fifty, and then no more of either kind. */
  lemma {:induction false} LowerDiggersCanBe(lab: Lab, k: nat) returns (es: seq<Event>)
    requires k <= MAX_DIGGERS
    ensures var s := After(lab, es);
            && |s.lower| == k && |Select(s.tasks, IsLower)| == k && s.command.Ready?
            && (Enabled(lab, s, SpawnLower) <==> k < 50) && (Enabled(lab, s, SpawnUpper) <==> k < 50)
  {
    if k == 0 {
      es := [];
      assert Select(After(lab, es).tasks, IsLower) == {};
    } else {
      var fs := LowerDiggersCanBe(lab, k - 1);
      AfterKeeps(lab, fs);
      var s := After(lab, fs);
      AfterSnoc(lab, fs, SpawnLower);
      assert s.nextId !in s.tasks;
      CountMoved(s.tasks, s.nextId, LResting, IsLower);
      es := fs + [SpawnLower];
    }
  }

  /** Nothing bounds the number of upper diggers: the test before the command I looks at the lower ones. */
  lemma {:induction false} UpperDiggersCanBe(lab: Lab, k: nat) returns (es: seq<Event>)
    ensures var s := After(lab, es);
            |s.upper| == k && |Select(s.tasks, IsUpper)| == k && s.lower == [] && s.command.Ready?
  {
    if k == 0 {
      es := [];
      assert Select(After(lab, es).tasks, IsUpper) == {};
    } else {
      var fs := UpperDiggersCanBe(lab, k - 1);
      AfterKeeps(lab, fs);
      var s := After(lab, fs);
      AfterSnoc(lab, fs, SpawnUpper);
      assert s.nextId !in s.tasks;
      CountMoved(s.tasks, s.nextId, UWaiting, IsUpper);
      es := fs + [SpawnUpper];
    }
  }

  /** A semTake that times out hands the soil back and changes nothing else. */
  lemma TimeoutReturnsSoil(lab: Lab, s: State, u: Id) returns (t: State)
    requires !s.command.Ended? && u in s.tasks && s.tasks[u].USafe?
    ensures LeadsTo(lab, s, [Timeout(u), Act(u), Act(u)], t)
    ensures t == s.(tasks := s.tasks[u := UWaiting], heap := s.heap + 1)
  {
    var s1 := Apply(lab, s, Timeout(u));
    var s2 := Apply(lab, s1, Act(u));
    t := Apply(lab, s2, Act(u));
    OneStep(lab, s2, Act(u));
    Prepend(lab, s1, Act(u), [Act(u)], t);
    Prepend(lab, s, Timeout(u), [Act(u), Act(u)], t);
    assert [Timeout(u), Act(u), Act(u)] == [Timeout(u)] + [Act(u), Act(u)] && [Act(u)] + [Act(u)] == [Act(u), Act(u)];
    assert t.tasks == s.tasks[u := UWaiting];
  }

  /** In every run with a live upper digger and a load for it, a timeout can come soon. */
  lemma TimeoutCanCome(lab: Lab, history: seq<Event>, u: Id) returns (es: seq<Event>, t: State)
    requires var s := After(lab, history);
             && IsRunning(s) && u in s.tasks
             && (s.tasks[u].USafe? || s.tasks[u].UTook? || (s.tasks[u].UWaiting? && s.heap > 0))
    ensures LeadsTo(lab, After(lab, history), es, t) && OfDiggers(es) && |es| <= 2 && Enabled(lab, t, Timeout(u))
  {
    if After(lab, history).tasks[u].USafe? {
      es, t := [], After(lab, history);
    } else {
      es, t := IsSafeWithLoad(lab, After(lab, history), u);
    }
  }
}
