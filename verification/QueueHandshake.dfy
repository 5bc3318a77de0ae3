/** The handshake between the callers of the message-queue client and its event-loop
    thread (scaffold/src/suiQueue.cpp, class MQClient).

    A caller takes _mtx_all and _mtx, issues its request to the channel, and waits on the
    condition variable, which gives up _mtx. The event loop answers through callbacks:
    a declaration takes three broker answers, a consumption one; the last answer, or the
    first that fails, takes _mtx and notifies. The broker answers every request once, and
    nothing wakes up without a notification. */
module QueueHandshake {
  import opened Base

  datatype Kind = Declare | Consume

  /** Broker answers that an operation needs: exchange, queue and binding, or one. */
  function Answers(kind: Kind): nat {
    if kind == Declare then 3 else 1
  }

  /** Where a caller stands; ok records how its operation ended. */
  datatype Phase =
    | NotStarted(kind: Kind)   // wants _mtx_all
    | HoldsAll(kind: Kind)     // wants _mtx
    | HoldsBoth(kind: Kind)
    | Issued                   // request sent, not waiting yet
    | Parked                   // in wait, _mtx given up
    | Woken(ok: bool)          // notified, wants _mtx back
    | Leaving(ok: bool)
    | Done(ok: bool)

  datatype Request = Request(owner: nat, left: nat)

  datatype Loop =
    | Ready
    | SettingError(owner: nat)               // wants _mtx for setError
    | SettingState(owner: nat)               // wants _mtx for setState
    | WantsLock(owner: nat, ok: bool)        // wants _mtx to notify
    | Notifying(owner: nat, ok: bool)        // holds it

  datatype Holder = Caller(c: nat) | EventLoop

  datatype State = State(
    all: Option<nat>,
    mtx: Option<Holder>,
    callers: seq<Phase>,
    wire: Option<Request>,
    loop: Loop,
    error: bool)

  datatype Step =
    | LockAll(c: nat) | LockMtx(c: nat) | Issue(c: nat) | Wait(c: nat)
    | Answer(ok: bool) | SetError | SetState | LockToNotify | NotifyAll
    | Reacquire(c: nat) | Leave(c: nat)

  function Start(kinds: seq<Kind>): State {
    State(None, None, seq(|kinds|, i requires 0 <= i < |kinds| => NotStarted(kinds[i])), None, Ready, false)
  }

  predicate Enabled(s: State, step: Step) {
    match step
    case LockAll(c) => c < |s.callers| && s.callers[c].NotStarted? && s.all == None
    case LockMtx(c) => c < |s.callers| && s.callers[c].HoldsAll? && s.mtx == None
    case Issue(c) => c < |s.callers| && s.callers[c].HoldsBoth?
    case Wait(c) => c < |s.callers| && s.callers[c].Issued?
    case Answer(_) => s.wire.Some? && s.loop == Ready
    case SetError => s.loop.SettingError? && s.mtx == None
    case SetState => s.loop.SettingState? && s.mtx == None
    case LockToNotify => s.loop.WantsLock? && s.mtx == None
    case NotifyAll => s.loop.Notifying?
    case Reacquire(c) => c < |s.callers| && s.callers[c].Woken? && s.mtx == None
    case Leave(c) => c < |s.callers| && s.callers[c].Leaving?
  }

  function At(s: State, c: nat, p: Phase): State
    requires c < |s.callers|
  {
    s.(callers := s.callers[c := p])
  }

  /** notify_all: everyone who is waiting wakes up. */
  function WakeAll(callers: seq<Phase>, ok: bool): seq<Phase> {
    seq(|callers|, i requires 0 <= i < |callers| => if callers[i].Parked? then Woken(ok) else callers[i])
  }

  function Next(s: State, step: Step): State
    requires Enabled(s, step)
  {
    match step
    case LockAll(c) => At(s, c, HoldsAll(s.callers[c].kind)).(all := Some(c))
    case LockMtx(c) => At(s, c, HoldsBoth(s.callers[c].kind)).(mtx := Some(Caller(c)))
    case Issue(c) => At(s, c, Issued).(wire := Some(Request(c, Answers(s.callers[c].kind))))
    case Wait(c) => At(s, c, Parked).(mtx := None)
    case Answer(ok) =>
      var Request(owner, left) := s.wire.value;
      if !ok then s.(wire := None, loop := SettingError(owner))
      else if left > 1 then s.(wire := Some(Request(owner, left - 1)))
      else s.(wire := None, loop := WantsLock(owner, true))
    case SetError => s.(loop := SettingState(s.loop.owner))
    case SetState => s.(loop := WantsLock(s.loop.owner, false), error := true)
    case LockToNotify => s.(loop := Notifying(s.loop.owner, s.loop.ok), mtx := Some(EventLoop))
    case NotifyAll => s.(callers := WakeAll(s.callers, s.loop.ok), loop := Ready, mtx := None)
    case Reacquire(c) => At(s, c, Leaving(s.callers[c].ok)).(mtx := Some(Caller(c)))
    case Leave(c) => At(s, c, Done(s.callers[c].ok)).(mtx := None, all := None)
  }

  // -------------------------------------------------------------------- the invariant

  /** The caller whose operation the broker or the event loop is still busy with. */
  function Owner(s: State): Option<nat> {
    if s.wire.Some? then Some(s.wire.value.owner)
    else if s.loop == Ready then None
    else Some(s.loop.owner)
  }

  predicate Inside(p: Phase) { !p.NotStarted? && !p.Done? }
  predicate HasMtx(p: Phase) { p.HoldsBoth? || p.Issued? || p.Leaving? }
  predicate Outstanding(p: Phase) { p.Issued? || p.Parked? }

  /** An operation that ended badly, at its caller or still in the event loop. */
  predicate Failed(p: Phase) { (p.Woken? || p.Leaving? || p.Done?) && !p.ok }

  ghost predicate SomeFailed(s: State) {
    || ((s.loop.WantsLock? || s.loop.Notifying?) && !s.loop.ok)
    || (exists c :: 0 <= c < |s.callers| && Failed(s.callers[c]))
  }

  ghost predicate LocksInv(s: State) {
    && (forall c :: 0 <= c < |s.callers| ==> (s.all == Some(c) <==> Inside(s.callers[c])))
    && (s.all.Some? ==> s.all.value < |s.callers|)
    && (forall c :: 0 <= c < |s.callers| ==> (s.mtx == Some(Caller(c)) <==> HasMtx(s.callers[c])))
    && (s.mtx.Some? && s.mtx.value.Caller? ==> s.mtx.value.c < |s.callers|)
    && (s.mtx == Some(EventLoop) <==> s.loop.Notifying?)
  }

  ghost predicate OwnerInv(s: State) {
    && (s.wire.Some? ==> s.loop == Ready && 1 <= s.wire.value.left <= 3)
    && (forall c :: 0 <= c < |s.callers| ==> (Owner(s) == Some(c) <==> Outstanding(s.callers[c])))
    && (Owner(s).Some? ==> Owner(s).value < |s.callers|)
  }

  ghost predicate Inv(s: State) {
    LocksInv(s) && OwnerInv(s) && (s.error <==> SomeFailed(s))
  }

  /** A notification wakes its own caller and nobody else. */
  lemma WakesOwner(s: State)
    requires Inv(s) && s.loop.Notifying?
    ensures s.loop.owner < |s.callers| && s.callers[s.loop.owner].Parked?
    ensures WakeAll(s.callers, s.loop.ok) == s.callers[s.loop.owner := Woken(s.loop.ok)]
  {
    hide SomeFailed;
    assert Owner(s) == Some(s.loop.owner);
    assert !HasMtx(s.callers[s.loop.owner]);
  }

  lemma StartInv(kinds: seq<Kind>)
    ensures Inv(Start(kinds))
  {
  }

  lemma CallerLocks(s: State, step: Step, c: nat)
    requires Inv(s) && Enabled(s, step) && c < |s.callers|
    ensures var s' := Next(s, step);
            && |s'.callers| == |s.callers|
            && (s'.all == Some(c) <==> Inside(s'.callers[c]))
            && (s'.mtx == Some(Caller(c)) <==> HasMtx(s'.callers[c]))
  {
    if step == NotifyAll {
      WakesOwner(s);
    }
    hide SomeFailed, OwnerInv;
  }

  lemma LocksStep(s: State, step: Step)
    requires Inv(s) && Enabled(s, step)
    ensures LocksInv(Next(s, step))
  {
    var s' := Next(s, step);
    assert s'.mtx == Some(EventLoop) <==> s'.loop.Notifying? by { hide OwnerInv, SomeFailed; }
    forall c | 0 <= c < |s.callers|
      ensures |s'.callers| == |s.callers|
      ensures s'.all == Some(c) <==> Inside(s'.callers[c])
      ensures s'.mtx == Some(Caller(c)) <==> HasMtx(s'.callers[c])
    {
      CallerLocks(s, step, c);
    }
    hide SomeFailed, OwnerInv, Inside, HasMtx;
  }

  lemma CallerOwner(s: State, step: Step, c: nat)
    requires Inv(s) && Enabled(s, step) && c < |s.callers|
    ensures |Next(s, step).callers| == |s.callers|
    ensures Owner(Next(s, step)) == Some(c) <==> Outstanding(Next(s, step).callers[c])
  {
    if step == NotifyAll {
      WakesOwner(s);
    }
    if step.Issue? {
      HolderInside(s);
      assert s.all == Some(step.c);
    }
    hide SomeFailed, LocksInv;
  }

  lemma OwnerStep(s: State, step: Step)
    requires Inv(s) && Enabled(s, step)
    ensures OwnerInv(Next(s, step))
  {
    var s' := Next(s, step);
    forall c | 0 <= c < |s.callers|
      ensures |s'.callers| == |s.callers| && (Owner(s') == Some(c) <==> Outstanding(s'.callers[c]))
    {
      CallerOwner(s, step, c);
    }
    hide SomeFailed, LocksInv, Outstanding;
  }

  lemma ErrorStep(s: State, step: Step)
    requires Inv(s) && Enabled(s, step)
    ensures Next(s, step).error <==> SomeFailed(Next(s, step))
  {
    var s' := Next(s, step);
    if step == NotifyAll {
      WakesOwner(s);
      assert s'.callers[s.loop.owner] == Woken(s.loop.ok);
    }
    hide LocksInv, OwnerInv;
    if s.error {
      if c :| 0 <= c < |s.callers| && Failed(s.callers[c]) {
        assert Failed(s'.callers[c]);
      }
    }
  }

  lemma StepInv(s: State, step: Step)
    requires Inv(s) && Enabled(s, step)
    ensures Inv(Next(s, step))
  {
    LocksStep(s, step);
    OwnerStep(s, step);
    ErrorStep(s, step);
  }

  // ------------------------------------------------------------------- what it gives

  /** No wakeup is lost: a caller that waits is the one whose answer or notification is
      still to come. There is never more than one request outstanding. */
  lemma NoLostWakeup(s: State, c: nat)
    requires Inv(s) && c < |s.callers| && Outstanding(s.callers[c])
    ensures Owner(s) == Some(c)
    ensures forall d :: 0 <= d < |s.callers| && Outstanding(s.callers[d]) ==> d == c
  {
  }

  /** The error state is absorbing, and a caller whose operation failed returns into it. */
  lemma ErrorAbsorbs(s: State, step: Step)
    requires Inv(s) && Enabled(s, step)
    ensures s.error ==> Next(s, step).error
    ensures forall c :: 0 <= c < |s.callers| && Next(s, step).callers[c] == Done(false) ==> Next(s, step).error
  {
    StepInv(s, step);
    hide LocksInv, OwnerInv;
    forall c | 0 <= c < |s.callers| && Next(s, step).callers[c] == Done(false) ensures Next(s, step).error {
      assert Failed(Next(s, step).callers[c]);
    }
  }

  /** Whoever holds _mtx as a caller, and whoever is waited for, is the caller inside. */
  lemma HolderInside(s: State)
    requires Inv(s)
    ensures s.mtx.Some? && s.mtx.value.Caller? ==>
              s.all == Some(s.mtx.value.c) && s.mtx.value.c < |s.callers| && HasMtx(s.callers[s.mtx.value.c])
    ensures s.mtx == Some(EventLoop) <==> s.loop.Notifying?
    ensures Owner(s).Some? ==>
              s.all == Owner(s) && Owner(s).value < |s.callers| && Outstanding(s.callers[Owner(s).value])
  {
    hide SomeFailed;
    if s.mtx.Some? && s.mtx.value.Caller? {
      assert HasMtx(s.callers[s.mtx.value.c]) && Inside(s.callers[s.mtx.value.c]);
    }
    if Owner(s).Some? {
      assert Outstanding(s.callers[Owner(s).value]) && Inside(s.callers[Owner(s).value]);
    }
  }

  lemma InsideOne(s: State)
    requires Inv(s)
    ensures s.all.Some? ==> s.all.value < |s.callers| && Inside(s.callers[s.all.value])
  {
  }

  /** If the caller inside does not hold _mtx, only the event loop can. */
  lemma MtxFree(s: State, h: nat)
    requires Inv(s) && s.all == Some(h) && h < |s.callers| && !HasMtx(s.callers[h])
    ensures s.mtx == None || s.loop.Notifying?
  {
    HolderInside(s);
    hide Inv;
  }

  /** No deadlock: while some caller has not returned, something can happen. */
  lemma NoDeadlock(s: State, c: nat) returns (step: Step)
    requires Inv(s) && c < |s.callers| && !s.callers[c].Done?
    ensures Enabled(s, step)
  {
    if s.all == None {
      assert !Inside(s.callers[c]);
      step := LockAll(c);
    } else {
      var h := s.all.value;
      assert Inside(s.callers[h]);
      if !HasMtx(s.callers[h]) {
        MtxFree(s, h);
      }
      if s.loop.Notifying? {
        step := NotifyAll;
      } else {
        step := match s.callers[h]
                case HoldsAll(_) => LockMtx(h)
                case HoldsBoth(_) => Issue(h)
                case Issued => Wait(h)
                case Parked =>
                  (match s.loop
                   case SettingError(_) => SetError
                   case SettingState(_) => SetState
                   case WantsLock(_, _) => LockToNotify
                   case _ => Answer(true))
                case Woken(_) => Reacquire(h)
                case _ => Leave(h);
        if s.callers[h].Parked? {
          NoLostWakeup(s, h);
        }
      }
      hide LocksInv, OwnerInv, SomeFailed;
    }
  }

  // ---------------------------------------------------------------------- termination

  function PhaseRank(p: Phase): nat {
    match p
    case NotStarted(_) => 60
    case HoldsAll(_) => 50
    case HoldsBoth(_) => 40
    case Issued => 20
    case Parked => 15
    case Woken(_) => 3
    case Leaving(_) => 2
    case Done(_) => 0
  }

  function Sum(callers: seq<Phase>): nat {
    if callers == [] then 0 else PhaseRank(callers[0]) + Sum(callers[1..])
  }

  lemma {:induction false} SumUpdate(callers: seq<Phase>, c: nat, p: Phase)
    requires c < |callers|
    ensures Sum(callers[c := p]) == Sum(callers) - PhaseRank(callers[c]) + PhaseRank(p)
    decreases c
  {
    if c == 0 {
      assert callers[0 := p][1..] == callers[1..];
    } else {
      SumUpdate(callers[1..], c - 1, p);
      assert callers[c := p][1..] == callers[1..][c - 1 := p];
    }
  }

  function Rank(s: State): nat {
    Sum(s.callers) + LoopRank(s)
  }

  function LoopRank(s: State): nat {
    (if s.wire.Some? then 4 + s.wire.value.left else 0)
    + (match s.loop case Ready => 0 case SettingError(_) => 4 case SettingState(_) => 3
        case WantsLock(_, _) => 2 case Notifying(_, _) => 1)
  }

  /** A caller's own step lowers its rank by more than it may add to the event loop's. */
  lemma CallerRank(s: State, step: Step, c: nat)
    requires Inv(s) && Enabled(s, step)
    requires step.LockAll? || step.LockMtx? || step.Issue? || step.Wait? || step.Reacquire? || step.Leave?
    requires c == step.c
    ensures Rank(Next(s, step)) < Rank(s)
  {
    var s' := Next(s, step);
    assert s'.callers == s.callers[c := s'.callers[c]];
    SumUpdate(s.callers, c, s'.callers[c]);
    HolderInside(s);
    assert Inside(s.callers[c]) ==> s.all == Some(c);
    hide Sum, Inv;
  }

  lemma StepRank(s: State, step: Step)
    requires Inv(s) && Enabled(s, step)
    ensures Rank(Next(s, step)) < Rank(s)
  {
    match step {
      case LockAll(c) => CallerRank(s, step, c);
      case LockMtx(c) => CallerRank(s, step, c);
      case Issue(c) => CallerRank(s, step, c);
      case Wait(c) => CallerRank(s, step, c);
      case Reacquire(c) => CallerRank(s, step, c);
      case Leave(c) => CallerRank(s, step, c);
      case NotifyAll =>
        WakesOwner(s);
        SumUpdate(s.callers, s.loop.owner, Woken(s.loop.ok));
        hide Sum, LocksInv, SomeFailed;
      case _ => hide Sum, LocksInv, SomeFailed;
    }
  }

  ghost predicate Executable(s: State, steps: seq<Step>)
    decreases |steps|
  {
    steps == [] || (Enabled(s, steps[0]) && Executable(Next(s, steps[0]), steps[1..]))
  }

  ghost function Run(s: State, steps: seq<Step>): State
    requires Executable(s, steps)
    decreases |steps|
  {
    if steps == [] then s else Run(Next(s, steps[0]), steps[1..])
  }

  lemma {:induction false} RunRank(s: State, steps: seq<Step>)
    requires Inv(s) && Executable(s, steps)
    ensures Inv(Run(s, steps)) && |steps| + Rank(Run(s, steps)) <= Rank(s)
    ensures s.error ==> Run(s, steps).error
    decreases |steps|
  {
    if steps != [] {
      StepInv(s, steps[0]);
      StepRank(s, steps[0]);
      ErrorAbsorbs(s, steps[0]);
      hide Inv, Rank;
      RunRank(Next(s, steps[0]), steps[1..]);
    }
  }

  /** Every declare and consume returns: no run is longer than a bound fixed at its
      start, and a run that cannot go on has every caller back, both locks free, nothing
      outstanding, and the error state exactly if some operation failed. */
  lemma EveryCallReturns(kinds: seq<Kind>, steps: seq<Step>)
    requires Executable(Start(kinds), steps)
    ensures |steps| <= Rank(Start(kinds))
    ensures var s := Run(Start(kinds), steps);
            (forall step :: !Enabled(s, step)) ==>
              && (forall c :: 0 <= c < |s.callers| ==> s.callers[c].Done?)
              && s.all == None && s.mtx == None && Owner(s) == None
              && (s.error <==> exists c :: 0 <= c < |s.callers| && s.callers[c] == Done(false))
  {
    StartInv(kinds);
    RunRank(Start(kinds), steps);
    var s := Run(Start(kinds), steps);
    if forall step :: !Enabled(s, step) {
      forall c | 0 <= c < |s.callers| ensures s.callers[c].Done? {
        if !s.callers[c].Done? {
          var step := NoDeadlock(s, c);
        }
      }
      assert !Enabled(s, NotifyAll);
      HolderInside(s);
      InsideOne(s);
      if s.error {
        var c :| 0 <= c < |s.callers| && Failed(s.callers[c]);
        assert s.callers[c] == Done(false);
      }
    }
  }

  // ------------------------------------------------------ the answers of an operation

  /** How many positive answers an operation takes to end well: a declaration those to
      exchange, queue and binding, a consumption its own. */
  function Needed(kind: Kind): nat {
    match kind
    case Declare => 3
    case Consume => 1
  }

  /** The caller who issued last, as the steps alone tell. */
  function LastIssue(steps: seq<Step>): Option<nat>
    decreases |steps|
  {
    if steps == [] then None
    else
      match steps[|steps| - 1]
      case Issue(c) => Some(c)
      case _ => LastIssue(steps[..|steps| - 1])
  }

  /** Broker answers of one sign between the issue of a caller and the next one. */
  function AnswersTo(steps: seq<Step>, c: nat, ok: bool): nat
    decreases |steps|
  {
    if steps == [] then 0
    else
      var before := steps[..|steps| - 1];
      AnswersTo(before, c, ok) + if steps[|steps| - 1] == Answer(ok) && LastIssue(before) == Some(c) then 1 else 0
  }

  /** The sign of the last of them, if there is one. */
  function LastAnswerTo(steps: seq<Step>, c: nat): Option<bool>
    decreases |steps|
  {
    if steps == [] then None
    else
      var before := steps[..|steps| - 1];
      match steps[|steps| - 1]
      case Answer(ok) => if LastIssue(before) == Some(c) then Some(ok) else LastAnswerTo(before, c)
      case _ => LastAnswerTo(before, c)
  }

  /** All positive answers of a run. */
  function Positive(steps: seq<Step>): nat
    decreases |steps|
  {
    if steps == [] then 0 else Positive(steps[..|steps| - 1]) + if steps[|steps| - 1] == Answer(true) then 1 else 0
  }

  /** An operation that ended well: as many positive answers as it takes, and no other. */
  predicate EndedWell(kind: Kind, steps: seq<Step>, c: nat) {
    AnswersTo(steps, c, true) == Needed(kind) && AnswersTo(steps, c, false) == 0
  }

  /** One that failed: fewer, and then one negative answer, its last. */
  predicate EndedBadly(kind: Kind, steps: seq<Step>, c: nat) {
    && AnswersTo(steps, c, true) < Needed(kind) && AnswersTo(steps, c, false) == 1
    && LastAnswerTo(steps, c) == Some(false)
  }

  /** What the steps so far say about a caller, by where it stands. */
  ghost predicate Told(kind: Kind, s: State, steps: seq<Step>, c: nat)
    requires c < |s.callers|
  {
    match s.callers[c]
    case NotStarted(k) => k == kind && AnswersTo(steps, c, true) == 0 && AnswersTo(steps, c, false) == 0
    case HoldsAll(k) => k == kind && AnswersTo(steps, c, true) == 0 && AnswersTo(steps, c, false) == 0
    case HoldsBoth(k) => k == kind && AnswersTo(steps, c, true) == 0 && AnswersTo(steps, c, false) == 0
    case Issued => ToldOutstanding(kind, s, steps, c)
    case Parked => ToldOutstanding(kind, s, steps, c)
    case Woken(ok) => if ok then EndedWell(kind, steps, c) else EndedBadly(kind, steps, c)
    case Leaving(ok) => if ok then EndedWell(kind, steps, c) else EndedBadly(kind, steps, c)
    case Done(ok) => if ok then EndedWell(kind, steps, c) else EndedBadly(kind, steps, c)
  }

  ghost predicate ToldOutstanding(kind: Kind, s: State, steps: seq<Step>, c: nat) {
    && LastIssue(steps) == Some(c)
    && if s.wire.Some? then
         AnswersTo(steps, c, true) + s.wire.value.left == Needed(kind) && AnswersTo(steps, c, false) == 0
       else
         match s.loop
         case Ready => false
         case SettingError(_) => EndedBadly(kind, steps, c)
         case SettingState(_) => EndedBadly(kind, steps, c)
         case WantsLock(_, ok) => if ok then EndedWell(kind, steps, c) else EndedBadly(kind, steps, c)
         case Notifying(_, ok) => if ok then EndedWell(kind, steps, c) else EndedBadly(kind, steps, c)
  }

  lemma Snoc(steps: seq<Step>, step: Step, c: nat)
    ensures AnswersTo(steps + [step], c, true)
         == AnswersTo(steps, c, true) + if step == Answer(true) && LastIssue(steps) == Some(c) then 1 else 0
    ensures AnswersTo(steps + [step], c, false)
         == AnswersTo(steps, c, false) + if step == Answer(false) && LastIssue(steps) == Some(c) then 1 else 0
    ensures LastAnswerTo(steps + [step], c)
         == if step.Answer? && LastIssue(steps) == Some(c) then Some(step.ok) else LastAnswerTo(steps, c)
    ensures LastIssue(steps + [step]) == if step.Issue? then Some(step.c) else LastIssue(steps)
  {
    assert (steps + [step])[..|steps|] == steps;
  }

  /** The caller whose answer is outstanding issued last. */
  ghost predicate AllTold(kinds: seq<Kind>, s: State, steps: seq<Step>) {
    && |s.callers| == |kinds|
    && (Owner(s).Some? ==> LastIssue(steps) == Owner(s))
    && forall c :: 0 <= c < |kinds| ==> Told(kinds[c], s, steps, c)
  }

  lemma ToldStart(kinds: seq<Kind>)
    ensures AllTold(kinds, Start(kinds), [])
  {
  }

  /** A step that is neither an issue nor an answer adds nothing to what is told. */
  lemma ToldStep(kind: Kind, s: State, steps: seq<Step>, step: Step, c: nat)
    requires Inv(s) && Enabled(s, step) && c < |s.callers|
    requires Owner(s).Some? ==> LastIssue(steps) == Owner(s)
    requires Told(kind, s, steps, c)
    ensures |Next(s, step).callers| == |s.callers| && Told(kind, Next(s, step), steps + [step], c)
  {
    hide AnswersTo, LastAnswerTo, LastIssue, SomeFailed, EndedWell, EndedBadly, LocksInv;
    Snoc(steps, step, c);
    SameEnds(kind, steps, step, c);
    if step == NotifyAll {
      WakesOwner(s);
    } else if step.Issue? {
      NoneOutstanding(s, step.c);
    }
    if step.Answer? {
      ToldAnswer(kind, s, steps, step.ok, c);
    }
  }

  lemma SameEnds(kind: Kind, steps: seq<Step>, step: Step, c: nat)
    ensures !step.Answer? ==>
              && (EndedWell(kind, steps + [step], c) <==> EndedWell(kind, steps, c))
              && (EndedBadly(kind, steps + [step], c) <==> EndedBadly(kind, steps, c))
  {
    hide AnswersTo, LastAnswerTo, LastIssue;
    Snoc(steps, step, c);
  }

  /** Nobody waits for an answer while a request is about to be issued. */
  lemma NoneOutstanding(s: State, c: nat)
    requires Inv(s) && c < |s.callers| && s.callers[c].HoldsBoth?
    ensures Owner(s) == None && forall d :: 0 <= d < |s.callers| && d != c ==> !Outstanding(s.callers[d])
  {
    hide SomeFailed;
    HolderInside(s);
    assert Inside(s.callers[c]) && s.all == Some(c);
  }

  lemma ToldAnswer(kind: Kind, s: State, steps: seq<Step>, ok: bool, c: nat)
    requires Inv(s) && Enabled(s, Answer(ok)) && c < |s.callers|
    requires LastIssue(steps) == Owner(s)
    requires Told(kind, s, steps, c)
    ensures Told(kind, Next(s, Answer(ok)), steps + [Answer(ok)], c)
  {
    hide AnswersTo, LastAnswerTo, LastIssue, SomeFailed, LocksInv;
    Snoc(steps, Answer(ok), c);
  }

  lemma OwnerTold(kinds: seq<Kind>, s: State, steps: seq<Step>, step: Step)
    requires Inv(s) && Enabled(s, step) && (Owner(s).Some? ==> LastIssue(steps) == Owner(s))
    ensures Owner(Next(s, step)).Some? ==> LastIssue(steps + [step]) == Owner(Next(s, step))
  {
    hide AnswersTo, LastAnswerTo, LastIssue, SomeFailed, LocksInv;
    Snoc(steps, step, 0);
  }

  lemma {:induction false} RunLast(s: State, steps: seq<Step>)
    requires Executable(s, steps) && steps != []
    ensures var before, last := steps[..|steps| - 1], steps[|steps| - 1];
            Executable(s, before) && Enabled(Run(s, before), last) && Run(s, steps) == Next(Run(s, before), last)
    decreases |steps|
  {
    hide Enabled, Next;
    var before := steps[..|steps| - 1];
    if |steps| == 1 {
      assert before == [] && steps[1..] == [];
      assert Run(Next(s, steps[0]), []) == Next(s, steps[0]);
    } else {
      RunLast(Next(s, steps[0]), steps[1..]);
      assert steps[1..][..|steps| - 2] == before[1..];
      assert before[0] == steps[0];
    }
  }

  lemma {:induction false} RunTold(kinds: seq<Kind>, steps: seq<Step>)
    requires Executable(Start(kinds), steps)
    ensures Inv(Run(Start(kinds), steps)) && AllTold(kinds, Run(Start(kinds), steps), steps)
    decreases |steps|
  {
    hide Inv, Enabled, Next, Told, Owner, Start;
    if steps == [] {
      StartInv(kinds);
      ToldStart(kinds);
    } else {
      var before, last := steps[..|steps| - 1], steps[|steps| - 1];
      RunLast(Start(kinds), steps);
      RunTold(kinds, before);
      var s := Run(Start(kinds), before);
      assert before + [last] == steps;
      StepInv(s, last);
      OwnerTold(kinds, s, before, last);
      StepSize(s, last);
      forall c | 0 <= c < |kinds| ensures Told(kinds[c], Next(s, last), steps, c) {
        ToldStep(kinds[c], s, before, last, c);
      }
    }
  }

  lemma StepSize(s: State, step: Step)
    requires Enabled(s, step)
    ensures |Next(s, step).callers| == |s.callers|
  {
  }

  /** Every operation ends with its own answers: over any run, a caller that has returned
      well got three positive answers for a declaration and one for a consumption, between
      its issue and the next, and no negative one; one that has returned badly got fewer,
      and one negative answer after them. */
  lemma EndsWithItsAnswers(kinds: seq<Kind>, steps: seq<Step>, c: nat, ok: bool)
    requires Executable(Start(kinds), steps) && c < |kinds|
    ensures var s := Run(Start(kinds), steps);
            && |s.callers| == |kinds|
            && (s.callers[c] in {Woken(ok), Leaving(ok), Done(ok)} ==>
                  if ok then
                    && AnswersTo(steps, c, true) == (if kinds[c] == Declare then 3 else 1)
                    && AnswersTo(steps, c, false) == 0
                  else
                    && AnswersTo(steps, c, true) < (if kinds[c] == Declare then 3 else 1)
                    && AnswersTo(steps, c, false) == 1 && LastAnswerTo(steps, c) == Some(false))
  {
    hide Executable, Run, AnswersTo, LastAnswerTo, LastIssue, Inv, Owner;
    RunTold(kinds, steps);
    var s := Run(Start(kinds), steps);
    assert Told(kinds[c], s, steps, c);
  }

  // ------------------------------------------------------------ the answers of a run

  /** Positive answers to the first n callers. */
  function Summed(steps: seq<Step>, n: nat): nat {
    if n == 0 then 0 else Summed(steps, n - 1) + AnswersTo(steps, n - 1, true)
  }

  lemma {:induction false} SummedSnoc(steps: seq<Step>, step: Step, n: nat)
    ensures Summed(steps + [step], n)
         == Summed(steps, n)
            + if step == Answer(true) && LastIssue(steps).Some? && LastIssue(steps).value < n then 1 else 0
  {
    hide AnswersTo, LastIssue;
    if n > 0 {
      SummedSnoc(steps, step, n - 1);
      Snoc(steps, step, n - 1);
    }
  }

  lemma {:induction false} NothingSummed(n: nat)
    ensures Summed([], n) == 0
  {
    if n > 0 {
      NothingSummed(n - 1);
    }
  }

  /** Every positive answer of a run is one to some caller. */
  lemma {:induction false} PositiveSummed(kinds: seq<Kind>, steps: seq<Step>)
    requires Executable(Start(kinds), steps)
    ensures Positive(steps) == Summed(steps, |kinds|)
    decreases |steps|
  {
    hide Enabled, Next, Inv, Told, Start, Summed, LastIssue;
    if steps == [] {
      NothingSummed(|kinds|);
    } else {
      var before, last := steps[..|steps| - 1], steps[|steps| - 1];
      RunLast(Start(kinds), steps);
      PositiveSummed(kinds, before);
      RunTold(kinds, before);
      assert before + [last] == steps;
      SummedSnoc(before, last, |kinds|);
      AnswerOwned(Run(Start(kinds), before), last);
    }
  }

  lemma AnswerOwned(s: State, step: Step)
    requires Inv(s) && Enabled(s, step)
    ensures step.Answer? ==> Owner(s).Some? && Owner(s).value < |s.callers|
  {
    hide LocksInv, SomeFailed;
  }

  function CountKind(kinds: seq<Kind>, kind: Kind): nat {
    if kinds == [] then 0 else CountKind(kinds[..|kinds| - 1], kind) + if kinds[|kinds| - 1] == kind then 1 else 0
  }

  lemma {:induction false} SummedAll(kinds: seq<Kind>, steps: seq<Step>)
    requires forall c :: 0 <= c < |kinds| ==> AnswersTo(steps, c, true) == if kinds[c] == Declare then 3 else 1
    ensures Summed(steps, |kinds|) == 3 * CountKind(kinds, Declare) + CountKind(kinds, Consume)
    decreases |kinds|
  {
    hide AnswersTo;
    if kinds != [] {
      SummedAll(kinds[..|kinds| - 1], steps);
    }
  }

  /** So when all callers have returned well, the broker has given three positive answers for
      each declaration and one for each consumption. */
  lemma AnswersOfRun(kinds: seq<Kind>, steps: seq<Step>)
    requires Executable(Start(kinds), steps)
    ensures var s := Run(Start(kinds), steps);
            && |s.callers| == |kinds|
            && ((forall c :: 0 <= c < |kinds| ==> s.callers[c] == Done(true)) ==>
                  Positive(steps) == 3 * CountKind(kinds, Declare) + CountKind(kinds, Consume))
  {
    hide Executable, Run, AnswersTo, LastAnswerTo, LastIssue, Inv, Start, Summed, Positive, CountKind;
    RunTold(kinds, steps);
    var s := Run(Start(kinds), steps);
    if forall c :: 0 <= c < |kinds| ==> s.callers[c] == Done(true) {
      forall c | 0 <= c < |kinds| ensures AnswersTo(steps, c, true) == if kinds[c] == Declare then 3 else 1 {
        EndsWithItsAnswers(kinds, steps, c, true);
      }
      SummedAll(kinds, steps);
      PositiveSummed(kinds, steps);
    }
  }
}
