/** The errand machine: histories, their length, and what an errand never loses. */
module ErrandLifecycle {
  import opened Wrappers
  import opened Documents
  import opened Platform
  import opened Frames
  import opened Errands
  import Accounts

  /** The transitions an errand's history may show. */
  predicate Allowed(a: ErrandStatus, b: ErrandStatus) {
    match b
    case Open => false
    case Assigned => a == ErrandStatus.Open
    case InProgress => a == ErrandStatus.Assigned
    case Completed => a == ErrandStatus.InProgress
    case Cancelled => a in {ErrandStatus.Open, ErrandStatus.Assigned}
  }

  function Rank(status: ErrandStatus): nat {
    match status
    case Open => 0
    case Assigned => 1
    case InProgress => 2
    case Completed => 3
    case Cancelled => 2
  }

  /** From open, step by step, to the current status; there is a collaborator once it was assigned. */
  predicate GoodErrand(e: Errand) {
    && e.history != []
    && e.history[0] == ErrandStatus.Open
    && e.history[|e.history| - 1] == e.status
    && (forall i :: 0 < i < |e.history| ==> Allowed(e.history[i - 1], e.history[i]))
    && (e.collaboratorId.Some? <==> ErrandStatus.Assigned in e.history)
  }

  predicate Valid(errands: seq<Errand>) {
    forall e :: 0 <= e < |errands| ==> GoodErrand(errands[e])
  }

  /** Client and fee are frozen, the history is only appended to, a collaborator stays. */
  predicate ErrandEvolves(a: Errand, b: Errand) {
    && a.clientId == b.clientId && a.offeredFee == b.offeredFee
    && a.history <= b.history
    && (a.collaboratorId.Some? ==> b.collaboratorId == a.collaboratorId)
  }

  predicate Evolve(a: seq<Errand>, b: seq<Errand>) {
    |a| <= |b| && forall e :: 0 <= e < |a| ==> ErrandEvolves(a[e], b[e])
  }

  lemma {:induction false} StatusAt(e: Errand, i: nat)
    requires GoodErrand(e) && i < |e.history|
    ensures i <= Rank(e.history[i]) && (e.history[i] != ErrandStatus.Cancelled ==> i == Rank(e.history[i]))
    ensures i > 0 ==> e.history[i - 1] !in {ErrandStatus.Completed, ErrandStatus.Cancelled}
    decreases i
  {
    if i > 0 {
      StatusAt(e, i - 1);
      assert Allowed(e.history[i - 1], e.history[i]);
    }
  }

  /** At most four entries, three if cancelled; nothing follows completion or cancellation; and an open
      errand, and no other but a cancelled one, has no collaborator. */
  lemma HistoryIsShort(e: Errand)
    requires GoodErrand(e)
    ensures |e.history| <= Rank(e.status) + 1 <= 4
    ensures e.status != ErrandStatus.Cancelled ==> |e.history| == Rank(e.status) + 1
    ensures forall i :: 0 <= i < |e.history| - 1 ==> e.history[i] !in {ErrandStatus.Completed, ErrandStatus.Cancelled}
    ensures e.status == ErrandStatus.Open ==> e.collaboratorId.None?
    ensures e.collaboratorId.None? ==> e.status in {ErrandStatus.Open, ErrandStatus.Cancelled}
  {
    forall i | 0 <= i < |e.history| - 1 ensures e.history[i] !in {ErrandStatus.Completed, ErrandStatus.Cancelled} {
      StatusAt(e, i + 1);
    }
    StatusAt(e, |e.history| - 1);
    if |e.history| > 1 {
      StatusAt(e, 1);
    }
    if |e.history| > 2 {
      StatusAt(e, 2);
    }
  }

  /** An errand whose status is recorded by a permitted transition. */
  lemma RecordKeepsErrand(e: Errand, status: ErrandStatus, collaboratorId: Option<Id>)
    requires GoodErrand(e) && Allowed(e.status, status)
    requires if status == ErrandStatus.Assigned then collaboratorId.Some? else collaboratorId == e.collaboratorId
    ensures GoodErrand(RecordStatus(e.(collaboratorId := collaboratorId), status))
    ensures ErrandEvolves(e, RecordStatus(e.(collaboratorId := collaboratorId), status))
  {
    HistoryIsShort(e);
  }

  // ----- the calls, exactly

  /** An errand can be accepted exactly by a collaborator and exactly while it may become assigned. */
  lemma AcceptIff(s: State, user: User, e: Id)
    requires Valid(s.errands)
    ensures Accept(s, user, e).Success? <==>
      user.role == Collaborator && e < |s.errands| && Allowed(s.errands[e].status, ErrandStatus.Assigned)
    ensures Accept(s, user, e).Success? ==>
      && s.errands[e].collaboratorId.None?
      && Moved(s, Accept(s, user, e).value, e, ErrandStatus.Assigned)
      && Accept(s, user, e).value.errands[e].collaboratorId == Some(user.id)
  {
    if Accept(s, user, e).Success? {
      HistoryIsShort(s.errands[e]);
      RecordKeepsErrand(s.errands[e], ErrandStatus.Assigned, Some(user.id));
    }
  }

  /** It can be cancelled exactly by its client or an admin, while it may be, and nobody is paid. */
  lemma CancelIff(s: State, user: User, e: Id)
    requires Valid(s.errands)
    ensures Errands.Cancel(s, user, e).Success? <==>
      && e < |s.errands| && (s.errands[e].clientId == user.id || user.IsAdmin())
      && Allowed(s.errands[e].status, ErrandStatus.Cancelled)
    ensures Errands.Cancel(s, user, e).Success? ==>
      && Moved(s, Errands.Cancel(s, user, e).value, e, ErrandStatus.Cancelled)
      && Errands.Cancel(s, user, e).value.payments == s.payments && Errands.Cancel(s, user, e).value.ledger == s.ledger
  {
    if Errands.Cancel(s, user, e).Success? {
      RecordKeepsErrand(s.errands[e], ErrandStatus.Cancelled, s.errands[e].collaboratorId);
    }
  }

  /** It can be advanced exactly by its collaborator, to the next status after assignment. */
  lemma AdvanceIff(s: State, user: User, e: Id, target: ErrandStatus, now: int)
    requires Valid(s.errands)
    ensures AdvanceStatus(s, user, e, target, now).Success? <==>
      && e < |s.errands| && s.errands[e].collaboratorId == Some(user.id)
      && target in {ErrandStatus.InProgress, ErrandStatus.Completed} && Allowed(s.errands[e].status, target)
    ensures AdvanceStatus(s, user, e, target, now).Success? ==>
      Moved(s, AdvanceStatus(s, user, e, target, now).value, e, target)
  {
    if AdvanceStatus(s, user, e, target, now).Success? {
      RecordKeepsErrand(s.errands[e], target, s.errands[e].collaboratorId);
    }
  }

  /** One errand has a new status, appended to its history; the others are as they were. */
  predicate Moved(s: State, s': State, e: Id, status: ErrandStatus) {
    && e < |s.errands| == |s'.errands|
    && s'.errands == s.errands[e := s'.errands[e]]
    && s'.errands[e].history == s.errands[e].history + [status]
    && GoodErrand(s'.errands[e]) && ErrandEvolves(s.errands[e], s'.errands[e])
  }

  // ----- every step

  lemma ErrandCallMoves(s: State, c: Call)
    requires Valid(s.errands) && IsErrandCall(c) && Try(s, c).Success? && !c.CreateErrand?
    ensures Valid(Step(s, c).errands) && Evolve(s.errands, Step(s, c).errands)
  {
    match c
    case AcceptErrand(user, e) =>
      AcceptIff(s, user, e);
      MovedKeeps(s, Step(s, c), e, ErrandStatus.Assigned);
    case AdvanceErrand(user, e, target, now) =>
      AdvanceIff(s, user, e, target, now);
      MovedKeeps(s, Step(s, c), e, target);
    case CancelErrand(user, e) =>
      CancelIff(s, user, e);
      MovedKeeps(s, Step(s, c), e, ErrandStatus.Cancelled);
  }

  lemma MovedKeeps(s: State, s': State, e: Id, status: ErrandStatus)
    requires Valid(s.errands) && Moved(s, s', e, status)
    ensures Valid(s'.errands) && Evolve(s.errands, s'.errands)
  {
  }

  lemma ErrandsStay(s: State, c: Call)
    requires !IsErrandCall(c)
    ensures Step(s, c).errands == s.errands
  {
    if IsOrderCall(c) { OrderFrame(s, c); }
    else if c.CreateIntent? { IntentFrame(s, c); }
    else { Accounts.AsideFrame(s, c); }
  }

  lemma StepKeepsErrands(s: State, c: Call)
    requires Valid(s.errands)
    ensures Valid(Step(s, c).errands) && Evolve(s.errands, Step(s, c).errands)
  {
    if !IsErrandCall(c) {
      ErrandsStay(s, c);
    } else if Try(s, c).Success? && !c.CreateErrand? {
      ErrandCallMoves(s, c);
    }
  }

  lemma EvolveTransitive(a: seq<Errand>, b: seq<Errand>, c: seq<Errand>)
    requires Evolve(a, b) && Evolve(b, c)
    ensures Evolve(a, c)
  {
    forall e | 0 <= e < |a| ensures ErrandEvolves(a[e], c[e]) {
      assert ErrandEvolves(a[e], b[e]) && ErrandEvolves(b[e], c[e]);
    }
  }

  /** In every run histories stay good and errands evolve. */
  lemma {:induction false} RunKeepsErrands(s: State, calls: seq<Call>)
    requires Valid(s.errands)
    ensures Valid(Run(s, calls).errands) && Evolve(s.errands, Run(s, calls).errands)
  {
    if calls != [] {
      var front := calls[..|calls| - 1];
      RunKeepsErrands(s, front);
      StepKeepsErrands(Run(s, front), calls[|calls| - 1]);
      EvolveTransitive(s.errands, Run(s, front).errands, Run(s, calls).errands);
    }
  }

  /** A completed or cancelled errand keeps its status and history whatever is called. */
  lemma TerminalIsForever(s: State, calls: seq<Call>, e: Id)
    requires Valid(s.errands) && e < |s.errands|
    requires s.errands[e].status in {ErrandStatus.Completed, ErrandStatus.Cancelled}
    ensures e < |Run(s, calls).errands|
    ensures Run(s, calls).errands[e].status == s.errands[e].status
    ensures Run(s, calls).errands[e].history == s.errands[e].history
  {
    RunKeepsErrands(s, calls);
    var a, b := s.errands[e], Run(s, calls).errands[e];
    assert ErrandEvolves(a, b) && GoodErrand(a) && GoodErrand(b);
    HistoryIsShort(b);
    assert b.history[|a.history| - 1] == a.status;
  }
}
