/**
  The cross-process guard: any number of processes share one mutual-exclusion lock per key.
 */
module CrossProcess {
  import opened Prelude
  import opened Protocol
  import opened SlotSafety
  import opened OneAnswer

  /** Between the grant of the cross-process lock and its release, a key has one thread in the whole system. */
  lemma {:induction false} OneHolder(tr: seq<Sys>, ls: seq<Label>, i: nat, t: Tid, u: Tid)
    requires Run(tr, ls) && i < |tr| && t in tr[i].threads && u in tr[i].threads
    requires HoldsX(tr[i].threads[t].pc) && HoldsX(tr[i].threads[u].pc)
    requires tr[i].threads[t].op.k == tr[i].threads[u].op.k
    ensures t == u
  {
    LockInvariant(tr, ls, i);
  }

  /**
    Two computes of one key can overlap only across processes; and if both processes use the
    lock, at least one of the two is there because its wait for the other timed out.
   */
  lemma {:induction false} OverlapMeansTimeout(tr: seq<Sys>, ls: seq<Label>, i: nat, t: Tid, u: Tid)
    requires Run(tr, ls) && i < |tr| && t in tr[i].threads && u in tr[i].threads && t != u
    requires tr[i].threads[t].pc.Compute? && tr[i].threads[u].pc.Compute?
    requires tr[i].threads[t].op.k == tr[i].threads[u].op.k
    ensures tr[i].threads[t].p != tr[i].threads[u].p
    ensures tr[i].threads[t].p in tr[i].guarded && tr[i].threads[u].p in tr[i].guarded ==>
      tr[i].threads[t].pc.mode == TimedOut || tr[i].threads[u].pc.mode == TimedOut
  {
    LockInvariant(tr, ls, i);
    hide Run, LockInv;
    OverlapInState(tr[i], t, u);
  }

  lemma {:induction false} OverlapInState(s: Sys, t: Tid, u: Tid)
    requires LockInv(s) && t in s.threads && u in s.threads && t != u
    requires s.threads[t].pc.Compute? && s.threads[u].pc.Compute? && s.threads[t].op.k == s.threads[u].op.k
    ensures s.threads[t].p != s.threads[u].p
    ensures s.threads[t].p in s.guarded && s.threads[u].p in s.guarded ==>
      s.threads[t].pc.mode == TimedOut || s.threads[u].pc.mode == TimedOut
  {
    assert SlotsOk(s) && XLockOk(s) && ModeOk(s, t) && ModeOk(s, u);
    hide LockInv;
    assert Owns(s.threads[t].pc) && Owns(s.threads[u].pc);
  }

  // ----- every grant is released exactly once -----

  predicate Grants(s: Sys, l: Label, t: Tid) {
    l.Step? && l.t == t && t in s.threads && s.threads[t].pc.TryLock? && l.a.LockReplies? && l.a.ok
  }

  predicate Frees(s: Sys, l: Label, t: Tid) {
    l.Step? && l.t == t && t in s.threads && s.threads[t].pc.Unlock?
  }

  ghost function GrantsTo(tr: seq<Sys>, ls: seq<Label>, t: Tid, i: nat): nat
    requires i <= |ls| <= |tr|
  {
    if i == 0 then 0 else GrantsTo(tr, ls, t, i - 1) + if Grants(tr[i - 1], ls[i - 1], t) then 1 else 0
  }

  ghost function FreedBy(tr: seq<Sys>, ls: seq<Label>, t: Tid, i: nat): nat
    requires i <= |ls| <= |tr|
  {
    if i == 0 then 0 else FreedBy(tr, ls, t, i - 1) + if Frees(tr[i - 1], ls[i - 1], t) then 1 else 0
  }

  /** What a thread that was granted the lock is doing: never asking again. */
  predicate AfterGrant(pc: PC) {
    HoldsX(pc) || pc.Publish? || pc.Close? || pc.Release? || pc.Done?
  }

  lemma {:induction false} AfterGrantStays(s: Sys, t: Tid, a: Action, pc': PC)
    requires Steps(s, t, a, pc') && (AfterGrant(s.threads[t].pc) || Grants(s, Step(t, a), t))
    ensures AfterGrant(pc')
  {
  }

  /** Grants minus releases is 1 exactly while the thread holds the lock, and it is granted at most once. */
  lemma {:induction false} GrantsAreBalanced(tr: seq<Sys>, ls: seq<Label>, t: Tid, i: nat)
    requires Run(tr, ls) && i < |tr| && t in tr[0].threads
    ensures t in tr[i].threads
    ensures GrantsTo(tr, ls, t, i) == FreedBy(tr, ls, t, i) + if HoldsX(tr[i].threads[t].pc) then 1 else 0
    ensures GrantsTo(tr, ls, t, i) <= 1
    ensures GrantsTo(tr, ls, t, i) == 1 ==> AfterGrant(tr[i].threads[t].pc)
  {
    if i == 0 {
    } else {
      GrantsAreBalanced(tr, ls, t, i - 1);
      var s, l := tr[i - 1], ls[i - 1];
      assert Next(s, l) == Some(tr[i]);
      hide Run, Next, AfterGrant, HoldsX;
      if l.Step? && l.t == t {
        OwnStep(s, l, t);
        GrantStep(s, l, t, tr[i].threads[t].pc);
      } else {
        OtherThreadStays(s, l, t);
      }
    }
  }

  /** One step of t: grants and releases move it into and out of holding the lock. */
  lemma {:induction false} GrantStep(s: Sys, l: Label, t: Tid, pc': PC)
    requires l.Step? && l.t == t && Steps(s, t, l.a, pc')
    ensures (if HoldsX(s.threads[t].pc) then 1 else 0) + (if Grants(s, l, t) then 1 else 0) ==
      (if HoldsX(pc') then 1 else 0) + (if Frees(s, l, t) then 1 else 0)
    ensures Grants(s, l, t) ==> !AfterGrant(s.threads[t].pc)
    ensures AfterGrant(s.threads[t].pc) || Grants(s, l, t) ==> AfterGrant(pc')
  {
    XRole(s, t, l.a, pc');
    if AfterGrant(s.threads[t].pc) || Grants(s, l, t) { AfterGrantStays(s, t, l.a, pc'); }
    hide Advance;
  }

  /** A call that has returned, with a value or an error, has released whatever it was granted. */
  lemma {:induction false} ReturnedMeansReleased(tr: seq<Sys>, ls: seq<Label>, t: Tid, i: nat)
    requires Run(tr, ls) && i < |tr| && t in tr[0].threads
    requires t in tr[i].threads && tr[i].threads[t].pc.Done?
    ensures GrantsTo(tr, ls, t, i) == FreedBy(tr, ls, t, i) <= 1
    ensures tr[i].threads[t].op.k in tr[i].xlock ==> tr[i].xlock[tr[i].threads[t].op.k] != t
  {
    GrantsAreBalanced(tr, ls, t, i);
    LockInvariant(tr, ls, i);
  }

  // ----- who computes -----

  /** Label l lets t go to its compute: no lock is in use, the lock is granted, or the wait is over. */
  predicate Admits(s: Sys, l: Label, t: Tid) {
    && l.Step? && l.t == t && t in s.threads
    && match s.threads[t].pc
       case Register => s.threads[t].p !in s.guarded
       case TryLock => l.a.LockReplies? && l.a.ok
       case PollPause(_) => l.a.PollEnds? && l.a.timeout
       case _ => false
  }

  predicate RunsCompute(s: Sys, l: Label, t: Tid) {
    l.Step? && l.t == t && t in s.threads && s.threads[t].pc.Compute?
  }

  ghost predicate EverAdmitted(tr: seq<Sys>, ls: seq<Label>, t: Tid, i: nat)
    requires i <= |ls| <= |tr|
  {
    exists j :: 0 <= j < i && Admits(tr[j], ls[j], t)
  }

  ghost predicate EverComputed(tr: seq<Sys>, ls: seq<Label>, t: Tid, i: nat)
    requires i <= |ls| <= |tr|
  {
    exists j :: 0 <= j < i && RunsCompute(tr[j], ls[j], t)
  }

  /** What a program counter says about having been admitted and having computed. */
  predicate Tells(pc: PC, admitted: bool, computed: bool) {
    if pc.Snapshot? || pc.Compute? then admitted && !computed
    else if Past(pc) then admitted == computed
    else !admitted && !computed
  }

  lemma {:induction false} TellsStep(s: Sys, t: Tid, a: Action, pc': PC, admitted: bool, computed: bool)
    requires Steps(s, t, a, pc') && Tells(s.threads[t].pc, admitted, computed)
    ensures Tells(pc', admitted || Admits(s, Step(t, a), t), computed || RunsCompute(s, Step(t, a), t))
  {
  }

  lemma {:induction false} EverSnoc(tr: seq<Sys>, ls: seq<Label>, t: Tid, i: nat)
    requires 0 < i <= |ls| <= |tr|
    ensures EverAdmitted(tr, ls, t, i) <==> EverAdmitted(tr, ls, t, i - 1) || Admits(tr[i - 1], ls[i - 1], t)
    ensures EverComputed(tr, ls, t, i) <==> EverComputed(tr, ls, t, i - 1) || RunsCompute(tr[i - 1], ls[i - 1], t)
  {
    hide Admits, RunsCompute;
  }

  lemma {:induction false} TellsInvariant(tr: seq<Sys>, ls: seq<Label>, t: Tid, i: nat)
    requires Run(tr, ls) && i < |tr| && t in tr[i].threads
    ensures Tells(tr[i].threads[t].pc, EverAdmitted(tr, ls, t, i), EverComputed(tr, ls, t, i))
  {
    if i > 0 {
      var s, l := tr[i - 1], ls[i - 1];
      assert Next(s, l) == Some(tr[i]);
      SameOp(tr, ls, i - 1, i, t);
      TellsInvariant(tr, ls, t, i - 1);
      EverSnoc(tr, ls, t, i);
      hide Run, Next, Tells, EverAdmitted, EverComputed;
      if l.Step? && l.t == t {
        OwnStep(s, l, t);
        assert l == Step(t, l.a);
        TellsStep(s, t, l.a, tr[i].threads[t].pc, EverAdmitted(tr, ls, t, i - 1), EverComputed(tr, ls, t, i - 1));
      } else {
        OtherThreadStays(s, l, t);
      }
    }
  }

  /**
    Exactly who computes: a call that has returned ran its compute if and only if it was admitted
    to it, because its process uses no lock, because it was granted the lock, or because its wait
    timed out. A grant is never followed by another look at L1 or the store.
   */
  lemma {:induction false} ComputesExactlyWhenAdmitted(tr: seq<Sys>, ls: seq<Label>, t: Tid, i: nat)
    requires Run(tr, ls) && i < |tr| && t in tr[i].threads && tr[i].threads[t].pc.Done?
    ensures EverComputed(tr, ls, t, i) <==> EverAdmitted(tr, ls, t, i)
  {
    TellsInvariant(tr, ls, t, i);
    hide Run, EverComputed, EverAdmitted;
  }

  // ----- how often a refused call polls -----

  /** In this step t's pause ends with wait budget left: it is going to look again. */
  predicate PollsAgain(s: Sys, l: Label, t: Tid) {
    l == Step(t, PollEnds(false)) && t in s.threads && s.threads[t].pc.PollPause?
  }

  ghost function PollsBy(tr: seq<Sys>, ls: seq<Label>, t: Tid, i: nat): nat
    requires i <= |ls| <= |tr|
  {
    if i == 0 then 0 else PollsBy(tr, ls, t, i - 1) + if PollsAgain(tr[i - 1], ls[i - 1], t) then 1 else 0
  }

  /** How often a polling thread may look again. */
  function Left(pc: PC): Option<nat> {
    match pc
    case GetClock(Poll(left)) => Some(left)
    case GetL1(Poll(left), _) => Some(left)
    case GetL2(Poll(left)) => Some(left)
    case GetReclock(Poll(left), _) => Some(left)
    case GetPromote(Poll(left), _, _) => Some(left)
    case PollPause(left) => Some(left)
    case _ => None
  }

  /** Where only a GetOrCompute can be that has not polled yet. */
  predicate BeforePolling(pc: PC) {
    InGet(pc, Fast) || InGet(pc, Recheck) || pc.WantMu? || pc.Register? || pc.TryLock?
  }

  /** A thread that has polled n times again has used n of its budget. */
  predicate Budgeted(th: Thread, n: nat) {
    if Left(th.pc).Some? then th.op.GetOrCompute? && n + Left(th.pc).value == th.op.budget
    else if Past(th.pc) || th.pc.Snapshot? || th.pc.Compute? then n > 0 ==> th.op.GetOrCompute? && n <= th.op.budget
    else n == 0 && (BeforePolling(th.pc) ==> th.op.GetOrCompute?)
  }

  lemma {:induction false} BudgetedInGet(s: Sys, t: Tid, a: Action, pc': PC, n: nat)
    requires Steps(s, t, a, pc') && Budgeted(s.threads[t], n) && IsGet(s.threads[t].pc)
    ensures Budgeted(s.threads[t].(pc := pc'), n)
  {
  }

  lemma {:induction false} BudgetedStep(s: Sys, t: Tid, a: Action, pc': PC, n: nat)
    requires Steps(s, t, a, pc') && Budgeted(s.threads[t], n)
    ensures Budgeted(s.threads[t].(pc := pc'), n + if PollsAgain(s, Step(t, a), t) then 1 else 0)
  {
    if IsGet(s.threads[t].pc) {
      BudgetedInGet(s, t, a, pc', n);
      hide Budgeted, Advance;
    }
  }

  lemma {:induction false} BudgetedNext(s: Sys, l: Label, t: Tid, n: nat)
    requires Next(s, l).Some? && t in s.threads && Budgeted(s.threads[t], n)
    ensures t in Next(s, l).value.threads
    ensures Budgeted(Next(s, l).value.threads[t], n + if PollsAgain(s, l, t) then 1 else 0)
  {
    hide Budgeted;
    if l.Step? && l.t == t {
      assert l == Step(t, l.a);
      Changes(s, t, l.a, Advance(s, t, l.a).value);
      BudgetedStep(s, t, l.a, Advance(s, t, l.a).value, n);
      hide Advance;
    } else {
      OtherThreadStays(s, l, t);
    }
  }

  lemma {:induction false} BudgetedAlways(tr: seq<Sys>, ls: seq<Label>, t: Tid, i: nat)
    requires Run(tr, ls) && i < |tr| && t in tr[i].threads
    ensures Budgeted(tr[i].threads[t], PollsBy(tr, ls, t, i))
  {
    if i > 0 {
      SameOp(tr, ls, i - 1, i, t);
      BudgetedAlways(tr, ls, t, i - 1);
      assert Next(tr[i - 1], ls[i - 1]) == Some(tr[i]);
      hide Run, Next, Budgeted, PollsAgain;
      BudgetedNext(tr[i - 1], ls[i - 1], t, PollsBy(tr, ls, t, i - 1));
    }
  }

  /**
    A call whose lock was refused may give up waiting at any pause, and may look again exactly as
    long as it has done so less often than its budget.
   */
  lemma {:induction false} PollsWithinBudget(tr: seq<Sys>, ls: seq<Label>, t: Tid, i: nat)
    requires Run(tr, ls) && i < |tr| && t in tr[i].threads && tr[i].threads[t].op.GetOrCompute?
    ensures PollsBy(tr, ls, t, i) <= tr[i].threads[t].op.budget
    ensures tr[i].threads[t].pc.PollPause? ==>
      && Next(tr[i], Step(t, PollEnds(true))).Some?
      && (Next(tr[i], Step(t, PollEnds(false))).Some? <==> PollsBy(tr, ls, t, i) < tr[i].threads[t].op.budget)
  {
    BudgetedAlways(tr, ls, t, i);
    hide Run, PollsBy;
  }
}
