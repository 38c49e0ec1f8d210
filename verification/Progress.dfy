/**
  No deadlock and no livelock: whenever a started call has not returned, some started call
  can take a step; and every step uses up some of a fixed, finite budget.
 */
module Progress {
  import opened Prelude
  import opened Protocol
  import opened SlotSafety

  // ----- a measure -----

  function GetRank(pc: PC): nat {
    match pc
    case GetClock(_) => 5
    case GetL1(_, _) => 4
    case GetL2(_) => 3
    case GetReclock(_, _) => 2
    case GetPromote(_, _, _) => 1
    case _ => 0
  }

  function CallerRank(g: Caller, budget: nat): nat {
    match g
    case Plain => 0
    case Poll(left) => 11 + 6 * left
    case Recheck => 18 + 6 * budget
    case Fast => 24 + 6 * budget
  }

  /** An upper bound on the steps a call still takes by itself. */
  function Rank(pc: PC, budget: nat): nat {
    match pc
    case Start => 30 + 6 * budget
    case GetClock(g) => GetRank(pc) + CallerRank(g, budget)
    case GetL1(g, _) => GetRank(pc) + CallerRank(g, budget)
    case GetL2(g) => GetRank(pc) + CallerRank(g, budget)
    case GetReclock(g, _) => GetRank(pc) + CallerRank(g, budget)
    case GetPromote(g, _, _) => GetRank(pc) + CallerRank(g, budget)
    case WantMu => 24 + 6 * budget
    case DropMu(_) => 1
    case Register => 18 + 6 * budget
    case Wait(_) => 1
    case TryLock => 17 + 6 * budget
    case PollPause(left) => 11 + 6 * left
    case Snapshot(_) => 10
    case Compute(_, _) => 9
    case Supersede(_, _, _, _) => 8
    case SetClock(_, _, _) => 7
    case SetL1(_, _) => 6
    case SetL2(_, _) => 5
    case Unlock(_) => 4
    case Publish(_) => 3
    case Close(_) => 2
    case Release(_) => 1
    case InvClock => 3
    case InvLock(_) => 2
    case InvL2 => 1
    case Done(_, _) => 0
  }

  function Left(th: Thread): nat { Rank(th.pc, Budget(th.op)) }

  lemma {:induction false} GetStepLowers(s: Sys, t: Tid, a: Action, pc': PC)
    requires Steps(s, t, a, pc') && IsGet(s.threads[t].pc)
    ensures Rank(pc', Budget(s.threads[t].op)) < Left(s.threads[t])
  {
  }

  lemma {:induction false} QueueStepLowers(s: Sys, t: Tid, a: Action, pc': PC)
    requires Steps(s, t, a, pc') && Queues(s.threads[t].pc)
    ensures Rank(pc', Budget(s.threads[t].op)) < Left(s.threads[t])
  {
  }

  lemma {:induction false} WorkStepLowers(s: Sys, t: Tid, a: Action, pc': PC)
    requires Steps(s, t, a, pc') && !IsGet(s.threads[t].pc) && !Queues(s.threads[t].pc)
    ensures Rank(pc', Budget(s.threads[t].op)) < Left(s.threads[t])
  {
  }

  /** Every step of a call lowers its own rank, polls included. */
  lemma {:induction false} StepLowersRank(s: Sys, t: Tid, a: Action, pc': PC)
    requires Steps(s, t, a, pc')
    ensures Rank(pc', Budget(s.threads[t].op)) < Left(s.threads[t])
  {
    hide Advance, Rank;
    if IsGet(s.threads[t].pc) { GetStepLowers(s, t, a, pc'); }
    else if Queues(s.threads[t].pc) { QueueStepLowers(s, t, a, pc'); }
    else { WorkStepLowers(s, t, a, pc'); }
  }

  ghost function Total(ths: map<Tid, Thread>): nat {
    if ths == map[] then 0
    else
      var t :| t in ths;
      Left(ths[t]) + Total(ths - {t})
  }

  lemma {:induction false} TotalSplit(ths: map<Tid, Thread>, t: Tid)
    requires t in ths
    ensures Total(ths) == Left(ths[t]) + Total(ths - {t})
    decreases |ths|
  {
    var u :| u in ths && Total(ths) == Left(ths[u]) + Total(ths - {u});
    if u != t {
      TotalSplit(ths - {u}, t);
      TotalSplit(ths - {t}, u);
      assert ths - {u} - {t} == ths - {t} - {u};
    }
  }

  lemma {:induction false} TotalUpdate(ths: map<Tid, Thread>, t: Tid, th: Thread)
    requires t in ths
    ensures Total(ths[t := th]) + Left(ths[t]) == Total(ths) + Left(th)
  {
    TotalSplit(ths, t);
    TotalSplit(ths[t := th], t);
    assert ths[t := th] - {t} == ths - {t};
  }

  // ----- nobody is stuck -----

  predicate Busy(th: Thread) { !th.pc.Start? && !th.pc.Done? }

  /** A call that needs nobody's leave to go on. */
  predicate Free(pc: PC) { !pc.WantMu? && !pc.Wait? && !pc.Release? && !pc.Done? }

  function AnyAction(pc: PC): Action {
    match pc
    case GetL2(_) => StoreReplies(Missing)
    case TryLock => LockReplies(false)
    case PollPause(_) => PollEnds(true)
    case Compute(_, _) => ComputeFails(0)
    case SetL2(_, _) => StoreWrites(true, false)
    case InvL2 => StoreDeletes(false)
    case _ => Go
  }

  lemma {:induction false} FreeCanStep(s: Sys, t: Tid)
    requires t in s.threads && Free(s.threads[t].pc)
    ensures Advance(s, t, AnyAction(s.threads[t].pc)).Some?
  {
  }

  /** Who can move when t cannot: t itself, the holder of sfMu, or the leader t waits for. */
  function Unblocker(s: Sys, t: Tid): Tid
    requires t in s.threads
  {
    match s.threads[t].pc
    case WantMu => if s.threads[t].p in s.sfMu then s.sfMu[s.threads[t].p] else t
    case Release(_) => if s.threads[t].p in s.sfMu then s.sfMu[s.threads[t].p] else t
    case _ => t
  }

  lemma {:induction false} MuHolderIsFree(s: Sys, p: Pid)
    requires MuOk(s) && p in s.sfMu
    ensures s.sfMu[p] in s.threads && Free(s.threads[s.sfMu[p]].pc) && !s.threads[s.sfMu[p]].pc.Start?
  {
  }

  lemma {:induction false} QueueMoves(s: Sys, t: Tid)
    requires LockInv(s) && t in s.threads && Busy(s.threads[t]) && !s.threads[t].pc.Wait?
    ensures var u := Unblocker(s, t);
      u in s.threads && Busy(s.threads[u]) && Advance(s, u, AnyAction(s.threads[u].pc)).Some?
  {
    var u := Unblocker(s, t);
    if u != t { MuHolderIsFree(s, s.threads[t].p); }
    if Free(s.threads[u].pc) { FreeCanStep(s, u); }
  }

  /** A follower's leader is still on its way, or has closed the call the follower waits for. */
  lemma {:induction false} LeaderMoves(s: Sys, t: Tid)
    requires LockInv(s) && t in s.threads && s.threads[t].pc.Wait?
    ensures var o := s.threads[t].pc.leader;
      && o in s.threads
      && (Advance(s, t, Go).Some? || (Busy(s.threads[o]) && Free(s.threads[o].pc)))
  {
    assert LeaderOk(s, t);
    var o := s.threads[t].pc.leader;
    assert Lookup(s.calls, o) == Record(s.threads[o].pc);
  }

  /** While any started call is unfinished, some started call can step. */
  lemma {:induction false} SomeoneMoves(s: Sys, t: Tid) returns (u: Tid)
    requires LockInv(s) && t in s.threads && Busy(s.threads[t])
    ensures u in s.threads && Busy(s.threads[u]) && Advance(s, u, AnyAction(s.threads[u].pc)).Some?
  {
    if s.threads[t].pc.Wait? {
      LeaderMoves(s, t);
      u := if Advance(s, t, Go).Some? then t else s.threads[t].pc.leader;
      if u != t || Free(s.threads[u].pc) { FreeCanStep(s, u); }
    } else {
      QueueMoves(s, t);
      u := Unblocker(s, t);
    }
  }

  /** What a thread waits for in this process: the free mutex, or the close of the call it follows. */
  predicate Ready(s: Sys, th: Thread) {
    && (th.pc.WantMu? || th.pc.Release? ==> th.p !in s.sfMu)
    && (th.pc.Wait? ==> Lookup(s.calls, th.pc.leader).Some? && s.calls[th.pc.leader].closed)
    && !th.pc.Done?
  }

  /** What the environment may answer: what it was asked, and any row ever kept, any refusal, any outcome. */
  predicate MayAnswer(s: Sys, th: Thread, a: Action) {
    match th.pc
    case GetL2(_) => a.StoreReplies? && (a.r.Found? ==> (th.op.k, a.r.e) in s.store)
    case SetL2(_, _) => a.StoreWrites?
    case InvL2 => a.StoreDeletes?
    case TryLock => a.LockReplies? && (a.ok ==> th.op.k !in s.xlock)
    case Compute(_, _) => a.Computes? || a.ComputeFails?
    case PollPause(left) => a.PollEnds? && (a.timeout || left > 0)
    case _ => a.Go?
  }

  lemma {:induction false} AdvancesExactly(s: Sys, t: Tid, a: Action)
    requires t in s.threads
    requires s.threads[t].pc.Wait? ==> Announced(s, s.threads[t].pc.leader)
    ensures Advance(s, t, a).Some? <==> Ready(s, s.threads[t]) && MayAnswer(s, s.threads[t], a)
  {
  }

  /** A closed call has its outcome. */
  predicate Announced(s: Sys, o: Tid) { o in s.calls && s.calls[o].closed ==> s.calls[o].out.Some? }

  lemma {:induction false} ClosedIsAnnounced(s: Sys, t: Tid)
    requires LockInv(s) && t in s.threads && s.threads[t].pc.Wait?
    ensures Announced(s, s.threads[t].pc.leader)
  {
    assert LeaderOk(s, t);
    var o := s.threads[t].pc.leader;
    assert Lookup(s.calls, o) == Record(s.threads[o].pc);
  }

  /**
    A call steps exactly when it is ready and the environment answers what it was asked: nothing
    but sfMu and a leader's close is ever waited for, and no answer of the store, the lock or a
    compute is excluded.
   */
  lemma {:induction false} StepsExactly(tr: seq<Sys>, ls: seq<Label>, i: nat, t: Tid, a: Action)
    requires Run(tr, ls) && i < |tr| && t in tr[i].threads
    ensures Next(tr[i], Step(t, a)).Some? <==> Ready(tr[i], tr[i].threads[t]) && MayAnswer(tr[i], tr[i].threads[t], a)
  {
    LockInvariant(tr, ls, i);
    hide Run, Advance, Ready, MayAnswer, LockInv;
    if tr[i].threads[t].pc.Wait? { ClosedIsAnnounced(tr[i], t); }
    AdvancesExactly(tr[i], t, a);
  }

  // ----- main results -----

  ghost predicate Quiescent(s: Sys) {
    forall t, a | t in s.threads :: Advance(s, t, a).None?
  }

  /** No deadlock: a reachable state in which no call can step is one in which every call has returned. */
  lemma {:induction false} NoDeadlock(tr: seq<Sys>, ls: seq<Label>, i: nat)
    requires Run(tr, ls) && i < |tr| && Quiescent(tr[i])
    ensures forall t | t in tr[i].threads :: tr[i].threads[t].pc.Done?
  {
    LockInvariant(tr, ls, i);
    forall t | t in tr[i].threads
      ensures tr[i].threads[t].pc.Done?
    {
      if tr[i].threads[t].pc.Start? {
        FreeCanStep(tr[i], t);
      } else if !tr[i].threads[t].pc.Done? {
        var u := SomeoneMoves(tr[i], t);
      }
    }
  }

  function StepsIn(ls: seq<Label>): nat {
    if ls == [] then 0 else StepsIn(ls[..|ls| - 1]) + if ls[|ls| - 1].Step? then 1 else 0
  }

  lemma {:induction false} StepLowersTotal(s: Sys, l: Label)
    requires Next(s, l).Some?
    ensures Total(Next(s, l).value.threads) + (if l.Step? then 1 else 0) <= Total(s.threads)
  {
    match l
    case Tick(_) =>
    case Step(t, a) =>
      var pc' := Advance(s, t, a).value;
      StepLowersRank(s, t, a, pc');
      TotalUpdate(s.threads, t, s.threads[t].(pc := pc'));
      Changes(s, t, a, pc');
      hide Advance;
  }

  /** No livelock: however the calls are interleaved, a run takes at most Total(start) steps. */
  lemma {:induction false} RunsAreBounded(tr: seq<Sys>, ls: seq<Label>, i: nat)
    requires Run(tr, ls) && i <= |ls|
    ensures StepsIn(ls[..i]) + Total(tr[i].threads) <= Total(tr[0].threads)
  {
    if i > 0 {
      RunsAreBounded(tr, ls, i - 1);
      assert Next(tr[i - 1], ls[i - 1]) == Some(tr[i]);
      StepLowersTotal(tr[i - 1], ls[i - 1]);
      assert ls[..i][..i - 1] == ls[..i - 1];
    }
  }

  ghost predicate AllReturned(s: Sys) { forall t | t in s.threads :: s.threads[t].pc.Done? }

  lemma {:induction false} SomeStep(s: Sys) returns (l: Label)
    requires LockInv(s) && !AllReturned(s)
    ensures l.Step? && Next(s, l).Some?
  {
    var t :| t in s.threads && !s.threads[t].pc.Done?;
    var u := t;
    if s.threads[t].pc.Start? { FreeCanStep(s, t); } else { u := SomeoneMoves(s, t); }
    l := Step(u, AnyAction(s.threads[u].pc));
    hide Advance;
  }

  /** From every reachable state the calls can be driven until every one of them has returned. */
  lemma {:induction false} EveryCallReturns(tr: seq<Sys>, ls: seq<Label>) returns (tr': seq<Sys>, ls': seq<Label>)
    requires Run(tr, ls)
    ensures Run(tr', ls') && tr <= tr' && ls <= ls' && AllReturned(tr'[|tr'| - 1])
    decreases Total(tr[|tr| - 1].threads)
  {
    hide Next, Init, LockInv;
    var s := tr[|tr| - 1];
    if AllReturned(s) { return tr, ls; }
    LockInvariant(tr, ls, |tr| - 1);
    var l := SomeStep(s);
    StepLowersTotal(s, l);
    RunExtends(tr, ls, l);
    tr', ls' := EveryCallReturns(tr + [Next(s, l).value], ls + [l]);
  }

  lemma {:induction false} RunExtends(tr: seq<Sys>, ls: seq<Label>, l: Label)
    requires Run(tr, ls) && Next(tr[|tr| - 1], l).Some?
    ensures Run(tr + [Next(tr[|tr| - 1], l).value], ls + [l])
  {
    hide Init, Next;
    var tr', ls' := tr + [Next(tr[|tr| - 1], l).value], ls + [l];
    forall i | 0 <= i < |ls'|
      ensures Next(tr'[i], ls'[i]) == Some(tr'[i + 1])
    {
    }
  }
}
