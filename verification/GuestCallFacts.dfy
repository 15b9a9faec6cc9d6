// What holds of every finite tree of nested guest calls.

module GuestCallFacts {
  import opened Words
  import opened GuestCall

  // ---- exit requests -----------------------------------------------------------------------

  // The value of the last exit request in a log, or `otherwise`.
  function LastRequest(log: seq<Event>, otherwise: Option<u64>): Option<u64> {
    if |log| == 0 then otherwise
    else if log[|log| - 1].Requested? then Some(log[|log| - 1].value)
    else LastRequest(log[..|log| - 1], otherwise)
  }

  lemma {:induction false} LastOfConcat(a: seq<Event>, b: seq<Event>, otherwise: Option<u64>)
    ensures LastRequest(a + b, otherwise) == LastRequest(b, LastRequest(a, otherwise))
    decreases |b|
  {
    if |b| == 0 {
      assert a + b == a;
    } else {
      assert (a + b)[..|a + b| - 1] == a + b[..|b| - 1];
      LastOfConcat(a, b[..|b| - 1], otherwise);
    }
  }

  // A vcpu's loop returns `ThreadExit` exactly when it leaves with a pending request, which it
  // takes; otherwise the flag is as it found it.
  ghost predicate Taken(o: Out, before: Option<u64>) {
    var last := LastRequest(o.log, before);
    if o.exit.ThreadExit? then last == Some(o.exit.value) && o.th.exit == None
    else o.th.exit == last && (before.None? ==> last.None?)
  }

  lemma {:induction false} HandlerRequests(vm: Vm, acts: Actions, live: seq<int>, th: Thread)
    ensures var (th', log) := Handle(vm, acts, live, th); th'.exit == LastRequest(log, th.exit)
    decreases acts, 0
  {
    match acts
    case NoMore =>
    case RequestExit(v, more) =>
      HandlerRequests(vm, more, live, th.(exit := Some(v)));
      LastOfConcat([Requested(v)], Handle(vm, more, live, th.(exit := Some(v))).1, th.exit);
    case CallGuest(script, more) =>
      var top := CarveTop(th.curRsp);
      DriveRequests(vm, script, top, live, th);
      var r := Drive(vm, script, top, live, th);
      var th1 := if r.exit.ThreadExit? then r.th.(exit := Some(r.exit.value)) else r.th;
      HandlerRequests(vm, more, live, th1);
      var log2 := Handle(vm, more, live, th1).1;
      LastOfConcat([Carved(top, live)], r.log, th.exit);
      LastOfConcat([Carved(top, live)] + r.log, log2, th.exit);
  }

  lemma {:induction false} LoopRequests(vm: Vm, s: Script, entry: int, id: nat, live: seq<int>, th: Thread)
    ensures Taken(RunLoop(vm, s, entry, id, live, th), th.exit)
    decreases s, 0
  {
    match s
    case BudgetExhausted(rest) =>
      if vm.budgeted {
        LoopRequests(vm, rest, entry, id, live, th);
        LastOfConcat([Slice(id)], RunLoop(vm, rest, entry, id, live, th).log, th.exit);
      }
    case Syscall(drop, acts, rest) =>
      if vm.dispatch {
        var th0 := th.(curRsp := entry - drop);
        HandlerRequests(vm, acts, live + [entry - drop], th0);
        var (th1, log1) := Handle(vm, acts, live + [entry - drop], th0);
        LastOfConcat([Slice(id)], log1, th.exit);
        var step := [Slice(id)] + log1 + [HandlerReturned(id, th1.exit.Some?)];
        LastOfConcat([Slice(id)] + log1, [HandlerReturned(id, th1.exit.Some?)], th.exit);
        assert LastRequest(step, th.exit) == th1.exit;
        if th1.exit.None? {
          LoopRequests(vm, rest, entry, id, live, th1);
          LastOfConcat(step, RunLoop(vm, rest, entry, id, live, th1).log, th.exit);
        }
      }
    case _ =>
  }

  lemma {:induction false} DriveRequests(vm: Vm, s: Script, rsp: int, live: seq<int>, th: Thread)
    ensures Taken(Drive(vm, s, rsp, live, th), th.exit)
    decreases s, 1
  {
    if vm.writable(rsp - 8) {
      LoopRequests(vm, s, rsp - 8, th.nextId, live, th.(depth := th.depth + 1, nextId := th.nextId + 1));
    }
  }

  // Exit unwinds everything: the outermost call returns `ThreadExit` exactly when some handler,
  // at any depth, requested an exit, and it carries the last value requested.
  lemma ExitUnwinds(vm: Vm, s: Script, rsp: int, depth: nat)
    ensures var o := RunGuestCall(vm, s, rsp, depth);
            && (o.exit.ThreadExit? <==> LastRequest(o.log, None).Some?)
            && (o.exit.ThreadExit? ==> LastRequest(o.log, None) == Some(o.exit.value))
            && o.th.exit == None
  {
    DriveRequests(vm, s, rsp, [], Thread(rsp, None, depth, 0));
  }

  // ---- no resumption -------------------------------------------------------------------------

  // A vcpu whose handler returned with the flag set is never run again.
  ghost predicate NoResume(log: seq<Event>) {
    forall i, j :: 0 <= i < j < |log| && log[i].HandlerReturned? && log[i].flagged ==> log[j] != Slice(log[i].id)
  }

  function IdOf(e: Event): Option<nat> {
    match e
    case Slice(id) => Some(id)
    case HandlerReturned(id, _) => Some(id)
    case _ => None
  }

  // The vcpus in the log are `own`, or numbered from `lo` up to `hi`.
  ghost predicate IdsIn(log: seq<Event>, own: Option<nat>, lo: nat, hi: nat) {
    forall i :: 0 <= i < |log| && IdOf(log[i]).Some? ==> IdOf(log[i]) == own || lo <= IdOf(log[i]).value < hi
  }

  ghost predicate NotFlagged(log: seq<Event>, id: nat) {
    forall i :: 0 <= i < |log| ==> log[i] != HandlerReturned(id, true)
  }

  // Two stretches of a log whose vcpus differ, except `id` which the first did not flag.
  lemma JoinLogs(a: seq<Event>, b: seq<Event>, id: nat, lo: nat, mid: nat, hi: nat)
    requires id < lo <= mid <= hi
    requires NoResume(a) && IdsIn(a, Some(id), lo, mid) && NotFlagged(a, id)
    requires NoResume(b) && IdsIn(b, Some(id), mid, hi)
    ensures NoResume(a + b) && IdsIn(a + b, Some(id), lo, hi)
  {
    forall i, j | 0 <= i < j < |a + b| && (a + b)[i].HandlerReturned? && (a + b)[i].flagged
      ensures (a + b)[j] != Slice((a + b)[i].id)
    {
      if i < |a| && j >= |a| {
        assert IdOf(a[i]) == Some(a[i].id);
        assert IdOf(b[j - |a|]).Some? ==> IdOf(b[j - |a|]) == Some(id) || mid <= IdOf(b[j - |a|]).value;
      }
    }
  }

  lemma {:induction false} HandlerLog(vm: Vm, acts: Actions, live: seq<int>, th: Thread, id: nat)
    requires id < th.nextId
    ensures var (th', log) := Handle(vm, acts, live, th);
            th.nextId <= th'.nextId && NoResume(log) && IdsIn(log, None, th.nextId, th'.nextId)
    decreases acts, 0
  {
    match acts
    case NoMore =>
    case RequestExit(v, more) =>
      HandlerLog(vm, more, live, th.(exit := Some(v)), id);
      var (th1, log1) := Handle(vm, more, live, th.(exit := Some(v)));
      JoinLogs([Requested(v)], log1, id, th.nextId, th.nextId, th1.nextId);
    case CallGuest(script, more) =>
      var top := CarveTop(th.curRsp);
      DriveLog(vm, script, top, live, th, id);
      var r := Drive(vm, script, top, live, th);
      var th1 := if r.exit.ThreadExit? then r.th.(exit := Some(r.exit.value)) else r.th;
      HandlerLog(vm, more, live, th1, id);
      var (th2, log2) := Handle(vm, more, live, th1);
      JoinLogs([Carved(top, live)], r.log, id, th.nextId, th.nextId, r.th.nextId);
      var front := [Carved(top, live)] + r.log;
      assert NotFlagged(front, id) by {
        forall i | 0 <= i < |front|
          ensures front[i] != HandlerReturned(id, true)
        {
          assert i > 0 ==> front[i] == r.log[i - 1];
          assert i > 0 && IdOf(r.log[i - 1]).Some? ==> IdOf(r.log[i - 1]).value >= th.nextId;
        }
      }
      JoinLogs(front, log2, id, th.nextId, r.th.nextId, th2.nextId);
      Unowned(front + log2, front, log2, id, th.nextId, th2.nextId, r.th.nextId, r.log, top, live);
  }

  lemma Unowned(log: seq<Event>, front: seq<Event>, log2: seq<Event>, id: nat, lo: nat, hi: nat, mid: nat,
                rlog: seq<Event>, top: int, live: seq<int>)
    requires log == front + log2 && front == [Carved(top, live)] + rlog && lo <= mid <= hi
    requires IdsIn(rlog, None, lo, mid) && IdsIn(log2, None, mid, hi)
    ensures IdsIn(log, None, lo, hi)
  {
    forall i | 0 <= i < |log| && IdOf(log[i]).Some?
      ensures lo <= IdOf(log[i]).value < hi
    {
      if i >= |front| {
        assert log[i] == log2[i - |front|];
      } else if i > 0 {
        assert log[i] == rlog[i - 1];
      }
    }
  }

  lemma {:induction false} LoopLog(vm: Vm, s: Script, entry: int, id: nat, live: seq<int>, th: Thread)
    requires id < th.nextId
    ensures var o := RunLoop(vm, s, entry, id, live, th);
            th.nextId <= o.th.nextId && NoResume(o.log) && IdsIn(o.log, Some(id), th.nextId, o.th.nextId)
    decreases s, 0
  {
    match s
    case BudgetExhausted(rest) =>
      if vm.budgeted {
        LoopLog(vm, rest, entry, id, live, th);
        var r := RunLoop(vm, rest, entry, id, live, th);
        JoinLogs([Slice(id)], r.log, id, th.nextId, th.nextId, r.th.nextId);
      }
    case Syscall(drop, acts, rest) =>
      if vm.dispatch {
        var th0 := th.(curRsp := entry - drop);
        HandlerLog(vm, acts, live + [entry - drop], th0, id);
        var (th1, log1) := Handle(vm, acts, live + [entry - drop], th0);
        StepLog(id, th.nextId, th1.nextId, log1, th1.exit.Some?);
        if th1.exit.None? {
          LoopLog(vm, rest, entry, id, live, th1);
          var r := RunLoop(vm, rest, entry, id, live, th1);
          JoinLogs([Slice(id)] + log1 + [HandlerReturned(id, false)], r.log, id, th.nextId, th1.nextId, r.th.nextId);
        }
      }
    case _ =>
  }

  lemma StepLog(id: nat, lo: nat, hi: nat, log1: seq<Event>, flagged: bool)
    requires id < lo <= hi && NoResume(log1) && IdsIn(log1, None, lo, hi)
    ensures var step := [Slice(id)] + log1 + [HandlerReturned(id, flagged)];
            NoResume(step) && IdsIn(step, Some(id), lo, hi) && (!flagged ==> NotFlagged(step, id))
  {
    var step := [Slice(id)] + log1 + [HandlerReturned(id, flagged)];
    forall i | 0 <= i < |step|
      ensures step[i] == if i == 0 then Slice(id) else if i <= |log1| then log1[i - 1] else HandlerReturned(id, flagged)
      ensures 0 < i <= |log1| && IdOf(step[i]).Some? ==> IdOf(step[i]).value >= lo
    {
    }
  }

  lemma {:induction false} DriveLog(vm: Vm, s: Script, rsp: int, live: seq<int>, th: Thread, id: nat)
    requires id < th.nextId
    ensures var o := Drive(vm, s, rsp, live, th);
            th.nextId <= o.th.nextId && NoResume(o.log) && IdsIn(o.log, None, th.nextId, o.th.nextId)
    decreases s, 1
  {
    if vm.writable(rsp - 8) {
      LoopLog(vm, s, rsp - 8, th.nextId, live, th.(depth := th.depth + 1, nextId := th.nextId + 1));
      hide RunLoop, NoResume;
    }
  }

  // No level resumes its own vcpu after one of its handlers returned with the flag set.
  lemma FlaggedNeverResumes(vm: Vm, s: Script, rsp: int, depth: nat)
    ensures NoResume(RunGuestCall(vm, s, rsp, depth).log)
  {
    if vm.writable(rsp - 8) {
      LoopLog(vm, s, rsp - 8, 0, [], Thread(rsp, None, depth + 1, 1));
    }
  }

  // ---- stacks ---------------------------------------------------------------------------------

  // Guest code never leaves a vcpu's RSP above its entry value at a syscall.
  predicate StackGrowsDown(s: Script) {
    match s
    case BudgetExhausted(rest) => StackGrowsDown(rest)
    case Syscall(drop, acts, rest) => drop >= 0 && CallsGrowDown(acts) && StackGrowsDown(rest)
    case _ => true
  }

  predicate CallsGrowDown(acts: Actions) {
    match acts
    case NoMore => true
    case RequestExit(_, more) => CallsGrowDown(more)
    case CallGuest(script, more) => StackGrowsDown(script) && CallsGrowDown(more)
  }

  // Every carved frame is 16-aligned and lies a red zone below every enclosing live RSP.
  ghost predicate FramesClear(log: seq<Event>) {
    forall i :: 0 <= i < |log| && log[i].Carved? ==>
      log[i].top % 16 == 0 && forall k :: 0 <= k < |log[i].live| ==> log[i].top + RED_ZONE <= log[i].live[k]
  }

  ghost predicate Below(rsp: int, live: seq<int>) {
    forall k :: 0 <= k < |live| ==> rsp <= live[k]
  }

  lemma CarveIsClear(rsp: int)
    ensures CarveTop(rsp) % 16 == 0 && CarveTop(rsp) + RED_ZONE <= rsp
  {
  }

  lemma {:induction false} HandlerFrames(vm: Vm, acts: Actions, live: seq<int>, th: Thread)
    requires CallsGrowDown(acts) && Below(th.curRsp, live)
    ensures var (th', log) := Handle(vm, acts, live, th); FramesClear(log) && Below(th'.curRsp, live)
    decreases acts, 0
  {
    match acts
    case NoMore =>
    case RequestExit(v, more) => HandlerFrames(vm, more, live, th.(exit := Some(v)));
    case CallGuest(script, more) =>
      var top := CarveTop(th.curRsp);
      CarveIsClear(th.curRsp);
      DriveFrames(vm, script, top, live, th);
      var r := Drive(vm, script, top, live, th);
      var th1 := if r.exit.ThreadExit? then r.th.(exit := Some(r.exit.value)) else r.th;
      HandlerFrames(vm, more, live, th1);
  }

  lemma {:induction false} LoopFrames(vm: Vm, s: Script, entry: int, id: nat, live: seq<int>, th: Thread)
    requires StackGrowsDown(s) && Below(entry, live) && Below(th.curRsp, live)
    ensures var o := RunLoop(vm, s, entry, id, live, th); FramesClear(o.log) && Below(o.th.curRsp, live)
    decreases s, 0
  {
    match s
    case BudgetExhausted(rest) =>
      if vm.budgeted { LoopFrames(vm, rest, entry, id, live, th); }
    case Syscall(drop, acts, rest) =>
      if vm.dispatch {
        var inner, th0 := live + [entry - drop], th.(curRsp := entry - drop);
        HandlerFrames(vm, acts, inner, th0);
        var (th1, log1) := Handle(vm, acts, inner, th0);
        assert Below(th1.curRsp, live) by {
          assert forall k :: 0 <= k < |live| ==> inner[k] == live[k];
        }
        if th1.exit.None? {
          LoopFrames(vm, rest, entry, id, live, th1);
        }
      }
    case _ =>
  }

  lemma {:induction false} DriveFrames(vm: Vm, s: Script, rsp: int, live: seq<int>, th: Thread)
    requires StackGrowsDown(s) && Below(rsp, live) && Below(th.curRsp, live)
    ensures var o := Drive(vm, s, rsp, live, th); FramesClear(o.log) && Below(o.th.curRsp, live)
    decreases s, 1
  {
    if vm.writable(rsp - 8) {
      LoopFrames(vm, s, rsp - 8, th.nextId, live, th.(depth := th.depth + 1, nextId := th.nextId + 1));
    }
  }

  // Every nested stack top is 16-aligned and at least 128 bytes below every enclosing live RSP,
  // also when one handler makes several nested calls.
  lemma NestedFramesAreClear(vm: Vm, s: Script, rsp: int, depth: nat)
    requires StackGrowsDown(s)
    ensures FramesClear(RunGuestCall(vm, s, rsp, depth).log)
  {
    DriveFrames(vm, s, rsp, [], Thread(rsp, None, depth, 0));
  }

  // ---- depth ------------------------------------------------------------------------------------

  lemma {:induction false} HandlerDepth(vm: Vm, acts: Actions, live: seq<int>, th: Thread)
    ensures Handle(vm, acts, live, th).0.depth == th.depth
    decreases acts, 0
  {
    match acts
    case NoMore =>
    case RequestExit(v, more) => HandlerDepth(vm, more, live, th.(exit := Some(v)));
    case CallGuest(script, more) =>
      var top := CarveTop(th.curRsp);
      DepthRestored(vm, script, top, live, th);
      var r := Drive(vm, script, top, live, th);
      HandlerDepth(vm, more, live, if r.exit.ThreadExit? then r.th.(exit := Some(r.exit.value)) else r.th);
  }

  lemma {:induction false} LoopDepth(vm: Vm, s: Script, entry: int, id: nat, live: seq<int>, th: Thread)
    ensures RunLoop(vm, s, entry, id, live, th).th.depth == th.depth
    decreases s, 0
  {
    match s
    case BudgetExhausted(rest) => LoopDepth(vm, rest, entry, id, live, th);
    case Syscall(drop, acts, rest) =>
      var th0 := th.(curRsp := entry - drop);
      HandlerDepth(vm, acts, live + [entry - drop], th0);
      LoopDepth(vm, rest, entry, id, live, Handle(vm, acts, live + [entry - drop], th0).0);
    case _ =>
  }

  // The drive depth is back where it was, however the call ended.
  lemma {:induction false} DepthRestored(vm: Vm, s: Script, rsp: int, live: seq<int>, th: Thread)
    ensures Drive(vm, s, rsp, live, th).th.depth == th.depth
    decreases s, 1
  {
    LoopDepth(vm, s, rsp - 8, th.nextId, live, th.(depth := th.depth + 1, nextId := th.nextId + 1));
  }
}
