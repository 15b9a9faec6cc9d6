// What the outermost guest call returns, said on the tree of exits and handler actions alone.

module GuestCallResults {
  import opened Words
  import opened GuestCall

  // The script comes to the return gadget with `v` in RAX: every exit on the way is a budget exit the
  // driver resumes from or a syscall it dispatches, and the halt is the one behind the gadget.
  predicate Reaches(vm: Vm, s: Script, v: u64) {
    match s
    case Hlt(rip, rax) => rip == vm.gadget + 1 && rax == v
    case Trap => false
    case BudgetExhausted(rest) => vm.budgeted && Reaches(vm, rest, v)
    case Syscall(_, _, rest) => vm.dispatch && Reaches(vm, rest, v)
  }

  // Some handler the script comes to asks for an exit, itself or in guest code it calls.
  predicate Asks(vm: Vm, s: Script) {
    match s
    case Hlt(_, _) => false
    case Trap => false
    case BudgetExhausted(rest) => vm.budgeted && Asks(vm, rest)
    case Syscall(_, acts, rest) => vm.dispatch && (HandlerAsks(vm, acts) || Asks(vm, rest))
  }

  predicate HandlerAsks(vm: Vm, acts: Actions) {
    match acts
    case NoMore => false
    case RequestExit(_, _) => true
    case CallGuest(script, more) => Asks(vm, script) || HandlerAsks(vm, more)
  }

  // The values the tree asks to exit with.
  function Values(s: Script): set<u64> {
    match s
    case Hlt(_, _) => {}
    case Trap => {}
    case BudgetExhausted(rest) => Values(rest)
    case Syscall(_, acts, rest) => HandlerValues(acts) + Values(rest)
  }

  function HandlerValues(acts: Actions): set<u64> {
    match acts
    case NoMore => {}
    case RequestExit(v, more) => {v} + HandlerValues(more)
    case CallGuest(script, more) => Values(script) + HandlerValues(more)
  }

  ghost predicate Resolves(vm: Vm, s: Script, exit: GuestExit) {
    && (forall v :: exit == Returned(v) <==> Reaches(vm, s, v))
    && (exit == Fatal <==> forall v :: !Reaches(vm, s, v))
  }

  lemma {:induction false} LoopResolves(vm: Vm, s: Script, entry: int, id: nat, live: seq<int>, th: Thread)
    ensures var o := RunLoop(vm, s, entry, id, live, th); o.exit.ThreadExit? || Resolves(vm, s, o.exit)
    decreases s
  {
    match s
    case Hlt(rip, rax) =>
      if rip == vm.gadget + 1 { assert Reaches(vm, s, rax); }
    case Trap =>
    case BudgetExhausted(rest) =>
      if vm.budgeted {
        LoopResolves(vm, rest, entry, id, live, th);
        assert forall v :: Reaches(vm, s, v) <==> Reaches(vm, rest, v);
      }
    case Syscall(drop, acts, rest) =>
      if vm.dispatch {
        var th1 := Handle(vm, acts, live + [entry - drop], th.(curRsp := entry - drop)).0;
        if th1.exit.None? {
          LoopResolves(vm, rest, entry, id, live, th1);
          assert forall v :: Reaches(vm, s, v) <==> Reaches(vm, rest, v);
        }
      }
  }

  // ---- exits ------------------------------------------------------------------------------------

  // What a stretch of guest code may leave in the flag.
  ghost predicate FlagFrom(before: Option<u64>, values: set<u64>, after: Option<u64>) {
    (after.None? ==> before.None?) && (after.Some? ==> after == before || after.value in values)
  }

  // A nested call's result, with a thread exit put back in the flag.
  function Flagged(o: Out): Option<u64> {
    if o.exit.ThreadExit? then Some(o.exit.value) else o.th.exit
  }

  lemma {:induction false} HandlerFlag(vm: Vm, acts: Actions, live: seq<int>, th: Thread)
    ensures FlagFrom(th.exit, HandlerValues(acts), Handle(vm, acts, live, th).0.exit)
    ensures Handle(vm, acts, live, th).0.exit.Some? ==> th.exit.Some? || HandlerAsks(vm, acts)
    ensures (forall a :: vm.writable(a)) && HandlerAsks(vm, acts) ==> Handle(vm, acts, live, th).0.exit.Some?
    decreases acts, 0
  {
    match acts
    case NoMore =>
    case RequestExit(v, more) => HandlerFlag(vm, more, live, th.(exit := Some(v)));
    case CallGuest(script, more) =>
      var top := CarveTop(th.curRsp);
      DriveFlag(vm, script, top, live, th);
      var r := Drive(vm, script, top, live, th);
      var th1 := if r.exit.ThreadExit? then r.th.(exit := Some(r.exit.value)) else r.th;
      HandlerFlag(vm, more, live, th1);
  }

  lemma {:induction false} DriveFlag(vm: Vm, s: Script, rsp: int, live: seq<int>, th: Thread)
    ensures FlagFrom(th.exit, Values(s), Flagged(Drive(vm, s, rsp, live, th)))
    ensures Flagged(Drive(vm, s, rsp, live, th)).Some? ==> th.exit.Some? || Asks(vm, s)
    ensures (forall a :: vm.writable(a)) && Asks(vm, s) ==> Flagged(Drive(vm, s, rsp, live, th)).Some?
    ensures th.exit.None? && !Drive(vm, s, rsp, live, th).exit.ThreadExit? ==> Drive(vm, s, rsp, live, th).th.exit.None?
    decreases s, 1
  {
    if vm.writable(rsp - 8) {
      LoopFlag(vm, s, rsp - 8, th.nextId, live, th.(depth := th.depth + 1, nextId := th.nextId + 1));
    }
  }

  lemma {:induction false} LoopFlag(vm: Vm, s: Script, entry: int, id: nat, live: seq<int>, th: Thread)
    ensures FlagFrom(th.exit, Values(s), Flagged(RunLoop(vm, s, entry, id, live, th)))
    ensures Flagged(RunLoop(vm, s, entry, id, live, th)).Some? ==> th.exit.Some? || Asks(vm, s)
    ensures (forall a :: vm.writable(a)) && Asks(vm, s) ==> Flagged(RunLoop(vm, s, entry, id, live, th)).Some?
    ensures th.exit.None? && !RunLoop(vm, s, entry, id, live, th).exit.ThreadExit? ==>
              RunLoop(vm, s, entry, id, live, th).th.exit.None?
    decreases s, 0
  {
    match s
    case Hlt(_, _) =>
    case Trap =>
    case BudgetExhausted(rest) =>
      if vm.budgeted { LoopFlag(vm, rest, entry, id, live, th); }
    case Syscall(drop, acts, rest) =>
      if vm.dispatch {
        var th0 := th.(curRsp := entry - drop);
        HandlerFlag(vm, acts, live + [entry - drop], th0);
        var th1 := Handle(vm, acts, live + [entry - drop], th0).0;
        if th1.exit.None? { LoopFlag(vm, rest, entry, id, live, th1); }
      }
  }

  // The outermost call: a thread exit only with a value some handler it comes to asked for, and, on
  // writable stacks, whenever one asked. Otherwise it returns RAX exactly when the return address could
  // be pushed and the script comes to the gadget with it, and anything else is fatal.
  lemma CallResult(vm: Vm, s: Script, rsp: int, depth: nat)
    ensures var exit := RunGuestCall(vm, s, rsp, depth).exit;
            exit.ThreadExit? ==> Asks(vm, s) && exit.value in Values(s)
    ensures (forall a :: vm.writable(a)) ==> (RunGuestCall(vm, s, rsp, depth).exit.ThreadExit? <==> Asks(vm, s))
    ensures var exit := RunGuestCall(vm, s, rsp, depth).exit;
            !exit.ThreadExit? ==>
              && (forall v :: exit == Returned(v) <==> vm.writable(rsp - 8) && Reaches(vm, s, v))
              && (exit == Fatal <==> (!vm.writable(rsp - 8) || forall v :: !Reaches(vm, s, v)))
  {
    var th := Thread(rsp, None, depth, 0);
    DriveFlag(vm, s, rsp, [], th);
    if vm.writable(rsp - 8) {
      LoopResolves(vm, s, rsp - 8, 0, [], th.(depth := th.depth + 1, nextId := th.nextId + 1));
    }
  }

  // A nested call made by the first handler runs on the highest 16-aligned frame that clears the red
  // zone of 128 bytes below the guest's RSP, which is the entry RSP less the pushed return address and
  // what the guest has pushed since.
  lemma FirstNestedFrame(vm: Vm, s: Script, rsp: int, depth: nat, drop: int, nested: Script, more: Actions, rest: Script)
    requires s == Syscall(drop, CallGuest(nested, more), rest) && vm.dispatch && vm.writable(rsp - 8)
    ensures var log := RunGuestCall(vm, s, rsp, depth).log; var sp := rsp - 8 - drop;
            && |log| > 1 && log[0] == Slice(0) && log[1].Carved? && log[1].live == [sp]
            && log[1].top % 16 == 0 && sp - 128 - 16 < log[1].top <= sp - 128
  {
    var th := Thread(rsp - 8 - drop, None, depth + 1, 1);
    var handled := Handle(vm, CallGuest(nested, more), [rsp - 8 - drop], th);
    assert [] + [rsp - 8 - drop] == [rsp - 8 - drop];
    assert handled.1[0] == Carved(CarveTop(rsp - 8 - drop), [rsp - 8 - drop]);
    hide Handle, RunLoop;
    var log := RunGuestCall(vm, s, rsp, depth).log;
    FirstEvents(vm, s, rsp, depth, drop, CallGuest(nested, more), rest);
  }

  lemma FirstEvents(vm: Vm, s: Script, rsp: int, depth: nat, drop: int, acts: Actions, rest: Script)
    requires s == Syscall(drop, acts, rest) && vm.dispatch && vm.writable(rsp - 8)
    ensures var log := RunGuestCall(vm, s, rsp, depth).log;
            var handled := Handle(vm, acts, [rsp - 8 - drop], Thread(rsp - 8 - drop, None, depth + 1, 1)).1;
            [Slice(0)] + handled <= log
  {
    hide Handle;
    var th := Thread(rsp, None, depth + 1, 1);
    var entry := rsp - 8;
    assert [] + [entry - drop] == [entry - drop];
    var (th1, log1) := Handle(vm, acts, [entry - drop], th.(curRsp := entry - drop));
    assert th.(curRsp := entry - drop) == Thread(rsp - 8 - drop, None, depth + 1, 1);
    assert RunGuestCall(vm, s, rsp, depth).log == RunLoop(vm, s, entry, 0, [], th).log;
    if th1.exit.None? {
      var r := RunLoop(vm, rest, entry, 0, [], th1);
      assert RunLoop(vm, s, entry, 0, [], th).log == [Slice(0)] + log1 + [HandlerReturned(0, false)] + r.log;
    }
  }
}
