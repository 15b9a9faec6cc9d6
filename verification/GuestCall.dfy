// The nested guest-call run loop. A vcpu is the finite tree of exits it would produce; each
// syscall's handler may request a thread exit or call back into guest code.

module GuestCall {
  import opened Words

  // The exits of one vcpu, in order. At a syscall the guest's RSP is `drop` below its entry.
  datatype Script =
    | Hlt(rip: int, rax: u64)
    | Trap
    | BudgetExhausted(rest: Script)
    | Syscall(drop: int, acts: Actions, rest: Script)

  // What a syscall handler does before it returns.
  datatype Actions =
    | NoMore
    | RequestExit(value: u64, more: Actions)
    | CallGuest(script: Script, more: Actions)

  datatype GuestExit = Returned(rax: u64) | ThreadExit(value: u64) | Fatal

  datatype Vm = Vm(gadget: int, budgeted: bool, dispatch: bool, writable: int -> bool)

  // The thread-locals: the RSP of the latest syscall, the exit flag, the drive depth; and a
  // number for the next vcpu.
  datatype Thread = Thread(curRsp: int, exit: Option<u64>, depth: nat, nextId: nat)

  datatype Event =
    | Slice(id: nat)
    | HandlerReturned(id: nat, flagged: bool)
    | Requested(value: u64)
    | Carved(top: int, live: seq<int>)

  datatype Out = Out(exit: GuestExit, th: Thread, log: seq<Event>)

  const RED_ZONE: int := 128

  // The top of a frame below the latest syscall's RSP, past the red zone, 16-aligned.
  function CarveTop(rsp: int): int { (rsp - RED_ZONE) - (rsp - RED_ZONE) % 16 }

  // `drive`: push the return address, run the vcpu, restore the depth.
  function Drive(vm: Vm, s: Script, rsp: int, live: seq<int>, th: Thread): Out
    decreases s, 1
  {
    if !vm.writable(rsp - 8) then Out(Fatal, th, [])
    else
      var r := RunLoop(vm, s, rsp - 8, th.nextId, live, th.(depth := th.depth + 1, nextId := th.nextId + 1));
      r.(th := r.th.(depth := if r.th.depth > 0 then r.th.depth - 1 else 0))
  }

  // The loop of vcpu `id`, entered with RSP `entry`.
  function RunLoop(vm: Vm, s: Script, entry: int, id: nat, live: seq<int>, th: Thread): Out
    decreases s, 0
  {
    match s
    case Hlt(rip, rax) => Out(if rip == vm.gadget + 1 then Returned(rax) else Fatal, th, [Slice(id)])
    case Trap => Out(Fatal, th, [Slice(id)])
    case BudgetExhausted(rest) =>
      if !vm.budgeted then Out(Fatal, th, [Slice(id)])
      else
        var r := RunLoop(vm, rest, entry, id, live, th);
        r.(log := [Slice(id)] + r.log)
    case Syscall(drop, acts, rest) =>
      if !vm.dispatch then Out(Fatal, th.(curRsp := entry - drop), [Slice(id)])
      else
        var (th1, log1) := Handle(vm, acts, live + [entry - drop], th.(curRsp := entry - drop));
        if th1.exit.Some? then
          Out(ThreadExit(th1.exit.value), th1.(exit := None), [Slice(id)] + log1 + [HandlerReturned(id, true)])
        else
          var r := RunLoop(vm, rest, entry, id, live, th1);
          r.(log := [Slice(id)] + log1 + [HandlerReturned(id, false)] + r.log)
  }

  // A handler's actions; a nested call that unwound re-arms the flag.
  function Handle(vm: Vm, acts: Actions, live: seq<int>, th: Thread): (Thread, seq<Event>)
    decreases acts, 0
  {
    match acts
    case NoMore => (th, [])
    case RequestExit(v, more) =>
      var (th1, log1) := Handle(vm, more, live, th.(exit := Some(v)));
      (th1, [Requested(v)] + log1)
    case CallGuest(script, more) =>
      var top := CarveTop(th.curRsp);
      var r := Drive(vm, script, top, live, th);
      var th1 := if r.exit.ThreadExit? then r.th.(exit := Some(r.exit.value)) else r.th;
      var (th2, log2) := Handle(vm, more, live, th1);
      (th2, [Carved(top, live)] + r.log + log2)
  }

  // The outermost call, under a context of its own.
  function RunGuestCall(vm: Vm, s: Script, rsp: int, depth: nat): Out {
    Drive(vm, s, rsp, [], Thread(rsp, None, depth, 0))
  }

  function Prepend(l: seq<Event>, o: Out): Out { o.(log := l + o.log) }

  lemma PrependTwice(l: seq<Event>, a: seq<Event>, o: Out)
    ensures Prepend(l, o.(log := a + o.log)) == Prepend(l + a, o)
  {
    assert l + (a + o.log) == (l + a) + o.log;
  }

  // The thread as the emulator holds it: cells changed in place by the loop and by handlers.
  class GuestThread {
    const vm: Vm
    var curRsp: int
    var exit: Option<u64>
    var depth: nat
    var nextId: nat
    var log: seq<Event>

    function State(): Thread
      reads this
    {
      Thread(curRsp, exit, depth, nextId)
    }

    constructor (vm: Vm)
      ensures this.vm == vm && State() == Thread(0, None, 0, 0) && log == []
    {
      this.vm := vm;
      curRsp, exit, depth, nextId, log := 0, None, 0, 0, [];
    }

    method RequestThreadExit(value: u64)
      modifies this`exit
      ensures exit == Some(value)
    {
      exit := Some(value);
    }

    method DriveVcpu(s: Script, rsp: int, live: seq<int>) returns (r: GuestExit)
      modifies this
      ensures var o := Drive(vm, s, rsp, live, old(State()));
              r == o.exit && State() == o.th && log == old(log) + o.log
      decreases s, 1
    {
      if !vm.writable(rsp - 8) {
        return Fatal;
      }
      depth := depth + 1;
      var id := nextId;
      nextId := nextId + 1;
      r := Loop(s, rsp - 8, id, live);
      depth := if depth > 0 then depth - 1 else 0;
    }

    method Loop(s: Script, entry: int, id: nat, live: seq<int>) returns (r: GuestExit)
      modifies this
      ensures var o := RunLoop(vm, s, entry, id, live, old(State()));
              r == o.exit && State() == o.th && log == old(log) + o.log
      decreases s, 0
    {
      var cur := s;
      ghost var whole := Prepend(log, RunLoop(vm, s, entry, id, live, State()));
      while true
        invariant cur == s || cur < s
        invariant Prepend(log, RunLoop(vm, cur, entry, id, live, State())) == whole
        decreases cur
      {
        ghost var before, th := log, State();
        log := log + [Slice(id)];
        match cur {
          case Hlt(rip, rax) =>
            return if rip == vm.gadget + 1 then Returned(rax) else Fatal;
          case Trap => return Fatal;
          case BudgetExhausted(rest) =>
            if !vm.budgeted {
              return Fatal;
            }
            PrependTwice(before, [Slice(id)], RunLoop(vm, rest, entry, id, live, th));
            cur := rest;
          case Syscall(drop, acts, rest) =>
            curRsp := entry - drop;
            if !vm.dispatch {
              return Fatal;
            }
            RunHandler(acts, live + [curRsp]);
            var requested := exit;
            exit := None;
            log := log + [HandlerReturned(id, requested.Some?)];
            ghost var log1 := Handle(vm, acts, live + [entry - drop], th.(curRsp := entry - drop)).1;
            ghost var step := [Slice(id)] + log1 + [HandlerReturned(id, requested.Some?)];
            assert log == before + step;
            if requested.Some? {
              return ThreadExit(requested.value);
            }
            PrependTwice(before, step, RunLoop(vm, rest, entry, id, live, State()));
            cur := rest;
        }
      }
    }

    method RunHandler(acts: Actions, live: seq<int>)
      modifies this
      ensures var o := Handle(vm, acts, live, old(State())); State() == o.0 && log == old(log) + o.1
      decreases acts, 0
    {
      hide Drive, CarveTop;
      match acts {
        case NoMore =>
        case RequestExit(v, more) =>
          log := log + [Requested(v)];
          RequestThreadExit(v);
          RunHandler(more, live);
        case CallGuest(script, more) =>
          var top := CarveTop(curRsp);
          log := log + [Carved(top, live)];
          var r := DriveVcpu(script, top, live);
          if r.ThreadExit? {
            RequestThreadExit(r.value);
          }
          RunHandler(more, live);
      }
    }

    method Run(s: Script, rsp: int) returns (r: GuestExit)
      modifies this
      ensures var o := Drive(vm, s, rsp, [], Thread(rsp, None, old(depth), old(nextId)));
              r == o.exit && log == old(log) + o.log && depth == o.th.depth
      ensures curRsp == old(curRsp) && exit == old(exit)
    {
      var prevRsp, prevExit := curRsp, exit;
      curRsp, exit := rsp, None;
      r := DriveVcpu(s, rsp, []);
      curRsp, exit := prevRsp, prevExit;
    }
  }
}
