/** The RISC0 IPC server: mailbox interrupts fill a queue, the main loop handles
    one command at a time with interrupts off, borrowing IOMMU windows. */
module Ipc {
  import opened Bytes
  import opened Iommu
  import Q = Queue

  const MAGIC: int := 0x4D424F58
  const HEADER_LEN: nat := 8
  const COMMAND_LEN: nat := 16
  const SHRMEM_LEN: nat := 8
  const COMPLETE: nat := 1
  const OTP_SERVICE: nat := 7
  const GET_DUMP: nat := 1
  const OTP_SIZE: nat := 512
  const UINTPTR_MAX: nat := 0xFFFF_FFFF
  const ENULL: int := 1011
  const EINVALIDLENGTH: int := 1005

  /** Little-endian value of a byte string. */
  function Little(s: seq<Byte>): nat {
    if |s| == 0 then 0 else s[0] as int + 256 * Little(s[1..])
  }

  lemma {:induction false} LittleBound(s: seq<Byte>)
    ensures Little(s) < Pow256(|s|)
  {
    if |s| > 0 { LittleBound(s[1..]); }
  }

  lemma {:induction false} EightBytes(s: seq<Byte>)
    requires |s| == 8
    ensures Little(s) < LIMIT64
  {
    LittleBound(s);
    FourBytes();
    Pow256Add(4, 4);
  }

  /** A queued command. */
  datatype Msg = Msg(link: nat, service: nat, func: nat, otpBuf: nat, otpSize: nat, shrmem: Option<nat>)

  /** What an interrupt makes of the bytes in its FIFO. */
  datatype Frame = Ignore | Panic | Got(msg: Msg)

  function ReadFrame(link: nat, fifo: seq<Byte>): Frame {
    if |fifo| == 0 then Ignore
    else if |fifo| < HEADER_LEN || Little(fifo[..4]) != MAGIC then Ignore
    else
      var shrlen := Little(fifo[6..8]);
      if Little(fifo[4..6]) != COMMAND_LEN || |fifo| < HEADER_LEN + COMMAND_LEN then Panic
      else if shrlen != 0 && (shrlen != SHRMEM_LEN || |fifo| < HEADER_LEN + COMMAND_LEN + SHRMEM_LEN) then Panic
      else
        var cmd := fifo[HEADER_LEN..HEADER_LEN + COMMAND_LEN];
        Got(Msg(link, Little(cmd[..2]), Little(cmd[2..4]), Little(cmd[4..12]), Little(cmd[12..16]),
                if shrlen == 0 then None else Some(Little(fifo[24..32]))))
  }

  /** v in n bytes, low byte first. */
  function LittleBytes(v: nat, n: nat): (s: seq<Byte>)
    ensures |s| == n
  {
    if n == 0 then [] else [v % 256] + LittleBytes(v / 256, n - 1)
  }

  lemma {:induction false} LittleRoundTrip(v: nat, n: nat)
    requires v < Pow256(n)
    ensures Little(LittleBytes(v, n)) == v
  {
    if n > 0 {
      assert LittleBytes(v, n)[1..] == LittleBytes(v / 256, n - 1);
      LittleRoundTrip(v / 256, n - 1);
    }
  }

  /** The command part of a request. */
  function CommandBytes(service: nat, func: nat, buf: nat, size: nat): (s: seq<Byte>)
    ensures |s| == 16
  {
    LittleBytes(service, 2) + LittleBytes(func, 2) + LittleBytes(buf, 8) + LittleBytes(size, 4)
  }

  /** A request as a client lays it out in the FIFO: magic number, lengths of
      command and response address, command, response address. Every field
      arrives as itself. */
  lemma {:induction false} FrameFields(link: nat, service: nat, func: nat, buf: nat, size: nat, shrmem: nat)
    requires service < Pow256(2) && func < Pow256(2) && buf < Pow256(8) && size < Pow256(4) && shrmem < Pow256(8)
    ensures var cmd := CommandBytes(service, func, buf, size);
            && ReadFrame(link, [0x58, 0x4F, 0x42, 0x4D, 16, 0, 8, 0] + cmd + LittleBytes(shrmem, 8)) ==
               Got(Msg(link, service, func, buf, size, Some(shrmem)))
            && ReadFrame(link, [0x58, 0x4F, 0x42, 0x4D, 16, 0, 0, 0] + cmd) ==
               Got(Msg(link, service, func, buf, size, None))
  {
    var cmd := CommandBytes(service, func, buf, size);
    CommandFields(service, func, buf, size);
    LittleRoundTrip(shrmem, 8);
    HeaderFields([0x58, 0x4F, 0x42, 0x4D, 16, 0, 8, 0], 8, cmd + LittleBytes(shrmem, 8));
    HeaderFields([0x58, 0x4F, 0x42, 0x4D, 16, 0, 0, 0], 0, cmd);
    var fifo := [0x58, 0x4F, 0x42, 0x4D, 16, 0, 8, 0] + cmd + LittleBytes(shrmem, 8);
    assert fifo == [0x58, 0x4F, 0x42, 0x4D, 16, 0, 8, 0] + (cmd + LittleBytes(shrmem, 8));
    assert fifo[8..24] == cmd && fifo[24..32] == LittleBytes(shrmem, 8);
    assert ([0x58, 0x4F, 0x42, 0x4D, 16, 0, 0, 0] + cmd)[8..24] == cmd;
  }

  lemma {:induction false} CommandFields(service: nat, func: nat, buf: nat, size: nat)
    requires service < Pow256(2) && func < Pow256(2) && buf < Pow256(8) && size < Pow256(4)
    ensures var cmd := CommandBytes(service, func, buf, size);
            && Little(cmd[..2]) == service && Little(cmd[2..4]) == func
            && Little(cmd[4..12]) == buf && Little(cmd[12..16]) == size
  {
    var cmd := CommandBytes(service, func, buf, size);
    LittleRoundTrip(service, 2);
    LittleRoundTrip(func, 2);
    LittleRoundTrip(buf, 8);
    LittleRoundTrip(size, 4);
    assert cmd[..2] == LittleBytes(service, 2) && cmd[2..4] == LittleBytes(func, 2);
    assert cmd[4..12] == LittleBytes(buf, 8) && cmd[12..16] == LittleBytes(size, 4);
  }

  lemma {:induction false} HeaderFields(h: seq<Byte>, len: Byte, rest: seq<Byte>)
    requires h == [0x58, 0x4F, 0x42, 0x4D, 16, 0, len, 0]
    ensures var fifo := h + rest;
            Little(fifo[..4]) == MAGIC && Little(fifo[4..6]) == 16 && Little(fifo[6..8]) == len
  {
    var fifo := h + rest;
    FourLittle(0x58, 0x4F, 0x42, 0x4D);
    TwoLittle(16, 0);
    TwoLittle(len, 0);
    assert fifo[..4] == [0x58, 0x4F, 0x42, 0x4D] && fifo[4..6] == [16, 0] && fifo[6..8] == [len, 0];
  }

  lemma {:induction false} TwoLittle(a: Byte, b: Byte)
    ensures Little([a, b]) == a as int + 256 * b as int
  {
    assert [b][1..] == [] && Little([b]) == b as int + 256 * Little([]);
    assert [a, b][1..] == [b];
  }

  lemma {:induction false} FourLittle(a: Byte, b: Byte, c: Byte, d: Byte)
    ensures Little([a, b, c, d]) == a as int + 256 * (b as int + 256 * (c as int + 256 * d as int))
  {
    TwoLittle(c, d);
    assert [b, c, d][1..] == [c, d];
    assert Little([b, c, d]) == b as int + 256 * Little([c, d]);
    assert [a, b, c, d][1..] == [b, c, d];
  }

  predicate MsgOk(m: Msg) {
    m.otpBuf < LIMIT64 && (m.shrmem.Some? ==> m.shrmem.value < LIMIT64)
  }

  lemma {:induction false} FrameOk(link: nat, fifo: seq<Byte>)
    ensures ReadFrame(link, fifo).Got? ==> MsgOk(ReadFrame(link, fifo).msg)
  {
    if ReadFrame(link, fifo).Got? {
      EightBytes(fifo[HEADER_LEN..HEADER_LEN + COMMAND_LEN][4..12]);
      if Little(fifo[6..8]) != 0 { EightBytes(fifo[24..32]); }
    }
  }

  /** Response parameters: bytes from a service, or the OTP result. */
  datatype Param = Opaque(bytes: seq<Byte>) | OtpError(code: int)

  /** Stores to 64-bit addresses, in program order. */
  datatype Store = ParamStore(addr: nat, param: Param) | StateStore(addr: nat, value: nat)
                 | ByteStore(addr: nat, byte: Byte)

  /** The stores of a memcpy. */
  function Copied(addr: nat, bytes: seq<Byte>): (r: seq<Store>)
    ensures |r| == |bytes|
  {
    seq(|bytes|, k requires 0 <= k < |bytes| => ByteStore(addr + k, bytes[k]))
  }

  /** Each completion mark follows the parameters of its response. */
  ghost predicate Ordered(log: seq<Store>) {
    forall i | 0 <= i < |log| && log[i].StateStore? ::
      i > 0 && log[i - 1].ParamStore? && log[i - 1].addr == log[i].addr + 4
  }

  lemma {:induction false} OrderedMore(log: seq<Store>, more: seq<Store>)
    requires Ordered(log) && Ordered(more)
    ensures Ordered(log + more)
  {
    var all := log + more;
    forall i | 0 <= i < |all| && all[i].StateStore?
      ensures i > 0 && all[i - 1].ParamStore? && all[i - 1].addr == all[i].addr + 4
    {
      if i >= |log| { assert all[i] == more[i - |log|] && all[i - 1] == more[i - |log| - 1]; }
    }
  }

  /** What a command comes to: a panic, or response parameters and the stores
      made on the way. */
  datatype Outcome = Panicked | Answer(param: Param, stores: seq<Store>)

  /** Some window is free. */
  ghost predicate Free(live: map<nat, nat>) {
    exists i :: 0 <= i < SLOTS && i !in live
  }

  datatype Event = Interrupt(link: nat, fifo: seq<Byte>) | MainLoop(stack: Param)

  /** Commands the interrupts of a run put into the queue. */
  function Arrivals(events: seq<Event>): seq<Msg> {
    if |events| == 0 then []
    else
      ArrivalOf(events[0]) + Arrivals(events[1..])
  }

  function ArrivalOf(e: Event): seq<Msg> {
    if e.Interrupt? && ReadFrame(e.link, e.fifo).Got? then [ReadFrame(e.link, e.fifo).msg] else []
  }

  /** Where a run stands: the commands queued so far, how many of them the main
      loop has taken, and the stores. */
  datatype Progress = Progress(arrived: seq<Msg>, taken: nat, log: seq<Store>)

  /** From p to r these commands arrived, none was dropped, and the stores went
      on. */
  predicate Extends(p: Progress, r: Progress, msgs: seq<Msg>) {
    r.arrived == p.arrived + msgs && p.taken <= r.taken <= |r.arrived| && p.log <= r.log
  }

  lemma {:induction false} ExtendsFurther(p: Progress, q: Progress, r: Progress, first: seq<Msg>, rest: seq<Msg>)
    requires Extends(p, q, first) && Extends(q, r, rest)
    ensures Extends(p, r, first + rest)
  {}

  class Server {
    const queue: Q.Queue<Msg>
    const iommu: Device
    const otp: Option<seq<Byte>>
    const service: Msg -> Option<Param>
    ghost var arrived: seq<Msg>
    ghost var handled: seq<Msg>
    var log: seq<Store>

    ghost predicate Valid()
      reads this, queue, queue.nodes, iommu, iommu.top, iommu.mid, iommu.low
    {
      && queue.Valid() && iommu.Valid() && (otp.Some? ==> |otp.value| == OTP_SIZE)
      && arrived == handled + queue.Contents() && Ordered(log)
      && forall m | m in queue.Contents() :: MsgOk(m)
    }

    constructor (iommu: Device, otp: Option<seq<Byte>>, service: Msg -> Option<Param>)
      requires iommu.Valid() && (otp.Some? ==> |otp.value| == OTP_SIZE)
      ensures Valid() && this.iommu == iommu && arrived == [] && handled == [] && log == []
      ensures fresh(queue) && queue.nodes == []
    {
      var q := new Q.Queue<Msg>();
      queue, this.iommu, this.otp, this.service := q, iommu, otp, service;
      arrived, handled, log := [], [], [];
    }

    /** risc0_ipc_irq_handler; false is a panic. */
    method Irq(link: nat, fifo: seq<Byte>) returns (ok: bool)
      requires Valid()
      modifies this`arrived, queue, queue.nodes
      ensures Valid()
      ensures queue.nodes == old(queue.nodes) || exists n :: fresh(n) && queue.nodes == old(queue.nodes) + [n]
      ensures ok <==> !ReadFrame(link, fifo).Panic?
      ensures arrived == if ReadFrame(link, fifo).Got? then old(arrived) + [ReadFrame(link, fifo).msg] else old(arrived)
    {
      var frame := ReadFrame(link, fifo);
      if frame.Got? {
        FrameOk(link, fifo);
        queue.Push(frame.msg);
        arrived := arrived + [frame.msg];
      }
      return !frame.Panic?;
    }

    /** risc0_ipc_resp; false is a panic. Both stores go through the window. */
    method Respond(shrmem: nat, param: Param) returns (ok: bool)
      requires iommu.Valid() && shrmem < LIMIT64
      modifies this`log, iommu`live, iommu.low
      ensures ok ==> iommu.Valid() && iommu.live == old(iommu.live)
      ensures ok <==> shrmem > UINTPTR_MAX && Free(old(iommu.live))
      ensures ok ==> log == old(log) + [ParamStore(shrmem + 4, param), StateStore(shrmem, COMPLETE)]
    {
      if shrmem <= UINTPTR_MAX {
        return false;
      }
      var resp := iommu.Map(shrmem);
      if resp.None? {
        return false;
      }
      ghost var slot := (resp.value - VIRT) / MIB2;
      WriteResponse(resp.value, slot, shrmem, param);
      SlotOfHome(slot, shrmem % PAGE);
      ok := iommu.Unmap(resp.value);
      Restored(old(iommu.live), slot, shrmem - shrmem % PAGE);
    }

    /** The parameters, then the mark, through the window. */
    method WriteResponse(resp: nat, ghost slot: nat, ghost shrmem: nat, param: Param)
      requires iommu.Valid() && slot in iommu.live && iommu.live[slot] == shrmem - shrmem % PAGE
      requires resp == Home(slot) + shrmem % PAGE
      modifies this`log
      ensures log == old(log) + [ParamStore(shrmem + 4, param), StateStore(shrmem, COMPLETE)]
    {
      var field := Through(resp + 4, slot, shrmem, 4);
      var state := Through(resp, slot, shrmem, 0);
      log := log + [ParamStore(field, param), StateStore(state, COMPLETE)];
    }

    /** memcpy through the window: every byte ends up where it is meant to. */
    method CopyOut(buf: nat, ghost slot: nat, ghost addr64: nat, bytes: seq<Byte>)
      requires iommu.Valid() && slot in iommu.live && iommu.live[slot] == addr64 - addr64 % PAGE
      requires buf == Home(slot) + addr64 % PAGE && |bytes| <= OTP_SIZE
      modifies this`log
      ensures log == old(log) + Copied(addr64, bytes)
    {
      ghost var start := log;
      for k := 0 to |bytes|
        invariant log == start + Copied(addr64, bytes)[..k]
      {
        var phys := Through(buf + k, slot, addr64, k);
        log := log + [ByteStore(phys, bytes[k])];
      }
    }

    /** Where an access through a window ends up. */
    method Through(virt: nat, ghost slot: nat, ghost addr64: nat, ghost more: nat) returns (phys: nat)
      requires iommu.Valid() && slot in iommu.live && iommu.live[slot] == addr64 - addr64 % PAGE
      requires virt == Home(slot) + addr64 % PAGE + more && more < MIB2 - PAGE
      ensures phys == addr64 + more
    {
      Reaches(iommu.Memory(), iommu.live, slot, addr64, more);
      phys := Translate(iommu.Memory(), virt).value;
    }

    /** What an OTP command comes to. Requests from other links and other
        functions leave the parameters unset. */
    function OtpOutcome(msg: Msg, stack: Param, free: bool): Outcome {
      var size := msg.otpSize % 0x1_0000;
      if msg.link !in {4, 5} || msg.func != GET_DUMP then Answer(stack, [])
      else if otp.None? then Answer(OtpError(-ENULL), [])
      else if size > |otp.value| then Answer(OtpError(-EINVALIDLENGTH), [])
      else if msg.otpBuf <= UINTPTR_MAX || !free then Panicked
      else Answer(OtpError(0), Copied(msg.otpBuf, otp.value[..size]))
    }

    /** What any command comes to; a response is its parameters, then the mark. */
    function CommandOutcome(msg: Msg, stack: Param, free: bool): Outcome {
      var a := if msg.service == OTP_SERVICE then OtpOutcome(msg, stack, free)
               else Answer(if service(msg).Some? then service(msg).value else stack, []);
      if a.Panicked? || msg.shrmem.None? then a
      else if msg.shrmem.value <= UINTPTR_MAX || !free then Panicked
      else Answer(a.param, a.stores + [ParamStore(msg.shrmem.value + 4, a.param),
                                       StateStore(msg.shrmem.value, COMPLETE)])
    }

    /** risc0_ipc_otp_handler: the parameters, or None for a panic. The size is
        cut to sixteen bits. */
    method Otp(msg: Msg, stack: Param) returns (r: Option<Param>)
      requires iommu.Valid() && MsgOk(msg) && (otp.Some? ==> |otp.value| == OTP_SIZE)
      modifies this`log, iommu`live, iommu.low
      ensures r.Some? ==> iommu.Valid() && iommu.live == old(iommu.live)
      ensures r.None? <==> OtpOutcome(msg, stack, Free(old(iommu.live))).Panicked?
      ensures r.Some? ==> var a := OtpOutcome(msg, stack, Free(old(iommu.live)));
                          r.value == a.param && log == old(log) + a.stores
    {
      if msg.link != 4 && msg.link != 5 {
        return Some(stack);
      }
      if msg.func != GET_DUMP {
        return Some(stack);
      }
      if otp.None? {
        return Some(OtpError(-ENULL));
      }
      var size := msg.otpSize % 0x1_0000;
      if size > OTP_SIZE {
        return Some(OtpError(-EINVALIDLENGTH));
      }
      if msg.otpBuf <= UINTPTR_MAX {
        return None;
      }
      var buf := iommu.Map(msg.otpBuf);
      if buf.None? {
        return None;
      }
      ghost var slot := (buf.value - VIRT) / MIB2;
      CopyOut(buf.value, slot, msg.otpBuf, otp.value[..size]);
      SlotOfHome(slot, msg.otpBuf % PAGE);
      var ok := iommu.Unmap(buf.value);
      Restored(old(iommu.live), slot, msg.otpBuf - msg.otpBuf % PAGE);
      return Some(OtpError(0));
    }

    /** risc0_ipc_cmd_handler; `stack` is what an unset response holds. */
    method Command(msg: Msg, stack: Param) returns (ok: bool)
      requires iommu.Valid() && MsgOk(msg) && (otp.Some? ==> |otp.value| == OTP_SIZE)
      modifies this`log, iommu`live, iommu.low
      ensures ok ==> iommu.Valid() && iommu.live == old(iommu.live)
      ensures ok <==> CommandOutcome(msg, stack, Free(old(iommu.live))).Answer?
      ensures ok ==> log == old(log) + CommandOutcome(msg, stack, Free(old(iommu.live))).stores
    {
      var param := Some(stack);
      if msg.service == OTP_SERVICE {
        param := Otp(msg, stack);
      } else if service(msg).Some? {
        param := service(msg);
      }
      if param.None? {
        return false;
      }
      ok := true;
      if msg.shrmem.Some? {
        ok := Respond(msg.shrmem.value, param.value);
      }
    }

    /** The stores of a command keep every mark behind its parameters. */
    lemma {:induction false} OutcomeOrdered(msg: Msg, stack: Param, free: bool)
      requires CommandOutcome(msg, stack, free).Answer?
      ensures Ordered(CommandOutcome(msg, stack, free).stores)
    {
      var a := if msg.service == OTP_SERVICE then OtpOutcome(msg, stack, free) else Answer(stack, []);
      assert Ordered(a.stores);
      if msg.shrmem.Some? {
        var o := CommandOutcome(msg, stack, free);
        OrderedMore(a.stores, [ParamStore(msg.shrmem.value + 4, o.param), StateStore(msg.shrmem.value, COMPLETE)]);
      }
    }

    lemma {:induction false} OrderKept(start: seq<Store>, msg: Msg, stack: Param, free: bool)
      requires Ordered(start) && CommandOutcome(msg, stack, free).Answer?
      ensures Ordered(start + CommandOutcome(msg, stack, free).stores)
    {
      OutcomeOrdered(msg, stack, free);
      OrderedMore(start, CommandOutcome(msg, stack, free).stores);
    }

    /** One event: an interrupt queues at most one command, a turn of the main
        loop takes the next one. */
    function After(p: Progress, e: Event, free: bool): Progress {
      match e
      case Interrupt(link, fifo) =>
        if ReadFrame(link, fifo).Got? then p.(arrived := p.arrived + [ReadFrame(link, fifo).msg]) else p
      case MainLoop(stack) =>
        if p.taken >= |p.arrived| then p
        else p.(taken := p.taken + 1, log := p.log + StoresOf(CommandOutcome(p.arrived[p.taken], stack, free)))
    }

    /** The event is no panic. */
    predicate Calm(p: Progress, e: Event, free: bool) {
      match e
      case Interrupt(link, fifo) => !ReadFrame(link, fifo).Panic?
      case MainLoop(stack) =>
        p.taken < |p.arrived| ==> CommandOutcome(p.arrived[p.taken], stack, free).Answer?
    }

    function AfterAll(p: Progress, events: seq<Event>, free: bool): Progress
      decreases |events|
    {
      if |events| == 0 then p else AfterAll(After(p, events[0], free), events[1..], free)
    }

    predicate AllCalm(p: Progress, events: seq<Event>, free: bool)
      decreases |events|
    {
      |events| == 0 || (Calm(p, events[0], free) && AllCalm(After(p, events[0], free), events[1..], free))
    }

    /** Nothing that arrives is lost or reordered, and the main loop goes through
        it from the front, one command a turn. */
    lemma {:induction false} InOrder(p: Progress, events: seq<Event>, free: bool)
      requires p.taken <= |p.arrived|
      ensures Extends(p, AfterAll(p, events, free), Arrivals(events))
      decreases |events|
    {
      if |events| > 0 {
        var q, first := After(p, events[0], free), ArrivalOf(events[0]);
        assert Extends(p, q, first);
        InOrder(q, events[1..], free);
        ExtendsFurther(p, q, AfterAll(q, events[1..], free), first, Arrivals(events[1..]));
      }
    }

    /** risc0_ipc_handler: one turn of the main loop, interrupts off. */
    method Turn(stack: Param) returns (ok: bool)
      requires Valid()
      modifies this`handled, this`log, queue, queue.nodes, iommu`live, iommu.low
      ensures ok ==> Valid() && iommu.live == old(iommu.live)
      ensures queue.nodes == if old(queue.nodes) == [] then [] else old(queue.nodes)[1..]
      ensures arrived == old(arrived)
      ensures var q, free := old(queue.Contents()), Free(old(iommu.live));
              if |q| == 0 then ok && handled == old(handled) && log == old(log)
              else
                && handled == old(handled) + [q[0]] && (ok <==> CommandOutcome(q[0], stack, free).Answer?)
                && (ok ==> log == old(log) + StoresOf(CommandOutcome(q[0], stack, free)))
    {
      var msg := Take();
      ok := true;
      if msg.Some? {
        ghost var start, free := log, Free(iommu.live);
        ok := Command(msg.value, stack);
        if ok {
          OrderKept(start, msg.value, stack, free);
        }
      }
    }

    /** The oldest command leaves the queue. */
    method Take() returns (msg: Option<Msg>)
      requires Valid()
      modifies this`handled, queue, queue.nodes
      ensures Valid() && queue.nodes == if old(queue.nodes) == [] then [] else old(queue.nodes)[1..]
      ensures msg == if |old(queue.Contents())| == 0 then None else Some(old(queue.Contents())[0])
      ensures handled == if msg.None? then old(handled) else old(handled) + [msg.value]
      ensures msg.Some? ==> MsgOk(msg.value)
    {
      ghost var before := queue.Contents();
      msg := queue.Pop();
      if msg.Some? {
        TakeFirst(arrived, handled, before);
        handled := handled + [msg.value];
      }
    }

    /** The progress so far. */
    ghost function Now(): Progress
      reads this
    {
      Progress(arrived, |handled|, log)
    }

    /** Any interleaving of interrupts and main-loop turns. */
    method Run(events: seq<Event>) returns (ok: bool)
      requires Valid()
      modifies this, queue, queue.nodes, iommu`live, iommu.low
      ensures ok <==> AllCalm(old(Now()), events, Free(old(iommu.live)))
      ensures ok ==> Valid() && iommu.live == old(iommu.live) && handled == arrived[..|handled|]
      ensures ok ==> Now() == AfterAll(old(Now()), events, Free(old(iommu.live)))
      decreases |events|
    {
      ok := true;
      if |events| > 0 {
        ok := Serve(events[0]);
        if ok {
          ok := Run(events[1..]);
        }
      }
    }

    /** One event. */
    method Serve(e: Event) returns (ok: bool)
      requires Valid()
      modifies this, queue, queue.nodes, iommu`live, iommu.low
      ensures forall i | 0 <= i < |queue.nodes| :: queue.nodes[i] in old(queue.nodes) || fresh(queue.nodes[i])
      ensures ok <==> Calm(old(Now()), e, Free(old(iommu.live)))
      ensures ok ==> Valid() && iommu.live == old(iommu.live)
      ensures ok ==> Now() == After(old(Now()), e, Free(old(iommu.live)))
    {
      ghost var q := queue.Contents();
      assert |q| == |arrived| - |handled| && (|q| > 0 ==> q[0] == arrived[|handled|]);
      match e {
        case Interrupt(link, fifo) => ok := Irq(link, fifo);
        case MainLoop(stack) => ok := Turn(stack);
      }
      forall i | 0 <= i < |queue.nodes|
        ensures queue.nodes[i] in old(queue.nodes) || fresh(queue.nodes[i])
      {
      }
    }
  }

  function StoresOf(o: Outcome): seq<Store> { if o.Answer? then o.stores else [] }

  lemma {:induction false} TakeFirst(arrived: seq<Msg>, handled: seq<Msg>, queued: seq<Msg>)
    requires arrived == handled + queued && |queued| > 0
    ensures arrived == handled + [queued[0]] + queued[1..] && queued[0] in queued
  {}
}
