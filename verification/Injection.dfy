/** Which syscall results live in tracee memory, on both sides of a recording:
    the region the recorder captures and the address the replayer writes to. */
module Injection {
  import opened Common

  /** The six raw syscall arguments. */
  type Args = a: seq<u64> | |a| == 6 witness [0, 0, 0, 0, 0, 0]

  datatype SyscallRegs = SyscallRegs(nr: u64, ret: i64, args: Args)

  /** An address space: every address holds a byte. */
  type Memory = nat -> byte

  // Linux x86-64 syscall numbers.
  const SYS_READ: u64 := 0
  const SYS_PREAD64: u64 := 17
  const SYS_RECVFROM: u64 := 45
  const SYS_CLOCK_GETTIME: u64 := 228
  const SYS_GETRANDOM: u64 := 318

  const TIMESPEC_LEN: nat := 16

  /** Recorder side: the region the kernel wrote, known once the result is. */
  function KernelWrittenRegion(nr: u64, args: Args, ret: i64): Option<(nat, nat)> {
    if nr == SYS_READ || nr == SYS_PREAD64 || nr == SYS_RECVFROM then
      if ret > 0 then Some((args[1], ret)) else None
    else if nr == SYS_GETRANDOM then
      if ret > 0 then Some((args[0], ret)) else None
    else if nr == SYS_CLOCK_GETTIME then
      if ret == 0 then Some((args[1], TIMESPEC_LEN)) else None
    else
      None
  }

  /** Replayer side: the destination of injected bytes, decided at entry. */
  function InjectionAddr(nr: u64, args: Args): Option<nat> {
    if nr == SYS_READ || nr == SYS_PREAD64 || nr == SYS_RECVFROM then Some(args[1])
    else if nr == SYS_GETRANDOM then Some(args[0])
    else if nr == SYS_CLOCK_GETTIME then Some(args[1])
    else None
  }

  function ReadMemory(mem: Memory, addr: nat, len: nat): (data: seq<byte>)
    ensures |data| == len
  {
    seq(len, i requires 0 <= i < len => mem(addr + i))
  }

  function WriteMemory(mem: Memory, addr: nat, data: seq<byte>): Memory {
    (a: nat) => if addr <= a < addr + |data| then data[a - addr] else mem(a)
  }

  /** The bytes the recorder stores with a syscall-exit record. */
  function CapturedData(enter: SyscallRegs, ret: i64, mem: Memory): seq<byte> {
    match KernelWrittenRegion(enter.nr, enter.args, ret)
    case Some(region) => ReadMemory(mem, region.0, region.1)
    case None => []
  }

  /** One result fed back into a tracee: where, which bytes, which return value. */
  datatype Injected = Injected(addr: nat, data: seq<byte>, ret: i64)

  /** What a recorded syscall amounts to for replay: nothing for a real syscall. */
  function InjectionOf(enter: SyscallRegs, ret: i64, mem: Memory): seq<Injected> {
    match InjectionAddr(enter.nr, enter.args)
    case Some(addr) => [Injected(addr, CapturedData(enter, ret, mem), ret)]
    case None => []
  }

  /** What the kernel writes through a syscall's arguments, by syscall number: `read`,
      `pread64` and `recvfrom` write `ret` bytes at the second argument, `getrandom`
      at the first, and `clock_gettime` a 16-byte time at the second. */
  ghost predicate KernelWrote(nr: u64, args: Args, ret: i64, a: nat) {
    || ((nr == 0 || nr == 17 || nr == 45) && ret > 0 && args[1] <= a && a - args[1] < ret)
    || (nr == 318 && ret > 0 && args[0] <= a && a - args[0] < ret)
    || (nr == 228 && ret == 0 && args[1] <= a && a - args[1] < 16)
  }

  /** Where the kernel writes for each of the five. */
  ghost function Destination(nr: u64, args: Args): Option<nat> {
    if nr in {0, 17, 45, 228} then Some(args[1])
    else if nr == 318 then Some(args[0])
    else None
  }

  /** Injecting what was captured rebuilds the recorded memory: exactly these five
      syscalls are injected, each with just the bytes the kernel wrote; and if
      the replayed tracee agrees with the recording wherever the kernel did not write, then
      after the write it agrees everywhere. */
  lemma InjectionRebuildsMemory(enter: SyscallRegs, ret: i64, recorded: Memory, live: Memory)
    requires forall a: nat :: !KernelWrote(enter.nr, enter.args, ret, a) ==> live(a) == recorded(a)
    ensures var fed := InjectionOf(enter, ret, recorded);
            var data := CapturedData(enter, ret, recorded);
            && |fed| == (if enter.nr in {0, 17, 45, 228, 318} then 1 else 0)
            && (fed == [] ==> data == [] && forall a: nat :: live(a) == recorded(a))
            && (fed != [] ==>
                  && fed[0].ret == ret && fed[0].data == data
                  && (forall a: nat ::
                        fed[0].addr <= a < fed[0].addr + |data| <==> KernelWrote(enter.nr, enter.args, ret, a))
                  && (forall a: nat :: WriteMemory(live, fed[0].addr, data)(a) == recorded(a)))
  {
    match InjectionAddr(enter.nr, enter.args)
    case None =>
    case Some(addr) =>
      var data := CapturedData(enter, ret, recorded);
      forall a: nat ensures addr <= a < addr + |data| <==> KernelWrote(enter.nr, enter.args, ret, a) {
      }
      forall a: nat ensures WriteMemory(live, addr, data)(a) == recorded(a) {
        if addr <= a < addr + |data| {
          assert data[a - addr] == recorded(addr + (a - addr));
        }
      }
  }
}
