/** The seccomp filter compiler (`src/sys/seccomp.rs`).

The filter is a classic BPF program whose jump offsets are computed while it is
assembled.  Its meaning is given by a small BPF interpreter, `Execute`; the
assembler is proved to emit a program that the kernel's checker accepts and
that decides every (architecture, syscall number) pair as intended.
*/
module Seccomp {
  import opened Wrappers

  datatype Arch = X86_64 | AArch64

  datatype Mode = Unconfined | Default | Strict

  /** `struct sock_filter`.  `jt` and `jf` are 8-bit fields, `k` is 32 bits. */
  datatype Insn = Insn(code: nat, jt: nat, jf: nat, k: nat)

  const LD_W_ABS := 0x20
  const JMP_JEQ_K := 0x15
  const JMP_JGE_K := 0x35
  const RET_K := 0x06

  const RET_ALLOW := 0x7fff_0000
  const RET_KILL_PROCESS := 0x8000_0000
  const RET_ERRNO_EPERM := 0x0005_0001

  const X32_BIT := 0x4000_0000
  const MAX_KILL_INDEX := 250

  function AuditArch(arch: Arch): nat {
    match arch
    case X86_64 => 0xc000_003e
    case AArch64 => 0xc000_00b7
  }

  function AsU8(n: int): nat {
    n % 256
  }

  // -------------------------------------------------------------------------
  // What a filter program means
  // -------------------------------------------------------------------------

  /** The kernel's BPF machine, restricted to the opcodes a filter here can
      contain.  `None` is a program the machine cannot run. */
  function Execute(prog: seq<Insn>, pc: nat, acc: nat, arch: nat, nr: nat): Option<nat>
    decreases |prog| - pc
  {
    if pc >= |prog| then None
    else
      var insn := prog[pc];
      if insn.code == LD_W_ABS then
        if insn.k == 0 then Execute(prog, pc + 1, nr, arch, nr)
        else if insn.k == 4 then Execute(prog, pc + 1, arch, arch, nr)
        else None
      else if insn.code == JMP_JEQ_K then
        Execute(prog, pc + 1 + (if acc == insn.k then insn.jt else insn.jf), acc, arch, nr)
      else if insn.code == JMP_JGE_K then
        Execute(prog, pc + 1 + (if acc >= insn.k then insn.jt else insn.jf), acc, arch, nr)
      else if insn.code == RET_K then Some(insn.k)
      else None
  }

  predicate IsJump(insn: Insn) {
    insn.code == JMP_JEQ_K || insn.code == JMP_JGE_K
  }

  /** What the kernel checks before it accepts a filter: every jump lands
      inside the program, its offsets fit their fields, and the program ends by
      returning. */
  ghost predicate Accepted(prog: seq<Insn>) {
    && |prog| > 0
    && prog[|prog| - 1].code == RET_K
    && (forall i :: 0 <= i < |prog| ==> prog[i].jt < 256 && prog[i].jf < 256)
    && (forall i :: 0 <= i < |prog| && IsJump(prog[i]) ==>
          i + 1 + prog[i].jt < |prog| && i + 1 + prog[i].jf < |prog|)
  }

  /** The decision the module documentation promises. */
  function Decision(denied: seq<nat>, mode: Mode, native: Arch, arch: nat, nr: nat): nat {
    if arch != AuditArch(native) then RET_KILL_PROCESS
    else if native == X86_64 && nr >= X32_BIT then RET_KILL_PROCESS
    else if nr in denied then DenyAction(mode)
    else RET_ALLOW
  }

  function DenyAction(mode: Mode): nat {
    if mode == Strict then RET_KILL_PROCESS else RET_ERRNO_EPERM
  }

  // -------------------------------------------------------------------------
  // Which numbers a mode denies
  // -------------------------------------------------------------------------

  /** (name, x86_64 number, aarch64 number); -1 where the call does not exist. */
  const SYSCALLS: seq<(string, int, int)> := [
    ("mount", 165, 40), ("umount2", 166, 39), ("pivot_root", 155, 41), ("chroot", 161, 51),
    ("swapon", 167, 224), ("swapoff", 168, 225), ("reboot", 169, 142), ("sethostname", 170, 161),
    ("setdomainname", 171, 162), ("init_module", 175, 105), ("finit_module", 313, 273),
    ("delete_module", 176, 106), ("kexec_load", 246, 104), ("kexec_file_load", 320, 294),
    ("open_by_handle_at", 304, 265), ("name_to_handle_at", 303, 264), ("add_key", 248, 217),
    ("request_key", 249, 218), ("keyctl", 250, 219), ("setns", 308, 268), ("unshare", 272, 97),
    ("bpf", 321, 280), ("perf_event_open", 298, 241), ("clock_settime", 227, 112),
    ("clock_adjtime", 305, 266), ("settimeofday", 164, 170), ("adjtimex", 159, 171),
    ("acct", 163, 89), ("quotactl", 179, 60), ("ioperm", 173, -1), ("iopl", 172, -1),
    ("uselib", 134, -1), ("nfsservctl", 180, -1), ("fsopen", 430, 430), ("fsconfig", 431, 431),
    ("fsmount", 432, 432), ("move_mount", 429, 429), ("open_tree", 428, 428),
    ("mount_setattr", 442, 442), ("ptrace", 101, 117), ("process_vm_readv", 310, 270),
    ("process_vm_writev", 311, 271), ("syslog", 103, 116)]

  const DEFAULT_DENY: seq<string> := [
    "mount", "umount2", "pivot_root", "chroot", "swapon", "swapoff", "reboot", "sethostname",
    "setdomainname", "init_module", "finit_module", "delete_module", "kexec_load",
    "kexec_file_load", "open_by_handle_at", "name_to_handle_at", "add_key", "request_key",
    "keyctl", "setns", "unshare", "bpf", "perf_event_open", "clock_settime", "clock_adjtime",
    "settimeofday", "adjtimex", "acct", "quotactl", "ioperm", "iopl", "uselib", "nfsservctl",
    "fsopen", "fsconfig", "fsmount", "move_mount", "open_tree", "mount_setattr"]

  const STRICT_EXTRA: seq<string> := ["ptrace", "process_vm_readv", "process_vm_writev", "syslog"]

  /** `syscall_nr`: the first entry for the name, if the architecture has it. */
  function LookUp(table: seq<(string, int, int)>, name: string, arch: Arch): Option<nat> {
    if table == [] then None
    else if table[0].0 == name then
      var v := if arch == X86_64 then table[0].1 else table[0].2;
      if v < 0 then None else Some(v)
    else LookUp(table[1..], name, arch)
  }

  function DeniedSyscalls(mode: Mode): seq<string> {
    match mode
    case Unconfined => []
    case Default => DEFAULT_DENY
    case Strict => DEFAULT_DENY + STRICT_EXTRA
  }

  /** The listed names that exist on this architecture, as numbers. */
  function Numbers(table: seq<(string, int, int)>, names: seq<string>, arch: Arch): seq<nat> {
    if names == [] then []
    else
      var n := LookUp(table, names[0], arch);
      (if n.Some? then [n.value] else []) + Numbers(table, names[1..], arch)
  }

  /** The numbers a mode's filter compares with, in filter order. */
  function DeniedNumbers(mode: Mode, arch: Arch): seq<nat> {
    Numbers(SYSCALLS, DeniedSyscalls(mode), arch)
  }

  // -------------------------------------------------------------------------
  // The assembler
  // -------------------------------------------------------------------------

  function FirstCheck(arch: Arch): nat {
    if arch == X86_64 then 4 else 3
  }

  /** Everything up to and including the comparison for `denied[i - 1]`. */
  ghost predicate Prologue(prog: seq<Insn>, denied: seq<nat>, arch: Arch, i: nat) {
    var first := FirstCheck(arch);
    var killIdx := first + |denied| + 2;
    && i <= |denied|
    && first + i <= |prog|
    && prog[0] == Insn(LD_W_ABS, 0, 0, 4)
    && prog[1] == Insn(JMP_JEQ_K, 0, AsU8(killIdx - 2), AuditArch(arch))
    && prog[2] == Insn(LD_W_ABS, 0, 0, 0)
    && (arch == X86_64 ==> prog[3] == Insn(JMP_JGE_K, AsU8(killIdx - 4), 0, X32_BIT))
    && forall j :: 0 <= j < i ==>
         prog[first + j] == Insn(JMP_JEQ_K, AsU8(|denied| - j), 0, denied[j])
  }

  /** Assemble a filter for an arbitrary list of denied numbers.  It succeeds
      exactly when the list passes the size check, and what it emits is accepted
      by the kernel and decides every call as `Decision` says. */
  method Assemble(denied: seq<nat>, mode: Mode, arch: Arch) returns (r: Result<seq<Insn>>)
    ensures r.Ok? <==> FirstCheck(arch) + |denied| + 2 <= MAX_KILL_INDEX
    ensures r.Ok? ==> Accepted(r.value)
    ensures r.Ok? ==> forall a: nat, nr: nat ::
      Execute(r.value, 0, 0, a, nr) == Some(Decision(denied, mode, arch, a, nr))
  {
    var first := FirstCheck(arch);
    var allowIdx := first + |denied|;
    var denyIdx := allowIdx + 1;
    var killIdx := allowIdx + 2;
    if killIdx > MAX_KILL_INDEX {
      return Err;
    }
    var prog := [Insn(LD_W_ABS, 0, 0, 4),
                 Insn(JMP_JEQ_K, 0, AsU8(killIdx - 2), AuditArch(arch)),
                 Insn(LD_W_ABS, 0, 0, 0)];
    if arch == X86_64 {
      prog := prog + [Insn(JMP_JGE_K, AsU8(killIdx - 4), 0, X32_BIT)];
    }
    for i := 0 to |denied|
      invariant |prog| == first + i
      invariant Prologue(prog, denied, arch, i)
    {
      var idx := first + i;
      prog := prog + [Insn(JMP_JEQ_K, AsU8(denyIdx - idx - 1), 0, denied[i])];
    }
    prog := prog + [Insn(RET_K, 0, 0, RET_ALLOW)];
    prog := prog + [Insn(RET_K, 0, 0, DenyAction(mode))];
    prog := prog + [Insn(RET_K, 0, 0, RET_KILL_PROCESS)];
    AssembledIsAccepted(prog, denied, mode, arch);
    forall a: nat, nr: nat
      ensures Execute(prog, 0, 0, a, nr) == Some(Decision(denied, mode, arch, a, nr))
    {
      FilterDecides(prog, denied, mode, arch, a, nr);
    }
    r := Ok(prog);
  }

  ghost predicate Assembled(prog: seq<Insn>, denied: seq<nat>, mode: Mode, arch: Arch) {
    var first := FirstCheck(arch);
    && first + |denied| + 2 <= MAX_KILL_INDEX
    && |prog| == first + |denied| + 3
    && Prologue(prog, denied, arch, |denied|)
    && prog[first + |denied|] == Insn(RET_K, 0, 0, RET_ALLOW)
    && prog[first + |denied| + 1] == Insn(RET_K, 0, 0, DenyAction(mode))
    && prog[first + |denied| + 2] == Insn(RET_K, 0, 0, RET_KILL_PROCESS)
  }

  lemma AssembledIsAccepted(prog: seq<Insn>, denied: seq<nat>, mode: Mode, arch: Arch)
    requires Assembled(prog, denied, mode, arch)
    ensures Accepted(prog)
  {
    var first := FirstCheck(arch);
    forall i | 0 <= i < |prog|
      ensures prog[i].jt < 256 && prog[i].jf < 256
      ensures IsJump(prog[i]) ==> i + 1 + prog[i].jt < |prog| && i + 1 + prog[i].jf < |prog|
    {
      if first <= i < first + |denied| {
        var j := i - first;
        assert prog[first + j] == Insn(JMP_JEQ_K, AsU8(|denied| - j), 0, denied[j]);
      } else if i >= first + |denied| {
        assert i == first + |denied| || i == first + |denied| + 1 || i == first + |denied| + 2;
      } else {
        assert i == 0 || i == 1 || i == 2 || i == 3;
      }
    }
  }

  /** From comparison `i` on, the program denies exactly the numbers that are
      still to be compared. */
  lemma {:induction false} ChecksDecide(prog: seq<Insn>, denied: seq<nat>, mode: Mode, native: Arch,
                                        i: nat, arch: nat, nr: nat)
    requires Assembled(prog, denied, mode, native)
    requires i <= |denied|
    ensures Execute(prog, FirstCheck(native) + i, nr, arch, nr)
         == Some(if nr in denied[i..] then DenyAction(mode) else RET_ALLOW)
    decreases |denied| - i
  {
    if i < |denied| {
      ChecksDecide(prog, denied, mode, native, i + 1, arch, nr);
      assert denied[i..] == [denied[i]] + denied[i + 1..];
      assert prog[FirstCheck(native) + i] == Insn(JMP_JEQ_K, |denied| - i, 0, denied[i]);
      assert Execute(prog, FirstCheck(native) + |denied| + 1, nr, arch, nr) == Some(DenyAction(mode));
    }
  }

  lemma FilterDecides(prog: seq<Insn>, denied: seq<nat>, mode: Mode, native: Arch, arch: nat, nr: nat)
    requires Assembled(prog, denied, mode, native)
    ensures Execute(prog, 0, 0, arch, nr) == Some(Decision(denied, mode, native, arch, nr))
  {
    ChecksDecide(prog, denied, mode, native, 0, arch, nr);
    assert denied[0..] == denied;
    var killIdx := FirstCheck(native) + |denied| + 2;
    assert Execute(prog, killIdx, arch, arch, nr) == Some(RET_KILL_PROCESS);
    assert Execute(prog, killIdx, nr, arch, nr) == Some(RET_KILL_PROCESS);
    assert native == X86_64 ==>
      Execute(prog, 3, nr, arch, nr)
      == (if nr >= X32_BIT then Some(RET_KILL_PROCESS) else Execute(prog, 4, nr, arch, nr));
    assert Execute(prog, 1, arch, arch, nr)
        == (if arch == AuditArch(native) then Execute(prog, 2, arch, arch, nr) else Some(RET_KILL_PROCESS));
  }

  /** `build_filter`.  For the built-in lists the size check never refuses. */
  method BuildFilter(mode: Mode, arch: Arch) returns (r: Result<seq<Insn>>)
    ensures r.Ok? && Accepted(r.value)
    ensures forall a: nat, nr: nat ::
      Execute(r.value, 0, 0, a, nr)
      == Some(Decision(DeniedNumbers(mode, arch), mode, arch, a, nr))
  {
    NumbersShrink(SYSCALLS, DeniedSyscalls(mode), arch);
    r := Assemble(DeniedNumbers(mode, arch), mode, arch);
  }

  lemma NumbersShrink(table: seq<(string, int, int)>, names: seq<string>, arch: Arch)
    ensures |Numbers(table, names, arch)| <= |names|
  {
  }

  lemma {:induction false} NumbersAppend(table: seq<(string, int, int)>, a: seq<string>, b: seq<string>, arch: Arch)
    ensures Numbers(table, a + b, arch) == Numbers(table, a, arch) + Numbers(table, b, arch)
  {
    if a == [] {
      assert a + b == b;
    } else {
      assert (a + b)[1..] == a[1..] + b;
      NumbersAppend(table, a[1..], b, arch);
      var n := LookUp(table, a[0], arch);
      var head := if n.Some? then [n.value] else [];
      assert head + (Numbers(table, a[1..], arch) + Numbers(table, b, arch))
          == (head + Numbers(table, a[1..], arch)) + Numbers(table, b, arch);
    }
  }

  /** Denying more names never allows more calls, whatever the table of numbers
      and whichever action either filter takes on a denied call. */
  lemma LongerListAllowsLess(table: seq<(string, int, int)>, deny: seq<string>, extra: seq<string>,
                             longer: Mode, shorter: Mode, native: Arch, arch: nat, nr: nat)
    ensures Decision(Numbers(table, deny + extra, native), longer, native, arch, nr) == RET_ALLOW
        ==> Decision(Numbers(table, deny, native), shorter, native, arch, nr) == RET_ALLOW
  {
    NumbersAppend(table, deny, extra, native);
  }

  /** Whatever the Strict filter allows, the Default filter allows, and
      whatever Default allows the Unconfined one allows. */
  lemma StricterAllowsLess(native: Arch, arch: nat, nr: nat)
    ensures Decision(DeniedNumbers(Strict, native), Strict, native, arch, nr) == RET_ALLOW
        ==> Decision(DeniedNumbers(Default, native), Default, native, arch, nr) == RET_ALLOW
    ensures Decision(DeniedNumbers(Default, native), Default, native, arch, nr) == RET_ALLOW
        ==> Decision(DeniedNumbers(Unconfined, native), Unconfined, native, arch, nr) == RET_ALLOW
  {
    LongerListAllowsLess(SYSCALLS, DEFAULT_DENY, STRICT_EXTRA, Strict, Default, native, arch, nr);
    LongerListAllowsLess(SYSCALLS, [], DEFAULT_DENY, Default, Unconfined, native, arch, nr);
  }

  // -------------------------------------------------------------------------
  // Which calls are denied
  // -------------------------------------------------------------------------

  /** The column of an architecture. */
  function Column(entry: (string, int, int), arch: Arch): int {
    match arch
    case X86_64 => entry.1
    case AArch64 => entry.2
  }

  /** Entry `i` is the first one for its name. */
  ghost predicate IsFirst(table: seq<(string, int, int)>, i: nat) {
    i < |table| && forall j :: 0 <= j < i ==> table[j].0 != table[i].0
  }

  ghost predicate HasNumber(table: seq<(string, int, int)>, name: string, arch: Arch, n: nat) {
    exists i: nat :: IsFirst(table, i) && table[i].0 == name && Column(table[i], arch) == n
  }

  lemma {:induction false} LookUpIs(table: seq<(string, int, int)>, name: string, arch: Arch, n: nat)
    ensures LookUp(table, name, arch) == Some(n) <==> HasNumber(table, name, arch, n)
  {
    if table != [] {
      if table[0].0 == name {
        assert IsFirst(table, 0);
      } else {
        var rest := table[1..];
        LookUpIs(rest, name, arch, n);
        if i: nat :| IsFirst(table, i) && table[i].0 == name && Column(table[i], arch) == n {
          assert rest[i - 1] == table[i];
          assert forall j :: 0 <= j < i - 1 ==> rest[j] == table[j + 1];
          assert IsFirst(rest, i - 1);
        }
        if i: nat :| IsFirst(rest, i) && rest[i].0 == name && Column(rest[i], arch) == n {
          assert table[i + 1] == rest[i];
          assert forall j :: 0 < j < i + 1 ==> table[j] == rest[j - 1];
          assert IsFirst(table, i + 1);
        }
      }
    }
  }

  /** The filter compares with exactly the numbers that the first entry of a listed
      name has in the architecture's column. */
  lemma {:induction false} NumbersExactly(table: seq<(string, int, int)>, names: seq<string>, arch: Arch, n: nat)
    ensures n in Numbers(table, names, arch) <==> exists name :: name in names && HasNumber(table, name, arch, n)
  {
    if names != [] {
      hide LookUp, HasNumber;
      LookUpIs(table, names[0], arch, n);
      NumbersExactly(table, names[1..], arch, n);
      assert names == [names[0]] + names[1..];
    }
  }

  /** `mount`, for one: it fails in the default mode, kills in the strict one, and
      works without a filter. */
  lemma MountIsDenied(native: Arch, mount: nat)
    requires mount == if native == X86_64 then 165 else 40
    ensures
      && Decision(DeniedNumbers(Default, native), Default, native, AuditArch(native), mount) == RET_ERRNO_EPERM
      && Decision(DeniedNumbers(Strict, native), Strict, native, AuditArch(native), mount) == RET_KILL_PROCESS
      && Decision(DeniedNumbers(Unconfined, native), Unconfined, native, AuditArch(native), mount) == RET_ALLOW
  {
    hide Numbers, HasNumber;
    assert HasNumber(SYSCALLS, "mount", native, mount) by { MountHasNumber(native, mount); }
    assert DEFAULT_DENY[0] == "mount" && (DEFAULT_DENY + STRICT_EXTRA)[0] == "mount";
    NumbersExactly(SYSCALLS, DEFAULT_DENY, native, mount);
    NumbersExactly(SYSCALLS, DEFAULT_DENY + STRICT_EXTRA, native, mount);
    NumbersExactly(SYSCALLS, [], native, mount);
  }

  lemma MountHasNumber(native: Arch, mount: nat)
    requires mount == if native == X86_64 then 165 else 40
    ensures HasNumber(SYSCALLS, "mount", native, mount)
  {
    assert SYSCALLS[0] == ("mount", 165, 40);
    assert IsFirst(SYSCALLS, 0);
  }
}
