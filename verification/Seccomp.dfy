/** The system-call filter written by `seccomp_policy` of i044a-v2/install.py: a classic BPF program,
    run by an interpreter of the instructions it uses and compared with the policy it stands for. */
module Seccomp {

  /** One instruction as `struct.pack("HBBI", ...)` lays it out on x86_64. */
  datatype Instruction = Instruction(code: bv16, jt: bv8, jf: bv8, k: bv32)

  /** The part of the kernel's `seccomp_data` that the filter can see. */
  datatype Call = Call(arch: bv32, nr: bv32, arg0: bv64)

  datatype Verdict = Return(action: bv32) | Fault

  const LOAD: bv16 := 0x20
  const JUMP_EQUAL: bv16 := 0x15
  const JUMP_SET: bv16 := 0x45
  const RETURN: bv16 := 0x06

  const X86_64: bv32 := 0xC000003E
  const KILL: bv32 := 0x80000000
  const ERRNO_1: bv32 := 0x00050001
  const ALLOW: bv32 := 0x7FFF0000
  const CLONE: bv32 := 56
  const NAMESPACE_FLAGS: bv32 := 0x7E020080

  const DENIED: seq<bv32> :=
    [41, 42, 43, 49, 50, 53, 101, 103, 155, 159, 163, 164, 165, 166] +
    [167, 168, 169, 170, 171, 172, 173, 174, 175, 176, 177, 178, 179] +
    [180, 212, 227, 246, 248, 249, 250, 272, 298, 300, 303, 304, 308] +
    [310, 311, 312, 313, 317, 321, 323, 425, 426, 427, 428, 429, 430] +
    [431, 432, 433, 435, 442]

  // ---------------------------------------------------------------- what the filter should do

  function LowWord(x: bv64): bv32 {
    (x & 0xFFFFFFFF) as bv32
  }

  /** Kill a foreign architecture; refuse denied numbers and clones that ask for a namespace. */
  function Policy(denied: seq<bv32>, call: Call): bv32 {
    if call.arch != X86_64 then KILL
    else if call.nr == CLONE && LowWord(call.arg0) & NAMESPACE_FLAGS != 0 then ERRNO_1
    else if call.nr in denied then ERRNO_1
    else ALLOW
  }

  // ---------------------------------------------------------------- the interpreter

  /** The word at a byte offset of `seccomp_data`; the filter reads no others. */
  predicate Readable(offset: bv32) {
    offset == 0 || offset == 4 || offset == 16
  }

  function Word(call: Call, offset: bv32): bv32
    requires Readable(offset)
  {
    if offset == 0 then call.nr else if offset == 4 then call.arch else LowWord(call.arg0)
  }

  /** Run from `pc`.  Jumps only go forward, so every run ends: with a verdict, or with a fault when
      it leaves the program or meets an instruction outside the set above. */
  function Run(prog: seq<Instruction>, pc: nat, acc: bv32, call: Call): Verdict
    decreases |prog| - pc
  {
    if pc >= |prog| then Fault
    else
      var i := prog[pc];
      if i.code == LOAD && Readable(i.k) then Run(prog, pc + 1, Word(call, i.k), call)
      else if i.code == JUMP_EQUAL then
        Run(prog, pc + 1 + (if acc == i.k then i.jt else i.jf) as nat, acc, call)
      else if i.code == JUMP_SET then
        Run(prog, pc + 1 + (if acc & i.k != 0 then i.jt else i.jf) as nat, acc, call)
      else if i.code == RETURN then Return(i.k)
      else Fault
  }

  // ---------------------------------------------------------------- the generated program

  const HEADER: seq<Instruction> := [
    Instruction(LOAD, 0, 0, 4),
    Instruction(JUMP_EQUAL, 1, 0, X86_64),
    Instruction(RETURN, 0, 0, KILL),
    Instruction(LOAD, 0, 0, 0),
    Instruction(JUMP_EQUAL, 0, 3, CLONE),
    Instruction(LOAD, 0, 0, 16),
    Instruction(JUMP_SET, 0, 1, NAMESPACE_FLAGS),
    Instruction(RETURN, 0, 0, ERRNO_1),
    Instruction(LOAD, 0, 0, 0)]

  function Deny(number: bv32): seq<Instruction> {
    [Instruction(JUMP_EQUAL, 0, 1, number), Instruction(RETURN, 0, 0, ERRNO_1)]
  }

  function DenyAll(denied: seq<bv32>): (r: seq<Instruction>)
    ensures |r| == 2 * |denied|
  {
    if denied == [] then [] else DenyAll(denied[..|denied| - 1]) + Deny(denied[|denied| - 1])
  }

  function Program(denied: seq<bv32>): seq<Instruction> {
    HEADER + DenyAll(denied) + [Instruction(RETURN, 0, 0, ALLOW)]
  }

  lemma {:induction false} DenyAllAt(denied: seq<bv32>, i: nat)
    requires i < |denied|
    ensures DenyAll(denied)[2 * i..2 * i + 2] == Deny(denied[i])
  {
    var n := |denied| - 1;
    if i < n {
      DenyAllAt(denied[..n], i);
      assert DenyAll(denied)[2 * i..2 * i + 2] == DenyAll(denied[..n])[2 * i..2 * i + 2];
    }
  }

  lemma DeniedAt(denied: seq<bv32>, i: nat)
    requires i < |denied|
    ensures var prog := Program(denied);
      9 + 2 * i + 1 < |prog| && prog[9 + 2 * i] == Deny(denied[i])[0] && prog[9 + 2 * i + 1] == Deny(denied[i])[1]
  {
    var prog := Program(denied);
    DenyAllAt(denied, i);
    assert DenyAll(denied)[2 * i..2 * i + 2][0] == prog[9 + 2 * i];
    assert DenyAll(denied)[2 * i..2 * i + 2][1] == prog[9 + 2 * i + 1];
  }

  lemma FrameAt(denied: seq<bv32>)
    ensures var prog := Program(denied);
      |prog| == 10 + 2 * |denied| && prog[..9] == HEADER &&
      prog[9 + 2 * |denied|] == Instruction(RETURN, 0, 0, ALLOW)
  {}

  /** The denied part, from its `i`-th test on. */
  lemma {:induction false} RunDenied(denied: seq<bv32>, i: nat, call: Call)
    requires i <= |denied|
    ensures Run(Program(denied), 9 + 2 * i, call.nr, call) ==
      Return(if call.nr in denied[i..] then ERRNO_1 else ALLOW)
    decreases |denied| - i
  {
    hide Program, Run;
    FrameAt(denied);
    Step(Program(denied), 9 + 2 * i, call.nr, call);
    if i < |denied| {
      DeniedAt(denied, i);
      Step(Program(denied), 9 + 2 * i + 1, call.nr, call);
      RunDenied(denied, i + 1, call);
      assert denied[i..] == [denied[i]] + denied[i + 1..];
    }
  }

  /** Main result: for every denied list and every call, the program ends with the policy's verdict. */
  lemma FilterIsPolicy(denied: seq<bv32>, call: Call)
    ensures Run(Program(denied), 0, 0, call) == Return(Policy(denied, call))
  {
    FrameAt(denied);
    RunDenied(denied, 0, call);
    assert denied[0..] == denied;
    RunHeader(Program(denied), call);
  }

  /** The header, in front of anything: kill, refuse, or go on at instruction 9 with the number. */
  lemma RunHeader(prog: seq<Instruction>, call: Call)
    requires |prog| >= 9 && prog[..9] == HEADER
    ensures Run(prog, 0, 0, call) ==
      if call.arch != X86_64 then Return(KILL)
      else if call.nr == CLONE && LowWord(call.arg0) & NAMESPACE_FLAGS != 0 then Return(ERRNO_1)
      else Run(prog, 9, call.nr, call)
  {
    hide Run;
    HeaderAt(prog);
    var flags := LowWord(call.arg0);
    Step(prog, 0, 0, call);
    Step(prog, 1, call.arch, call);
    Step(prog, 2, call.arch, call);
    Step(prog, 3, call.arch, call);
    Step(prog, 4, call.nr, call);
    Step(prog, 5, call.nr, call);
    Step(prog, 6, flags, call);
    Step(prog, 7, flags, call);
    Step(prog, 8, flags, call);
    Step(prog, 8, call.nr, call);
  }

  lemma Step(prog: seq<Instruction>, pc: nat, acc: bv32, call: Call)
    requires pc < |prog|
    ensures var i := prog[pc];
      && (i.code == LOAD && Readable(i.k) ==> Run(prog, pc, acc, call) == Run(prog, pc + 1, Word(call, i.k), call))
      && (i.code == JUMP_EQUAL ==>
           Run(prog, pc, acc, call) == Run(prog, pc + 1 + (if acc == i.k then i.jt else i.jf) as nat, acc, call))
      && (i.code == JUMP_SET ==>
           Run(prog, pc, acc, call) == Run(prog, pc + 1 + (if acc & i.k != 0 then i.jt else i.jf) as nat, acc, call))
      && (i.code == RETURN ==> Run(prog, pc, acc, call) == Return(i.k))
  {}

  lemma HeaderAt(prog: seq<Instruction>)
    requires |prog| >= 9 && prog[..9] == HEADER
    ensures forall i :: 0 <= i < 9 ==> prog[i] == HEADER[i]
  {
    forall i | 0 <= i < 9
      ensures prog[i] == HEADER[i]
    {
      assert prog[..9][i] == HEADER[i];
    }
  }

  /** Under the shipped list an ordinary clone passes and clone3 never does. */
  lemma ShippedClones(call: Call)
    requires call.arch == X86_64
    ensures call.nr == CLONE ==>
      Run(Program(DENIED), 0, 0, call) ==
        Return(if LowWord(call.arg0) & NAMESPACE_FLAGS != 0 then ERRNO_1 else ALLOW)
    ensures call.nr == 435 ==> Run(Program(DENIED), 0, 0, call) == Return(ERRNO_1)
  {
    hide Program, Run, DENIED;
    FilterIsPolicy(DENIED, call);
    Shipped();
  }

  lemma Shipped()
    ensures CLONE !in DENIED && 435 in DENIED
  {
    assert 435 in [431, 432, 433, 435 as bv32, 442];
  }

  // ---------------------------------------------------------------- the bytes

  /** `struct.pack("HBBI", ...)`: little-endian code, the two offsets, little-endian operand. */
  function Pack(i: Instruction): (r: seq<bv8>)
    ensures |r| == 8
  {
    [(i.code & 0xFF) as bv8, (i.code >> 8) as bv8, i.jt, i.jf,
     (i.k & 0xFF) as bv8, ((i.k >> 8) & 0xFF) as bv8, ((i.k >> 16) & 0xFF) as bv8, (i.k >> 24) as bv8]
  }

  function Unpack(b: seq<bv8>): Instruction
    requires |b| == 8
  {
    Instruction((b[0] as bv16) | ((b[1] as bv16) << 8), b[2], b[3],
      (b[4] as bv32) | ((b[5] as bv32) << 8) | ((b[6] as bv32) << 16) | ((b[7] as bv32) << 24))
  }

  function Load(bytes: seq<bv8>): (r: seq<Instruction>)
    ensures |r| == |bytes| / 8
  {
    if |bytes| < 8 then [] else [Unpack(bytes[..8])] + Load(bytes[8..])
  }

  function PackAll(prog: seq<Instruction>): seq<bv8> {
    if prog == [] then [] else Pack(prog[0]) + PackAll(prog[1..])
  }

  lemma UnpackPack(i: Instruction)
    ensures Unpack(Pack(i)) == i
  {
    assert (i.code & 0xFF) | ((i.code >> 8) << 8) == i.code;
    assert (i.k & 0xFF) | (((i.k >> 8) & 0xFF) << 8) | (((i.k >> 16) & 0xFF) << 16) | ((i.k >> 24) << 24) == i.k;
  }

  lemma {:induction false} LoadPackAll(prog: seq<Instruction>)
    ensures Load(PackAll(prog)) == prog
  {
    if prog != [] {
      var b := PackAll(prog);
      assert b[..8] == Pack(prog[0]) && b[8..] == PackAll(prog[1..]);
      UnpackPack(prog[0]);
      LoadPackAll(prog[1..]);
    }
  }

  lemma {:induction false} PackAllAppend(a: seq<Instruction>, b: seq<Instruction>)
    ensures PackAll(a + b) == PackAll(a) + PackAll(b)
  {
    if a == [] {
      assert a + b == b;
    } else {
      assert (a + b)[1..] == a[1..] + b;
      PackAllAppend(a[1..], b);
    }
  }

  /** `seccomp_policy`: the emitted bytes, loaded back, run to the policy's verdict on every call. */
  method SeccompPolicy(denied: seq<bv32>) returns (bytes: seq<bv8>)
    ensures Load(bytes) == Program(denied) && |bytes| == 8 * |Program(denied)|
    ensures forall call :: Run(Load(bytes), 0, 0, call) == Return(Policy(denied, call))
  {
    var instructions := HEADER;
    for i := 0 to |denied|
      invariant instructions == HEADER + DenyAll(denied[..i])
    {
      assert denied[..i + 1][..i] == denied[..i];
      instructions := instructions + Deny(denied[i]);
    }
    assert denied[..|denied|] == denied;
    instructions := instructions + [Instruction(RETURN, 0, 0, ALLOW)];
    bytes := Packed(instructions);
    LoadPackAll(instructions);
    hide Run, PackAll;
    forall call {
      FilterIsPolicy(denied, call);
    }
  }

  /** The `b"".join` over the packed instructions. */
  method Packed(instructions: seq<Instruction>) returns (bytes: seq<bv8>)
    ensures bytes == PackAll(instructions) && |bytes| == 8 * |instructions|
  {
    hide Pack;
    bytes := [];
    for i := 0 to |instructions|
      invariant bytes == PackAll(instructions[..i]) && |bytes| == 8 * i
    {
      assert instructions[..i + 1] == instructions[..i] + [instructions[i]];
      PackAllAppend(instructions[..i], [instructions[i]]);
      bytes := bytes + Pack(instructions[i]);
    }
    assert instructions[..|instructions|] == instructions;
  }
}
