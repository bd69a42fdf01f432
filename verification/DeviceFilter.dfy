/**
 The cgroup device filter of sandboxd: device-number decoding, the rule list of
 a HARD binding, and the compiler from rules to BPF instructions.

 The instruction meanings are those of RFC 9669: the encoding of section 3.1,
 the arithmetic of section 4.1, the jumps of section 4.3 and the loads of
 section 5.1.  Immediates are sign-extended to 64 bits.
 */
module DeviceFilter {
  import opened Results
  import opened Bits

  // ---------------------------------------------------------------- instructions

  type u8 = x: int | 0 <= x < 0x100
  type u32 = x: int | 0 <= x < 0x1_0000_0000
  type u64 = x: int | 0 <= x < 0x1_0000_0000_0000_0000
  type i16 = x: int | -0x8000 <= x < 0x8000
  type i32 = x: int | -0x8000_0000 <= x < 0x8000_0000

  datatype Insn = Insn(code: u8, dstSrc: u8, off: i16, imm: i32)

  const LDX_W_MEM: u8 := 0x61
  const ALU64_AND_K: u8 := 0x57
  const ALU64_MOV_K: u8 := 0xb7
  const JMP_JEQ_K: u8 := 0x15
  const JMP_A: u8 := 0x05
  const JMP_EXIT: u8 := 0x95

  const DEV_BLOCK: u32 := 0x1_0000
  const DEV_CHAR: u32 := 0x2_0000
  const TYPE_MASK: u32 := 0xffff_0000

  /** A register number: the encoding gives it four bits. */
  type Reg = x: int | 0 <= x < 16

  /** The destination register is the low half of the register byte, the source the high half. */
  function MakeInsn(code: u8, dst: Reg, src: Reg, off: i16, imm: i32): (insn: Insn)
    ensures Dst(insn) == dst && Src(insn) == src
  {
    Insn(code, dst + 16 * src, off, imm)
  }

  function Dst(insn: Insn): Reg { insn.dstSrc % 16 }

  function Src(insn: Insn): Reg { insn.dstSrc / 16 }

  /** A u32 reinterpreted as an i32. */
  function AsI32(x: u32): i32 { if x < 0x8000_0000 then x else x - 0x1_0000_0000 }

  // ----------------------------------------------------------------- interpreter

  /** The context the kernel passes to a cgroup device program. */
  datatype DeviceContext = DeviceContext(accessType: u32, major: u32, minor: u32)

  datatype Value = Scalar(bits: u64) | ContextAddress

  /** Registers missing from `regs` have not been written yet. */
  datatype State = State(pc: int, regs: map<Reg, Value>)

  datatype Outcome = Running(state: State) | Exited(verdict: u64) | Fault

  /** The immediate operand, sign-extended to 64 bits. */
  function SignExtend(imm: i32): u64 { if imm < 0 then imm + 0x1_0000_0000_0000_0000 else imm }

  predicate IsScalar(regs: map<Reg, Value>, r: Reg) { r in regs && regs[r].Scalar? }

  function LoadWord(ctx: DeviceContext, off: i16): Option<u32> {
    if off == 0 then Some(ctx.accessType)
    else if off == 4 then Some(ctx.major)
    else if off == 8 then Some(ctx.minor)
    else None
  }

  /**
   One instruction.  Leaving the program, reading a register that was never
   written, using an address as a number and loading outside the context fault.
   */
  function Step(program: seq<Insn>, ctx: DeviceContext, s: State): Outcome {
    if !(0 <= s.pc < |program|) then Fault else
    var insn := program[s.pc];
    var dst, src := Dst(insn), Src(insn);
    if insn.code == LDX_W_MEM then
      if src in s.regs && s.regs[src].ContextAddress? && LoadWord(ctx, insn.off).Some? then
        Running(State(s.pc + 1, s.regs[dst := Scalar(LoadWord(ctx, insn.off).value)]))
      else Fault
    else if insn.code == ALU64_AND_K then
      if IsScalar(s.regs, dst) then
        AndBound(s.regs[dst].bits, SignExtend(insn.imm));
        Running(State(s.pc + 1, s.regs[dst := Scalar(And(s.regs[dst].bits, SignExtend(insn.imm)))]))
      else Fault
    else if insn.code == ALU64_MOV_K then
      Running(State(s.pc + 1, s.regs[dst := Scalar(SignExtend(insn.imm))]))
    else if insn.code == JMP_JEQ_K then
      if IsScalar(s.regs, dst) then
        Running(s.(pc := s.pc + 1 + if s.regs[dst].bits == SignExtend(insn.imm) then insn.off else 0))
      else Fault
    else if insn.code == JMP_A then
      Running(s.(pc := s.pc + 1 + insn.off))
    else if insn.code == JMP_EXIT then
      if IsScalar(s.regs, 0) then Exited(s.regs[0].bits) else Fault
    else Fault
  }

  /** At most `steps` instructions from `s`. */
  function Run(program: seq<Insn>, ctx: DeviceContext, s: State, steps: nat): Outcome
    decreases steps
  {
    if steps == 0 then Running(s) else
    match Step(program, ctx, s)
    case Running(s') => Run(program, ctx, s', steps - 1)
    case done => done
  }

  /** The machine at program entry: register 1 points at the context. */
  const ENTRY := State(0, map[1 := ContextAddress])

  lemma {:induction false} MoreStepsSameOutcome(program: seq<Insn>, ctx: DeviceContext, s: State, n: nat, m: nat)
    requires n <= m && !Run(program, ctx, s, n).Running?
    ensures Run(program, ctx, s, m) == Run(program, ctx, s, n)
    decreases n
  {
    if n > 0 {
      match Step(program, ctx, s)
      case Running(s') => MoreStepsSameOutcome(program, ctx, s', n - 1, m - 1);
      case _ =>
    }
  }

  // -------------------------------------------------------------------- compiler

  datatype DeviceRule = DeviceRule(kind: u32, major: u32, minor: u32)

  /** The rule names exactly the device and the type half of the access word. */
  predicate Matches(rule: DeviceRule, ctx: DeviceContext) {
    rule.kind == MaskedType(ctx) && rule.major == ctx.major && rule.minor == ctx.minor
  }

  /** The type half of the access word, as the program masks it. */
  function MaskedType(ctx: DeviceContext): u32
  {
    HighHalfMask(ctx.accessType);
    And(ctx.accessType, TYPE_MASK)
  }

  /** Fields that survive sign extension unchanged. */
  predicate Encodable(rule: DeviceRule) {
    rule.kind < 0x8000_0000 && rule.major < 0x8000_0000 && rule.minor < 0x8000_0000
  }

  predicate Admits(rules: seq<DeviceRule>, ctx: DeviceContext) {
    exists i :: 0 <= i < |rules| && Encodable(rules[i]) && Matches(rules[i], ctx)
  }

  const PROLOGUE := [
    MakeInsn(LDX_W_MEM, 4, 1, 0, 0),
    MakeInsn(LDX_W_MEM, 2, 1, 4, 0),
    MakeInsn(LDX_W_MEM, 3, 1, 8, 0),
    MakeInsn(ALU64_AND_K, 4, 0, 0, AsI32(TYPE_MASK))
  ]

  const EPILOGUE := [MakeInsn(ALU64_MOV_K, 0, 0, 0, 0), MakeInsn(JMP_EXIT, 0, 0, 0, 0)]

  /** The eight instructions of one rule, with the skips already patched. */
  function Block(rule: DeviceRule): (block: seq<Insn>)
    ensures |block| == 8
  {
    [ MakeInsn(JMP_JEQ_K, 4, 0, 1, AsI32(rule.kind)), MakeInsn(JMP_A, 0, 0, 6, 0),
      MakeInsn(JMP_JEQ_K, 2, 0, 1, AsI32(rule.major)), MakeInsn(JMP_A, 0, 0, 4, 0),
      MakeInsn(JMP_JEQ_K, 3, 0, 1, AsI32(rule.minor)), MakeInsn(JMP_A, 0, 0, 2, 0),
      MakeInsn(ALU64_MOV_K, 0, 0, 0, 1), MakeInsn(JMP_EXIT, 0, 0, 0, 0) ]
  }

  function Blocks(rules: seq<DeviceRule>): (code: seq<Insn>)
    ensures |code| == 8 * |rules|
  {
    if rules == [] then [] else Blocks(rules[..|rules| - 1]) + Block(rules[|rules| - 1])
  }

  function FilterProgram(rules: seq<DeviceRule>): seq<Insn> {
    PROLOGUE + Blocks(rules) + EPILOGUE
  }

  /** Emits one rule, pushing skips with offset 0 and patching them once the end of the rule is known. */
  method EmitRule(code: seq<Insn>, rule: DeviceRule) returns (program: seq<Insn>)
    ensures program == code + Block(rule)
  {
    program := code;
    var skipIndices: seq<nat> := [];
    program := program + [MakeInsn(JMP_JEQ_K, 4, 0, 1, AsI32(rule.kind))];
    skipIndices := skipIndices + [|program|];
    program := program + [MakeInsn(JMP_A, 0, 0, 0, 0)];
    program := program + [MakeInsn(JMP_JEQ_K, 2, 0, 1, AsI32(rule.major))];
    skipIndices := skipIndices + [|program|];
    program := program + [MakeInsn(JMP_A, 0, 0, 0, 0)];
    program := program + [MakeInsn(JMP_JEQ_K, 3, 0, 1, AsI32(rule.minor))];
    skipIndices := skipIndices + [|program|];
    program := program + [MakeInsn(JMP_A, 0, 0, 0, 0)];
    program := program + [MakeInsn(ALU64_MOV_K, 0, 0, 0, 1)];
    program := program + [MakeInsn(JMP_EXIT, 0, 0, 0, 0)];
    program := PatchSkips(program, skipIndices, |program|);
  }

  /** Emits the whole program: prologue, one block a rule, and the refusal at the end. */
  method BuildDeviceFilterProgram(rules: seq<DeviceRule>) returns (program: seq<Insn>)
    ensures program == FilterProgram(rules)
    ensures forall ctx ::
              Run(program, ctx, ENTRY, 6 + 4 * |rules|) == Exited(if Admits(rules, ctx) then 1 else 0)
  {
    program := PROLOGUE;
    for r := 0 to |rules|
      invariant program == PROLOGUE + Blocks(rules[..r])
    {
      assert rules[..r + 1][..r] == rules[..r];
      program := EmitRule(program, rules[r]);
    }
    assert rules[..|rules|] == rules;
    program := program + [MakeInsn(ALU64_MOV_K, 0, 0, 0, 0)];
    program := program + [MakeInsn(JMP_EXIT, 0, 0, 0, 0)];
    assert program == FilterProgram(rules);
    forall ctx { FilterDecides(rules, ctx); }
  }

  /** Points every listed skip at `next`; the rest of the program is kept. */
  method PatchSkips(code: seq<Insn>, skips: seq<nat>, next: nat) returns (program: seq<Insn>)
    requires forall k :: 0 <= k < |skips| ==> skips[k] < |code| && skips[k] < next <= skips[k] + 0x8000
    ensures |program| == |code|
    ensures forall i :: 0 <= i < |code| ==>
              program[i] == if i in skips then code[i].(off := (next - i - 1)) else code[i]
  {
    program := code;
    for k := 0 to |skips|
      invariant |program| == |code|
      invariant forall i :: 0 <= i < |code| ==>
                  program[i] == if i in skips[..k] then code[i].(off := (next - i - 1)) else code[i]
    {
      var index := skips[k];
      program := program[index := program[index].(off := (next - index - 1))];
      assert skips[..k + 1] == skips[..k] + [index];
    }
    assert skips[..|skips|] == skips;
  }

  // ---------------------------------------------------------- compiler correctness

  lemma {:induction false} BlockAt(rules: seq<DeviceRule>, i: nat, k: nat)
    requires i < |rules| && k < 8
    ensures Blocks(rules)[8 * i + k] == Block(rules[i])[k]
  {
    if i < |rules| - 1 {
      BlockAt(rules[..|rules| - 1], i, k);
    }
  }

  lemma ProgramAt(rules: seq<DeviceRule>, i: nat)
    requires i < |rules|
    ensures var p := FilterProgram(rules);
            |p| == 6 + 8 * |rules| && p[4 + 8 * i..12 + 8 * i] == Block(rules[i])
  {
    var p := FilterProgram(rules);
    forall k: nat | k < 8 ensures p[4 + 8 * i..12 + 8 * i][k] == Block(rules[i])[k] {
      BlockAt(rules, i, k);
      assert p[4 + 8 * i + k] == Blocks(rules)[8 * i + k];
    }
  }

  /** Registers 2, 3 and 4 hold the device numbers and the masked access word. */
  predicate Loaded(regs: map<Reg, Value>, ctx: DeviceContext) {
    && 2 in regs && regs[2] == Scalar(ctx.major)
    && 3 in regs && regs[3] == Scalar(ctx.minor)
    && 4 in regs && regs[4] == Scalar(MaskedType(ctx))
  }

  /** An immediate compares equal to a loaded word exactly when it is below 2^31 and equal to it. */
  lemma ImmediateComparison(word: u32, field: u32)
    ensures word == SignExtend(AsI32(field)) <==> field < 0x8000_0000 && word == field
  {
  }

  predicate AdmitsFrom(rules: seq<DeviceRule>, ctx: DeviceContext, from: nat) {
    exists i :: from <= i < |rules| && Encodable(rules[i]) && Matches(rules[i], ctx)
  }

  /** A comparison followed by a skip: goes on when the field is below 2^31 and equal, and otherwise takes the skip. */
  lemma RunTest(p: seq<Insn>, ctx: DeviceContext, at: nat, reg: Reg, word: u32, field: u32, skip: i16,
                regs: map<Reg, Value>, steps: nat)
    requires at + 2 <= |p| && reg in regs && regs[reg] == Scalar(word) && 2 <= steps
    requires p[at] == MakeInsn(JMP_JEQ_K, reg, 0, 1, AsI32(field)) && p[at + 1] == MakeInsn(JMP_A, 0, 0, skip, 0)
    ensures Run(p, ctx, State(at, regs), steps) ==
            if field < 0x8000_0000 && word == field then Run(p, ctx, State(at + 2, regs), steps - 1)
            else Run(p, ctx, State(at + 2 + skip, regs), steps - 2)
  {
    ImmediateComparison(word, field);
    if field < 0x8000_0000 && word == field {
      assert Step(p, ctx, State(at, regs)) == Running(State(at + 2, regs));
    } else {
      assert Step(p, ctx, State(at, regs)) == Running(State(at + 1, regs));
      assert Step(p, ctx, State(at + 1, regs)) == Running(State(at + 2 + skip, regs));
      assert Run(p, ctx, State(at + 1, regs), steps - 1) == Run(p, ctx, State(at + 2 + skip, regs), steps - 2);
    }
  }

  lemma RunVerdict(p: seq<Insn>, ctx: DeviceContext, at: nat, verdict: i32, regs: map<Reg, Value>, steps: nat)
    requires at + 2 <= |p| && 2 <= steps && 0 <= verdict
    requires p[at] == MakeInsn(ALU64_MOV_K, 0, 0, 0, verdict) && p[at + 1] == MakeInsn(JMP_EXIT, 0, 0, 0, 0)
    ensures Run(p, ctx, State(at, regs), steps) == Exited(verdict)
  {
    var regs' := regs[0 := Scalar(verdict)];
    assert Step(p, ctx, State(at, regs)) == Running(State(at + 1, regs'));
    assert Step(p, ctx, State(at + 1, regs')) == Exited(verdict);
    assert Run(p, ctx, State(at + 1, regs'), steps - 1) == Exited(verdict);
  }

  lemma ProgramHasBlock(rules: seq<DeviceRule>, i: nat)
    requires i < |rules|
    ensures HasBlock(FilterProgram(rules), 4 + 8 * i, rules[i])
  {
    ProgramAt(rules, i);
    var p, base := FilterProgram(rules), 4 + 8 * i;
    var block := p[base..base + 8];
    assert p[base] == block[0] && p[base + 1] == block[1] && p[base + 2] == block[2] && p[base + 3] == block[3];
    assert p[base + 4] == block[4] && p[base + 5] == block[5] && p[base + 6] == block[6] && p[base + 7] == block[7];
  }

  /** The eight instructions of a rule stand at `base`. */
  ghost predicate HasBlock(p: seq<Insn>, base: nat, rule: DeviceRule) {
    var block := Block(rule);
    && base + 8 <= |p|
    && p[base] == block[0] && p[base + 1] == block[1] && p[base + 2] == block[2] && p[base + 3] == block[3]
    && p[base + 4] == block[4] && p[base + 5] == block[5] && p[base + 6] == block[6] && p[base + 7] == block[7]
  }

  lemma RunMinor(p: seq<Insn>, ctx: DeviceContext, base: nat, rule: DeviceRule, regs: map<Reg, Value>, steps: nat)
    requires HasBlock(p, base, rule) && Loaded(regs, ctx) && 4 <= steps
    ensures Run(p, ctx, State(base + 4, regs), steps) ==
            if rule.minor < 0x8000_0000 && ctx.minor == rule.minor then Exited(1)
              else Run(p, ctx, State(base + 8, regs), steps - 2)
  {
    RunTest(p, ctx, base + 4, 3, ctx.minor, rule.minor, 2, regs, steps);
    RunVerdict(p, ctx, base + 6, 1, regs, steps - 1);
  }

  /** A rule either ends the program with verdict 1 or leaves every register and enters the next rule. */
  lemma RunBlock(p: seq<Insn>, ctx: DeviceContext, base: nat, rule: DeviceRule, regs: map<Reg, Value>, steps: nat)
    returns (used: nat)
    requires HasBlock(p, base, rule) && Loaded(regs, ctx) && 6 <= steps
    ensures used <= 4
    ensures Run(p, ctx, State(base, regs), steps) ==
            if Encodable(rule) && Matches(rule, ctx) then Exited(1)
              else Run(p, ctx, State(base + 8, regs), steps - used)
  {
    RunTest(p, ctx, base, 4, MaskedType(ctx), rule.kind, 6, regs, steps);
    if !(rule.kind < 0x8000_0000 && MaskedType(ctx) == rule.kind) {
      return 2;
    }
    RunTest(p, ctx, base + 2, 2, ctx.major, rule.major, 4, regs, steps - 1);
    if !(rule.major < 0x8000_0000 && ctx.major == rule.major) {
      return 3;
    }
    RunMinor(p, ctx, base, rule, regs, steps - 2);
    return 4;
  }

  lemma {:induction false} RunFrom(rules: seq<DeviceRule>, ctx: DeviceContext, i: nat, regs: map<Reg, Value>,
                                   steps: nat)
    requires i <= |rules| && Loaded(regs, ctx) && 2 + 4 * (|rules| - i) <= steps
    ensures Run(FilterProgram(rules), ctx, State(4 + 8 * i, regs), steps) ==
            Exited(if AdmitsFrom(rules, ctx, i) then 1 else 0)
    decreases |rules| - i
  {
    var p := FilterProgram(rules);
    if i == |rules| {
      assert p[4 + 8 * i] == EPILOGUE[0] && p[5 + 8 * i] == EPILOGUE[1];
      RunVerdict(p, ctx, 4 + 8 * i, 0, regs, steps);
    } else {
      ProgramHasBlock(rules, i);
      var used := RunBlock(p, ctx, 4 + 8 * i, rules[i], regs, steps);
      if !(Encodable(rules[i]) && Matches(rules[i], ctx)) {
        RunFrom(rules, ctx, i + 1, regs, steps - used);
      }
    }
  }

  /**
   The compiled program decides the rule list for every access: it exits with 1
   exactly when some rule with all fields below 2^31 matches, and with 0
   otherwise; it never faults and needs at most 6 + 4n steps.
   */
  lemma FilterDecides(rules: seq<DeviceRule>, ctx: DeviceContext)
    ensures Run(FilterProgram(rules), ctx, ENTRY, 6 + 4 * |rules|) == Exited(if Admits(rules, ctx) then 1 else 0)
  {
    var p := FilterProgram(rules);
    assert p[0] == PROLOGUE[0] && p[1] == PROLOGUE[1] && p[2] == PROLOGUE[2] && p[3] == PROLOGUE[3];
    var regs := RunPrologue(p, ctx, 6 + 4 * |rules|);
    RunFrom(rules, ctx, 0, regs, 2 + 4 * |rules|);
  }

  lemma RunPrologue(p: seq<Insn>, ctx: DeviceContext, steps: nat) returns (regs: map<Reg, Value>)
    requires |p| > 4 && p[0] == PROLOGUE[0] && p[1] == PROLOGUE[1] && p[2] == PROLOGUE[2] && p[3] == PROLOGUE[3] &&
               4 <= steps
    ensures Loaded(regs, ctx) && Run(p, ctx, ENTRY, steps) == Run(p, ctx, State(4, regs), steps - 4)
  {
    var r1 := ENTRY.regs[4 := Scalar(ctx.accessType)];
    var r2 := r1[2 := Scalar(ctx.major)];
    var r3 := r2[3 := Scalar(ctx.minor)];
    HighHalfMask(ctx.accessType);
    regs := r3[4 := Scalar(MaskedType(ctx))];
    assert Step(p, ctx, ENTRY) == Running(State(1, r1));
    assert Step(p, ctx, State(1, r1)) == Running(State(2, r2));
    assert Step(p, ctx, State(2, r2)) == Running(State(3, r3));
    assert Step(p, ctx, State(3, r3)) == Running(State(4, regs));
    assert Run(p, ctx, State(2, r2), steps - 2) == Run(p, ctx, State(4, regs), steps - 4);
  }

  predicate IsJump(insn: Insn) { insn.code == JMP_JEQ_K || insn.code == JMP_A }

  /** Every jump of every compiled program lands strictly forward and inside the program. */
  lemma JumpsGoForward(rules: seq<DeviceRule>, pc: nat)
    requires pc < |FilterProgram(rules)| && IsJump(FilterProgram(rules)[pc])
    ensures pc < pc + 1 + FilterProgram(rules)[pc].off as int < |FilterProgram(rules)|
  {
    var p := FilterProgram(rules);
    if 4 <= pc < 4 + 8 * |rules| {
      var i, k := (pc - 4) / 8, (pc - 4) % 8;
      ProgramAt(rules, i);
      assert p[pc] == p[4 + 8 * i..12 + 8 * i][k];
    }
  }

  // ------------------------------------------------------------- device numbers

  function Major(rdev: u64): u32
  {
    MajorArithmetic(rdev);
    And(Shr(rdev, 8), 0xfff)
  }

  function Minor(rdev: u64): u32
  {
    MinorArithmetic(rdev);
    Or(And(rdev, 0xff), And(Shr(rdev, 12), 0xf_ff00))
  }

  lemma MajorArithmetic(rdev: u64)
    ensures And(Shr(rdev, 8), 0xfff) == rdev / 0x100 % 0x1000
  {
    EightBits(rdev);
    AndTwelve(rdev / 0x100);
  }

  lemma MinorArithmetic(rdev: u64)
    ensures Or(And(rdev, 0xff), And(Shr(rdev, 12), 0xf_ff00)) == rdev % 0x100 + 0x100 * (rdev / 0x10_0000 % 0x1000)
  {
    TwelveBits(rdev);
    AndByte(rdev);
    AndSecondTwelve(rdev / 0x1000);
    assert rdev / 0x1000 / 0x100 == rdev / 0x10_0000;
    OrByte(rdev, rdev / 0x10_0000 % 0x1000);
  }

  /** The Linux packing of a major below 2^12 and a minor below 2^20. */
  function Pack(major: u32, minor: u32): u64
    requires major < 0x1000 && minor < 0x10_0000
  {
    minor % 0x100 + 0x100 * major + 0x10_0000 * (minor / 0x100)
  }

  lemma DecodeInvertsPack(major: u32, minor: u32)
    requires major < 0x1000 && minor < 0x10_0000
    ensures Major(Pack(major, minor)) == major && Minor(Pack(major, minor)) == minor
  {
    var rdev := Pack(major, minor);
    MajorArithmetic(rdev);
    MinorArithmetic(rdev);
    Digits(rdev, minor % 0x100, major, minor / 0x100, 0);
  }

  /** A device number in base 256, 4096, 4096, with everything above 32 bits in `top`. */
  lemma Digits(rdev: nat, low: nat, major: nat, high: nat, top: nat)
    requires low < 0x100 && major < 0x1000 && high < 0x1000
    requires rdev == low + 0x100 * major + 0x10_0000 * high + 0x1_0000_0000 * top
    ensures rdev % 0x100 == low && rdev / 0x100 % 0x1000 == major && rdev / 0x10_0000 % 0x1000 == high
    ensures rdev % 0x1_0000_0000 == low + 0x100 * major + 0x10_0000 * high
  {
    assert rdev / 0x100 == major + 0x1000 * (high + 0x1000 * top);
    assert rdev / 0x10_0000 == high + 0x1000 * top;
  }

  lemma SplitDigits(rdev: nat)
    ensures rdev == rdev % 0x100 + 0x100 * (rdev / 0x100 % 0x1000) + 0x10_0000 * (rdev / 0x10_0000 % 0x1000)
                    + 0x1_0000_0000 * (rdev / 0x1_0000_0000)
  {
    var q := rdev / 0x10_0000;
    assert rdev / 0x100 / 0x1000 == q && q / 0x1000 == rdev / 0x1_0000_0000;
  }

  lemma PackInvertsDecode(rdev: u64)
    ensures Major(rdev) < 0x1000 && Minor(rdev) < 0x10_0000
    ensures Pack(Major(rdev), Minor(rdev)) == rdev % 0x1_0000_0000
  {
    MajorArithmetic(rdev);
    MinorArithmetic(rdev);
    var low, major, high, top := rdev % 0x100, rdev / 0x100 % 0x1000, rdev / 0x10_0000 % 0x1000, rdev / 0x1_0000_0000;
    SplitDigits(rdev);
    Digits(rdev, low, major, high, top);
    Digits(low + 0x100 * high, low, high, 0, 0);
  }

  /** Two device numbers decode alike exactly when their low 32 bits agree. */
  lemma DecodeInjective(a: u64, b: u64)
    ensures Major(a) == Major(b) && Minor(a) == Minor(b) <==> a % 0x1_0000_0000 == b % 0x1_0000_0000
  {
    PackInvertsDecode(a);
    PackInvertsDecode(b);
    if a % 0x1_0000_0000 == b % 0x1_0000_0000 {
      DecodeInvertsPack(Major(a), Minor(a));
      DecodeInvertsPack(Major(b), Minor(b));
    }
  }

  // --------------------------------------------------------------- binding rules

  datatype FileKind = CharDevice | BlockDevice | OtherFile

  /** What `stat` reports for a path. */
  datatype Stat = Present(kind: FileKind, rdev: u64) | Denied | NotFound | Unreadable

  datatype DeviceNode = DeviceNode(path: string, major: Option<u32>, minor: Option<u32>, required: bool)

  datatype ReasonCode =
    | DeviceNodePermissionDenied
    | DeviceNodeMissing
    | DeviceNodeStatFailed
    | DeviceNodeTypeInvalid
    | DeviceNodeIdentityChanged
    | DeviceRulesEmpty

  /** The node as the hardware adapter captures it. */
  function CaptureNode(path: string, required: bool, stat: Stat): DeviceNode {
    match stat
    case Present(_, rdev) => DeviceNode(path, Some(Major(rdev)), Some(Minor(rdev)), required)
    case _ => DeviceNode(path, None, None, required)
  }

  /** The rule sandboxd derives from a node just before it attaches the filter; optional nodes may be absent. */
  function RuleForNode(node: DeviceNode, stat: Stat): Result<Option<DeviceRule>, ReasonCode> {
    match stat
    case Present(kind, rdev) =>
      if kind == OtherFile then Err(DeviceNodeTypeInvalid)
      else if (node.major.Some? && node.major.value != Major(rdev)) ||
        (node.minor.Some? && node.minor.value != Minor(rdev)) then
        Err(DeviceNodeIdentityChanged)
      else
        Ok(Some(DeviceRule(if kind == CharDevice then DEV_CHAR else DEV_BLOCK, Major(rdev), Minor(rdev))))
    case _ =>
      if !node.required then Ok(None)
      else if stat == Denied then Err(DeviceNodePermissionDenied)
      else if stat == NotFound then Err(DeviceNodeMissing)
      else Err(DeviceNodeStatFailed)
  }

  /**
   The recheck of a captured node accepts the device now behind the path exactly
   when the low 32 bits of its number are those of the captured device; an
   unchanged node always passes.
   */
  lemma RecheckIsExact(path: string, required: bool, captured: Stat, now: Stat)
    requires captured.Present? && now.Present? && now.kind != OtherFile
    ensures RuleForNode(CaptureNode(path, required, captured), now).Ok? <==>
            captured.rdev % 0x1_0000_0000 == now.rdev % 0x1_0000_0000
    ensures captured == now ==> RuleForNode(CaptureNode(path, required, captured), now).Ok?
  {
    DecodeInjective(captured.rdev, now.rdev);
  }

  function RuleAt(nodes: seq<DeviceNode>, host: string -> Stat, i: nat): Result<Option<DeviceRule>, ReasonCode>
    requires i < |nodes|
  {
    RuleForNode(nodes[i], host(nodes[i].path))
  }

  /** Every node was accepted, and `rules` are the rules of the present ones. */
  ghost predicate RulesOf(nodes: seq<DeviceNode>, host: string -> Stat, rules: seq<DeviceRule>) {
    && (forall i :: 0 <= i < |nodes| ==> RuleAt(nodes, host, i).Ok?)
    && (forall rule :: rule in rules <==> exists i :: 0 <= i < |nodes| && RuleAt(nodes, host, i) == Ok(Some(rule)))
  }

  method DeviceRules(nodes: seq<DeviceNode>, host: string -> Stat) returns (r: Result<seq<DeviceRule>, ReasonCode>)
    ensures r.Ok? ==> r.value != [] && RulesOf(nodes, host, r.value)
    ensures r == Err(DeviceRulesEmpty) <==> forall i :: 0 <= i < |nodes| ==> RuleAt(nodes, host, i) == Ok(None)
    ensures r.Err? && r.error != DeviceRulesEmpty ==>
              exists i :: 0 <= i < |nodes| && RuleAt(nodes, host, i) == Err(r.error) &&
                          forall j :: 0 <= j < i ==> RuleAt(nodes, host, j).Ok?
  {
    var devices: seq<DeviceRule> := [];
    for n := 0 to |nodes|
      invariant forall i :: 0 <= i < n ==> RuleAt(nodes, host, i).Ok?
      invariant forall rule :: rule in devices <==> exists i :: 0 <= i < n && RuleAt(nodes, host, i) == Ok(Some(rule))
    {
      var rule := RuleAt(nodes, host, n);
      if rule.Err? {
        return Err(rule.error);
      }
      if rule.value.Some? {
        devices := devices + [rule.value.value];
      }
    }
    if devices == [] {
      assert forall rule :: rule !in devices;
      return Err(DeviceRulesEmpty);
    }
    assert devices[0] in devices;
    return Ok(devices);
  }

  /** The device behind a path is the one the access names. */
  predicate IsDevice(stat: Stat, ctx: DeviceContext) {
    && stat.Present?
    && MaskedType(ctx) == (if stat.kind == CharDevice then DEV_CHAR else DEV_BLOCK)
    && ctx.major == Major(stat.rdev)
    && ctx.minor == Minor(stat.rdev)
  }

  predicate NamesBoundDevice(nodes: seq<DeviceNode>, host: string -> Stat, ctx: DeviceContext) {
    exists i :: 0 <= i < |nodes| && IsDevice(host(nodes[i].path), ctx)
  }

  /** The node is still the captured device, or is optional and absent. */
  predicate Unchanged(node: DeviceNode, stat: Stat) {
    if stat.Present? then
      && stat.kind != OtherFile
      && (node.major.Some? ==> node.major.value == Major(stat.rdev))
      && (node.minor.Some? ==> node.minor.value == Minor(stat.rdev))
    else !node.required
  }

  /** Every node is unchanged, and one at least is present. */
  ghost predicate Attachable(nodes: seq<DeviceNode>, host: string -> Stat) {
    && (forall i :: 0 <= i < |nodes| ==> Unchanged(nodes[i], host(nodes[i].path)))
    && (exists i :: 0 <= i < |nodes| && host(nodes[i].path).Present?)
  }

  /**
   The filter of a HARD binding admits exactly the accesses to the devices now behind
   its nodes.  It is built exactly for the attachable bindings.
   */
  method BuildBindingFilter(nodes: seq<DeviceNode>, host: string -> Stat) returns (r: Result<seq<Insn>, ReasonCode>)
    ensures r.Ok? <==> Attachable(nodes, host)
    ensures r.Ok? ==> forall ctx ::
              Run(r.value, ctx, ENTRY, |r.value|) == Exited(if NamesBoundDevice(nodes, host, ctx) then 1 else 0)
  {
    var rules := DeviceRules(nodes, host);
    assert forall i :: 0 <= i < |nodes| ==> (RuleAt(nodes, host, i).Ok? <==> Unchanged(nodes[i], host(nodes[i].path)));
    if rules.Err? {
      return Err(rules.error);
    }
    assert rules.value[0] in rules.value;
    var program := BuildDeviceFilterProgram(rules.value);
    forall ctx
      ensures Run(program, ctx, ENTRY, |program|) == Exited(if NamesBoundDevice(nodes, host, ctx) then 1 else 0)
    {
      BindingFilterDecides(nodes, host, rules.value, ctx);
    }
    return Ok(program);
  }

  lemma BindingFilterDecides(nodes: seq<DeviceNode>, host: string -> Stat, rules: seq<DeviceRule>, ctx: DeviceContext)
    requires RulesOf(nodes, host, rules)
    ensures var program := FilterProgram(rules);
            Run(program, ctx, ENTRY, |program|) == Exited(if NamesBoundDevice(nodes, host, ctx) then 1 else 0)
  {
    FilterDecides(rules, ctx);
    MoreStepsSameOutcome(FilterProgram(rules), ctx, ENTRY, 6 + 4 * |rules|, |FilterProgram(rules)|);
    if Admits(rules, ctx) {
      var k :| 0 <= k < |rules| && Encodable(rules[k]) && Matches(rules[k], ctx);
      assert rules[k] in rules;
      var i :| 0 <= i < |nodes| && RuleAt(nodes, host, i) == Ok(Some(rules[k]));
      assert IsDevice(host(nodes[i].path), ctx);
    }
    if NamesBoundDevice(nodes, host, ctx) {
      var i :| 0 <= i < |nodes| && IsDevice(host(nodes[i].path), ctx);
      assert RuleAt(nodes, host, i).Ok?;
      var rule := RuleAt(nodes, host, i).value.value;
      PackInvertsDecode(host(nodes[i].path).rdev);
      assert rule in rules && Encodable(rule) && Matches(rule, ctx);
    }
  }
}
