/** Running the emitted instructions, and what the two functions compute. */
module DeriveRun {
  import opened DeriveIr

  /** Numbers under ordered comparison: a NaN equals nothing. */
  datatype Number = NaN | PosInf | NegInf | Finite(r: real)

  datatype Value = Int(n: int) | Dbl(d: Number) | Flt(f: Number)

  datatype Operand = StructPtr(slot: int) | FieldPtr(slot: int, field: nat) | Val(v: Value) | Bit(b: bool)

  datatype State = State(regs: map<int, Operand>, mem: map<int, seq<Value>>)

  datatype Outcome = Returned(n: int) | Stuck

  datatype Next = Go(st: State) | Halt(outcome: Outcome) | Jump(target: Name)

  predicate HasType(v: Value, ty: Ty) {
    match ty
    case I64 => v.Int?
    case Double => v.Dbl?
    case Float => v.Flt?
  }

  /** Bitwise and of two's-complement integers. */
  function And64(x: int, y: int): int
    decreases if x < 0 then -x - 1 else x
  {
    if x == 0 then 0
    else if x == -1 then y
    else 2 * And64(x / 2, y / 2) + (x % 2) * (y % 2)
  }

  function Set(st: State, dst: int, v: Operand): Next { Go(st.(regs := st.regs[dst := v])) }

  predicate IsInt(st: State, r: int) { r in st.regs && st.regs[r].Val? && st.regs[r].v.Int? }

  predicate IsDbl(st: State, r: int) { r in st.regs && st.regs[r].Val? && st.regs[r].v.Dbl? }

  predicate IsBit(st: State, r: int) { r in st.regs && st.regs[r].Bit? }

  function Step(i: Instr, st: State, self: seq<Value>, other: seq<Value>): Next {
    match i
    case Label(_) => Go(st)
    case Alloca(dst) => Set(st, dst, StructPtr(dst))
    case Store(arg, ptr) =>
      if ptr in st.regs && st.regs[ptr].StructPtr?
      then Go(st.(mem := st.mem[st.regs[ptr].slot := if arg == Self then self else other]))
      else Halt(Stuck)
    case Gep(dst, ptr, k) =>
      if ptr in st.regs && st.regs[ptr].StructPtr? then Set(st, dst, FieldPtr(st.regs[ptr].slot, k)) else Halt(Stuck)
    case Load(dst, ty, ptr) =>
      if ptr in st.regs && st.regs[ptr].FieldPtr? && st.regs[ptr].slot in st.mem
        && st.regs[ptr].field < |st.mem[st.regs[ptr].slot]|
        && HasType(st.mem[st.regs[ptr].slot][st.regs[ptr].field], ty)
      then Set(st, dst, Val(st.mem[st.regs[ptr].slot][st.regs[ptr].field]))
      else Halt(Stuck)
    case FcmpOeq(dst, l, r) =>
      if IsDbl(st, l) && IsDbl(st, r)
      then Set(st, dst, Bit(st.regs[l].v.d == st.regs[r].v.d && st.regs[l].v.d != NaN))
      else Halt(Stuck)
    case IcmpEq(dst, ty, l, r) =>
      if ty == I64 && IsInt(st, l) && IsInt(st, r)
      then Set(st, dst, Bit(st.regs[l].v.n == st.regs[r].v.n))
      else Halt(Stuck)
    case IcmpSlt(dst, ty, l, r) =>
      if ty == I64 && IsInt(st, l) && IsInt(st, r)
      then Set(st, dst, Bit(st.regs[l].v.n < st.regs[r].v.n))
      else Halt(Stuck)
    case Zext(dst, src) =>
      if IsBit(st, src) then Set(st, dst, Val(Int(if st.regs[src].b then 1 else 0))) else Halt(Stuck)
    case And(dst, l, r) =>
      if IsInt(st, l) && IsInt(st, r)
      then Set(st, dst, Val(Int(And64(st.regs[l].v.n, st.regs[r].v.n))))
      else Halt(Stuck)
    case SelectSign(dst, cond) =>
      if IsBit(st, cond) then Set(st, dst, Val(Int(if st.regs[cond].b then -1 else 1))) else Halt(Stuck)
    case Br(cond, yes, no) =>
      if IsBit(st, cond) then Jump(if st.regs[cond].b then yes else no) else Halt(Stuck)
    case Ret(src) =>
      if IsInt(st, src) then Halt(Returned(st.regs[src].v.n)) else Halt(Stuck)
    case RetZero => Halt(Returned(0))
  }

  /** Where a label is, at `pc` or later. */
  function Find(code: seq<Instr>, name: Name, pc: nat): (t: nat)
    requires pc <= |code|
    ensures pc <= t <= |code|
    decreases |code| - pc
  {
    if pc == |code| || code[pc] == Label(name) then pc else Find(code, name, pc + 1)
  }

  function Run(code: seq<Instr>, pc: nat, st: State, self: seq<Value>, other: seq<Value>): Outcome
    requires pc <= |code|
    decreases |code| - pc
  {
    if pc == |code| then Stuck
    else match Step(code[pc], st, self, other)
      case Go(st') => Run(code, pc + 1, st', self, other)
      case Halt(outcome) => outcome
      case Jump(target) => Run(code, Find(code, target, pc + 1), st, self, other)
  }

  /** A call of an emitted function. */
  function Call(code: seq<Instr>, self: seq<Value>, other: seq<Value>): Outcome {
    Run(code, 0, State(map[], map[]), self, other)
  }

  // ---------- what the functions mean ----------

  predicate Typed(v: seq<Value>, fields: seq<Ty>) {
    |v| == |fields| && forall i :: 0 <= i < |v| ==> HasType(v[i], fields[i])
  }

  predicate SameField(x: Value, y: Value) { x == y && x != Dbl(NaN) }

  /** The first `n` fields are pairwise equal. */
  predicate SameFields(self: seq<Value>, other: seq<Value>, n: nat)
    requires n <= |self| == |other|
  {
    forall i :: 0 <= i < n ==> SameField(self[i], other[i])
  }

  /** Lexicographic order from field `k` on: -1, 0 or 1. */
  function Lex(self: seq<Value>, other: seq<Value>, k: nat): int
    requires k <= |self| == |other|
    requires forall i :: 0 <= i < |self| ==> self[i].Int? && other[i].Int?
    decreases |self| - k
  {
    if k == |self| then 0
    else if self[k].n == other[k].n then Lex(self, other, k + 1)
    else if self[k].n < other[k].n then -1 else 1
  }

  /** Both stack slots hold their arguments. */
  ghost predicate Ready(st: State, base: nat, self: seq<Value>, other: seq<Value>) {
    && base in st.regs && st.regs[base] == StructPtr(base)
    && base + 1 in st.regs && st.regs[base + 1] == StructPtr(base + 1)
    && base in st.mem && st.mem[base] == self
    && base + 1 in st.mem && st.mem[base + 1] == other
  }

  lemma RunGo(code: seq<Instr>, pc: nat, st: State, self: seq<Value>, other: seq<Value>) returns (st': State)
    requires pc < |code| && Step(code[pc], st, self, other).Go?
    ensures Step(code[pc], st, self, other) == Go(st')
    ensures Run(code, pc, st, self, other) == Run(code, pc + 1, st', self, other)
  {
    hide Step;
    st' := Step(code[pc], st, self, other).st;
  }

  lemma RunPrologue(code: seq<Instr>, base: nat, self: seq<Value>, other: seq<Value>) returns (st: State)
    requires |code| >= 5 && code[..5] == Prologue(base)
    ensures Ready(st, base, self, other)
    ensures Call(code, self, other) == Run(code, 5, st, self, other)
  {
    hide Run;
    var c := code[..5];
    assert code[0] == c[0] && code[1] == c[1] && code[2] == c[2] && code[3] == c[3] && code[4] == c[4];
    st := State(map[], map[]);
    st := RunGo(code, 0, st, self, other);
    st := RunGo(code, 1, st, self, other);
    st := RunGo(code, 2, st, self, other);
    st := RunGo(code, 3, st, self, other);
    st := RunGo(code, 4, st, self, other);
  }

  /** Loads field `k` of one argument through a pointer register. */
  lemma RunLoad(code: seq<Instr>, pc: nat, st: State, base: nat, slot: nat, ty: Ty, k: nat, r: nat, d: nat,
                self: seq<Value>, other: seq<Value>) returns (st': State)
    requires pc + 1 < |code| && code[pc] == Gep(r, slot, k) && code[pc + 1] == Load(d, ty, r)
    requires Ready(st, base, self, other) && base + 1 < r < d && (slot == base || slot == base + 1)
    requires k < |self| == |other| && HasType((if slot == base then self else other)[k], ty)
    ensures st'.regs == st.regs[r := FieldPtr(slot, k)][d := Val((if slot == base then self else other)[k])]
    ensures Ready(st', base, self, other)
    ensures Run(code, pc, st, self, other) == Run(code, pc + 2, st', self, other)
  {
    hide Run;
    st' := RunGo(code, pc, st, self, other);
    st' := RunGo(code, pc + 1, st', self, other);
  }

  /** Field `k`'s instructions sit at `pc`. */
  ghost predicate OrdAt(code: seq<Instr>, pc: nat, ty: Ty, base: nat, k: nat) {
    pc + 11 <= |code| && code[pc..pc + 11] == OrdField(ty, base, k)
  }

  lemma OrdInstructions(code: seq<Instr>, pc: nat, ty: Ty, base: nat, k: nat)
    requires OrdAt(code, pc, ty, base, k)
    ensures pc + 11 <= |code|
    ensures var r := OrdReg(base, k);
      && code[pc] == Gep(r, base, k) && code[pc + 1] == Load(r + 1, ty, r)
      && code[pc + 2] == Gep(r + 2, base + 1, k) && code[pc + 3] == Load(r + 3, ty, r + 2)
      && code[pc + 4] == IcmpEq(r + 4, ty, r + 1, r + 3)
      && code[pc + 5] == Br(r + 4, NextField(2 * k), OrdRet(2 * k + 1))
      && code[pc + 6] == Label(OrdRet(2 * k + 1))
      && code[pc + 7] == IcmpSlt(r + 5, ty, r + 1, r + 3)
      && code[pc + 8] == SelectSign(r + 6, r + 5) && code[pc + 9] == Ret(r + 6)
      && code[pc + 10] == Label(NextField(2 * k))
  {
    var c := code[pc..pc + 11];
    assert forall j :: 0 <= j < 11 ==> code[pc + j] == c[j];
  }

  /** Both values of field `k` are in their registers and the equality test is done. */
  ghost predicate Compared(st: State, base: nat, k: nat, x: int, y: int) {
    var r := OrdReg(base, k);
    && r + 1 in st.regs && st.regs[r + 1] == Val(Int(x))
    && r + 3 in st.regs && st.regs[r + 3] == Val(Int(y))
    && r + 4 in st.regs && st.regs[r + 4] == Bit(x == y)
  }

  lemma RunOrdTest(code: seq<Instr>, pc: nat, st: State, base: nat, k: nat, self: seq<Value>, other: seq<Value>)
    returns (st': State)
    requires OrdAt(code, pc, I64, base, k) && Ready(st, base, self, other)
    requires k < |self| == |other| && self[k].Int? && other[k].Int?
    ensures Ready(st', base, self, other) && Compared(st', base, k, self[k].n, other[k].n)
    ensures Run(code, pc, st, self, other) == Run(code, pc + 5, st', self, other)
  {
    hide Run, OrdAt;
    OrdInstructions(code, pc, I64, base, k);
    var r := OrdReg(base, k);
    st' := RunLoad(code, pc, st, base, base, I64, k, r, r + 1, self, other);
    st' := RunLoad(code, pc + 2, st', base, base + 1, I64, k, r + 2, r + 3, self, other);
    st' := RunGo(code, pc + 4, st', self, other);
  }

  lemma RunOrdNext(code: seq<Instr>, pc: nat, st: State, base: nat, k: nat, self: seq<Value>, other: seq<Value>, x: int)
    requires OrdAt(code, pc, I64, base, k) && Compared(st, base, k, x, x)
    ensures Run(code, pc + 5, st, self, other) == Run(code, pc + 11, st, self, other)
  {
    hide Run, OrdAt;
    OrdInstructions(code, pc, I64, base, k);
    RunJump(code, pc + 5, st, self, other, NextField(2 * k), pc + 10);
    var _ := RunGo(code, pc + 10, st, self, other);
  }

  lemma RunOrdReturn(code: seq<Instr>, pc: nat, st: State, base: nat, k: nat, self: seq<Value>, other: seq<Value>,
                     x: int, y: int)
    requires OrdAt(code, pc, I64, base, k) && Compared(st, base, k, x, y) && x != y
    ensures Run(code, pc + 5, st, self, other) == Returned(if x < y then -1 else 1)
  {
    hide Run, OrdAt;
    OrdInstructions(code, pc, I64, base, k);
    RunJump(code, pc + 5, st, self, other, OrdRet(2 * k + 1), pc + 6);
    var st' := RunGo(code, pc + 6, st, self, other);
    st' := RunGo(code, pc + 7, st', self, other);
    st' := RunGo(code, pc + 8, st', self, other);
    RunHalt(code, pc + 9, st', self, other);
  }

  /** From field `k` on, the comparison returns the lexicographic order of the remaining fields. */
  lemma {:induction false} RunOrdFrom(fields: seq<Ty>, base: nat, k: nat, st: State,
                                      self: seq<Value>, other: seq<Value>)
    requires forall i :: 0 <= i < |fields| ==> fields[i] == I64
    requires Typed(self, fields) && Typed(other, fields) && k <= |fields|
    requires Ready(st, base, self, other)
    ensures Run(OrdCode(fields, base), 5 + 11 * k, st, self, other) == Returned(Lex(self, other, k))
    decreases |fields| - k
  {
    hide Run, Ready, Compared, OrdCode;
    var code, pc := OrdCode(fields, base), 5 + 11 * k;
    OrdCodeAt(fields, base, k);
    if k == |fields| {
      RunHalt(code, pc, st, self, other);
    } else {
      var st' := RunOrdTest(code, pc, st, base, k, self, other);
      if self[k].n == other[k].n {
        RunOrdNext(code, pc, st', base, k, self, other, self[k].n);
        RunOrdFrom(fields, base, k + 1, st', self, other);
      } else {
        RunOrdReturn(code, pc, st', base, k, self, other, self[k].n, other[k].n);
      }
    }
  }

  /** Where each field's instructions are in the whole function. */
  lemma OrdCodeAt(fields: seq<Ty>, base: nat, k: nat)
    requires k <= |fields|
    ensures |OrdCode(fields, base)| == 6 + 11 * |fields|
    ensures k == |fields| ==> OrdCode(fields, base)[5 + 11 * k] == RetZero
    ensures k < |fields| ==> OrdAt(OrdCode(fields, base), 5 + 11 * k, fields[k], base, k)
  {
    hide OrdField, OrdBody;
    if k < |fields| {
      OrdBodyAt(fields, base, k);
      var code := OrdCode(fields, base);
      assert code[5..5 + 11 * |fields|] == OrdBody(fields, base);
      assert code[5 + 11 * k..5 + 11 * k + 11] == code[5..5 + 11 * |fields|][11 * k..11 * k + 11];
    }
  }

  lemma {:induction false} OrdBodyAt(fields: seq<Ty>, base: nat, k: nat)
    requires k < |fields|
    ensures OrdBody(fields, base)[11 * k..11 * k + 11] == OrdField(fields[k], base, k)
    decreases |fields|
  {
    hide OrdField;
    var n := |fields| - 1;
    if k < n {
      OrdBodyAt(fields[..n], base, k);
      assert OrdBody(fields, base)[11 * k..11 * k + 11] == OrdBody(fields[..n], base)[11 * k..11 * k + 11];
    }
  }

  /** Running the emitted comparison on two structs of integers gives their lexicographic order. */
  lemma CompareIsLexicographic(fields: seq<Ty>, base: nat, self: seq<Value>, other: seq<Value>)
    requires forall i :: 0 <= i < |fields| ==> fields[i] == I64
    requires Typed(self, fields) && Typed(other, fields)
    ensures Call(OrdCode(fields, base), self, other) == Returned(Lex(self, other, 0))
  {
    hide OrdBody, Run, Ready;
    var st := RunPrologue(OrdCode(fields, base), base, self, other);
    RunOrdFrom(fields, base, 0, st, self, other);
  }

  lemma RunHalt(code: seq<Instr>, pc: nat, st: State, self: seq<Value>, other: seq<Value>)
    requires pc < |code| && Step(code[pc], st, self, other).Halt?
    ensures Run(code, pc, st, self, other) == Step(code[pc], st, self, other).outcome
  {
    hide Step;
  }

  lemma RunJump(code: seq<Instr>, pc: nat, st: State, self: seq<Value>, other: seq<Value>, name: Name, target: nat)
    requires pc < target < |code| && Step(code[pc], st, self, other) == Jump(name)
    requires code[target] == Label(name) && forall i :: pc < i < target ==> code[i] != Label(name)
    ensures Run(code, pc, st, self, other) == Run(code, target, st, self, other)
  {
    hide Step;
    FindIs(code, name, pc + 1, target);
  }

  lemma {:induction false} FindIs(code: seq<Instr>, name: Name, pc: nat, target: nat)
    requires pc <= target < |code|
    requires code[target] == Label(name) && forall i :: pc <= i < target ==> code[i] != Label(name)
    ensures Find(code, name, pc) == target
    decreases target - pc
  {
    if pc < target { FindIs(code, name, pc + 1, target); }
  }

  // ---------- equality ----------

  function Flag(b: bool): Operand { Val(Int(if b then 1 else 0)) }

  /** A test's six instructions sit at `pc`. */
  ghost predicate EqAt(code: seq<Instr>, pc: nat, ty: Ty, base: nat, r: nat, k: nat) {
    pc + 6 <= |code| && code[pc..pc + 6] == EqTest(ty, base, base + 1, r, k)
  }

  lemma EqInstructions(code: seq<Instr>, pc: nat, ty: Ty, base: nat, r: nat, k: nat)
    requires EqAt(code, pc, ty, base, r, k)
    ensures pc + 6 <= |code|
    ensures code[pc] == Gep(r, base, k) && code[pc + 1] == Gep(r + 1, base + 1, k)
    ensures code[pc + 2] == Load(r + 2, ty, r) && code[pc + 3] == Load(r + 3, ty, r + 1)
    ensures code[pc + 4] == if ty == Double then FcmpOeq(r + 4, r + 2, r + 3) else IcmpEq(r + 4, ty, r + 2, r + 3)
    ensures code[pc + 5] == Zext(r + 5, r + 4)
  {
    var c := code[pc..pc + 6];
    assert forall j :: 0 <= j < 6 ==> code[pc + j] == c[j];
  }

  /** Registers below `r` are kept. */
  ghost predicate Keeps(st: State, st': State, r: int) {
    forall q :: q in st.regs && q < r ==> q in st'.regs && st'.regs[q] == st.regs[q]
  }

  lemma RunEqLoads(code: seq<Instr>, pc: nat, st: State, ty: Ty, base: nat, r: nat, k: nat,
                   self: seq<Value>, other: seq<Value>) returns (st': State)
    requires EqAt(code, pc, ty, base, r, k) && Ready(st, base, self, other) && base + 1 < r
    requires k < |self| == |other| && HasType(self[k], ty) && HasType(other[k], ty)
    ensures Ready(st', base, self, other) && Keeps(st, st', r)
    ensures r + 2 in st'.regs && st'.regs[r + 2] == Val(self[k])
    ensures r + 3 in st'.regs && st'.regs[r + 3] == Val(other[k])
    ensures Run(code, pc, st, self, other) == Run(code, pc + 4, st', self, other)
  {
    hide Run, EqAt;
    EqInstructions(code, pc, ty, base, r, k);
    st' := RunGo(code, pc, st, self, other);
    st' := RunGo(code, pc + 1, st', self, other);
    st' := RunGo(code, pc + 2, st', self, other);
    st' := RunGo(code, pc + 3, st', self, other);
  }

  lemma RunEqTest(code: seq<Instr>, pc: nat, st: State, ty: Ty, base: nat, r: nat, k: nat,
                  self: seq<Value>, other: seq<Value>) returns (st': State)
    requires EqAt(code, pc, ty, base, r, k) && Ready(st, base, self, other) && base + 1 < r && ty != Float
    requires k < |self| == |other| && HasType(self[k], ty) && HasType(other[k], ty)
    ensures Ready(st', base, self, other) && Keeps(st, st', r)
    ensures r + 5 in st'.regs && st'.regs[r + 5] == Flag(SameField(self[k], other[k]))
    ensures Run(code, pc, st, self, other) == Run(code, pc + 6, st', self, other)
  {
    hide Run, EqAt;
    EqInstructions(code, pc, ty, base, r, k);
    st' := RunEqLoads(code, pc, st, ty, base, r, k, self, other);
    st' := RunGo(code, pc + 4, st', self, other);
    st' := RunGo(code, pc + 5, st', self, other);
  }

  function EqPc(k: nat): nat { if k == 0 then 5 else 4 + 7 * k }

  lemma {:induction false} EqBodyLength(fields: seq<Ty>, base: nat)
    ensures |EqBody(fields, base)| == EqPc(|fields|) - 5
    decreases |fields|
  {
    hide EqField;
    if fields != [] { EqBodyLength(fields[..|fields| - 1], base); }
  }

  lemma {:induction false} EqBodyAt(fields: seq<Ty>, base: nat, k: nat)
    requires k < |fields|
    ensures |EqBody(fields, base)| >= EqPc(k + 1) - 5
    ensures EqBody(fields, base)[EqPc(k) - 5..EqPc(k + 1) - 5] == EqField(fields[k], base, k)
    decreases |fields|
  {
    hide EqField;
    var n := |fields| - 1;
    var front, last := EqBody(fields[..n], base), EqField(fields[n], base, n);
    EqBodyLength(fields[..n], base);
    assert EqBody(fields, base) == front + last && |last| == EqPc(n + 1) - EqPc(n);
    if k < n {
      EqBodyAt(fields[..n], base, k);
      hide EqBody;
      assert (front + last)[EqPc(k) - 5..EqPc(k + 1) - 5] == front[EqPc(k) - 5..EqPc(k + 1) - 5];
    } else {
      hide EqBody;
      assert (front + last)[|front|..|front| + |last|] == last;
    }
  }

  /** Where the test and the conjunction of field `k` are in the whole function. */
  lemma EqCodeAt(fields: seq<Ty>, base: nat, k: nat)
    requires k < |fields|
    ensures EqAt(EqCode(fields, base), EqPc(k), fields[k], base, EqReg(base, k), k)
    ensures |EqCode(fields, base)| > EqPc(k + 1)
    ensures k > 0 ==>
      EqCode(fields, base)[EqPc(k) + 6] == And(EqReg(base, k) + 6, EqResult(base, k), EqReg(base, k) + 5)
  {
    hide EqBody, EqTest;
    EqBodyAt(fields, base, k);
    EqBodyLength(fields, base);
    var code, body, f := EqCode(fields, base), EqBody(fields, base), EqField(fields[k], base, k);
    assert code[5..5 + |body|] == body;
    assert code[EqPc(k)..EqPc(k + 1)] == body[EqPc(k) - 5..EqPc(k + 1) - 5] == f;
    assert code[EqPc(k)..EqPc(k) + 6] == f[..6];
    if k > 0 { assert code[EqPc(k) + 6] == f[6]; }
  }

  lemma AndOfFlags(a: bool, b: bool)
    ensures And64(if a then 1 else 0, if b then 1 else 0) == if a && b then 1 else 0
  {
  }

  /** After `k` fields the result register says whether they are all equal. */
  ghost predicate Conjoined(st: State, base: nat, k: nat, self: seq<Value>, other: seq<Value>)
    requires k <= |self| == |other|
  {
    k > 0 ==> EqResult(base, k) in st.regs && st.regs[EqResult(base, k)] == Flag(SameFields(self, other, k))
  }

  lemma RunEqField(fields: seq<Ty>, base: nat, k: nat, st: State, self: seq<Value>, other: seq<Value>)
    returns (st': State)
    requires Typed(self, fields) && Typed(other, fields) && k < |fields| && fields[k] != Float
    requires Ready(st, base, self, other) && Conjoined(st, base, k, self, other)
    ensures Ready(st', base, self, other) && Conjoined(st', base, k + 1, self, other)
    ensures EqPc(k + 1) <= |EqCode(fields, base)|
    ensures Run(EqCode(fields, base), EqPc(k), st, self, other)
         == Run(EqCode(fields, base), EqPc(k + 1), st', self, other)
  {
    hide Run, EqCode, EqAt, SameField;
    var code, r := EqCode(fields, base), EqReg(base, k);
    EqCodeAt(fields, base, k);
    st' := RunEqTest(code, EqPc(k), st, fields[k], base, r, k, self, other);
    if k > 0 {
      AndOfFlags(SameFields(self, other, k), SameField(self[k], other[k]));
      st' := RunGo(code, EqPc(k) + 6, st', self, other);
    }
  }

  lemma {:induction false} RunEqFrom(fields: seq<Ty>, base: nat, k: nat, st: State, self: seq<Value>, other: seq<Value>)
    requires fields != [] && forall i :: 0 <= i < |fields| ==> fields[i] != Float
    requires Typed(self, fields) && Typed(other, fields) && k <= |fields|
    requires Ready(st, base, self, other) && Conjoined(st, base, k, self, other)
    ensures EqPc(k) <= |EqCode(fields, base)|
    ensures Run(EqCode(fields, base), EqPc(k), st, self, other)
         == Returned(if SameFields(self, other, |fields|) then 1 else 0)
    decreases |fields| - k
  {
    var code := EqCode(fields, base);
    if k == |fields| {
      EqBodyLength(fields, base);
      assert code[EqPc(k)] == Ret(EqResult(base, k));
      RunHalt(code, EqPc(k), st, self, other);
    } else {
      hide Run, EqCode, SameFields;
      var st' := RunEqField(fields, base, k, st, self, other);
      RunEqFrom(fields, base, k + 1, st', self, other);
    }
  }

  /** Running the emitted equality returns 1 exactly when every pair of fields is equal. */
  lemma EqualsIsFieldwise(fields: seq<Ty>, base: nat, self: seq<Value>, other: seq<Value>)
    requires fields != [] && forall i :: 0 <= i < |fields| ==> fields[i] != Float
    requires Typed(self, fields) && Typed(other, fields)
    ensures Call(EqCode(fields, base), self, other) == Returned(if SameFields(self, other, |fields|) then 1 else 0)
  {
    hide EqBody, Run, SameFields;
    var st := RunPrologue(EqCode(fields, base), base, self, other);
    RunEqFrom(fields, base, 0, st, self, other);
  }

  // ---------- the two functions together ----------

  lemma {:induction false} LexZero(self: seq<Value>, other: seq<Value>, k: nat)
    requires k <= |self| == |other|
    requires forall i :: 0 <= i < |self| ==> self[i].Int? && other[i].Int?
    ensures Lex(self, other, k) == 0 <==> forall i :: k <= i < |self| ==> SameField(self[i], other[i])
    decreases |self| - k
  {
    if k < |self| { LexZero(self, other, k + 1); }
  }

  /** On structs of integers equality returns 1 exactly when the comparison returns 0. */
  lemma EqualExactlyWhenCompareIsZero(fields: seq<Ty>, base: nat, base': nat, self: seq<Value>, other: seq<Value>)
    requires fields != [] && forall i :: 0 <= i < |fields| ==> fields[i] == I64
    requires Typed(self, fields) && Typed(other, fields)
    ensures Call(EqCode(fields, base), self, other) == Returned(1)
       <==> Call(OrdCode(fields, base'), self, other) == Returned(0)
  {
    hide Call, EqCode, OrdCode;
    EqualsIsFieldwise(fields, base, self, other);
    CompareIsLexicographic(fields, base', self, other);
    LexZero(self, other, 0);
  }

  /** The comparison is a total order: swapping negates it, and it is transitive. */
  lemma {:induction false} LexIsOrder(x: seq<Value>, y: seq<Value>, z: seq<Value>, k: nat)
    requires k <= |x| == |y| == |z|
    requires forall i :: 0 <= i < |x| ==> x[i].Int? && y[i].Int? && z[i].Int?
    ensures Lex(y, x, k) == -Lex(x, y, k)
    ensures Lex(x, y, k) <= 0 && Lex(y, z, k) <= 0 ==> Lex(x, z, k) <= 0
    decreases |x| - k
  {
    if k < |x| { LexIsOrder(x, y, z, k + 1); }
  }

  lemma CompareIsOrder(fields: seq<Ty>, base: nat, x: seq<Value>, y: seq<Value>, z: seq<Value>)
    requires forall i :: 0 <= i < |fields| ==> fields[i] == I64
    requires Typed(x, fields) && Typed(y, fields) && Typed(z, fields)
    ensures var code := OrdCode(fields, base);
      var xy, yz, xz := Call(code, x, y), Call(code, y, z), Call(code, x, z);
      && xy.Returned? && yz.Returned? && xz.Returned?
      && Call(OrdCode(fields, base), y, x) == Returned(-xy.n)
      && (xy.n <= 0 && yz.n <= 0 ==> xz.n <= 0)
  {
    hide Call, OrdCode;
    CompareIsLexicographic(fields, base, x, y);
    CompareIsLexicographic(fields, base, y, x);
    CompareIsLexicographic(fields, base, y, z);
    CompareIsLexicographic(fields, base, x, z);
    LexIsOrder(x, y, z, 0);
  }
}
