/** Static well-formedness of the emitted functions: SSA form, block structure and operand types. */
module DeriveCheck {
  import opened DeriveIr
  import opened DeriveRun

  datatype Kind = Struct | Pointer(ty: Ty) | Scalar(ty: Ty) | Truth

  /**
   * The registers visible at this point, whether a block is open, every register assigned so
   * far, what each branch target will see, and the labels placed so far.
   */
  datatype Checker =
    | Bad
    | Ok(env: map<int, Kind>, open: bool, defined: set<int>, waiting: map<Name, map<int, Kind>>, placed: set<Name>)

  const START: Checker := Ok(map[], false, {}, map[Entry := map[]], {})

  predicate Has(c: Checker, r: int, k: Kind)
    requires c.Ok?
  {
    r in c.env && c.env[r] == k
  }

  /** A register is assigned once. */
  function Define(c: Checker, dst: int, k: Kind): Checker
    requires c.Ok?
  {
    if dst < 0 || dst in c.defined then Bad
    else c.(env := c.env[dst := k], defined := c.defined + {dst})
  }

  /**
   * A block starts with a label that one branch asked for and ends with a branch or a return; a
   * register is visible only where its block dominates.
   */
  function CheckStep(c: Checker, i: Instr, fields: seq<Ty>): Checker {
    if c.Bad? then Bad
    else if i.Label? then
      if c.open || i.name in c.placed || i.name !in c.waiting then Bad
      else c.(env := c.waiting[i.name], open := true, placed := c.placed + {i.name})
    else if !c.open then Bad
    else match i
      case Alloca(dst) => Define(c, dst, Struct)
      case Store(_, ptr) => if Has(c, ptr, Struct) then c else Bad
      case Gep(dst, ptr, k) =>
        if Has(c, ptr, Struct) && k < |fields| then Define(c, dst, Pointer(fields[k])) else Bad
      case Load(dst, ty, ptr) => if Has(c, ptr, Pointer(ty)) then Define(c, dst, Scalar(ty)) else Bad
      case FcmpOeq(dst, l, r) =>
        if Has(c, l, Scalar(Double)) && Has(c, r, Scalar(Double)) then Define(c, dst, Truth) else Bad
      case IcmpEq(dst, ty, l, r) =>
        if ty == I64 && Has(c, l, Scalar(ty)) && Has(c, r, Scalar(ty)) then Define(c, dst, Truth) else Bad
      case IcmpSlt(dst, ty, l, r) =>
        if ty == I64 && Has(c, l, Scalar(ty)) && Has(c, r, Scalar(ty)) then Define(c, dst, Truth) else Bad
      case Zext(dst, src) => if Has(c, src, Truth) then Define(c, dst, Scalar(I64)) else Bad
      case And(dst, l, r) =>
        if Has(c, l, Scalar(I64)) && Has(c, r, Scalar(I64)) then Define(c, dst, Scalar(I64)) else Bad
      case SelectSign(dst, cond) => if Has(c, cond, Truth) then Define(c, dst, Scalar(I64)) else Bad
      case Br(cond, yes, no) =>
        if Has(c, cond, Truth) && yes != no && yes !in c.waiting && no !in c.waiting
        then c.(open := false, waiting := c.waiting[yes := c.env][no := c.env])
        else Bad
      case Ret(src) => if Has(c, src, Scalar(I64)) then c.(open := false) else Bad
      case RetZero => c.(open := false)
  }

  /** The checker before instruction `pc`. */
  function CheckAt(code: seq<Instr>, fields: seq<Ty>, pc: nat): Checker
    requires pc <= |code|
  {
    if pc == 0 then START else CheckStep(CheckAt(code, fields, pc - 1), code[pc - 1], fields)
  }

  /** The last block is closed and every branch target exists. */
  predicate WellFormed(code: seq<Instr>, fields: seq<Ty>) {
    var c := CheckAt(code, fields, |code|);
    c.Ok? && !c.open && c.placed == c.waiting.Keys
  }

  // ---------- what the checker guarantees ----------

  predicate Assigns(i: Instr, r: int) {
    match i
    case Alloca(dst) => dst == r
    case Gep(dst, _, _) => dst == r
    case Load(dst, _, _) => dst == r
    case FcmpOeq(dst, _, _) => dst == r
    case IcmpEq(dst, _, _, _) => dst == r
    case IcmpSlt(dst, _, _, _) => dst == r
    case Zext(dst, _) => dst == r
    case And(dst, _, _) => dst == r
    case SelectSign(dst, _) => dst == r
    case _ => false
  }

  predicate Uses(i: Instr, r: int) {
    match i
    case Store(_, ptr) => ptr == r
    case Gep(_, ptr, _) => ptr == r
    case Load(_, _, ptr) => ptr == r
    case FcmpOeq(_, x, y) => x == r || y == r
    case IcmpEq(_, _, x, y) => x == r || y == r
    case IcmpSlt(_, _, x, y) => x == r || y == r
    case Zext(_, src) => src == r
    case And(_, x, y) => x == r || y == r
    case SelectSign(_, cond) => cond == r
    case Br(cond, _, _) => cond == r
    case Ret(src) => src == r
    case _ => false
  }

  /** What the checker has recorded about the instructions before `pc`. */
  ghost predicate Recorded(code: seq<Instr>, c: Checker, pc: nat)
    requires pc <= |code| && c.Ok?
  {
    && (forall r :: r in c.defined ==> exists i :: 0 <= i < pc && Assigns(code[i], r))
    && (forall i, r :: 0 <= i < pc && Assigns(code[i], r) ==> r in c.defined)
    && (forall i :: 0 <= i < pc && code[i].Label? ==> code[i].name in c.placed)
    && c.env.Keys <= c.defined
    && (forall n :: n in c.waiting ==> c.waiting[n].Keys <= c.defined)
  }

  /** One step defines exactly what its instruction assigns. */
  lemma StepDefines(c: Checker, i: Instr, fields: seq<Ty>)
    requires c.Ok? && CheckStep(c, i, fields).Ok?
    ensures var c' := CheckStep(c, i, fields);
      && (forall r :: r in c'.defined <==> r in c.defined || Assigns(i, r))
      && (forall r :: r in c'.env ==> r in c.env || Assigns(i, r) || (i.Label? && r in c.waiting[i.name]))
      && c'.placed == c.placed + (if i.Label? then {i.name} else {})
      && (i.Label? ==> i.name in c.waiting && i.name !in c.placed)
      && (forall n :: n in c'.waiting ==> (n in c.waiting && c'.waiting[n] == c.waiting[n]) || c'.waiting[n] == c.env)
      && (forall r :: Assigns(i, r) ==> r !in c.defined)
      && (forall r :: Uses(i, r) ==> r in c.env)
  {
  }

  lemma RecordsStep(code: seq<Instr>, fields: seq<Ty>, c: Checker, c': Checker, pc: nat)
    requires pc < |code| && c.Ok? && c'.Ok? && c' == CheckStep(c, code[pc], fields)
    requires Recorded(code, c, pc)
    ensures Recorded(code, c', pc + 1)
  {
    StepDefines(c, code[pc], fields);
    hide CheckStep, Assigns;
    forall r | r in c'.defined
      ensures exists i :: 0 <= i < pc + 1 && Assigns(code[i], r)
    {
      if r !in c.defined { assert Assigns(code[pc], r); }
    }
  }

  lemma {:induction false} CheckRecords(code: seq<Instr>, fields: seq<Ty>, pc: nat)
    requires pc <= |code| && CheckAt(code, fields, pc).Ok?
    ensures Recorded(code, CheckAt(code, fields, pc), pc)
  {
    if pc > 0 {
      hide CheckStep, Recorded;
      CheckRecords(code, fields, pc - 1);
      RecordsStep(code, fields, CheckAt(code, fields, pc - 1), CheckAt(code, fields, pc), pc - 1);
    }
  }

  lemma {:induction false} OkBefore(code: seq<Instr>, fields: seq<Ty>, i: nat, pc: nat)
    requires i <= pc <= |code| && CheckAt(code, fields, pc).Ok?
    ensures CheckAt(code, fields, i).Ok?
    decreases pc - i
  {
    if i < pc { OkBefore(code, fields, i, pc - 1); }
  }

  /** Each register is assigned once and before its uses, and no label is placed twice. */
  lemma WellFormedIsSsa(code: seq<Instr>, fields: seq<Ty>, i: nat, j: nat, r: int)
    requires WellFormed(code, fields) && i < j < |code|
    ensures !(Assigns(code[i], r) && Assigns(code[j], r))
    ensures Uses(code[j], r) ==> exists d :: 0 <= d < j && Assigns(code[d], r)
    ensures code[i].Label? ==> code[j] != code[i]
  {
    OkBefore(code, fields, j + 1, |code|);
    OkBefore(code, fields, j, |code|);
    CheckRecords(code, fields, j);
    StepDefines(CheckAt(code, fields, j), code[j], fields);
    hide CheckStep, Assigns, Uses;
  }

  // ---------- exactly which structs get a well-formed function ----------

  lemma {:induction false} BadStays(code: seq<Instr>, fields: seq<Ty>, i: nat, pc: nat)
    requires i <= pc <= |code| && CheckAt(code, fields, i).Bad?
    ensures CheckAt(code, fields, pc).Bad?
    decreases pc - i
  {
    if CheckAt(code, fields, pc).Ok? { OkBefore(code, fields, i, pc); }
  }

  lemma CheckGo(code: seq<Instr>, fields: seq<Ty>, pc: nat)
    requires pc < |code|
    ensures CheckAt(code, fields, pc + 1) == CheckStep(CheckAt(code, fields, pc), code[pc], fields)
  {
    hide CheckStep;
  }

  lemma CheckPrologue(code: seq<Instr>, fields: seq<Ty>, base: nat)
    requires |code| >= 5 && code[..5] == Prologue(base)
    ensures CheckAt(code, fields, 5)
         == Ok(map[base := Struct, base + 1 := Struct], true, {base, base + 1}, map[Entry := map[]], {Entry})
  {
    hide CheckAt;
    var c := code[..5];
    assert code[0] == c[0] && code[1] == c[1] && code[2] == c[2] && code[3] == c[3] && code[4] == c[4];
    assert CheckAt(code, fields, 0) == START by { CheckStart(code, fields); }
    CheckGo(code, fields, 0); CheckGo(code, fields, 1); CheckGo(code, fields, 2);
    CheckGo(code, fields, 3); CheckGo(code, fields, 4);
  }

  lemma CheckStart(code: seq<Instr>, fields: seq<Ty>)
    ensures CheckAt(code, fields, 0) == START
  {
  }

  /** One open block, both stack slots visible, no register from `next` on assigned. */
  ghost predicate Going(c: Checker, base: nat, next: nat) {
    && c.Ok? && c.open && Has(c, base, Struct) && Has(c, base + 1, Struct)
    && (forall r :: r in c.defined ==> r < next)
  }

  ghost predicate EqGoing(c: Checker, base: nat, k: nat) {
    && Going(c, base, EqReg(base, k))
    && c.waiting == map[Entry := map[]] && c.placed == {Entry}
    && (k > 0 ==> Has(c, EqResult(base, k), Scalar(I64)))
  }

  /** What was visible below `next` still is, and no label has been touched. */
  ghost predicate Extends(c: Checker, c': Checker, next: nat) {
    && c.Ok? && c'.Ok? && c'.waiting == c.waiting && c'.placed == c.placed
    && forall q :: q < next && q in c.env ==> q in c'.env && c'.env[q] == c.env[q]
  }

  /** An instruction that assigns the next register. */
  lemma CheckDefines(code: seq<Instr>, fields: seq<Ty>, pc: nat, base: nat, next: nat, kind: Kind)
    requires pc < |code| && base + 1 < next && Going(CheckAt(code, fields, pc), base, next)
    requires CheckStep(CheckAt(code, fields, pc), code[pc], fields) == Define(CheckAt(code, fields, pc), next, kind)
    ensures var c, c' := CheckAt(code, fields, pc), CheckAt(code, fields, pc + 1);
      Going(c', base, next + 1) && Has(c', next, kind) && Extends(c, c', next)
  {
    CheckGo(code, fields, pc);
    hide CheckAt, CheckStep;
  }

  lemma CheckEqLoads(code: seq<Instr>, fields: seq<Ty>, pc: nat, base: nat, r: nat, k: nat)
    requires k < |fields| && EqAt(code, pc, fields[k], base, r, k)
    requires Going(CheckAt(code, fields, pc), base, r) && base + 1 < r
    ensures pc + 6 <= |code|
    ensures var c, c' := CheckAt(code, fields, pc), CheckAt(code, fields, pc + 4);
      && Going(c', base, r + 4) && Extends(c, c', r)
      && Has(c', r + 2, Scalar(fields[k])) && Has(c', r + 3, Scalar(fields[k]))
  {
    hide CheckAt, EqAt, Define;
    EqInstructions(code, pc, fields[k], base, r, k);
    CheckDefines(code, fields, pc, base, r, Pointer(fields[k]));
    CheckDefines(code, fields, pc + 1, base, r + 1, Pointer(fields[k]));
    CheckDefines(code, fields, pc + 2, base, r + 2, Scalar(fields[k]));
    CheckDefines(code, fields, pc + 3, base, r + 3, Scalar(fields[k]));
  }

  lemma CheckEqTest(code: seq<Instr>, fields: seq<Ty>, pc: nat, base: nat, r: nat, k: nat)
    requires k < |fields| && EqAt(code, pc, fields[k], base, r, k)
    requires Going(CheckAt(code, fields, pc), base, r) && base + 1 < r
    ensures pc + 6 <= |code|
    ensures var c, c' := CheckAt(code, fields, pc), CheckAt(code, fields, pc + 6);
      if fields[k] == Float then c'.Bad?
      else Going(c', base, r + 6) && Has(c', r + 5, Scalar(I64)) && Extends(c, c', r)
  {
    hide CheckAt, EqAt, Define;
    EqInstructions(code, pc, fields[k], base, r, k);
    CheckEqLoads(code, fields, pc, base, r, k);
    if fields[k] == Float {
      CheckGo(code, fields, pc + 4);
      BadStays(code, fields, pc + 5, pc + 6);
    } else {
      CheckDefines(code, fields, pc + 4, base, r + 4, Truth);
      CheckDefines(code, fields, pc + 5, base, r + 5, Scalar(I64));
    }
  }

  lemma CheckEqField(fields: seq<Ty>, base: nat, k: nat)
    requires k < |fields|
    requires EqPc(k + 1) <= |EqCode(fields, base)| && EqGoing(CheckAt(EqCode(fields, base), fields, EqPc(k)), base, k)
    ensures var c := CheckAt(EqCode(fields, base), fields, EqPc(k + 1));
      if fields[k] == Float then c.Bad? else EqGoing(c, base, k + 1)
  {
    hide CheckAt, EqAt, EqCode;
    var code := EqCode(fields, base);
    EqCodeAt(fields, base, k);
    CheckEqTest(code, fields, EqPc(k), base, EqReg(base, k), k);
    if k > 0 { CheckGo(code, fields, EqPc(k) + 6); }
  }

  lemma CheckEqStart(fields: seq<Ty>, base: nat)
    ensures |EqCode(fields, base)| > 5
    ensures EqGoing(CheckAt(EqCode(fields, base), fields, 5), base, 0)
  {
    hide CheckAt, EqBody;
    CheckPrologue(EqCode(fields, base), fields, base);
  }

  lemma {:induction false} CheckEqFields(fields: seq<Ty>, base: nat, k: nat)
    requires k <= |fields|
    ensures EqPc(k) <= |EqCode(fields, base)|
    ensures var c := CheckAt(EqCode(fields, base), fields, EqPc(k));
      if exists i :: 0 <= i < k && fields[i] == Float then c.Bad? else EqGoing(c, base, k)
  {
    hide CheckAt, EqCode, EqGoing;
    var code := EqCode(fields, base);
    if k == 0 {
      CheckEqStart(fields, base);
    } else {
      EqCodeAt(fields, base, k - 1);
      CheckEqFields(fields, base, k - 1);
      if exists i :: 0 <= i < k - 1 && fields[i] == Float {
        BadStays(code, fields, EqPc(k - 1), EqPc(k));
      } else {
        CheckEqField(fields, base, k - 1);
      }
    }
  }

  /** Equality is well formed exactly for structs that have a field and no 32-bit float field. */
  lemma EqIsWellFormed(fields: seq<Ty>, base: nat)
    ensures WellFormed(EqCode(fields, base), fields)
       <==> fields != [] && forall i :: 0 <= i < |fields| ==> fields[i] != Float
  {
    var code, n := EqCode(fields, base), |fields|;
    CheckEqFields(fields, base, n);
    EqBodyLength(fields, base);
    assert |code| == EqPc(n) + 1 && code[EqPc(n)] == Ret(EqResult(base, n));
    hide EqCode;
    if CheckAt(code, fields, EqPc(n)).Bad? {
      BadStays(code, fields, EqPc(n), |code|);
    } else if n == 0 {
      NoSuchRegister(code, fields, EqPc(n));
    }
  }

  /** A 32-bit float field is compared as an integer; a struct without fields returns register -1. */
  lemma EqIllFormed(base: nat)
    ensures EqCode([Float], base)[9] == IcmpEq(base + 6, Float, base + 4, base + 5)
    ensures !WellFormed(EqCode([Float], base), [Float])
    ensures EqCode([], base)[5] == Ret(-1) && !WellFormed(EqCode([], base), [])
  {
    EqCodeAt([Float], base, 0);
    EqInstructions(EqCode([Float], base), 5, Float, base, base + 2, 0);
    hide WellFormed, EqAt;
    EqIsWellFormed([Float], base);
    EqIsWellFormed([], base);
    assert [Float][0] == Float;
  }

  /** The result of an empty conjunction is register -1, which nothing assigns. */
  lemma NoSuchRegister(code: seq<Instr>, fields: seq<Ty>, pc: nat)
    requires pc <= |code| && CheckAt(code, fields, pc).Ok?
    ensures -1 !in CheckAt(code, fields, pc).env
  {
    CheckRecords(code, fields, pc);
    NoNegative(code, fields, pc);
  }

  lemma {:induction false} NoNegative(code: seq<Instr>, fields: seq<Ty>, pc: nat)
    requires pc <= |code| && CheckAt(code, fields, pc).Ok?
    ensures -1 !in CheckAt(code, fields, pc).defined
  {
    if pc > 0 { NoNegative(code, fields, pc - 1); }
  }

  /** Labels in use belong to the fields before `k`. */
  ghost predicate OrdGoing(c: Checker, base: nat, k: nat) {
    && Going(c, base, OrdReg(base, k))
    && c.placed == c.waiting.Keys
    && (forall n :: n in c.waiting ==> n == Entry || n.n < 2 * k)
  }

  lemma CheckOrdLoads(code: seq<Instr>, fields: seq<Ty>, pc: nat, base: nat, k: nat)
    requires k < |fields| && OrdAt(code, pc, fields[k], base, k)
    requires Going(CheckAt(code, fields, pc), base, OrdReg(base, k))
    ensures pc + 11 <= |code|
    ensures var c, c', r := CheckAt(code, fields, pc), CheckAt(code, fields, pc + 4), OrdReg(base, k);
      && Going(c', base, r + 4) && Extends(c, c', r)
      && Has(c', r + 1, Scalar(fields[k])) && Has(c', r + 3, Scalar(fields[k]))
  {
    hide CheckAt, OrdAt, Define;
    OrdInstructions(code, pc, fields[k], base, k);
    var r := OrdReg(base, k);
    CheckDefines(code, fields, pc, base, r, Pointer(fields[k]));
    CheckDefines(code, fields, pc + 1, base, r + 1, Scalar(fields[k]));
    CheckDefines(code, fields, pc + 2, base, r + 2, Pointer(fields[k]));
    CheckDefines(code, fields, pc + 3, base, r + 3, Scalar(fields[k]));
  }

  lemma CheckOrdTest(code: seq<Instr>, fields: seq<Ty>, pc: nat, base: nat, k: nat)
    requires k < |fields| && OrdAt(code, pc, fields[k], base, k)
    requires Going(CheckAt(code, fields, pc), base, OrdReg(base, k))
    ensures pc + 11 <= |code|
    ensures var c, c', r := CheckAt(code, fields, pc), CheckAt(code, fields, pc + 5), OrdReg(base, k);
      if fields[k] != I64 then c'.Bad?
      else
        && Going(c', base, r + 5) && Extends(c, c', r) && Has(c', r + 4, Truth)
        && Has(c', r + 1, Scalar(I64)) && Has(c', r + 3, Scalar(I64))
  {
    hide CheckAt, OrdAt, Define;
    OrdInstructions(code, pc, fields[k], base, k);
    CheckOrdLoads(code, fields, pc, base, k);
    if fields[k] != I64 {
      CheckGo(code, fields, pc + 4);
    } else {
      CheckDefines(code, fields, pc + 4, base, OrdReg(base, k) + 4, Truth);
    }
  }

  /** The branch and the first of its two targets. */
  lemma CheckOrdSplit(code: seq<Instr>, fields: seq<Ty>, pc: nat, base: nat, k: nat, c: Checker)
    requires OrdAt(code, pc, I64, base, k) && c == CheckAt(code, fields, pc + 5)
    requires c.Ok? && c.open && Has(c, OrdReg(base, k) + 4, Truth) && c.placed == c.waiting.Keys
    requires forall n :: n in c.waiting ==> n == Entry || n.n < 2 * k
    ensures pc + 11 <= |code|
    ensures CheckAt(code, fields, pc + 7)
         == c.(waiting := c.waiting[NextField(2 * k) := c.env][OrdRet(2 * k + 1) := c.env],
               placed := c.placed + {OrdRet(2 * k + 1)})
  {
    hide CheckAt, OrdAt;
    OrdInstructions(code, pc, I64, base, k);
    CheckGo(code, fields, pc + 5);
    CheckGo(code, fields, pc + 6);
  }

  lemma CheckOrdBranch(code: seq<Instr>, fields: seq<Ty>, pc: nat, base: nat, k: nat, c: Checker)
    requires OrdAt(code, pc, I64, base, k) && c == CheckAt(code, fields, pc + 5)
    requires Going(c, base, OrdReg(base, k) + 5) && Has(c, OrdReg(base, k) + 4, Truth)
    requires Has(c, OrdReg(base, k) + 1, Scalar(I64)) && Has(c, OrdReg(base, k) + 3, Scalar(I64))
    requires c.placed == c.waiting.Keys && forall n :: n in c.waiting ==> n == Entry || n.n < 2 * k
    ensures pc + 11 <= |code| && OrdGoing(CheckAt(code, fields, pc + 11), base, k + 1)
  {
    hide CheckAt, OrdAt, Define;
    OrdInstructions(code, pc, I64, base, k);
    CheckOrdSplit(code, fields, pc, base, k, c);
    var r := OrdReg(base, k);
    CheckDefines(code, fields, pc + 7, base, r + 5, Truth);
    CheckDefines(code, fields, pc + 8, base, r + 6, Scalar(I64));
    CheckGo(code, fields, pc + 9);
    CheckGo(code, fields, pc + 10);
  }

  lemma CheckOrdField(code: seq<Instr>, fields: seq<Ty>, pc: nat, base: nat, k: nat)
    requires k < |fields| && OrdAt(code, pc, fields[k], base, k)
    requires OrdGoing(CheckAt(code, fields, pc), base, k)
    ensures pc + 11 <= |code|
    ensures var c := CheckAt(code, fields, pc + 11); if fields[k] != I64 then c.Bad? else OrdGoing(c, base, k + 1)
  {
    hide CheckAt, OrdAt, Going;
    CheckOrdTest(code, fields, pc, base, k);
    if fields[k] != I64 {
      BadStays(code, fields, pc + 5, pc + 11);
    } else {
      CheckOrdBranch(code, fields, pc, base, k, CheckAt(code, fields, pc + 5));
    }
  }

  lemma CheckOrdStart(fields: seq<Ty>, base: nat)
    ensures |OrdCode(fields, base)| > 5
    ensures OrdGoing(CheckAt(OrdCode(fields, base), fields, 5), base, 0)
  {
    hide CheckAt, OrdBody;
    CheckPrologue(OrdCode(fields, base), fields, base);
  }

  lemma {:induction false} CheckOrdFields(fields: seq<Ty>, base: nat, k: nat)
    requires k <= |fields|
    ensures 5 + 11 * k < |OrdCode(fields, base)|
    ensures var c := CheckAt(OrdCode(fields, base), fields, 5 + 11 * k);
      if exists i :: 0 <= i < k && fields[i] != I64 then c.Bad? else OrdGoing(c, base, k)
  {
    hide CheckAt, OrdCode, OrdAt, OrdGoing;
    var code := OrdCode(fields, base);
    if k == 0 {
      CheckOrdStart(fields, base);
    } else {
      var pc := 5 + 11 * (k - 1);
      OrdCodeAt(fields, base, k - 1);
      CheckOrdFields(fields, base, k - 1);
      if exists i :: 0 <= i < k - 1 && fields[i] != I64 {
        BadStays(code, fields, pc, pc + 11);
      } else {
        CheckOrdField(code, fields, pc, base, k - 1);
      }
    }
  }

  /** The comparison is well formed exactly for structs of integers; no field at all is allowed. */
  lemma CompareIsWellFormed(fields: seq<Ty>, base: nat)
    ensures WellFormed(OrdCode(fields, base), fields)
       <==> forall i :: 0 <= i < |fields| ==> fields[i] == I64
  {
    var code, n := OrdCode(fields, base), |fields|;
    CheckOrdFields(fields, base, n);
    OrdCodeAt(fields, base, n);
    hide OrdCode;
    if CheckAt(code, fields, 5 + 11 * n).Bad? {
      BadStays(code, fields, 5 + 11 * n, |code|);
    }
  }

  /** A floating-point field is compared as an integer. */
  lemma CompareIllFormed(base: nat)
    ensures |OrdCode([Double], base)| > 9
    ensures OrdCode([Double], base)[9] == IcmpEq(base + 6, Double, base + 3, base + 5)
    ensures !WellFormed(OrdCode([Double], base), [Double])
  {
    hide WellFormed, OrdAt, OrdCode;
    OrdCodeAt([Double], base, 0);
    OrdInstructions(OrdCode([Double], base), 5, Double, base, 0);
    CompareIsWellFormed([Double], base);
    assert [Double][0] != I64;
  }
}
