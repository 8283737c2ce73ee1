/**
 * The lowering of derived equality and ordering to SSA instructions: the emitter, and the
 * instruction sequences it produces for a struct.
 */
module DeriveIr {
  datatype Ty = I64 | Double | Float

  datatype Name = Entry | NextField(n: nat) | OrdRet(n: nat)

  datatype Arg = Self | Other

  /** Registers are numbered; -1 is the number of no register. */
  datatype Instr =
    | Label(name: Name)
    | Alloca(dst: int)
    | Store(arg: Arg, ptr: int)
    | Gep(dst: int, ptr: int, field: nat)
    | Load(dst: int, ty: Ty, ptr: int)
    | FcmpOeq(dst: int, l: int, r: int)
    | IcmpEq(dst: int, ty: Ty, l: int, r: int)
    | IcmpSlt(dst: int, ty: Ty, l: int, r: int)
    | Zext(dst: int, src: int)
    | And(dst: int, l: int, r: int)
    | SelectSign(dst: int, cond: int)
    | Br(cond: int, yes: Name, no: Name)
    | Ret(src: int)
    | RetZero

  /** Both functions copy their two arguments to the stack first. */
  function Prologue(base: nat): (code: seq<Instr>)
    ensures |code| == 5
  {
    [Label(Entry), Alloca(base), Store(Self, base), Alloca(base + 1), Store(Other, base + 1)]
  }

  // ---------- equality ----------

  /** The register counter before field `k`, and the register of the conjunction over `k` fields. */
  function EqReg(base: nat, k: nat): nat { if k == 0 then base + 2 else base + 1 + 7 * k }

  function EqResult(base: nat, k: nat): int { if k == 0 then -1 else base + 7 * k }

  /** Field `k` of both structs, compared into register r + 5. */
  function EqTest(ty: Ty, self: nat, other: nat, r: nat, k: nat): (code: seq<Instr>)
    ensures |code| == 6
  {
    [Gep(r, self, k), Gep(r + 1, other, k), Load(r + 2, ty, r), Load(r + 3, ty, r + 1),
     if ty == Double then FcmpOeq(r + 4, r + 2, r + 3) else IcmpEq(r + 4, ty, r + 2, r + 3),
     Zext(r + 5, r + 4)]
  }

  function EqField(ty: Ty, base: nat, k: nat): (code: seq<Instr>)
    ensures |code| == if k == 0 then 6 else 7
  {
    var r := EqReg(base, k);
    EqTest(ty, base, base + 1, r, k) + if k == 0 then [] else [And(r + 6, EqResult(base, k), r + 5)]
  }

  function EqBody(fields: seq<Ty>, base: nat): seq<Instr> {
    if fields == [] then []
    else EqBody(fields[..|fields| - 1], base) + EqField(fields[|fields| - 1], base, |fields| - 1)
  }

  function EqCode(fields: seq<Ty>, base: nat): seq<Instr> {
    Prologue(base) + EqBody(fields, base) + [Ret(EqResult(base, |fields|))]
  }

  // ---------- ordering ----------

  function OrdReg(base: nat, k: nat): nat { base + 2 + 7 * k }

  function OrdField(ty: Ty, base: nat, k: nat): (code: seq<Instr>)
    ensures |code| == 11
  {
    var r := OrdReg(base, k);
    [Gep(r, base, k), Load(r + 1, ty, r), Gep(r + 2, base + 1, k), Load(r + 3, ty, r + 2),
     IcmpEq(r + 4, ty, r + 1, r + 3), Br(r + 4, NextField(2 * k), OrdRet(2 * k + 1)),
     Label(OrdRet(2 * k + 1)), IcmpSlt(r + 5, ty, r + 1, r + 3), SelectSign(r + 6, r + 5), Ret(r + 6),
     Label(NextField(2 * k))]
  }

  function OrdBody(fields: seq<Ty>, base: nat): (code: seq<Instr>)
    ensures |code| == 11 * |fields|
  {
    if fields == [] then []
    else OrdBody(fields[..|fields| - 1], base) + OrdField(fields[|fields| - 1], base, |fields| - 1)
  }

  function OrdCode(fields: seq<Ty>, base: nat): seq<Instr> {
    Prologue(base) + OrdBody(fields, base) + [RetZero]
  }

  /** The output stream and the register counter, which is never reset between functions. */
  class Emitter {
    var out: seq<Instr>
    var reg: nat

    constructor ()
      ensures out == [] && reg == 0
    {
      out, reg := [], 0;
    }

    method EmitPrologue() returns (self: nat, other: nat)
      modifies this
      ensures out == old(out) + Prologue(old(reg))
      ensures self == old(reg) && other == old(reg) + 1 && reg == old(reg) + 2
    {
      out := out + [Label(Entry)];
      self := reg; reg := reg + 1;
      other := reg; reg := reg + 1;
      out := out + [Alloca(self), Store(Self, self)];
      out := out + [Alloca(other), Store(Other, other)];
    }

    /** Compares one field and leaves the outcome as an integer in a register. */
    method EmitEqTest(ty: Ty, k: nat, sAlloca: nat, oAlloca: nat) returns (zext: nat)
      modifies this
      ensures reg == old(reg) + 6 && zext == old(reg) + 5
      ensures out == old(out) + EqTest(ty, sAlloca, oAlloca, old(reg), k)
    {
      var gepS := reg; reg := reg + 1;
      var gepO := reg; reg := reg + 1;
      var code := [Gep(gepS, sAlloca, k), Gep(gepO, oAlloca, k)];
      var loadS := reg; reg := reg + 1;
      var loadO := reg; reg := reg + 1;
      code := code + [Load(loadS, ty, gepS), Load(loadO, ty, gepO)];
      var cmp := reg; reg := reg + 1;
      if ty == Double {
        code := code + [FcmpOeq(cmp, loadS, loadO)];
      } else {
        code := code + [IcmpEq(cmp, ty, loadS, loadO)];
      }
      zext := reg; reg := reg + 1;
      code := code + [Zext(zext, cmp)];
      out := out + code;
    }

    method EmitEq(fields: seq<Ty>)
      modifies this
      ensures out == old(out) + EqCode(fields, old(reg))
      ensures reg == EqReg(old(reg), |fields|)
    {
      hide EqTest, Prologue;
      ghost var base := reg;
      var sAlloca, oAlloca := EmitPrologue();
      var zextFirst: int, andPrev: int := -1, -1;
      for k := 0 to |fields|
        invariant reg == EqReg(base, k)
        invariant out == old(out) + Prologue(base) + EqBody(fields[..k], base)
        invariant zextFirst == if k == 0 then -1 else EqResult(base, 1)
        invariant andPrev == if k <= 1 then -1 else EqResult(base, k)
      {
        assert fields[..k + 1][..k] == fields[..k];
        var zext := EmitEqTest(fields[k], k, sAlloca, oAlloca);
        if k == 0 {
          zextFirst := zext;
        } else if k == 1 {
          andPrev := reg; reg := reg + 1;
          out := out + [And(andPrev, zextFirst, zext)];
        } else {
          var andR := reg; reg := reg + 1;
          out := out + [And(andR, andPrev, zext)];
          andPrev := andR;
        }
      }
      assert fields[..|fields|] == fields;
      if |fields| <= 1 {
        out := out + [Ret(zextFirst)];
      } else {
        out := out + [Ret(andPrev)];
      }
    }

    method EmitOrdField(ty: Ty, k: nat, oSelf: nat, oOther: nat)
      requires reg == OrdReg(oSelf, k) && oOther == oSelf + 1
      modifies this
      ensures reg == old(reg) + 7
      ensures out == old(out) + OrdField(ty, oSelf, k)
    {
      var gepS := reg; reg := reg + 1;
      var loadS := reg; reg := reg + 1;
      var code := [Gep(gepS, oSelf, k), Load(loadS, ty, gepS)];
      var gepO := reg; reg := reg + 1;
      var loadO := reg; reg := reg + 1;
      code := code + [Gep(gepO, oOther, k), Load(loadO, ty, gepO)];
      var nextLd, retLd := k * 2, k * 2 + 1;
      var icmpEq := reg; reg := reg + 1;
      code := code + [IcmpEq(icmpEq, ty, loadS, loadO), Br(icmpEq, NextField(nextLd), OrdRet(retLd))];
      var icmpSlt := reg; reg := reg + 1;
      code := code + [Label(OrdRet(retLd)), IcmpSlt(icmpSlt, ty, loadS, loadO)];
      var sel := reg; reg := reg + 1;
      code := code + [SelectSign(sel, icmpSlt), Ret(sel), Label(NextField(nextLd))];
      assert code == OrdField(ty, oSelf, k);
      out := out + code;
    }

    method EmitCompare(fields: seq<Ty>)
      modifies this
      ensures out == old(out) + OrdCode(fields, old(reg))
      ensures reg == OrdReg(old(reg), |fields|)
    {
      hide OrdField;
      ghost var base := reg;
      var oSelf, oOther := EmitPrologue();
      for k := 0 to |fields|
        invariant reg == OrdReg(base, k)
        invariant out == old(out) + Prologue(base) + OrdBody(fields[..k], base)
      {
        assert fields[..k + 1][..k] == fields[..k];
        EmitOrdField(fields[k], k, oSelf, oOther);
      }
      assert fields[..|fields|] == fields;
      out := out + [RetZero];
    }
  }
}
