/** The clocked processes of the register file and of the pipeline, with the fetch stage and the CSR
    unit inside the core. */
module CoreRegs {
  import opened Words
  import opened Instr
  import opened Decoder
  import F = Fetch
  import opened FetchStage
  import Pmp
  import Csr
  import opened CsrUnit
  import opened Isa
  import opened Pipeline

  /** The register file; entry 0 is never written, and reads of x0 give zero. */
  class RegisterFile {
    const regs: array<Word>

    ghost predicate Valid()
      reads this
    {
      regs.Length == 32
    }

    function View(): (r: Regs)
      requires Valid()
      reads this, regs
    {
      regs[..]
    }

    constructor ()
      ensures Valid() && fresh(regs) && View() == seq(32, _ => ZERO)
    {
      regs := new Word[32](_ => ZERO);
    }

    method Read(r: Reg) returns (v: Word)
      requires Valid()
      ensures v == Get(View(), r)
    {
      v := if r == X0 then ZERO else regs[r.n as int];
    }

    method Write(w: Option<Write>)
      requires Valid()
      modifies regs
      ensures View() == Set(old(View()), w)
    {
      if w.Some? && w.value.rd != X0 { regs[w.value.rd.n as int] := w.value.v; }
    }
  }

  class SisRvCore {
    const fetch: IfStage
    const csr: CsrRegs
    const rf: RegisterFile
    var ex: Ex
    var wb: Wb
    var lrReservationValid: bool
    var lrReservationAddr: Word
    var amoOldVal: Word

    ghost predicate Valid()
      reads this, csr, rf
    {
      csr.Valid() && rf.Valid() && csr.pmpaddr != rf.regs
    }

    function View(): (r: Core)
      requires Valid()
      reads this, fetch, csr, csr.pmpcfg, csr.pmpaddr, rf, rf.regs
    {
      Core(fetch.View(), ex, wb, rf.View(), csr.View(), csr.Counts(), lrReservationValid, lrReservationAddr, amoOldVal)
    }

    constructor (vector: Word)
      ensures Valid() && View().csr.Valid()
      ensures var c := View();
        c.fe == F.Reset(vector) && !c.ex.valid && !c.wb.valid && !c.resvValid && c.csr.priv == Pmp.MACHINE
      ensures fresh(fetch) && fresh(csr) && fresh(csr.pmpcfg) && fresh(csr.pmpaddr) && fresh(rf) && fresh(rf.regs)
    {
      fetch := new IfStage(vector);
      csr := new CsrRegs();
      rf := new RegisterFile();
      var none := F.Item(ZERO, NOP, false, false);
      ex := Ex(false, ExState.Exec, none, NOP, false, ZERO, ZERO, Pmp.USER, ZERO, ZERO, ZERO, false, false);
      wb := Wb(false, none, NOP, false, ZERO, ZERO, ZERO, false, false, false, false, ZERO, ZERO, None, Pmp.USER,
          ZERO, ZERO);
      lrReservationValid, lrReservationAddr, amoOldVal := false, ZERO, ZERO;
    }

    /** An EX cycle: the first cycle of an instruction, or a step of the data-bus states. `c` are the
        registers before the clock. */
    method ClockEx(e: Env, c: Core, i: In)
      requires c.csr.Valid() && ex == c.ex
      modifies `ex
      ensures ex == Advanced(e, c, i)
    {
      hide MemAccess, ExResult, AluResult, IsLoad, IsStore, IsAmo, IsLr, Pipeline.Misaligned, Funct3;
      if c.ex.valid {
        var w := c.ex.instr;
        match c.ex.st {
          case Exec =>
            ex := ex.(result := ExResult(c.ex), addr := AluResult(c.ex), err := false);
            ex := ex.(misaligned := (IsLoad(w) || IsStore(w)) && Pipeline.Misaligned(AluResult(c.ex), Funct3(w)));
            if MemAccess(e, c) {
              ex := ex.(st := if ReqFire(e, c, i) then MemWait else MemReq);
            } else {
              ex := ex.(valid := false);
            }
          case MemReq =>
            if ReqFire(e, c, i) { ex := ex.(st := MemWait); }
          case MemWait =>
            if RspFire(c, i) {
              ex := ex.(rdata := i.dRsp.value.data, err := i.dRsp.value.err);
              if IsAmo(w) && !i.dRsp.value.err {
                ex := ex.(st := AmoStoreReq);
              } else {
                ex := ex.(valid := false);
              }
            }
          case AmoStoreReq =>
            if ReqFire(e, c, i) { ex := ex.(st := AmoStoreWait); }
          case AmoStoreWait =>
            if RspFire(c, i) { ex := ex.(err := i.dRsp.value.err, valid := false); }
        }
      }
    }

    /** The reservation and the old value of an AMO, from the answers of the data bus. */
    method ClockAtomics(e: Env, c: Core, i: In)
      requires c.csr.Valid()
      requires lrReservationValid == c.resvValid && lrReservationAddr == c.resvAddr && amoOldVal == c.amoOld
      modifies `lrReservationValid, `lrReservationAddr, `amoOldVal
      ensures lrReservationValid == NextResvValid(e, c, i)
      ensures lrReservationAddr == if LrAnswered(c, i) then c.ex.result else c.resvAddr
      ensures amoOldVal == if AmoAnswered(c, i) then i.dRsp.value.data else c.amoOld
    {
      hide Redirect, IsAtomic, Funct5;
      if c.ex.valid && c.ex.st == MemWait && RspFire(c, i) {
        if IsAtomic(c.ex.instr) && !i.dRsp.value.err {
          if IsLr(c.ex.instr) {
            lrReservationValid := true;
            lrReservationAddr := c.ex.result;
          } else if IsAmo(c.ex.instr) {
            amoOldVal := i.dRsp.value.data;
          } else {
            lrReservationValid := false;
          }
        } else if IsSc(c.ex.instr) {
          lrReservationValid := false;
        }
      }
      if Redirect(e, c, i) { lrReservationValid := false; }
    }

    /** The EX and WB registers. */
    method ClockPipeline(e: Env, c: Core, i: In)
      requires c.csr.Valid() && ex == c.ex && wb == c.wb
      modifies `ex, `wb
      ensures wb == NextWb(e, c, i) && ex == NextEx(e, c, i)
    {
      hide Advanced, Loaded, IdFire, Redirect, Completed, ToWb;
      wb := wb.(valid := false);
      if ToWb(e, c, i) { wb := Completed(e, c, i); }
      ClockEx(e, c, i);
      if Redirect(e, c, i) { ex := ex.(valid := false, st := ExState.Exec); }
      if IdFire(e, c, i) { ex := Loaded(e, c, i.ext); }
    }

    /** The register file, the fetch stage and the CSR unit. */
    method ClockUnits(e: Env, c: Core, i: In)
      requires Valid() && c.csr.Valid() && c == View()
      modifies fetch, csr, csr.pmpcfg, csr.pmpaddr, rf.regs
      ensures csr.Valid() && rf.Valid()
      ensures rf.View() == Set(c.regs, WbWrite(c, i.ext)) && fetch.View() == F.Next(c.fe, FetchIn(e, c, i))
      ensures csr.View() == Csr.Execute(c.csr, c.counters, i.ext, WbCommand(c.wb))
      ensures csr.Counts() == Csr.NextCounters(c.csr, c.counters, CsrInput(c, i))
    {
      hide FetchIn, WbWrite, WbCommand, F.Next, Csr.Execute, Csr.NextCounters, Retires, Set, Csr.Read;
      rf.Write(WbWrite(c, i.ext));
      fetch.Clock(FetchIn(e, c, i));
      var y := CsrInput(c, i);
      csr.Clock(y, if y.cmd.Access? then Csr.Read(c.csr, c.counters, i.ext, y.cmd.a) else ZERO);
    }

    /** One clock. */
    method Clock(e: Env, i: In)
      requires Valid() && View().csr.Valid()
      modifies this, fetch, csr, csr.pmpcfg, csr.pmpaddr, rf.regs
      ensures Valid()
      ensures View() == Next(e, old(View()), i)
    {
      hide FetchIn, NextEx, NextWb, WbWrite, WbCommand, NextResvValid, LrAnswered, AmoAnswered, F.Next, Csr.Execute,
        Csr.NextCounters, CsrInput, Set;
      var c := View();
      ClockUnits(e, c, i);
      ClockAtomics(e, c, i);
      ClockPipeline(e, c, i);
    }
  }
}
