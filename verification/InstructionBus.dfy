/** The instruction ROM and the responder for unmapped fetch addresses, behind one multiplexer. */
module InstructionBus {
  import opened Words
  import opened Fetch
  import FetchProof
  import FetchRun

  /** ROM contents, by word. */
  type Rom = WordAddr -> Word

  const UNMAPPED := Word(0xDEAD_BEEF)

  /** Bits 31..21 of the byte address are zero. */
  predicate Selected(a: WordAddr) { a.bits & 0x3FF8_0000 == 0 }

  /** The memory a core fetching over this multiplexer sees. */
  function Seen(rom: Rom): (r: IMem) {
    (a: WordAddr) => if Selected(a) then FWord(rom(a), false) else FWord(UNMAPPED, true)
  }

  /** The ROM's registers and the bad-address flag. */
  datatype Mux = Mux(pending: bool, data: Word, bad: bool)
  {
    predicate RspValid() { bad || pending }

    function Rsp(): (r: FWord) { if bad then FWord(UNMAPPED, true) else FWord(data, false) }

    /** The ROM may take a request when it is free or its answer is being taken. */
    predicate RomReady(rspReady: bool) { !pending || (rspReady && !bad) }

    predicate ReqReady(a: WordAddr, rspReady: bool) { if Selected(a) then RomReady(rspReady) else !bad }

    function Next(rom: Rom, req: Option<WordAddr>, rspReady: bool): (r: Mux) {
      var taken := req.Some? && ReqReady(req.value, rspReady);
      var toRom := taken && Selected(req.value);
      Mux(if toRom then true else if pending && rspReady && !bad then false else pending,
          if toRom then rom(req.value) else data,
          if taken && !toRom then true else if RspValid() && rspReady && bad then false else bad)
    }
  }

  /** The clocked processes of the ROM and of the bad-address flag. */
  class RomMux {
    const rom: Rom
    var pending: bool
    var data: Word
    var bad: bool

    constructor (rom: Rom)
      ensures this.rom == rom && View() == Mux(false, ZERO, false)
    {
      this.rom := rom;
      pending, data, bad := false, ZERO, false;
    }

    ghost function View(): (r: Mux)
      reads this
    {
      Mux(pending, data, bad)
    }

    method Clock(req: Option<WordAddr>, rspReady: bool)
      modifies this
      ensures View() == old(View()).Next(rom, req, rspReady)
    {
      var romReady := !pending || (rspReady && !bad);
      var reqReady := req.Some? && (if Selected(req.value) then romReady else !bad);
      var romRspTaken := pending && rspReady && !bad;
      var rspTaken := (bad || pending) && rspReady;
      if reqReady && Selected(req.value) {
        data := rom(req.value);
        pending := true;
      } else if romRspTaken {
        pending := false;
      }
      if reqReady && !Selected(req.value) {
        bad := true;
      } else if rspTaken && bad {
        bad := false;
      }
    }
  }

  // ------------------------------------------------------------------------------------------
  // Behind the fetch stage
  // ------------------------------------------------------------------------------------------

  /** The multiplexer owes the answer to exactly the request that is outstanding. */
  predicate Owes(rom: Rom, x: Mux, b: FetchProof.Bus) {
    match b
    case None => !x.pending && !x.bad
    case Some(a) => if Selected(a) then x.pending && !x.bad && x.data == rom(a) else x.bad && !x.pending
  }

  /** The fetch stage's bus inputs when it is connected to the multiplexer. */
  function Connected(f: Fe, x: Mux, i: FeIn): (r: FeIn) {
    i.(rspValid := x.RspValid(), rsp := x.Rsp(), ready := x.ReqReady(f.BusAddr(i), f.RspReady()))
  }

  function Request(f: Fe, i: FeIn): (r: Option<WordAddr>) { if f.BusReq(i) then Some(f.BusAddr(i)) else None }

  lemma ReadyIsNotRead(f: Fe, i: FeIn, j: FeIn)
    requires j == i.(ready := j.ready, rspValid := j.rspValid, rsp := j.rsp)
    ensures f.BusReq(j) == f.BusReq(i) && f.BusAddr(j) == f.BusAddr(i)
  {
    hide WordOf, NextWord;
  }

  /** Connected to the fetch stage, the multiplexer keeps the slave contract: it answers only the
      outstanding request, with the word at its address, and takes a new one only when idle or while
      the outstanding answer is being taken; and every answer comes in the clock after its request. */
  lemma MuxObeys(rom: Rom, f: Fe, x: Mux, b: FetchProof.Bus, i: FeIn)
    requires FetchProof.BusOk(f, b) && Owes(rom, x, b)
    ensures var j := Connected(f, x, i);
      && FetchProof.Obeys(Seen(rom), f, b, j)
      && (b.Some? ==> j.rspValid && f.RspReady())
      && Owes(rom, x.Next(rom, Request(f, j), f.RspReady()), FetchProof.NextBus(f, b, j))
  {
    hide WordOf, NextWord, Selected, Fe.BusReq, Fe.BusAddr, FetchProof.Live;
    ReadyIsNotRead(f, i, Connected(f, x, i));
  }

  /** Alone it would not: while a ROM answer is held back it still takes an unmapped request. It keeps
      the contract exactly when the core takes every answer at once, or asks for mapped words only. */
  lemma AloneItMayOverlap(x: Mux, a: WordAddr, rspReady: bool)
    requires x.pending && !x.bad
    ensures (x.ReqReady(a, rspReady) ==> rspReady) <==> rspReady || Selected(a)
  {
    hide Selected;
  }

  /** A run of the fetch stage connected to the multiplexer: only redirects, and what ID takes, are
      free. */
  ghost predicate Wired(rom: Rom, f: Fe, x: Mux, ys: seq<FetchRun.Cycle>)
    decreases |ys|
  {
    ys == [] ||
    (var i := ys[0].inp;
     && i == Connected(f, x, i) && ys[0].view == Seen(rom) && (i.idFire ==> f.idValid && !i.redirect)
     && Wired(rom, Next(f, i), x.Next(rom, Request(f, i), f.RspReady()), ys[1..]))
  }

  lemma {:induction false} WiredIsFair(rom: Rom, f: Fe, x: Mux, b: FetchProof.Bus, ys: seq<FetchRun.Cycle>)
    requires FetchProof.Inv(Seen(rom), f, b) && Owes(rom, x, b) && Wired(rom, f, x, ys)
    ensures FetchRun.Fair(Seen(rom), f, b, ys)
    decreases |ys|
  {
    hide FetchProof.BufOk, FetchProof.StraddleOk, FetchProof.Obeys, Next, Owes, Seen, Fe.Head, ParseAt, After,
      Connected, Mux.Next, FetchProof.NextBus, WordOf;
    if ys != [] {
      var i := ys[0].inp;
      MuxObeys(rom, f, x, b, i);
      FetchRun.ClockParses(Seen(rom), f, b, ys[0]);
      WiredIsFair(rom, Next(f, i), x.Next(rom, Request(f, i), f.RspReady()), FetchProof.NextBus(f, b, i), ys[1..]);
    }
  }

  /** From reset, over every redirect schedule, the fetch stage behind this multiplexer hands ID what
      parsing the ROM gives. */
  lemma FetchFromRom(rom: Rom, vector: Word, ys: seq<FetchRun.Cycle>)
    requires Wired(rom, Reset(vector), Mux(false, ZERO, false), ys)
    ensures FetchRun.Taken(Reset(vector), ys) == FetchRun.Parsed(Seen(rom), vector, ys)
  {
    hide Reset, FetchProof.Inv, FetchRun.Fair, Fe.Head, Wired, Seen;
    FetchRun.ResetHolds(Seen(rom), vector);
    WiredIsFair(rom, Reset(vector), Mux(false, ZERO, false), None, ys);
    FetchRun.StreamIsParsed(Seen(rom), Reset(vector), None, ys);
  }
}
