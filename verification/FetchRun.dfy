/** The fetch stage over whole runs: the stream it hands to ID, whose every answer is, and how many
    bus answers an instruction can take. */
module FetchRun {
  import opened Words
  import opened Fetch
  import opened FetchProof

  /** One clock: the inputs, and the memory view that holds after a redirect (the privilege, and
      with it what may be executed, can change there). */
  datatype Cycle = Cycle(inp: FeIn, view: IMem)

  function ViewAfter(m: IMem, y: Cycle): (r: IMem) { if y.inp.redirect then y.view else m }

  /** The slave keeps its contract, and ID takes only what is there, in every clock of the run. */
  ghost predicate Fair(m: IMem, f: Fe, b: Bus, ys: seq<Cycle>)
    decreases |ys|
  {
    ys == [] ||
    (var i := ys[0].inp;
     && Obeys(m, f, b, i) && (i.idFire ==> f.idValid && !i.redirect)
     && Fair(ViewAfter(m, ys[0]), Next(f, i), NextBus(f, b, i), ys[1..]))
  }

  function FeAfter(f: Fe, ys: seq<Cycle>): (r: Fe)
    decreases |ys|
  {
    if ys == [] then f else FeAfter(Next(f, ys[0].inp), ys[1..])
  }

  function BusAfter(f: Fe, b: Bus, ys: seq<Cycle>): (r: Bus)
    decreases |ys|
  {
    if ys == [] then b else BusAfter(Next(f, ys[0].inp), NextBus(f, b, ys[0].inp), ys[1..])
  }

  function ViewAtEnd(m: IMem, ys: seq<Cycle>): (r: IMem)
    decreases |ys|
  {
    if ys == [] then m else ViewAtEnd(ViewAfter(m, ys[0]), ys[1..])
  }

  /** What ID takes in a run. */
  function Taken(f: Fe, ys: seq<Cycle>): (r: seq<Item>)
    decreases |ys|
  {
    if ys == [] then []
    else (if ys[0].inp.idFire then [f.id] else []) + Taken(Next(f, ys[0].inp), ys[1..])
  }

  /** The reference: parse at the pc, go on after each instruction taken, restart at each target. */
  function Parsed(m: IMem, pc: Word, ys: seq<Cycle>): (r: seq<Item>)
    decreases |ys|
  {
    if ys == [] then []
    else
      var i := ys[0].inp;
      if i.redirect then Parsed(ys[0].view, i.target, ys[1..])
      else if i.idFire then [ParseAt(m, pc)] + Parsed(m, After(ParseAt(m, pc)), ys[1..])
      else Parsed(m, pc, ys[1..])
  }

  lemma ClockParses(m: IMem, f: Fe, b: Bus, y: Cycle)
    requires Inv(m, f, b) && Obeys(m, f, b, y.inp) && (y.inp.idFire ==> f.idValid && !y.inp.redirect)
    ensures Inv(ViewAfter(m, y), Next(f, y.inp), NextBus(f, b, y.inp))
    ensures Next(f, y.inp).Head()
         == if y.inp.redirect then y.inp.target else if y.inp.idFire then After(ParseAt(m, f.Head())) else f.Head()
    ensures y.inp.idFire ==> f.id == ParseAt(m, f.Head())
  {
    hide Next, NextBus, Obeys, BufOk, BusOk, StraddleOk, ParseAt, After, WordOf, Quiet;
    if y.inp.redirect { RedirectStep(m, f, b, y.inp, y.view); } else { RunningStep(m, f, b, y.inp); }
  }

  /** For every redirect schedule and every bus latency, ID is handed exactly what parsing halfwords
      one instruction at a time gives: nothing lost, repeated or overwritten. */
  lemma {:induction false} StreamIsParsed(m: IMem, f: Fe, b: Bus, ys: seq<Cycle>)
    requires Inv(m, f, b) && Fair(m, f, b, ys)
    ensures Taken(f, ys) == Parsed(m, f.Head(), ys)
    ensures Inv(ViewAtEnd(m, ys), FeAfter(f, ys), BusAfter(f, b, ys))
    decreases |ys|
  {
    hide Inv, Obeys, Next, NextBus, ParseAt, After, Fe.Head;
    if ys != [] {
      ClockParses(m, f, b, ys[0]);
      StreamIsParsed(ViewAfter(m, ys[0]), Next(f, ys[0].inp), NextBus(f, b, ys[0].inp), ys[1..]);
    }
  }

  predicate NoRedirect(ys: seq<Cycle>) { forall k :: 0 <= k < |ys| ==> !ys[k].inp.redirect }

  /** Without a redirect the reference is the plain instruction stream. */
  lemma {:induction false} ParsedIsStream(m: IMem, pc: Word, ys: seq<Cycle>)
    requires NoRedirect(ys)
    ensures Parsed(m, pc, ys) == ParseStream(m, pc, |Parsed(m, pc, ys)|)
    decreases |ys|
  {
    hide ParseAt, After;
    if ys != [] {
      var next := if ys[0].inp.idFire then After(ParseAt(m, pc)) else pc;
      ParsedIsStream(m, next, ys[1..]);
    }
  }

  lemma ResetHolds(m: IMem, vector: Word)
    ensures Inv(m, Reset(vector), None) && Reset(vector).Head() == vector
  {
    hide WordOf, ParseAt, After;
  }

  /** From reset to the first redirect, ID gets the instruction stream at the reset vector. */
  lemma StreamFromReset(m: IMem, vector: Word, ys: seq<Cycle>)
    requires Fair(m, Reset(vector), None, ys) && NoRedirect(ys)
    ensures Taken(Reset(vector), ys) == ParseStream(m, vector, |Taken(Reset(vector), ys)|)
  {
    hide Reset, Inv, Fair, Fe.Head;
    ResetHolds(m, vector);
    StreamIsParsed(m, Reset(vector), None, ys);
    ParsedIsStream(m, vector, ys);
  }

  // ------------------------------------------------------------------------------------------
  // Whose answer
  // ------------------------------------------------------------------------------------------

  /** At most one of demand and prefetch is outstanding, and an answer goes to the one that asked:
      a demand answer was requested at the word it is checked and stored for, and so was a prefetch. */
  lemma AnswersAreCredited(f: Fe, b: Bus, i: FeIn)
    requires BusInv(f, b) && Handshakes(f, b, i)
    ensures !(f.Waiting() && f.pfInflight)
    ensures i.rspValid ==> b.Some? && f.IfRsp(i) != f.PfRsp(i) && b.value == f.PmpWord()
    ensures f.PfRsp(i) ==> b.value == f.pfWa
    ensures b.Some? && !i.rspValid ==> NextBus(f, b, i) == b
  {
    hide BufOk, StraddleOk, ParseAt, After, NextWord, WordOf;
  }

  // ------------------------------------------------------------------------------------------
  // Progress
  // ------------------------------------------------------------------------------------------

  /** Answers still needed once the pc's word is being fetched: the word may start a straddling
      instruction, and a prefetch of the second word may be accepted first. */
  function Needed(f: Fe): (r: nat) { if f.TargetResident() then 2 else 3 }

  /** How many bus answers the next instruction can still take. */
  function Rank(f: Fe): (r: nat)
    ensures 1 <= r <= 4
  {
    match f.st
    case SecondWait => if f.discard then 4 else 1
    case SecondReq => if f.pfInflight then 2 else 1
    case Wait => if f.discard then 4 else Needed(f)
    case Req =>
      if f.BufHit() then (if f.pfInflight || !f.TargetResident() then 2 else 1)
      else if !f.pfInflight then Needed(f)
      else if f.pfWa == f.PfTarget() && !f.pfDiscard then 3
      else 4
  }

  /** This clock brings an answer. */
  predicate Brings(i: FeIn) { i.rspValid }

  ghost predicate Idle(m: IMem, f: Fe, b: Bus, i: FeIn) {
    Inv(m, f, b) && Obeys(m, f, b, i) && !i.redirect && !i.idFire && !f.idValid
  }

  lemma ProgressReq(m: IMem, f: Fe, b: Bus, i: FeIn)
    requires Idle(m, f, b, i) && f.st == Req
    ensures Next(f, i).idValid || Rank(Next(f, i)) + (if Brings(i) then 1 else 0) <= Rank(f)
  {
    hide WordOf, IsUpper, HalfOf, Zext, Join, IsShort, Plus, NextWord, ParseAt, After, BufOk, StraddleOk;
  }

  lemma ProgressWait(m: IMem, f: Fe, b: Bus, i: FeIn)
    requires Idle(m, f, b, i) && f.st == Wait
    ensures Next(f, i).idValid || Rank(Next(f, i)) + (if Brings(i) then 1 else 0) <= Rank(f)
  {
    hide WordOf, IsUpper, HalfOf, Zext, Join, IsShort, Plus, NextWord, ParseAt, After, BufOk, StraddleOk;
  }

  lemma ProgressSecond(m: IMem, f: Fe, b: Bus, i: FeIn)
    requires Idle(m, f, b, i) && (f.st == SecondReq || f.st == SecondWait)
    ensures Next(f, i).idValid || Rank(Next(f, i)) + (if Brings(i) then 1 else 0) <= Rank(f)
  {
    hide WordOf, IsUpper, HalfOf, Zext, Join, IsShort, Plus, NextWord, ParseAt, After, BufOk, StraddleOk;
  }

  /** Each answer brings the next instruction closer, and no clock takes it further away. */
  lemma Progress(m: IMem, f: Fe, b: Bus, i: FeIn)
    requires Idle(m, f, b, i)
    ensures Next(f, i).idValid || Rank(Next(f, i)) + (if Brings(i) then 1 else 0) <= Rank(f)
  {
    hide *;
    match f.st {
      case Req => ProgressReq(m, f, b, i);
      case Wait => ProgressWait(m, f, b, i);
      case _ => ProgressSecond(m, f, b, i);
    }
  }

  /** With nothing outstanding the front end asks for a word or serves a buffered one. */
  lemma NeverStuck(m: IMem, f: Fe, b: Bus, i: FeIn)
    requires Idle(m, f, b, i) && b.None?
    ensures f.BusReq(i) || f.ServeBuf(i)
  {
    hide BufOk, StraddleOk, ParseAt, After, NextWord, WordOf;
  }

  function Answers(ys: seq<Cycle>): (r: nat)
    decreases |ys|
  {
    if ys == [] then 0 else (if Brings(ys[0].inp) then 1 else 0) + Answers(ys[1..])
  }

  /** Without redirects an instruction reaches ID after at most Rank, that is four, answers. */
  lemma {:induction false} EmitsWithinFour(m: IMem, f: Fe, b: Bus, ys: seq<Cycle>) returns (k: nat)
    requires Inv(m, f, b) && Fair(m, f, b, ys) && NoRedirect(ys) && Answers(ys) >= Rank(f)
    ensures k <= |ys| && FeAfter(f, ys[..k]).idValid && Answers(ys[..k]) <= Rank(f)
    decreases |ys|
  {
    hide Inv, Obeys, Next, NextBus, ParseAt, Fetch.After, Fe.Head, Rank;
    if f.idValid {
      k := 0;
    } else {
      var n := Next(f, ys[0].inp);
      ClockParses(m, f, b, ys[0]);
      MakeIdle(m, f, b, ys[0].inp);
      Progress(m, f, b, ys[0].inp);
      if n.idValid {
        k := 1;
        assert ys[..1][1..] == [];
      } else {
        var rest := EmitsWithinFour(m, n, NextBus(f, b, ys[0].inp), ys[1..]);
        k := rest + 1;
        assert ys[..k][1..] == ys[1..][..rest];
      }
    }
  }

  lemma MakeIdle(m: IMem, f: Fe, b: Bus, i: FeIn)
    requires Inv(m, f, b) && Obeys(m, f, b, i) && !i.redirect && (i.idFire ==> f.idValid) && !f.idValid
    ensures Idle(m, f, b, i)
  {
    hide Inv, Obeys;
  }
}
