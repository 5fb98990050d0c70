/** Injecting energy accounting into a function body: `inject_accounting`. */
module Metering {
  import opened Bytes
  import opened Wasm

  const ADDED_FUNCTIONS: nat := 1
  const MEMORY_ALLOC: nat := 0
  const U32: nat := 0x1_0000_0000

  /** The prices: of an instruction under the labels around it, of a taken branch by its arity, and
      of growing the memory. An instruction that refers to something missing has no price. */
  datatype Prices = Prices(cost: (Instr, seq<BlockType>) -> Option<nat>, branch: nat -> nat, alloc: int -> nat)

  function CostOf(p: Prices, i: Instr, labels: seq<BlockType>): nat {
    match p.cost(i, labels)
    case None => 0
    case Some(cost) => cost
  }

  // ---------- What the transformation produces ----------

  /** The last `n` labels dropped. */
  function Drop<T>(labels: seq<T>, n: nat): seq<T> {
    if n <= |labels| then labels[..|labels| - n] else []
  }

  /** The labels after the instruction. */
  function LabelsAfter(i: Instr, labels: seq<BlockType>): seq<BlockType> {
    match i
    case Block(ty) => labels + [ty]
    case Loop(_) => labels + [EmptyType]
    case If(ty) => labels + [ty]
    case End => Drop(labels, 1)
    case _ => labels
  }

  /** Instructions that always continue with the next one share a charge with it. */
  predicate StraightLine(i: Instr) {
    i.Block? || i.MemoryGrow? || i.Const? || i.Tick? || i.Other?
  }

  function LabelArity(labels: seq<BlockType>, l: nat): (n: nat)
    requires l < |labels|
    ensures n <= 1
  {
    Arity(labels[|labels| - 1 - l])
  }

  /** The instruction as it appears in the metered code. */
  function Emit(p: Prices, i: Instr, labels: seq<BlockType>): (r: seq<Instr>)
    ensures r != []
  {
    match i
    case MemoryGrow => [Call(MEMORY_ALLOC), MemoryGrow]
    case Call(f) => [Call(f + ADDED_FUNCTIONS)]
    case BrIf(l) =>
      if l >= |labels| then [i]
      else if LabelArity(labels, l) == 0 then [If(EmptyType), Tick(p.branch(0)), Br(l + 1), End]
      else [If(ValueType), Tick(p.branch(1)), Const(1), Else, Const(0), End, BrIf(l)]
    case _ => [i]
  }

  /** The cost of the code up to where control may first leave the straight line. */
  function Segment(p: Prices, code: seq<Instr>, labels: seq<BlockType>): nat {
    if code == [] then 0 else
      var cost := CostOf(p, code[0], labels);
      if StraightLine(code[0]) then cost + Segment(p, code[1..], LabelsAfter(code[0], labels)) else cost
  }

  function Charge(e: nat): seq<Instr> {
    if e > 0 then [Tick(e)] else []
  }

  /** The metered code, its first segment being paid for. */
  function Body(p: Prices, code: seq<Instr>, labels: seq<BlockType>): seq<Instr>
    decreases |code|, 0
  {
    if code == [] then [] else
      var after := LabelsAfter(code[0], labels);
      Emit(p, code[0], labels)
      + if StraightLine(code[0]) then Body(p, code[1..], after) else Metered(p, code[1..], after)
  }

  /** The metered code: every segment is paid for where it begins. */
  function Metered(p: Prices, code: seq<Instr>, labels: seq<BlockType>): seq<Instr>
    decreases |code|, 1
  {
    Charge(Segment(p, code, labels)) + Body(p, code, labels)
  }

  /** The metered body of a function, with `entry` charged together with its first segment. */
  function Injected(p: Prices, code: seq<Instr>, labels: seq<BlockType>, entry: nat): seq<Instr> {
    if code == [] then [] else Charge(entry + Segment(p, code, labels)) + Body(p, code, labels)
  }

  /** Nothing the code refers to is missing, and every charge fits in 32 bits. */
  predicate Fits(p: Prices, code: seq<Instr>, labels: seq<BlockType>, energy: nat) {
    if code == [] then energy < U32 else
      var i := code[0];
      && p.cost(i, labels).Some?
      && var total := energy + p.cost(i, labels).value;
         if StraightLine(i) then Fits(p, code[1..], LabelsAfter(i, labels), total)
         else total < U32 && Resolves(p, i, labels) && Fits(p, code[1..], LabelsAfter(i, labels), 0)
  }

  predicate Resolves(p: Prices, i: Instr, labels: seq<BlockType>) {
    match i
    case Else => labels != []
    case BrIf(l) => l < |labels| && p.branch(LabelArity(labels, l)) < U32
    case _ => true
  }

  /** What the output becomes once `code` is transformed too. */
  ghost function OutlookOf(p: Prices, output: seq<Instr>, labels: seq<BlockType>, energy: nat, pending: seq<Instr>,
                           code: seq<Instr>): seq<Instr>
  {
    output + (Charge(energy + Segment(p, code, labels)) + (pending + Body(p, code, labels)))
  }

  lemma EmptyLeft<T>(s: seq<T>)
    ensures [] + s == s
  {
  }

  lemma Reassociate<T>(o: seq<T>, c: seq<T>, q: seq<T>, e: seq<T>, m: seq<T>)
    ensures o + (c + q) + e + m == o + (c + (q + (e + m)))
    ensures (q + e) + m == q + (e + m)
  {
  }

  lemma OutlookStarts(p: Prices, labels: seq<BlockType>, energy: nat, code: seq<Instr>)
    requires code != []
    ensures OutlookOf(p, [], labels, energy, [], code) == Injected(p, code, labels, energy)
  {
    EmptyLeft(Body(p, code, labels));
    EmptyLeft(Charge(energy + Segment(p, code, labels)) + Body(p, code, labels));
  }

  lemma OutlookEnds(p: Prices, output: seq<Instr>, labels: seq<BlockType>, energy: nat, pending: seq<Instr>)
    ensures OutlookOf(p, output, labels, energy, pending, []) == output + (Charge(energy) + pending)
  {
    assert pending + [] == pending;
  }

  /** With `code` still to come, the run succeeds if and only if `fits`, with the output `want`. */
  ghost predicate TrackOf(p: Prices, output: seq<Instr>, labels: seq<BlockType>, energy: nat, pending: seq<Instr>,
                          code: seq<Instr>, fits: bool, want: seq<Instr>)
  {
    forall c | Is(c, code) ::
      fits == Fits(p, c, labels, energy) && want == OutlookOf(p, output, labels, energy, pending, c)
  }

  lemma Unpriced(p: Prices, output: seq<Instr>, labels: seq<BlockType>, energy: nat, pending: seq<Instr>,
                 code: seq<Instr>, fits: bool, want: seq<Instr>)
    requires code != [] && p.cost(code[0], labels).None?
    requires TrackOf(p, output, labels, energy, pending, code, fits, want)
    ensures !fits
  {
    assert Is(code, code);
  }

  lemma DelayOutlook(p: Prices, output: seq<Instr>, labels: seq<BlockType>, energy: nat, pending: seq<Instr>,
                     code: seq<Instr>)
    requires code != [] && StraightLine(code[0])
    ensures OutlookOf(p, output, labels, energy, pending, code)
         == OutlookOf(p, output, LabelsAfter(code[0], labels), energy + CostOf(p, code[0], labels),
                      pending + Emit(p, code[0], labels), code[1..])
  {
    var after := LabelsAfter(code[0], labels);
    Reassociate([], [], pending, Emit(p, code[0], labels), Body(p, code[1..], after));
  }

  lemma Delay(p: Prices, output: seq<Instr>, labels: seq<BlockType>, energy: nat, pending: seq<Instr>, code: seq<Instr>,
              fits: bool, want: seq<Instr>)
    requires code != [] && StraightLine(code[0]) && p.cost(code[0], labels).Some?
    requires TrackOf(p, output, labels, energy, pending, code, fits, want)
    ensures TrackOf(p, output, LabelsAfter(code[0], labels), energy + CostOf(p, code[0], labels),
                    pending + Emit(p, code[0], labels), code[1..], fits, want)
  {
    assert Is(code, code);
    DelayOutlook(p, output, labels, energy, pending, code);
  }

  lemma FlushOutlook(p: Prices, output: seq<Instr>, labels: seq<BlockType>, energy: nat, pending: seq<Instr>,
                     code: seq<Instr>)
    requires code != [] && !StraightLine(code[0])
    ensures OutlookOf(p, output, labels, energy, pending, code)
         == OutlookOf(p, output + (Charge(energy + CostOf(p, code[0], labels)) + pending) + Emit(p, code[0], labels),
                      LabelsAfter(code[0], labels), 0, [], code[1..])
  {
    var after := LabelsAfter(code[0], labels);
    var c, e, m := Charge(energy + CostOf(p, code[0], labels)), Emit(p, code[0], labels), Metered(p, code[1..], after);
    EmptyLeft(Body(p, code[1..], after));
    Reassociate(output, c, pending, e, m);
  }

  lemma Flush(p: Prices, output: seq<Instr>, labels: seq<BlockType>, energy: nat, pending: seq<Instr>, code: seq<Instr>,
              fits: bool, want: seq<Instr>)
    requires code != [] && !StraightLine(code[0]) && p.cost(code[0], labels).Some?
    requires TrackOf(p, output, labels, energy, pending, code, fits, want)
    ensures var i, total := code[0], energy + CostOf(p, code[0], labels);
            if total < U32 && Resolves(p, i, labels)
            then TrackOf(p, output + (Charge(total) + pending) + Emit(p, i, labels), LabelsAfter(i, labels), 0, [],
                         code[1..], fits, want)
            else !fits
  {
    assert Is(code, code);
    FlushOutlook(p, output, labels, energy, pending, code);
  }

  // ---------- The transformer ----------

  /** `InstrSeqTransformer` */
  class Transformer {
    const prices: Prices
    var labels: seq<BlockType>
    var output: seq<Instr>
    var energy: nat
    var pending: seq<Instr>

    constructor (prices: Prices, labels: seq<BlockType>, energy: nat)
      ensures this.prices == prices && this.labels == labels && this.energy == energy && output == [] && pending == []
    {
      this.prices := prices;
      this.labels := labels;
      this.energy := energy;
      output, pending := [], [];
    }

    method AccountEnergy(e: nat) returns (ok: bool)
      modifies this`output
      ensures ok == (e < U32)
      ensures output == if ok then old(output) + [Tick(e)] else old(output)
    {
      ok := e < U32;
      if ok {
        output := output + [Tick(e)];
      }
    }

    method AccountEnergyPushPending() returns (ok: bool)
      modifies this`output, this`energy, this`pending
      ensures ok == (old(energy) < U32)
      ensures ok ==> output == old(output) + (Charge(old(energy)) + old(pending)) && energy == 0 && pending == []
    {
      if energy > 0 {
        ok := AccountEnergy(energy);
        if !ok {
          return;
        }
        energy := 0;
      }
      output, pending := output + pending, [];
      ok := true;
    }

    method AddInstrAccountEnergy(i: Instr) returns (ok: bool)
      modifies this`output, this`energy, this`pending
      ensures ok == (old(energy) < U32)
      ensures ok ==> output == old(output) + (Charge(old(energy)) + old(pending)) + [i] && energy == 0 && pending == []
    {
      ok := AccountEnergyPushPending();
      if ok {
        output := output + [i];
      }
    }

    /** One iteration of `run`, after the cost of the instruction has been added. */
    method Transform(i: Instr) returns (ok: bool)
      modifies this`labels, this`output, this`energy, this`pending
      ensures StraightLine(i) ==>
                && ok && output == old(output) && energy == old(energy)
                && pending == old(pending) + Emit(prices, i, old(labels))
      ensures !StraightLine(i) ==> ok == (old(energy) < U32 && Resolves(prices, i, old(labels)))
      ensures !StraightLine(i) && ok ==>
                && output == old(output) + (Charge(old(energy)) + old(pending)) + Emit(prices, i, old(labels))
                && energy == 0 && pending == []
      ensures ok ==> labels == LabelsAfter(i, old(labels))
    {
      ok := true;
      match i {
        case Block(ty) =>
          labels := labels + [ty];
          pending := pending + [i];
        case Loop(_) =>
          ok := AddInstrAccountEnergy(i);
          labels := labels + [EmptyType];
        case If(ty) =>
          ok := AddInstrAccountEnergy(i);
          labels := labels + [ty];
        case End =>
          ok := AddInstrAccountEnergy(i);
          labels := if labels == [] then [] else labels[..|labels| - 1];
        case Else =>
          ok := AccountEnergyPushPending();
          if labels == [] {
            return false;
          }
          output := output + [i];
        case MemoryGrow =>
          pending := pending + [Call(MEMORY_ALLOC)];
          pending := pending + [i];
        case BrIf(l) =>
          ok := AccountEnergyPushPending();
          if !ok || l >= |labels| {
            return false;
          }
          ok := TransformBrIf(l, LabelArity(labels, l));
        case Call(f) => ok := AddInstrAccountEnergy(Call(f + ADDED_FUNCTIONS));
        case Return => ok := AddInstrAccountEnergy(i);
        case Unreachable => ok := AddInstrAccountEnergy(i);
        case Br(_) => ok := AddInstrAccountEnergy(i);
        case BrTable(_, _) => ok := AddInstrAccountEnergy(i);
        case CallIndirect(_) => ok := AddInstrAccountEnergy(i);
        case Const(_) => pending := pending + [i];
        case Tick(_) => pending := pending + [i];
        case Other(_) => pending := pending + [i];
      }
    }

    method TransformBrIf(l: nat, arity: nat) returns (ok: bool)
      requires l < |labels| && arity == LabelArity(labels, l)
      modifies this`output
      ensures ok == (prices.branch(arity) < U32)
      ensures ok ==> output == old(output) + Emit(prices, BrIf(l), labels)
    {
      if arity == 0 {
        output := output + [If(EmptyType)];
        ok := AccountEnergy(prices.branch(arity));
        output := output + [Br(l + 1)];
        output := output + [End];
      } else {
        output := output + [If(ValueType)];
        ok := AccountEnergy(prices.branch(arity));
        output := output + [Const(1)];
        output := output + [Else];
        output := output + [Const(0)];
        output := output + [End];
        output := output + [BrIf(l)];
      }
    }

    ghost predicate OnTrack(code: seq<Instr>, fits: bool, want: seq<Instr>)
      reads this
    {
      TrackOf(prices, output, labels, energy, pending, code, fits, want)
    }

    /** An instruction that continues with the next one waits for the charge. */
    method Postpone(i: Instr, cost: nat, ghost code: seq<Instr>, ghost fits: bool, ghost want: seq<Instr>)
      requires code != [] && code[0] == i && StraightLine(i) && prices.cost(i, labels) == Some(cost)
      requires OnTrack(code, fits, want)
      modifies this`labels, this`output, this`energy, this`pending
      ensures OnTrack(code[1..], fits, want) && pending != []
    {
      Delay(prices, output, labels, energy, pending, code, fits, want);
      energy := energy + cost;
      var ok := Transform(i);
    }

    /** Any other settles it. */
    method Settle(i: Instr, cost: nat, ghost code: seq<Instr>, ghost fits: bool, ghost want: seq<Instr>)
      returns (ok: bool)
      requires code != [] && code[0] == i && !StraightLine(i) && prices.cost(i, labels) == Some(cost)
      requires OnTrack(code, fits, want)
      modifies this`labels, this`output, this`energy, this`pending
      ensures ok ==> OnTrack(code[1..], fits, want) && energy == 0
      ensures !ok ==> !fits
    {
      Flush(prices, output, labels, energy, pending, code, fits, want);
      energy := energy + cost;
      ok := Transform(i);
    }

    /** One iteration of `run`. */
    method Process(i: Instr, ghost code: seq<Instr>, ghost fits: bool, ghost want: seq<Instr>) returns (ok: bool)
      requires code != [] && code[0] == i && OnTrack(code, fits, want)
      modifies this`labels, this`output, this`energy, this`pending
      ensures ok ==> OnTrack(code[1..], fits, want) && (pending == [] ==> energy == 0)
      ensures !ok ==> !fits
    {
      var cost := prices.cost(i, labels);
      if cost.None? {
        Unpriced(prices, output, labels, energy, pending, code, fits, want);
        return false;
      }
      if StraightLine(i) {
        Postpone(i, cost.value, code, fits, want);
        ok := true;
      } else {
        ok := Settle(i, cost.value, code, fits, want);
      }
    }

    /** The end of `run`. */
    method Finish(ghost fits: bool, ghost want: seq<Instr>) returns (ok: bool)
      requires OnTrack([], fits, want) && (pending == [] ==> energy == 0)
      modifies this`output, this`energy, this`pending
      ensures ok == fits
      ensures ok ==> output == want
    {
      OutlookEnds(prices, output, labels, energy, pending);
      assert Is<seq<Instr>>([], []);
      ok := true;
      if pending != [] {
        ok := AccountEnergyPushPending();
      }
    }

    /** The loop of `run`. */
    method ProcessAll(code: seq<Instr>, ghost fits: bool, ghost want: seq<Instr>) returns (ok: bool)
      requires OnTrack(code, fits, want) && code != []
      modifies this`labels, this`output, this`energy, this`pending
      ensures ok ==> OnTrack([], fits, want) && (pending == [] ==> energy == 0)
      ensures !ok ==> !fits
    {
      var n := 0;
      ghost var rest := code;
      while n < |code|
        invariant n <= |code| && rest == code[n..] && OnTrack(rest, fits, want)
        invariant n > 0 && pending == [] ==> energy == 0
      {
        ok := Process(code[n], rest, fits, want);
        if !ok {
          return;
        }
        n, rest := n + 1, rest[1..];
      }
      ok := true;
    }

    lemma Begin(code: seq<Instr>) returns (fits: bool, want: seq<Instr>)
      requires output == [] && pending == [] && code != []
      ensures OnTrack(code, fits, want)
      ensures fits == Fits(prices, code, labels, energy) && want == Injected(prices, code, labels, energy)
    {
      fits, want := Fits(prices, code, labels, energy), Injected(prices, code, labels, energy);
      OutlookStarts(prices, labels, energy, code);
    }

    /** `run` */
    method Run(code: seq<Instr>) returns (ok: bool)
      requires output == [] && pending == []
      modifies this`labels, this`output, this`energy, this`pending
      ensures ok <==> code == [] || Fits(prices, code, old(labels), old(energy))
      ensures ok ==> output == Injected(prices, code, old(labels), old(energy))
    {
      if code == [] {
        return true;
      }
      ghost var fits, want := Begin(code);
      ok := ProcessAll(code, fits, want);
      if ok {
        ok := Finish(fits, want);
      }
    }
  }

  /** `inject_accounting`: a function starts with the charge for its locals pending and the label
      of its result. */
  method InjectAccounting(p: Prices, code: seq<Instr>, result: BlockType, entry: nat) returns (r: Option<seq<Instr>>)
    ensures r.Some? <==> code == [] || Fits(p, code, [result], entry)
    ensures r.Some? ==> r.value == Injected(p, code, [result], entry)
  {
    var transformer := new Transformer(p, [result], entry);
    var ok := transformer.Run(code);
    r := if ok then Some(transformer.output) else None;
  }

  function MeteredFunction(p: Prices, f: Function): (r: Function) {
    match f
    case Defined(name, code, result, entry) => Defined(name, Injected(p, code, [result], entry), result, entry)
    case _ => f
  }

  /** The functions of the metered module: one more, in front. */
  function MeteredFunctions(p: Prices, fs: seq<Function>): (r: seq<Function>)
    ensures |r| == 1 + |fs| && r[0] == AccountMemory
    ensures forall i :: 0 <= i < |fs| ==> r[1 + i] == MeteredFunction(p, fs[i])
  {
    [AccountMemory] + seq(|fs|, i requires 0 <= i < |fs| => MeteredFunction(p, fs[i]))
  }

  /** The table of the metered module refers to the new positions. */
  function Shifted(elements: seq<nat>): (r: seq<nat>)
    ensures |r| == |elements| && forall i :: 0 <= i < |elements| ==> r[i] == elements[i] + ADDED_FUNCTIONS
  {
    seq(|elements|, i requires 0 <= i < |elements| => elements[i] + ADDED_FUNCTIONS)
  }

  predicate FunctionFits(p: Prices, f: Function) {
    f.Defined? && f.code != [] ==> Fits(p, f.code, [f.result], f.entry)
  }

  /** `inject_metering`: the table is shifted, every defined function is metered in turn, and the
      import that charges for memory goes to the front of the functions. */
  method InjectMetering(p: Prices, fs: seq<Function>, elements: seq<nat>)
    returns (r: Option<(seq<Function>, seq<nat>)>)
    ensures r.Some? <==> forall i :: 0 <= i < |fs| ==> FunctionFits(p, fs[i])
    ensures r.Some? ==> r.value == (MeteredFunctions(p, fs), Shifted(elements))
  {
    var table: seq<nat> := [];
    for n := 0 to |elements|
      invariant |table| == n && forall i :: 0 <= i < n ==> table[i] == elements[i] + ADDED_FUNCTIONS
    {
      table := table + [elements[n] + ADDED_FUNCTIONS];
    }
    var metered: seq<Function> := [];
    for n := 0 to |fs|
      invariant |metered| == n
      invariant forall i :: 0 <= i < n ==> FunctionFits(p, fs[i]) && metered[i] == MeteredFunction(p, fs[i])
    {
      var f := fs[n];
      if f.Defined? {
        var code := InjectAccounting(p, f.code, f.result, f.entry);
        if code.None? {
          assert !FunctionFits(p, fs[n]);
          return None;
        }
        f := f.(code := code.value);
      }
      metered := metered + [f];
    }
    assert [AccountMemory] + metered == MeteredFunctions(p, fs) && table == Shifted(elements);
    return Some(([AccountMemory] + metered, table));
  }
}
