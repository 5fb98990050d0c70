/** WebAssembly programs, run one instruction at a time. */
module Wasm {
  import opened Bytes

  datatype BlockType = EmptyType | ValueType

  function Arity(ty: BlockType): nat {
    if ty.EmptyType? then 0 else 1
  }

  /** The body is a flat sequence; `Else` and `End` delimit the blocks. */
  datatype Instr =
    | Block(ty: BlockType)
    | Loop(ty: BlockType)
    | If(ty: BlockType)
    | Else
    | End
    | Br(index: nat)
    | BrIf(index: nat)
    | BrTable(indices: seq<nat>, index: nat)
    | Return
    | Unreachable
    | Call(callee: nat)
    | CallIndirect(sig: nat)
    | MemoryGrow
    | Const(value: int)
    | Tick(energy: nat)
    | Other(op: nat)

  /** An open block: its type, the height of the operand stack below it, and where a branch to it
      continues. The innermost label is last. */
  datatype Label = Label(ty: BlockType, height: nat, loop: bool, target: seq<Instr>)

  datatype State<S> = State(code: seq<Instr>, labels: seq<Label>, stack: seq<int>, store: S)

  datatype Config<S> = Running(state: State<S>) | Trapped

  /** What the instructions without control flow and the functions of the host do: they may trap.
      The store `S` is everything but code, labels and operands: memory, globals, tables and the
      local variables of all activations. */
  datatype Machine<!S> = Machine(
    other: (nat, seq<int>, S) -> Option<(seq<int>, S)>,
    call: (nat, seq<int>, S) -> Option<(seq<int>, S)>,
    grow: (int, S) -> (int, S))

  // ---------- Finding the end of a block ----------

  predicate Opens(i: Instr) {
    i.Block? || i.Loop? || i.If?
  }

  /** The code after the `End` that closes `depth + 1` blocks. */
  function AfterEnd(code: seq<Instr>, depth: nat): (r: Option<seq<Instr>>)
    ensures r.Some? ==> |r.value| < |code|
  {
    if code == [] then None
    else if Opens(code[0]) then AfterEnd(code[1..], depth + 1)
    else if code[0] != End then AfterEnd(code[1..], depth)
    else if depth == 0 then Some(code[1..])
    else AfterEnd(code[1..], depth - 1)
  }

  /** The code after the `Else` of the current `If`, where there is one. */
  function AfterElse(code: seq<Instr>, depth: nat): (r: Option<seq<Instr>>) {
    if code == [] then None
    else if Opens(code[0]) then AfterElse(code[1..], depth + 1)
    else if code[0] == Else && depth == 0 then Some(code[1..])
    else if code[0] != End then AfterElse(code[1..], depth)
    else if depth == 0 then None
    else AfterElse(code[1..], depth - 1)
  }

  // ---------- One step ----------

  function Top(stack: seq<int>): int
    requires stack != []
  {
    stack[|stack| - 1]
  }

  function Pop(stack: seq<int>): seq<int>
    requires stack != []
  {
    stack[..|stack| - 1]
  }

  function Branch<S>(s: State<S>, l: nat): Config<S> {
    if l >= |s.labels| then Trapped else
      var i := |s.labels| - 1 - l;
      var block := s.labels[i];
      var n := Arity(block.ty);
      if |s.stack| < block.height + n then Trapped
      else Running(State(block.target, s.labels[..if block.loop then i + 1 else i],
                         s.stack[..block.height] + s.stack[|s.stack| - n..], s.store))
  }

  function Continue<S>(s: State<S>, result: Option<(seq<int>, S)>): Config<S>
    requires s.code != []
  {
    match result
    case None => Trapped
    case Some((stack, store)) => Running(State(s.code[1..], s.labels, stack, store))
  }

  predicate IsCall(i: Instr) {
    i.Call? || i.CallIndirect?
  }

  /** One instruction inside a function body, which is not a call. */
  function Step<S>(m: Machine<S>, s: State<S>): Config<S>
    requires s.code != [] && !IsCall(s.code[0])
  {
    var rest := s.code[1..];
    match s.code[0]
    case Block(ty) =>
      var target := AfterEnd(rest, 0);
      if target.None? then Trapped
      else Running(s.(code := rest, labels := s.labels + [Label(ty, |s.stack|, false, target.value)]))
    case Loop(_) =>
      Running(s.(code := rest, labels := s.labels + [Label(EmptyType, |s.stack|, true, rest)]))
    case If(ty) =>
      var target := AfterEnd(rest, 0);
      var otherwise := AfterElse(rest, 0);
      if s.stack == [] || target.None? then Trapped else
        var block := Label(ty, |s.stack| - 1, false, target.value);
        if Top(s.stack) != 0 then Running(s.(code := rest, labels := s.labels + [block], stack := Pop(s.stack)))
        else if otherwise.Some? then
          Running(s.(code := otherwise.value, labels := s.labels + [block], stack := Pop(s.stack)))
        else Running(s.(code := target.value, stack := Pop(s.stack)))
    case Else =>
      if s.labels == [] || s.labels[|s.labels| - 1].loop then Trapped
      else Running(s.(code := s.labels[|s.labels| - 1].target, labels := s.labels[..|s.labels| - 1]))
    case End =>
      if s.labels == [] then Trapped else Running(s.(code := rest, labels := s.labels[..|s.labels| - 1]))
    case Br(l) => Branch(s, l)
    case BrIf(l) =>
      if s.stack == [] || l >= |s.labels| then Trapped
      else if Top(s.stack) != 0 then Branch(s.(stack := Pop(s.stack)), l)
      else Running(s.(code := rest, stack := Pop(s.stack)))
    case BrTable(ls, l) =>
      if s.stack == [] then Trapped
      else Branch(s.(stack := Pop(s.stack)), if 0 <= Top(s.stack) < |ls| then ls[Top(s.stack)] else l)
    case Return =>
      // a branch to the outermost label, which is the function itself
      if s.labels == [] then Trapped else Branch(s, |s.labels| - 1)
    case Unreachable => Trapped
    case MemoryGrow =>
      if s.stack == [] then Trapped else
        var (size, store) := m.grow(Top(s.stack), s.store);
        Running(State(rest, s.labels, Pop(s.stack) + [size], store))
    case Const(v) => Running(s.(code := rest, stack := s.stack + [v]))
    case Tick(_) => Running(s.(code := rest))
    case Other(op) => Continue(s, m.other(op, s.stack, s.store))
  }

  // ---------- Programs ----------

  /** A function of a module: the one that metering imports, which charges for memory and returns its
      argument; another one imported from the host; or a defined one.  The name of a function stays
      the same when its index changes.  `entry` is the price of its locals. */
  datatype Function =
    | AccountMemory
    | Host(name: nat)
    | Defined(name: nat, code: seq<Instr>, result: BlockType, entry: nat)

  /** Calls refer to positions in `functions`, indirect ones by way of the table `elements`.  `resolve`
      takes the position in the table off the operands and checks the type; `enter` takes the arguments
      off and makes them locals of a new activation; `leave` drops the locals of the innermost one. */
  datatype Program<!S> = Program(
    machine: Machine<S>,
    functions: seq<Function>,
    elements: seq<nat>,
    resolve: (nat, seq<int>, S) -> Option<(nat, seq<int>)>,
    enter: (nat, seq<int>, S) -> Option<(seq<int>, S)>,
    leave: S -> S)

  /** An activation that waits for a call to return. */
  datatype Caller = Caller(code: seq<Instr>, labels: seq<Label>, stack: seq<int>, result: BlockType)

  /** The innermost activation, its result type, and those that wait, innermost last. */
  datatype Thread<S> = Thread(top: State<S>, result: BlockType, callers: seq<Caller>)

  datatype Execution<S> = Active(thread: Thread<S>) | Failed

  predicate IsDefined<S>(P: Program<S>, g: nat) {
    g < |P.functions| && P.functions[g].Defined?
  }

  /** The function at a position, with the operands for it. */
  function At<S>(P: Program<S>, f: nat, operands: seq<int>): Option<(Function, seq<int>)> {
    if f < |P.functions| then Some((P.functions[f], operands)) else None
  }

  /** The function at a position of the table. */
  function InTable<S>(P: Program<S>, found: Option<(nat, seq<int>)>): Option<(Function, seq<int>)> {
    if found.Some? && found.value.0 < |P.elements| then At(P, P.elements[found.value.0], found.value.1) else None
  }

  /** The function that the next instruction calls, and the operands left for it. */
  function Callee<S>(P: Program<S>, s: State<S>): Option<(Function, seq<int>)>
    requires s.code != [] && IsCall(s.code[0])
  {
    match s.code[0]
    case Call(f) => At(P, f, s.stack)
    case CallIndirect(t) => InTable(P, P.resolve(t, s.stack, s.store))
  }

  /** A function body at its beginning: the outermost label is the function itself. */
  function Beginning<S>(f: Function, store: S): State<S>
    requires f.Defined?
  {
    State(f.code, [Label(f.result, 0, false, [])], [], store)
  }

  function Invoke<S>(P: Program<S>, x: Thread<S>, f: Function, operands: seq<int>): Execution<S>
    requires x.top.code != [] && f.Defined?
  {
    match P.enter(f.name, operands, x.top.store)
    case None => Failed
    case Some((stack, store)) =>
      var caller := Caller(x.top.code[1..], x.top.labels, stack, x.result);
      Active(Thread(Beginning(f, store), f.result, x.callers + [caller]))
  }

  function Perform<S>(P: Program<S>, x: Thread<S>, f: Function, operands: seq<int>): Execution<S>
    requires x.top.code != []
  {
    match f
    case AccountMemory =>
      if operands == [] then Failed else Active(x.(top := x.top.(code := x.top.code[1..], stack := operands)))
    case Host(name) => Place(x, Continue(x.top, P.machine.call(name, operands, x.top.store)))
    case Defined(_, _, _, _) => Invoke(P, x, f, operands)
  }

  /** The innermost activation is done: its results go to the caller. */
  function GiveBack<S>(P: Program<S>, x: Thread<S>): Execution<S>
    requires x.callers != []
  {
    var n := Arity(x.result);
    var c := x.callers[|x.callers| - 1];
    if |x.top.stack| < n then Failed
    else Active(Thread(State(c.code, c.labels, c.stack + x.top.stack[|x.top.stack| - n..], P.leave(x.top.store)),
                       c.result, x.callers[..|x.callers| - 1]))
  }

  /** An activation in its place among those that wait. */
  function Place<S>(x: Thread<S>, c: Config<S>): Execution<S> {
    match c
    case Trapped => Failed
    case Running(s) => Active(x.(top := s))
  }

  predicate Stopped<S>(c: Execution<S>) {
    c.Failed? || (c.thread.top.code == [] && c.thread.callers == [])
  }

  function Next<S>(P: Program<S>, c: Execution<S>): Execution<S> {
    if Stopped(c) then c else
      var x := c.thread;
      if x.top.code == [] then GiveBack(P, x)
      else if !IsCall(x.top.code[0]) then Place(x, Step(P.machine, x.top))
      else match Callee(P, x.top)
        case None => Failed
        case Some((f, operands)) => Perform(P, x, f, operands)
  }

  /** Equality, as a guard: a definition of the form `forall x | Is(x, n) :: P(x)` is not unfolded
      where it is only passed on. */
  ghost predicate Is<T>(a: T, b: T) {
    a == b
  }

  /** The configuration after `n` steps; one that has stopped stays. */
  function After<S>(P: Program<S>, c: Execution<S>, n: nat): Execution<S>
    decreases n
  {
    if n == 0 then c else After(P, Next(P, c), n - 1)
  }

  lemma {:induction false} AfterAfter<S>(P: Program<S>, c: Execution<S>, n: nat, k: nat)
    ensures After(P, After(P, c, n), k) == After(P, c, n + k)
    decreases n
  {
    if n > 0 {
      AfterAfter(P, Next(P, c), n - 1, k);
    }
  }

  /** A branch leaves the operands below the block, and the result of a block that has one. */
  lemma BranchLeaves<S>(s: State<S>, l: nat)
    requires l < |s.labels|
    ensures var i := |s.labels| - 1 - l;
            var block, below := s.labels[i], |s.stack| - s.labels[i].height;
            && (Branch(s, l).Trapped? <==> below < 0 || (block.ty == ValueType && below == 0))
            && (Branch(s, l).Running? ==>
                  var t := Branch(s, l).state;
                  && t.code == block.target && t.store == s.store
                  && t.labels == (if block.loop then s.labels[..i + 1] else s.labels[..i])
                  && t.stack == s.stack[..block.height] + if block.ty == ValueType then [Top(s.stack)] else [])
  {
    assert s.stack[|s.stack|..] == [];
    assert s.stack != [] ==> s.stack[|s.stack| - 1..] == [Top(s.stack)];
  }

  lemma ReturnStep<S>(m: Machine<S>, s: State<S>, f: Function)
    requires s.code != [] && s.code[0] == Return && f.Defined?
    requires s.labels != [] && s.labels[0] == Beginning(f, s.store).labels[0]
    ensures Step(m, s) == if f.result == EmptyType then Running(State([], [], [], s.store))
                          else if s.stack == [] then Trapped
                          else Running(State([], [], [Top(s.stack)], s.store))
  {
    BranchLeaves(s, |s.labels| - 1);
    assert s.labels[..0] == [];
  }

  /** A function that returns, from inside any number of blocks, resumes its caller with the operands
      that it left and the result, if there is one. */
  lemma ReturnResumes<S>(P: Program<S>, x: Thread<S>, f: Function, c: Caller)
    requires f.Defined? && x.result == f.result && x.callers != [] && x.callers[|x.callers| - 1] == c
    requires x.top.code != [] && x.top.code[0] == Return
    requires x.top.labels != [] && x.top.labels[0] == Beginning(f, x.top.store).labels[0]
    ensures var results := if f.result == EmptyType || x.top.stack == [] then [] else [Top(x.top.stack)];
            After(P, Active(x), 2) ==
              if f.result == ValueType && x.top.stack == [] then Failed
              else Active(Thread(State(c.code, c.labels, c.stack + results, P.leave(x.top.store)), c.result,
                                 x.callers[..|x.callers| - 1]))
  {
    ReturnStep(P.machine, x.top, f);
    var y := Next(P, Active(x));
    assert After(P, Active(x), 2) == After(P, y, 1) == After(P, Next(P, y), 0);
    if y.Active? {
      assert y.thread.top.stack[|y.thread.top.stack|..] == [];
      assert y.thread.top.stack[0..] == y.thread.top.stack;
    }
  }

  lemma {:induction false} StaysStopped<S>(P: Program<S>, c: Execution<S>, n: nat)
    requires Stopped(c)
    ensures After(P, c, n) == c
    decreases n
  {
    if n > 0 {
      StaysStopped(P, c, n - 1);
    }
  }
}
