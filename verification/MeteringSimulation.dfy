/** Running the metered code beside the original. */
module MeteringSimulation {
  import opened Bytes
  import opened Wasm
  import opened Metering
  import opened MeteringProofs

  function Types(labels: seq<Label>): (ts: seq<BlockType>)
    ensures |ts| == |labels| && forall i :: 0 <= i < |ts| ==> ts[i] == labels[i].ty
  {
    seq(|labels|, i requires 0 <= i < |labels| => labels[i].ty)
  }

  lemma TypesOf(labels: seq<Label>, last: Label)
    ensures Types(labels + [last]) == Types(labels) + [last.ty]
    ensures forall n :: 0 <= n <= |labels| ==> Types(labels[..n]) == Types(labels)[..n]
  {
  }

  // ---------- What is owed and what is charged ----------

  /** The price of one step of the original: of the instruction, of the branch where a conditional
      one is taken, and of the memory asked for. */
  function Work<S>(p: Prices, s: State<S>): nat
    requires s.code != []
  {
    CostOf(p, s.code[0], Types(s.labels)) +
    match s.code[0] {
      case BrIf(l) =>
        if s.stack != [] && Top(s.stack) != 0 && l < |s.labels| then p.branch(LabelArity(Types(s.labels), l)) else 0
      case MemoryGrow => if s.stack != [] then p.alloc(Top(s.stack)) else 0
      case Tick(e) => e
      case _ => 0
    }
  }

  /** What one step of the metered code charges, inside a function. */
  function Charged<S>(p: Prices, t: State<S>): nat
    requires t.code != []
  {
    if t.code[0].Tick? then t.code[0].energy else 0
  }

  /** What a call adds to the work: the locals of the function, unless its body is empty. */
  function EntryOf(f: Function): nat {
    if f.Defined? && f.code != [] then f.entry else 0
  }

  /** What a call of the function that charges for memory charges. */
  function MemoryCharge(p: Prices, f: Function, operands: seq<int>): nat {
    if f.AccountMemory? && operands != [] then p.alloc(Top(operands)) else 0
  }

  /** The price of one step of a program: a call also pays for entering the function. */
  function ProgramWork<S>(p: Prices, P: Program<S>, x: Thread<S>): nat {
    if x.top.code == [] then 0
    else if !IsCall(x.top.code[0]) then Work(p, x.top)
    else CostOf(p, x.top.code[0], Types(x.top.labels)) + CallWork(p, P, x)
  }

  function CallWork<S>(p: Prices, P: Program<S>, x: Thread<S>): nat
    requires x.top.code != [] && IsCall(x.top.code[0])
  {
    match Callee(P, x.top)
    case None => 0
    case Some((f, operands)) =>
      if Perform(P, x, f, operands).Failed? then 0 else EntryOf(f) + MemoryCharge(p, f, operands)
  }

  function ProgramCharged<S>(p: Prices, P: Program<S>, x: Thread<S>): nat {
    if x.top.code == [] then 0
    else if !IsCall(x.top.code[0]) then Charged(p, x.top)
    else match Callee(P, x.top)
      case None => 0
      case Some((f, operands)) => MemoryCharge(p, f, operands)
  }

  function TotalWork<S>(p: Prices, P: Program<S>, c: Execution<S>, n: nat): nat
    decreases n
  {
    if n == 0 then 0
    else (if Stopped(c) then 0 else ProgramWork(p, P, c.thread)) + TotalWork(p, P, Next(P, c), n - 1)
  }

  function StepCharge<S>(p: Prices, P: Program<S>, c: Execution<S>): nat {
    if Stopped(c) then 0 else ProgramCharged(p, P, c.thread)
  }

  function TotalCharge<S>(p: Prices, P: Program<S>, c: Execution<S>, n: nat): nat
    decreases n
  {
    if n == 0 then 0 else StepCharge(p, P, c) + TotalCharge(p, P, Next(P, c), n - 1)
  }

  lemma {:induction false} NoMoreCharges<S(!new)>(p: Prices, P: Program<S>, c: Execution<S>, n: nat)
    requires Stopped(c)
    ensures TotalCharge(p, P, c, n) == 0
    decreases n
  {
    if n > 0 {
      NoMoreCharges(p, P, c, n - 1);
    }
  }

  /** The program with all its functions metered, and one more in front. */
  function MeteredProgram<S>(p: Prices, P: Program<S>): Program<S> {
    P.(functions := MeteredFunctions(p, P.functions), elements := Shifted(P.elements))
  }

  /** The metered program gets from `c` to `d` in `k` steps that charge `e`. */
  ghost predicate Reaches<S>(p: Prices, P: Program<S>, c: Execution<S>, d: Execution<S>, k: nat, e: nat) {
    forall n: nat | Is(n, k) ::
      && After(MeteredProgram(p, P), c, n) == d
      && TotalCharge(p, MeteredProgram(p, P), c, n) == e
  }

  lemma ReachesHere<S(!new)>(p: Prices, P: Program<S>, c: Execution<S>)
    ensures Reaches(p, P, c, c, 0, 0)
  {
  }

  lemma ReachesStep<S(!new)>(p: Prices, P: Program<S>, x: Thread<S>)
    requires !Stopped(Active(x))
    ensures var M := MeteredProgram(p, P);
            Reaches(p, P, Active(x), Next(M, Active(x)), 1, ProgramCharged(p, M, x))
  {
    var M, c := MeteredProgram(p, P), Active(x);
    assert After(M, c, 1) == After(M, Next(M, c), 0);
  }

  /** Sums along any repeated step add up. */
  lemma {:induction false} SumsAdd<T(!new)>(next: T -> T, weight: T -> nat,
                                            after: (T, nat) -> T, total: (T, nat) -> nat, c: T, k: nat, j: nat)
    requires forall x :: after(x, 0) == x && total(x, 0) == 0
    requires forall x, n: nat :: after(x, n + 1) == after(next(x), n)
    requires forall x, n: nat :: total(x, n + 1) == weight(x) + total(next(x), n)
    ensures total(c, k + j) == total(c, k) + total(after(c, k), j)
    decreases k
  {
    if k > 0 {
      SumsAdd(next, weight, after, total, next(c), k - 1, j);
      assert total(c, k - 1 + j + 1) == weight(c) + total(next(c), k - 1 + j);
      assert total(c, k - 1 + 1) == weight(c) + total(next(c), k - 1);
      assert after(c, k - 1 + 1) == after(next(c), k - 1);
    }
  }

  lemma AfterUnfolds<S(!new)>(M: Program<S>, next: Execution<S> -> Execution<S>,
                              after: (Execution<S>, nat) -> Execution<S>)
    requires forall x :: next(x) == Next(M, x)
    requires forall x, n :: after(x, n) == After(M, x, n)
    ensures forall x :: after(x, 0) == x
    ensures forall x, n: nat :: after(x, n + 1) == after(next(x), n)
  {
  }

  lemma TotalUnfolds<S(!new)>(p: Prices, M: Program<S>, next: Execution<S> -> Execution<S>,
                              weight: Execution<S> -> nat, total: (Execution<S>, nat) -> nat)
    requires forall x :: next(x) == Next(M, x) && weight(x) == StepCharge(p, M, x)
    requires forall x, n :: total(x, n) == TotalCharge(p, M, x, n)
    ensures forall x :: total(x, 0) == 0
    ensures forall x, n: nat :: total(x, n + 1) == weight(x) + total(next(x), n)
  {
  }

  lemma ChargesAddFor<S(!new)>(p: Prices, M: Program<S>, c: Execution<S>, k: nat, j: nat,
                               next: Execution<S> -> Execution<S>, weight: Execution<S> -> nat,
                               after: (Execution<S>, nat) -> Execution<S>, total: (Execution<S>, nat) -> nat)
    requires forall x :: next(x) == Next(M, x) && weight(x) == StepCharge(p, M, x)
    requires forall x, n :: after(x, n) == After(M, x, n)
    requires forall x, n :: total(x, n) == TotalCharge(p, M, x, n)
    ensures total(c, k + j) == total(c, k) + total(after(c, k), j)
  {
    AfterUnfolds(M, next, after);
    TotalUnfolds(p, M, next, weight, total);
    SumsAdd(next, weight, after, total, c, k, j);
  }

  lemma {:induction false} ChargesAdd<S(!new)>(p: Prices, M: Program<S>, c: Execution<S>, k: nat, j: nat)
    ensures TotalCharge(p, M, c, k + j)
         == TotalCharge(p, M, c, k) + TotalCharge(p, M, After(M, c, k), j)
  {
    ChargesAddFor(p, M, c, k, j, (x: Execution<S>) => Next(M, x),
                  (x: Execution<S>) => StepCharge(p, M, x),
                  (x: Execution<S>, n: nat) => After(M, x, n),
                  (x: Execution<S>, n: nat) => TotalCharge(p, M, x, n));
  }

  lemma ReachesThen<S(!new)>(p: Prices, P: Program<S>, c: Execution<S>, d: Execution<S>, k: nat, e: nat,
                       f: Execution<S>, j: nat, g: nat)
    requires Reaches(p, P, c, d, k, e) && Reaches(p, P, d, f, j, g)
    ensures Reaches(p, P, c, f, k + j, e + g)
  {
    assert Is(k, k) && Is(j, j);
    AfterAfter(MeteredProgram(p, P), c, k, j);
    ChargesAdd(p, MeteredProgram(p, P), c, k, j);
  }

  // ---------- Inside one function ----------

  /** Where a function body runs: the program, and the activations around it. */
  datatype World<!S> = World(program: Program<S>, around: Thread<S>) {
    function Machine(): Machine<S> {
      program.machine
    }
  }

  /** The metered body gets from `c` to `d` without leaving the function. */
  ghost predicate Runs<S>(p: Prices, w: World<S>, c: Config<S>, d: Config<S>, k: nat, e: nat) {
    Reaches(p, w.program, Place(w.around, c), Place(w.around, d), k, e)
  }

  lemma RunsHere<S(!new)>(p: Prices, w: World<S>, c: Config<S>)
    ensures Runs(p, w, c, c, 0, 0)
  {
    ReachesHere(p, w.program, Place(w.around, c));
  }

  /** One instruction that is not a call. */
  lemma RunsNext<S(!new)>(p: Prices, w: World<S>, t: State<S>)
    requires t.code != [] && !IsCall(t.code[0])
    ensures Runs(p, w, Running(t), Step(w.Machine(), t), 1, Charged(p, t))
  {
    ReachesStep(p, w.program, w.around.(top := t));
  }

  /** The call that charges for memory reaches the function that was put in front. */
  lemma RunsMemoryAlloc<S(!new)>(p: Prices, w: World<S>, t: State<S>)
    requires t.code != [] && t.code[0] == Call(MEMORY_ALLOC)
    ensures t.stack == [] ==> Runs(p, w, Running(t), Trapped, 1, 0)
    ensures t.stack != [] ==> Runs(p, w, Running(t), Running(t.(code := t.code[1..])), 1, p.alloc(Top(t.stack)))
  {
    var M := MeteredProgram(p, w.program);
    assert Callee(M, t) == Some((AccountMemory, t.stack));
    ReachesStep(p, w.program, w.around.(top := t));
    assert t.(code := t.code[1..], stack := t.stack) == t.(code := t.code[1..]);
  }

  lemma RunsThen<S(!new)>(p: Prices, w: World<S>, c: Config<S>, d: Config<S>, k: nat, e: nat,
                          f: Config<S>, j: nat, g: nat)
    requires Runs(p, w, c, d, k, e) && Runs(p, w, d, f, j, g)
    ensures Runs(p, w, c, f, k + j, e + g)
  {
    ReachesThen(p, w.program, Place(w.around, c), Place(w.around, d), k, e, Place(w.around, f), j, g);
  }

  // ---------- The relation ----------

  /** The open blocks correspond: a branch leads to the metered form of where it led. */
  ghost predicate SameLabels(p: Prices, ss: seq<Label>, ts: seq<Label>) {
    && |ss| == |ts|
    && forall i :: 0 <= i < |ss| ==> Corresponds(p, ss, i, ts[i])
  }

  predicate Corresponds(p: Prices, ss: seq<Label>, i: nat, t: Label)
    requires i < |ss|
  {
    t == ss[i].(target := Metered(p, ss[i].target, Types(ss)[..if ss[i].loop then i + 1 else i]))
  }

  ghost predicate Agree<S>(p: Prices, s: State<S>, t: State<S>) {
    t.stack == s.stack && t.store == s.store && SameLabels(p, s.labels, t.labels)
  }

  /** Between two instructions of a segment that is paid for. */
  ghost predicate Related<S>(p: Prices, s: State<S>, t: State<S>) {
    var related := Agree(p, s, t) && t.code == Body(p, s.code, Types(s.labels));
    related
  }

  /** Where a segment begins. */
  ghost predicate Arrived<S>(p: Prices, s: State<S>, t: State<S>) {
    var arrived := Agree(p, s, t) && t.code == Metered(p, s.code, Types(s.labels));
    arrived
  }

  ghost predicate BothArrive<S>(p: Prices, c: Config<S>, d: Config<S>) {
    match c
    case Trapped => d.Trapped?
    case Running(s) => d.Running? && Arrived(p, s, d.state)
  }

  /** Paying for the segment. */
  lemma Enter<S(!new)>(p: Prices, w: World<S>, s: State<S>, t: State<S>) returns (k: nat, t': State<S>)
    requires Arrived(p, s, t)
    ensures Related(p, s, t')
    ensures Runs(p, w, Running(t), Running(t'), k, Segment(p, s.code, Types(s.labels)))
  {
    var e, body := Segment(p, s.code, Types(s.labels)), Body(p, s.code, Types(s.labels));
    if e > 0 {
      assert t.code[0] == Tick(e) && t.code[1..] == body;
      k, t' := 1, t.(code := body);
      RunsNext(p, w, t);
    } else {
      assert t.code == body;
      k, t' := 0, t;
      RunsHere(p, w, Running(t));
    }
  }

  lemma PushLabel(p: Prices, ss: seq<Label>, ts: seq<Label>, s: Label, t: Label)
    requires SameLabels(p, ss, ts) && Corresponds(p, ss + [s], |ss|, t)
    ensures SameLabels(p, ss + [s], ts + [t])
  {
    TypesOf(ss, s);
    forall i | 0 <= i < |ss| ensures Corresponds(p, ss + [s], i, (ts + [t])[i]) {
      assert Corresponds(p, ss, i, ts[i]);
      var n := if ss[i].loop then i + 1 else i;
      assert Types(ss + [s])[..n] == Types(ss)[..n];
    }
  }

  lemma KeepLabels(p: Prices, ss: seq<Label>, ts: seq<Label>, n: nat)
    requires SameLabels(p, ss, ts) && n <= |ss|
    ensures SameLabels(p, ss[..n], ts[..n])
  {
    forall i | 0 <= i < n ensures Corresponds(p, ss[..n], i, ts[..n][i]) {
      assert Corresponds(p, ss, i, ts[i]);
      var k := if ss[i].loop then i + 1 else i;
      assert Types(ss[..n])[..k] == Types(ss)[..k];
    }
  }

  /** Where a branch to label `i` leads. */
  lemma {:induction false} TargetsAgree(p: Prices, ss: seq<Label>, ts: seq<Label>, i: nat)
    requires SameLabels(p, ss, ts) && i < |ss|
    ensures ts[i].ty == ss[i].ty && ts[i].height == ss[i].height && ts[i].loop == ss[i].loop
    ensures var n := if ss[i].loop then i + 1 else i;
            SameLabels(p, ss[..n], ts[..n]) && ts[i].target == Metered(p, ss[i].target, Types(ss[..n]))
  {
    assert Corresponds(p, ss, i, ts[i]);
    var n := if ss[i].loop then i + 1 else i;
    KeepLabels(p, ss, ts, n);
    assert Types(ss[..n]) == Types(ss)[..n];
  }

  lemma BranchesAgree<S(!new)>(p: Prices, s: State<S>, t: State<S>, l: nat)
    requires Agree(p, s, t)
    ensures BothArrive(p, Branch(s, l), Branch(t, l))
  {
    if l < |s.labels| {
      TargetsAgree(p, s.labels, t.labels, |s.labels| - 1 - l);
    }
  }

  // ---------- Instructions that appear once in the metered code ----------

  ghost predicate BothContinue<S>(p: Prices, c: Config<S>, d: Config<S>) {
    match c
    case Trapped => d.Trapped?
    case Running(s) => d.Running? && Related(p, s, d.state)
  }

  lemma SameEmission<S(!new)>(p: Prices, s: State<S>, t: State<S>, j: Instr)
    requires Related(p, s, t) && s.code != [] && Emit(p, s.code[0], Types(s.labels)) == [j]
    ensures t.code != [] && t.code[0] == j
    ensures t.code[1..] == Follow(p, s.code[0], s.code[1..], Types(s.labels))
  {
    BodyUnfolds(p, s.code, Types(s.labels));
    First(j, Follow(p, s.code[0], s.code[1..], Types(s.labels)));
  }

  /** What follows an opening instruction closes where the original does. */
  lemma {:induction false} OpenedBlock(p: Prices, i: Instr, rest: seq<Instr>, types: seq<BlockType>)
    requires Opens(i)
    ensures var follow := Follow(p, i, rest, types);
            && AfterEnd(follow, 0) == Map(p, AfterEnd(rest, 0), types)
            && AfterElse(follow, 0) == Map(p, AfterElse(rest, 0), LabelsAfter(i, types))
  {
    var after := LabelsAfter(i, types);
    SkipFollow(p, i, rest, types, 0);
    EndsCorrespond(p, rest, after, 0);
    ElsesCorrespond(p, rest, after, 0);
    DropAfter(i, types, 0);
    assert Drop(after, 0) == after && Drop(types, 0) == types;
  }

  lemma {:induction false} Opened(p: Prices, ss: seq<Label>, ts: seq<Label>, ty: BlockType, height: nat,
                                  target: seq<Instr>)
    requires SameLabels(p, ss, ts)
    ensures SameLabels(p, ss + [Label(ty, height, false, target)],
                       ts + [Label(ty, height, false, Metered(p, target, Types(ss)))])
    ensures Types(ss + [Label(ty, height, false, target)]) == Types(ss) + [ty]
  {
    var s, t := Label(ty, height, false, target), Label(ty, height, false, Metered(p, target, Types(ss)));
    TypesOf(ss, s);
    assert Types(ss + [s])[..|ss|] == Types(ss);
    PushLabel(p, ss, ts, s, t);
  }

  lemma SimulateBlock<S(!new)>(p: Prices, w: World<S>, s: State<S>, t: State<S>)
    requires Related(p, s, t) && s.code != [] && s.code[0].Block?
    ensures t.code != [] && BothContinue(p, Step(w.Machine(), s), Step(w.Machine(), t))
    ensures Charged(p, t) == 0
  {
    var i, rest, types := s.code[0], s.code[1..], Types(s.labels);
    SameEmission(p, s, t, i);
    OpenedBlock(p, i, rest, types);
    var target := AfterEnd(rest, 0);
    if target.Some? {
      Opened(p, s.labels, t.labels, i.ty, |s.stack|, target.value);
    }
  }

  lemma SimulateLoop<S(!new)>(p: Prices, w: World<S>, s: State<S>, t: State<S>)
    requires Related(p, s, t) && s.code != [] && s.code[0].Loop?
    ensures t.code != [] && BothArrive(p, Step(w.Machine(), s), Step(w.Machine(), t))
    ensures Charged(p, t) == 0
  {
    var i, rest, types := s.code[0], s.code[1..], Types(s.labels);
    SameEmission(p, s, t, i);
    var a := Label(EmptyType, |s.stack|, true, rest);
    var b := Label(EmptyType, |s.stack|, true, Metered(p, rest, types + [EmptyType]));
    TypesOf(s.labels, a);
    assert Types(s.labels + [a])[..|s.labels| + 1] == types + [EmptyType];
    PushLabel(p, s.labels, t.labels, a, b);
  }

  lemma SimulateIf<S(!new)>(p: Prices, w: World<S>, s: State<S>, t: State<S>)
    requires Related(p, s, t) && s.code != [] && s.code[0].If?
    ensures t.code != [] && BothArrive(p, Step(w.Machine(), s), Step(w.Machine(), t))
    ensures Charged(p, t) == 0
  {
    var i, rest, types := s.code[0], s.code[1..], Types(s.labels);
    SameEmission(p, s, t, i);
    OpenedBlock(p, i, rest, types);
    var target := AfterEnd(rest, 0);
    if target.Some? && s.stack != [] {
      Opened(p, s.labels, t.labels, i.ty, |s.stack| - 1, target.value);
    }
  }

  lemma SimulateElse<S(!new)>(p: Prices, w: World<S>, s: State<S>, t: State<S>)
    requires Related(p, s, t) && s.code != [] && s.code[0].Else?
    ensures t.code != [] && BothArrive(p, Step(w.Machine(), s), Step(w.Machine(), t))
    ensures Charged(p, t) == 0
  {
    SameEmission(p, s, t, Else);
    if s.labels != [] {
      var n := |s.labels| - 1;
      assert Corresponds(p, s.labels, n, t.labels[n]);
      KeepLabels(p, s.labels, t.labels, n);
      assert Types(s.labels[..n]) == Types(s.labels)[..n];
    }
  }

  lemma SimulateEnd<S(!new)>(p: Prices, w: World<S>, s: State<S>, t: State<S>)
    requires Related(p, s, t) && s.code != [] && s.code[0].End?
    ensures t.code != [] && BothArrive(p, Step(w.Machine(), s), Step(w.Machine(), t))
    ensures Charged(p, t) == 0
  {
    SameEmission(p, s, t, End);
    if s.labels != [] {
      var n := |s.labels| - 1;
      KeepLabels(p, s.labels, t.labels, n);
      assert Types(s.labels[..n]) == Types(s.labels)[..n] == Drop(Types(s.labels), 1);
    }
  }

  lemma SimulateBranch<S(!new)>(p: Prices, w: World<S>, s: State<S>, t: State<S>)
    requires Related(p, s, t) && s.code != [] && (s.code[0].Br? || s.code[0].BrTable?)
    ensures t.code != [] && BothArrive(p, Step(w.Machine(), s), Step(w.Machine(), t))
    ensures Charged(p, t) == 0
  {
    var i := s.code[0];
    SameEmission(p, s, t, i);
    if i.Br? {
      BranchesAgree(p, s, t, i.index);
    } else if s.stack != [] {
      var s', t' := s.(stack := Pop(s.stack)), t.(stack := Pop(t.stack));
      BranchesAgree(p, s', t', if 0 <= Top(s.stack) < |i.indices| then i.indices[Top(s.stack)] else i.index);
    }
  }

  lemma SimulateReturn<S(!new)>(p: Prices, w: World<S>, s: State<S>, t: State<S>)
    requires Related(p, s, t) && s.code != [] && (s.code[0].Return? || s.code[0].Unreachable?)
    ensures t.code != [] && BothArrive(p, Step(w.Machine(), s), Step(w.Machine(), t))
    ensures Charged(p, t) == 0
  {
    SameEmission(p, s, t, s.code[0]);
    if s.code[0].Return? && s.labels != [] {
      BranchesAgree(p, s, t, |s.labels| - 1);
    }
  }

  lemma SimulatePlain<S(!new)>(p: Prices, w: World<S>, s: State<S>, t: State<S>)
    requires Related(p, s, t) && s.code != [] && (s.code[0].Const? || s.code[0].Tick? || s.code[0].Other?)
    ensures t.code != [] && BothContinue(p, Step(w.Machine(), s), Step(w.Machine(), t))
    ensures Charged(p, t) == if s.code[0].Tick? then s.code[0].energy else 0
  {
    SameEmission(p, s, t, s.code[0]);
  }

  // ---------- Instructions that become several ----------

  /** The memory grows alike. */
  lemma {:induction false} GrowsAlike<S(!new)>(p: Prices, w: World<S>, s: State<S>, t: State<S>)
    requires Agree(p, s, t) && s.code != [] && s.code[0].MemoryGrow?
    requires t.code == [MemoryGrow] + Body(p, s.code[1..], Types(s.labels))
    ensures BothContinue(p, Step(w.Machine(), s), Step(w.Machine(), t))
  {
    First(MemoryGrow, Body(p, s.code[1..], Types(s.labels)));
  }

  lemma {:induction false} GrowEmission<S(!new)>(p: Prices, s: State<S>, t: State<S>)
    requires Related(p, s, t) && s.code != [] && s.code[0].MemoryGrow?
    ensures var rest := [MemoryGrow] + Body(p, s.code[1..], Types(s.labels));
            t.code != [] && t.code[0] == Call(MEMORY_ALLOC) && t.code[1..] == rest
  {
    var follow := Body(p, s.code[1..], Types(s.labels));
    BodyUnfolds(p, s.code, Types(s.labels));
    assert t.code == [Call(MEMORY_ALLOC)] + ([MemoryGrow] + follow);
    First(Call(MEMORY_ALLOC), [MemoryGrow] + follow);
  }

  lemma RunsGrown<S(!new)>(p: Prices, w: World<S>, s: State<S>, t: State<S>, e: nat)
    requires t.code != [] && t.code[0] == MemoryGrow
    requires Runs(p, w, Running(s), Running(t), 1, e)
    ensures Runs(p, w, Running(s), Step(w.Machine(), t), 2, e)
  {
    RunsNext(p, w, t);
    RunsThen(p, w, Running(s), Running(t), 1, e, Step(w.Machine(), t), 1, 0);
  }

  lemma SimulateGrow<S(!new)>(p: Prices, w: World<S>, s: State<S>, t: State<S>) returns (k: nat, d: Config<S>, e: nat)
    requires Related(p, s, t) && s.code != [] && s.code[0].MemoryGrow?
    ensures k >= 1 && Runs(p, w, Running(t), d, k, e) && BothContinue(p, Step(w.Machine(), s), d)
    ensures e == if s.stack == [] then 0 else p.alloc(Top(s.stack))
  {
    GrowEmission(p, s, t);
    RunsMemoryAlloc(p, w, t);
    if s.stack == [] {
      k, d, e := 1, Trapped, 0;
    } else {
      var t' := t.(code := t.code[1..]);
      GrowsAlike(p, w, s, t');
      k, d, e := 2, Step(w.Machine(), t'), p.alloc(Top(s.stack));
      RunsGrown(p, w, t, t', e);
    }
  }

  /** One step whose instruction is known. */
  lemma Follows<S(!new)>(p: Prices, w: World<S>, t: State<S>, i: Instr, rest: seq<Instr>, d: Config<S>)
    requires t.code == [i] + rest && !IsCall(i)
    requires Step(w.Machine(), t) == d
    ensures Runs(p, w, Running(t), d, 1, Charged(p, t))
  {
    RunsNext(p, w, t);
  }

  /** A branch out of one block more. */
  lemma BranchFurther<S(!new)>(t: State<S>, block: Label, l: nat)
    requires l < |t.labels|
    ensures Branch(t.(labels := t.labels + [block]), l + 1) == Branch(t, l)
  {
    var i := |t.labels| - 1 - l;
    var n := if t.labels[i].loop then i + 1 else i;
    assert (t.labels + [block])[..n] == t.labels[..n];
  }

  lemma BranchIgnoresCode<S(!new)>(t: State<S>, code: seq<Instr>, l: nat)
    ensures Branch(t.(code := code), l) == Branch(t, l)
  {
  }

  lemma ShortBlock(e: nat, l: nat, rest: seq<Instr>)
    ensures var inner := [Tick(e)] + ([Br(l + 1)] + ([End] + rest));
            AfterEnd(inner, 0) == Some(rest) && AfterElse(inner, 0) == None
  {
    SkipOne(Tick(e), [Br(l + 1)] + ([End] + rest), 0);
    SkipOne(Br(l + 1), [End] + rest, 0);
    SkipClosing(rest, 0);
  }

  /** `if tick br end`, not taken. */
  lemma ShortNotTaken<S(!new)>(p: Prices, w: World<S>, t: State<S>, e: nat, l: nat, rest: seq<Instr>)
    requires t.code == Short(e, l, rest) && t.stack != [] && Top(t.stack) == 0
    ensures Runs(p, w, Running(t), Running(t.(code := rest, stack := Pop(t.stack))), 1, 0)
  {
    var inner := [Tick(e)] + ([Br(l + 1)] + ([End] + rest));
    First(If(EmptyType), inner);
    ShortBlock(e, l, rest);
    RunsNext(p, w, t);
  }

  lemma ShortEntered<S(!new)>(p: Prices, w: World<S>, t: State<S>, e: nat, l: nat, rest: seq<Instr>, after: State<S>)
    requires t.code == Short(e, l, rest) && t.stack != [] && Top(t.stack) != 0
    requires after == State([Br(l + 1)] + ([End] + rest), t.labels + [Label(EmptyType, |t.stack| - 1, false, rest)],
                            Pop(t.stack), t.store)
    ensures Runs(p, w, Running(t), Running(after), 2, e)
  {
    var inner := [Tick(e)] + after.code;
    First(If(EmptyType), inner);
    ShortBlock(e, l, rest);
    var t1 := after.(code := inner);
    Follows(p, w, t, If(EmptyType), inner, Running(t1));
    First(Tick(e), after.code);
    Follows(p, w, t1, Tick(e), after.code, Running(after));
    RunsThen(p, w, Running(t), Running(t1), 1, 0, Running(after), 1, e);
  }

  lemma ShortTaken<S(!new)>(p: Prices, w: World<S>, t: State<S>, e: nat, l: nat, rest: seq<Instr>)
    requires t.code == Short(e, l, rest) && t.stack != [] && Top(t.stack) != 0
    requires l < |t.labels|
    ensures Runs(p, w, Running(t), Branch(t.(stack := Pop(t.stack)), l), 3, e)
  {
    var block := Label(EmptyType, |t.stack| - 1, false, rest);
    var t0 := t.(stack := Pop(t.stack));
    var t2 := State([Br(l + 1)] + ([End] + rest), t.labels + [block], t0.stack, t.store);
    ShortEntered(p, w, t, e, l, rest, t2);
    First(Br(l + 1), [End] + rest);
    BranchIgnoresCode(t0.(labels := t.labels + [block]), t2.code, l + 1);
    BranchFurther(t0, block, l);
    Follows(p, w, t2, Br(l + 1), [End] + rest, Branch(t0, l));
    RunsThen(p, w, Running(t), Running(t2), 2, e, Branch(t0, l), 1, 0);
  }

  lemma LongBlock(e: nat, l: nat, rest: seq<Instr>)
    ensures var inner := [Tick(e)] + ([Const(1)] + ([Else] + ([Const(0)] + ([End] + ([BrIf(l)] + rest)))));
            && AfterEnd(inner, 0) == Some([BrIf(l)] + rest)
            && AfterElse(inner, 0) == Some([Const(0)] + ([End] + ([BrIf(l)] + rest)))
  {
    var c0 := [BrIf(l)] + rest;
    var c1 := [End] + c0;
    var c2 := [Const(0)] + c1;
    var c3 := [Else] + c2;
    SkipOne(Tick(e), [Const(1)] + c3, 0);
    SkipOne(Const(1), c3, 0);
    SkipOne(Else, c2, 0);
    First(Else, c2);
    SkipOne(Const(0), c1, 0);
    SkipClosing(c0, 0);
  }

  lemma LongSkipped<S(!new)>(p: Prices, w: World<S>, t: State<S>, e: nat, l: nat, rest: seq<Instr>, after: State<S>)
    requires t.code == Long(e, l, rest) && t.stack != [] && Top(t.stack) == 0
    requires after == State([End] + ([BrIf(l)] + rest),
                            t.labels + [Label(ValueType, |t.stack| - 1, false, [BrIf(l)] + rest)],
                            Pop(t.stack) + [0], t.store)
    ensures Runs(p, w, Running(t), Running(after), 2, 0)
  {
    var c2 := [Const(0)] + after.code;
    var inner := [Tick(e)] + ([Const(1)] + ([Else] + c2));
    First(If(ValueType), inner);
    LongBlock(e, l, rest);
    var t1 := State(c2, after.labels, Pop(t.stack), t.store);
    Follows(p, w, t, If(ValueType), inner, Running(t1));
    First(Const(0), after.code);
    Follows(p, w, t1, Const(0), after.code, Running(after));
    RunsThen(p, w, Running(t), Running(t1), 1, 0, Running(after), 1, 0);
  }

  lemma LongPassed<S(!new)>(p: Prices, w: World<S>, t: State<S>, t0: State<S>, l: nat, rest: seq<Instr>)
    requires l < |t0.labels| && t0.code == rest && t.store == t0.store
    requires t.code == [End] + ([BrIf(l)] + rest) && t.stack == t0.stack + [0]
    requires |t.labels| == |t0.labels| + 1 && t.labels[..|t0.labels|] == t0.labels
    ensures Runs(p, w, Running(t), Running(t0), 2, 0)
  {
    var c0 := [BrIf(l)] + rest;
    var t3 := State(c0, t0.labels, t.stack, t.store);
    First(End, c0);
    Follows(p, w, t, End, c0, Running(t3));
    First(BrIf(l), rest);
    assert Pop(t.stack) == t0.stack;
    Follows(p, w, t3, BrIf(l), rest, Running(t0));
    RunsThen(p, w, Running(t), Running(t3), 1, 0, Running(t0), 1, 0);
  }

  lemma LongNotTaken<S(!new)>(p: Prices, w: World<S>, t: State<S>, e: nat, l: nat, rest: seq<Instr>)
    requires t.code == Long(e, l, rest) && t.stack != [] && Top(t.stack) == 0 && l < |t.labels|
    ensures Runs(p, w, Running(t), Running(t.(code := rest, stack := Pop(t.stack))), 4, 0)
  {
    var c0 := [BrIf(l)] + rest;
    var block := Label(ValueType, |t.stack| - 1, false, c0);
    var t2 := State([End] + c0, t.labels + [block], Pop(t.stack) + [0], t.store);
    var t4 := t.(code := rest, stack := Pop(t.stack));
    LongSkipped(p, w, t, e, l, rest, t2);
    assert t2.labels[..|t.labels|] == t.labels;
    LongPassed(p, w, t2, t4, l, rest);
    RunsThen(p, w, Running(t), Running(t2), 2, 0, Running(t4), 2, 0);
  }

  /** The operands and labels on the way through the block that charges for a taken branch. */
  lemma LongEntered<S(!new)>(p: Prices, w: World<S>, t: State<S>, e: nat, l: nat, rest: seq<Instr>, after: State<S>)
    requires t.code == Long(e, l, rest) && t.stack != [] && Top(t.stack) != 0
    requires after == State([Else] + ([Const(0)] + ([End] + ([BrIf(l)] + rest))),
                            t.labels + [Label(ValueType, |t.stack| - 1, false, [BrIf(l)] + rest)],
                            Pop(t.stack) + [1], t.store)
    ensures Runs(p, w, Running(t), Running(after), 3, e)
  {
    var c3 := after.code;
    var c4 := [Const(1)] + c3;
    var c5 := [Tick(e)] + c4;
    First(If(ValueType), c5);
    LongBlock(e, l, rest);
    var t1 := State(c5, after.labels, Pop(t.stack), t.store);
    var t2 := t1.(code := c4);
    Follows(p, w, t, If(ValueType), c5, Running(t1));
    First(Tick(e), c4);
    Follows(p, w, t1, Tick(e), c4, Running(t2));
    First(Const(1), c3);
    Follows(p, w, t2, Const(1), c3, Running(after));
    RunsThen(p, w, Running(t1), Running(t2), 1, e, Running(after), 1, 0);
    RunsThen(p, w, Running(t), Running(t1), 1, 0, Running(after), 2, e);
  }

  lemma LongLeft<S(!new)>(p: Prices, w: World<S>, t: State<S>, t0: State<S>, l: nat,
                          alternative: seq<Instr>, rest: seq<Instr>)
    requires l < |t0.labels| && t.code == [Else] + alternative && t.stack == t0.stack + [1] && t.store == t0.store
    requires exists height :: t.labels == t0.labels + [Label(ValueType, height, false, [BrIf(l)] + rest)]
    ensures Runs(p, w, Running(t), Branch(t0, l), 2, 0)
  {
    var c0 := [BrIf(l)] + rest;
    var t4 := State(c0, t0.labels, t.stack, t.store);
    First(Else, alternative);
    assert t.labels[..|t0.labels|] == t0.labels;
    Follows(p, w, t, Else, alternative, Running(t4));
    First(BrIf(l), rest);
    assert Pop(t.stack) == t0.stack;
    BranchIgnoresCode(t0, c0, l);
    Follows(p, w, t4, BrIf(l), rest, Branch(t0, l));
    RunsThen(p, w, Running(t), Running(t4), 1, 0, Branch(t0, l), 1, 0);
  }

  lemma LongTaken<S(!new)>(p: Prices, w: World<S>, t: State<S>, e: nat, l: nat, rest: seq<Instr>)
    requires t.code == Long(e, l, rest) && t.stack != [] && Top(t.stack) != 0 && l < |t.labels|
    ensures Runs(p, w, Running(t), Branch(t.(stack := Pop(t.stack)), l), 5, e)
  {
    var alternative := [Const(0)] + ([End] + ([BrIf(l)] + rest));
    var block := Label(ValueType, |t.stack| - 1, false, [BrIf(l)] + rest);
    var t0 := t.(stack := Pop(t.stack));
    var t3 := State([Else] + alternative, t.labels + [block], t0.stack + [1], t.store);
    LongEntered(p, w, t, e, l, rest, t3);
    LongLeft(p, w, t3, t0, l, alternative, rest);
    RunsThen(p, w, Running(t), Running(t3), 3, e, Branch(t0, l), 2, 0);
  }
}
