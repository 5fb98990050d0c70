/** What metering keeps and what it charges, over whole runs of a program. */
module MeteringTheorems {
  import opened Bytes
  import opened Wasm
  import opened Metering
  import opened MeteringProofs
  import opened MeteringSimulation

  // ---------- One step inside a function ----------

  /** The step of the original from `s` to `c` is matched by `k` steps of the metered code from `t` to
      `d` that charge `e`: what was paid and is now charged is the price of the step and of the
      segment that is then paid for. */
  ghost predicate Catches<S>(p: Prices, w: World<S>, s: State<S>, c: Config<S>, t: State<S>,
                             k: nat, d: Config<S>, e: nat)
    requires s.code != [] && !IsCall(s.code[0])
  {
    k >= 1 &&
    forall x: nat | Is(x, k) ::
      && Runs(p, w, Running(t), d, x, e) && BothContinue(p, c, d)
      && c == Step(w.Machine(), s)
      && var paid := Segment(p, s.code, Types(s.labels));
         if c.Trapped? then e + paid >= Work(p, s)
         else e + paid == Work(p, s) + Segment(p, c.state.code, Types(c.state.labels))
  }

  /** Where a segment ends its price is the price of its last instruction. */
  lemma Settled<S(!new)>(p: Prices, w: World<S>, s: State<S>, c: Config<S>, t: State<S>, d: Config<S>, j: nat, e: nat)
    returns (k: nat, d': Config<S>, e': nat)
    requires s.code != [] && !IsCall(s.code[0]) && !StraightLine(s.code[0]) && j >= 1 && c == Step(w.Machine(), s)
    requires Runs(p, w, Running(t), d, j, e) && BothArrive(p, c, d)
    requires e + CostOf(p, s.code[0], Types(s.labels)) == Work(p, s)
    ensures Catches(p, w, s, c, t, k, d', e') && BothContinue(p, c, d')
  {
    if c.Trapped? {
      k, d', e' := j, d, e;
    } else {
      var n, t' := Enter(p, w, c.state, d.state);
      var g := Segment(p, c.state.code, Types(c.state.labels));
      RunsThen(p, w, Running(t), d, j, e, Running(t'), n, g);
      k, d', e' := j + n, Running(t'), e + g;
    }
  }

  lemma CatchBrIf<S(!new)>(p: Prices, w: World<S>, s: State<S>, t: State<S>) returns (k: nat, d: Config<S>, e: nat)
    requires Related(p, s, t) && s.code != [] && s.code[0].BrIf?
    ensures k >= 1 && Runs(p, w, Running(t), d, k, e) && BothArrive(p, Step(w.Machine(), s), d)
    ensures e + CostOf(p, s.code[0], Types(s.labels)) == Work(p, s)
  {
    var l, types := s.code[0].index, Types(s.labels);
    var rest := Metered(p, s.code[1..], types);
    BodyUnfolds(p, s.code, types);
    if l >= |s.labels| || s.stack == [] {
      k, d, e := 1, Trapped, 0;
      RunsNext(p, w, t);
    } else {
      var s', t' := s.(stack := Pop(s.stack)), t.(stack := Pop(t.stack));
      BranchesAgree(p, s', t', l);
      if LabelArity(types, l) == 0 {
        SplitShort(p, l, types, rest);
        if Top(s.stack) == 0 {
          k, d, e := 1, Running(t'.(code := rest)), 0;
          ShortNotTaken(p, w, t, p.branch(0), l, rest);
        } else {
          k, d, e := 3, Branch(t', l), p.branch(0);
          ShortTaken(p, w, t, p.branch(0), l, rest);
        }
      } else {
        SplitLong(p, l, types, rest);
        if Top(s.stack) == 0 {
          k, d, e := 4, Running(t'.(code := rest)), 0;
          LongNotTaken(p, w, t, p.branch(1), l, rest);
        } else {
          k, d, e := 5, Branch(t', l), p.branch(1);
          LongTaken(p, w, t, p.branch(1), l, rest);
        }
      }
    }
  }

  lemma CatchFlush<S(!new)>(p: Prices, w: World<S>, s: State<S>, t: State<S>)
    requires Related(p, s, t) && s.code != []
    requires !IsCall(s.code[0]) && !StraightLine(s.code[0]) && !s.code[0].BrIf?
    ensures t.code != [] && !IsCall(t.code[0]) && BothArrive(p, Step(w.Machine(), s), Step(w.Machine(), t))
    ensures Charged(p, t) == 0
  {
    match s.code[0] {
      case Loop(_) => SimulateLoop(p, w, s, t);
      case If(_) => SimulateIf(p, w, s, t);
      case Else => SimulateElse(p, w, s, t);
      case End => SimulateEnd(p, w, s, t);
      case Br(_) => SimulateBranch(p, w, s, t);
      case BrTable(_, _) => SimulateBranch(p, w, s, t);
      case Return => SimulateReturn(p, w, s, t);
      case Unreachable => SimulateReturn(p, w, s, t);
    }
  }

  /** In a segment, the price of the rest is what remains. */
  lemma {:induction false} SegmentStep<S(!new)>(p: Prices, w: World<S>, s: State<S>)
    requires s.code != [] && StraightLine(s.code[0])
    ensures Segment(p, s.code, Types(s.labels)) >= CostOf(p, s.code[0], Types(s.labels))
    ensures var c, cost := Step(w.Machine(), s), CostOf(p, s.code[0], Types(s.labels));
            c.Running? ==> Segment(p, s.code, Types(s.labels)) == cost + Segment(p, c.state.code, Types(c.state.labels))
  {
    var c := Step(w.Machine(), s);
    if c.Running? && s.code[0].Block? {
      TypesOf(s.labels, c.state.labels[|s.labels|]);
    }
  }

  lemma CatchStraight<S(!new)>(p: Prices, w: World<S>, s: State<S>, t: State<S>) returns (k: nat, d: Config<S>, e: nat)
    requires Related(p, s, t) && s.code != [] && StraightLine(s.code[0])
    ensures k >= 1 && Runs(p, w, Running(t), d, k, e) && BothContinue(p, Step(w.Machine(), s), d)
    ensures e + CostOf(p, s.code[0], Types(s.labels)) == Work(p, s)
  {
    if s.code[0].MemoryGrow? {
      k, d, e := SimulateGrow(p, w, s, t);
    } else {
      if s.code[0].Block? {
        SimulateBlock(p, w, s, t);
      } else {
        SimulatePlain(p, w, s, t);
      }
      k, d, e := 1, Step(w.Machine(), t), Charged(p, t);
      RunsNext(p, w, t);
    }
  }

  function MeteredCallee(p: Prices, r: Option<(Function, seq<int>)>): Option<(Function, seq<int>)> {
    if r.None? then None else Some((MeteredFunction(p, r.value.0), r.value.1))
  }

  /** Every function is found where the metering has moved it. */
  lemma SameFunction<S(!new)>(p: Prices, P: Program<S>, f: nat, operands: seq<int>)
    ensures At(MeteredProgram(p, P), f + ADDED_FUNCTIONS, operands) == MeteredCallee(p, At(P, f, operands))
  {
  }

  lemma SameInTable<S(!new)>(p: Prices, P: Program<S>, found: Option<(nat, seq<int>)>)
    ensures InTable(MeteredProgram(p, P), found) == MeteredCallee(p, InTable(P, found))
  {
    if found.Some? && found.value.0 < |P.elements| {
      SameFunction(p, P, P.elements[found.value.0], found.value.1);
    }
  }

  /** The metered code calls the metered form of what the original calls, with the same operands. */
  lemma {:induction false} CalleesAgree<S(!new)>(p: Prices, P: Program<S>, s: State<S>, t: State<S>)
    requires Related(p, s, t) && s.code != [] && IsCall(s.code[0])
    ensures t.code != [] && IsCall(t.code[0]) && t.code[1..] == Metered(p, s.code[1..], Types(s.labels))
    ensures Callee(MeteredProgram(p, P), t) == MeteredCallee(p, Callee(P, s))
  {
    var i := s.code[0];
    if i.Call? {
      SameEmission(p, s, t, Call(i.callee + ADDED_FUNCTIONS));
      SameFunction(p, P, i.callee, s.stack);
    } else {
      SameEmission(p, s, t, i);
      SameInTable(p, P, P.resolve(i.sig, s.stack, s.store));
    }
  }

  /** Every step of the original that stays inside the function is matched by steps of the metered
      code. */
  lemma Catch<S(!new)>(p: Prices, w: World<S>, s: State<S>, t: State<S>)
    returns (c: Config<S>, k: nat, d: Config<S>, e: nat)
    requires Related(p, s, t) && s.code != [] && !IsCall(s.code[0])
    ensures Catches(p, w, s, c, t, k, d, e) && BothContinue(p, c, d)
  {
    c := Step(w.Machine(), s);
    if StraightLine(s.code[0]) {
      k, d, e := CatchStraight(p, w, s, t);
      SegmentStep(p, w, s);
    } else {
      var j, d0, e0;
      if s.code[0].BrIf? {
        j, d0, e0 := CatchBrIf(p, w, s, t);
      } else {
        CatchFlush(p, w, s, t);
        j, d0, e0 := 1, Step(w.Machine(), t), 0;
        RunsNext(p, w, t);
      }
      k, d, e := Settled(p, w, s, c, t, d0, j, e0);
    }
  }

  // ---------- One step of a program ----------

  /** A waiting activation continues, when it gets its results, with a segment not yet paid for. */
  ghost predicate Suspended(p: Prices, a: Caller, b: Caller) {
    && b.stack == a.stack && b.result == a.result && SameLabels(p, a.labels, b.labels)
    && b.code == Metered(p, a.code, Types(a.labels))
  }

  ghost predicate Paired(p: Prices, a: seq<Caller>, b: seq<Caller>) {
    var paired := |a| == |b| && forall i :: 0 <= i < |a| ==> Suspended(p, a[i], b[i]);
    paired
  }

  ghost predicate ThreadsRelated<S>(p: Prices, x: Thread<S>, y: Thread<S>) {
    var related := Related(p, x.top, y.top) && x.result == y.result && Paired(p, x.callers, y.callers);
    related
  }

  ghost predicate BothProceed<S>(p: Prices, c: Execution<S>, d: Execution<S>) {
    match c
    case Failed => d.Failed?
    case Active(x) => d.Active? && ThreadsRelated(p, x, d.thread)
  }

  function Paid<S>(p: Prices, x: Thread<S>): nat {
    Segment(p, x.top.code, Types(x.top.labels))
  }

  ghost predicate Steps<S(!new)>(P: Program<S>, x: Thread<S>, c: Execution<S>) {
    forall a | Is(a, Active(x)) :: Next(P, a) == c
  }

  /** What was paid and `e` make up the price of the step and of what is then paid for; where the
      step fails, at least its price. */
  ghost predicate Balanced<S>(p: Prices, P: Program<S>, x: Thread<S>, c: Execution<S>, e: nat) {
    forall n: nat | Is(n, e) ::
      if c.Failed? then n + Paid(p, x) >= ProgramWork(p, P, x)
      else n + Paid(p, x) == ProgramWork(p, P, x) + Paid(p, c.thread)
  }

  /** The step of the original program from `x` to `c` is matched by `k` steps of the metered one
      from `y` to `d` that charge `e`, with what was paid before taken into account. */
  ghost predicate Matches<S(!new)>(p: Prices, P: Program<S>, x: Thread<S>, c: Execution<S>, y: Thread<S>,
                             k: nat, d: Execution<S>, e: nat)
  {
    var matches :=
      k >= 1 && Reaches(p, P, Active(y), d, k, e) && BothProceed(p, c, d) && Steps(P, x, c) && Balanced(p, P, x, c, e);
    matches
  }

  /** Paying for the segment that the innermost activation is about to begin. */
  lemma EnterThread<S(!new)>(p: Prices, P: Program<S>, x: Thread<S>, y: Thread<S>) returns (k: nat, y': Thread<S>)
    requires Arrived(p, x.top, y.top) && x.result == y.result && Paired(p, x.callers, y.callers)
    ensures ThreadsRelated(p, x, y') && Reaches(p, P, Active(y), Active(y'), k, Paid(p, x))
  {
    var t';
    k, t' := Enter(p, World(P, y), x.top, y.top);
    y' := y.(top := t');
    assert y.(top := y.top) == y;
  }

  lemma MatchInside<S(!new)>(p: Prices, P: Program<S>, x: Thread<S>, y: Thread<S>)
    returns (c: Execution<S>, k: nat, d: Execution<S>, e: nat)
    requires ThreadsRelated(p, x, y) && x.top.code != [] && !IsCall(x.top.code[0])
    ensures Matches(p, P, x, c, y, k, d, e) && BothProceed(p, c, d)
  {
    var w := World(P, y);
    var c0, d0;
    c0, k, d0, e := Catch(p, w, x.top, y.top);
    c, d := Place(x, c0), Place(y, d0);
    assert Is(k, k) && y.(top := y.top) == y;
  }

  /** The results of a call are given back to callers that correspond. */
  lemma GivesBackAlike<S(!new)>(p: Prices, P: Program<S>, x: Thread<S>, y: Thread<S>)
    requires ThreadsRelated(p, x, y) && x.callers != []
    ensures var c, d := GiveBack(P, x), GiveBack(MeteredProgram(p, P), y);
            && (c.Failed? <==> d.Failed?)
            && (c.Active? ==> Arrived(p, c.thread.top, d.thread.top) && c.thread.result == d.thread.result
                              && Paired(p, c.thread.callers, d.thread.callers))
  {
    var n := |x.callers| - 1;
    assert Suspended(p, x.callers[n], y.callers[n]);
    PairedFront(p, x.callers, y.callers);
  }

  lemma PairedFront(p: Prices, a: seq<Caller>, b: seq<Caller>)
    requires Paired(p, a, b) && a != []
    ensures Paired(p, a[..|a| - 1], b[..|b| - 1])
  {
  }

  lemma ReturnStep<S(!new)>(p: Prices, P: Program<S>, x: Thread<S>, y: Thread<S>)
    requires ThreadsRelated(p, x, y) && x.top.code == [] && x.callers != []
    ensures Steps(P, x, GiveBack(P, x))
    ensures Reaches(p, P, Active(y), GiveBack(MeteredProgram(p, P), y), 1, 0)
    ensures var c := GiveBack(P, x); Balanced(p, P, x, c, if c.Active? then Paid(p, c.thread) else 0)
  {
    ReachesStep(p, P, y);
  }

  lemma MatchResumed<S(!new)>(p: Prices, P: Program<S>, x: Thread<S>, y: Thread<S>, c: Thread<S>, d0: Thread<S>,
                              e0: nat)
    returns (k: nat, d: Execution<S>, e: nat)
    requires Steps(P, x, Active(c)) && Reaches(p, P, Active(y), Active(d0), 1, e0)
    requires Balanced(p, P, x, Active(c), e0 + Paid(p, c))
    requires Arrived(p, c.top, d0.top) && c.result == d0.result && Paired(p, c.callers, d0.callers)
    ensures Matches(p, P, x, Active(c), y, k, d, e) && BothProceed(p, Active(c), d)
  {
    var j, y' := EnterThread(p, P, c, d0);
    k, d, e := 1 + j, Active(y'), e0 + Paid(p, c);
    ReachesThen(p, P, Active(y), Active(d0), 1, e0, d, j, Paid(p, c));
  }

  lemma MatchReturn<S(!new)>(p: Prices, P: Program<S>, x: Thread<S>, y: Thread<S>)
    returns (c: Execution<S>, k: nat, d: Execution<S>, e: nat)
    requires ThreadsRelated(p, x, y) && x.top.code == [] && x.callers != []
    ensures Matches(p, P, x, c, y, k, d, e) && BothProceed(p, c, d)
  {
    c := GiveBack(P, x);
    var d0 := GiveBack(MeteredProgram(p, P), y);
    GivesBackAlike(p, P, x, y);
    ReturnStep(p, P, x, y);
    if c.Failed? {
      k, d, e := 1, d0, 0;
    } else {
      k, d, e := MatchResumed(p, P, x, y, c.thread, d0.thread, 0);
    }
  }

  /** The body of a metered function charges for its locals and its first segment. */
  lemma Began<S(!new)>(p: Prices, P: Program<S>, f: Function, x: Thread<S>, y: Thread<S>)
    returns (k: nat, y': Thread<S>)
    requires f.Defined? && Paired(p, x.callers, y.callers) && x.result == y.result && x.top.store == y.top.store
    requires x.top == Beginning(f, x.top.store) && y.top == Beginning(MeteredFunction(p, f), y.top.store)
    ensures ThreadsRelated(p, x, y') && Reaches(p, P, Active(y), Active(y'), k, EntryOf(f) + Paid(p, x))
  {
    var e, body := EntryOf(f) + Segment(p, f.code, [f.result]), Body(p, f.code, [f.result]);
    var t := y.top.(code := body);
    y' := y.(top := t);
    assert Types(x.top.labels) == [f.result] && Types(x.top.labels)[..0] == [];
    assert Metered(p, [], []) == [];
    assert Corresponds(p, x.top.labels, 0, t.labels[0]);
    if f.code != [] && e > 0 {
      k := 1;
      assert y.top.code == [Tick(e)] + body;
      First(Tick(e), body);
      ReachesStep(p, P, y);
    } else {
      k := 0;
      assert y.top.code == body;
      ReachesHere(p, P, Active(y));
    }
  }

  lemma {:induction false} InvokesAlike<S(!new)>(p: Prices, P: Program<S>, x: Thread<S>, y: Thread<S>, f: Function,
                                                 operands: seq<int>)
    requires ThreadsRelated(p, x, y) && x.top.code != [] && y.top.code != [] && f.Defined?
    requires y.top.code[1..] == Metered(p, x.top.code[1..], Types(x.top.labels))
    ensures var c, d := Invoke(P, x, f, operands), Invoke(MeteredProgram(p, P), y, MeteredFunction(p, f), operands);
            && (c.Failed? <==> d.Failed?)
            && (c.Active? ==>
                  && c.thread.top == Beginning(f, c.thread.top.store)
                  && d.thread.top == Beginning(MeteredFunction(p, f), d.thread.top.store)
                  && c.thread.top.store == d.thread.top.store && c.thread.result == d.thread.result
                  && Paired(p, c.thread.callers, d.thread.callers))
  {
  }

  /** A call of a function of the host, or of the one that charges for memory. */
  lemma {:induction false} PerformsAlike<S(!new)>(p: Prices, P: Program<S>, x: Thread<S>, y: Thread<S>, f: Function,
                                                  operands: seq<int>)
    requires ThreadsRelated(p, x, y) && x.top.code != [] && y.top.code != [] && !f.Defined?
    requires y.top.code[1..] == Metered(p, x.top.code[1..], Types(x.top.labels))
    ensures var c, d := Perform(P, x, f, operands), Perform(MeteredProgram(p, P), y, f, operands);
            && (c.Failed? <==> d.Failed?)
            && (c.Active? ==> Arrived(p, c.thread.top, d.thread.top) && c.thread.result == d.thread.result
                              && Paired(p, c.thread.callers, d.thread.callers))
  {
  }

  lemma CallStep<S(!new)>(p: Prices, P: Program<S>, x: Thread<S>, y: Thread<S>, f: Function, operands: seq<int>)
    requires ThreadsRelated(p, x, y) && x.top.code != [] && y.top.code != []
    requires IsCall(x.top.code[0]) && IsCall(y.top.code[0]) && Callee(P, x.top) == Some((f, operands))
    requires Callee(MeteredProgram(p, P), y.top) == Some((MeteredFunction(p, f), operands))
    ensures Steps(P, x, Perform(P, x, f, operands))
    ensures Reaches(p, P, Active(y), Perform(MeteredProgram(p, P), y, MeteredFunction(p, f), operands), 1,
                    MemoryCharge(p, f, operands))
    ensures var c, e := Perform(P, x, f, operands), EntryOf(f) + MemoryCharge(p, f, operands);
            Balanced(p, P, x, c, if c.Active? then e + Paid(p, c.thread) else MemoryCharge(p, f, operands))
  {
    ReachesStep(p, P, y);
  }

  lemma MatchEntered<S(!new)>(p: Prices, P: Program<S>, x: Thread<S>, y: Thread<S>, f: Function,
                              c: Thread<S>, d0: Thread<S>)
    returns (k: nat, d: Execution<S>, e: nat)
    requires f.Defined? && Steps(P, x, Active(c)) && Reaches(p, P, Active(y), Active(d0), 1, 0)
    requires Balanced(p, P, x, Active(c), EntryOf(f) + Paid(p, c))
    requires Paired(p, c.callers, d0.callers) && c.result == d0.result && c.top.store == d0.top.store
    requires c.top == Beginning(f, c.top.store) && d0.top == Beginning(MeteredFunction(p, f), d0.top.store)
    ensures Matches(p, P, x, Active(c), y, k, d, e) && BothProceed(p, Active(c), d)
  {
    var j, y' := Began(p, P, f, c, d0);
    k, d, e := 1 + j, Active(y'), EntryOf(f) + Paid(p, c);
    ReachesThen(p, P, Active(y), Active(d0), 1, 0, d, j, e);
  }

  lemma NoCallee<S(!new)>(p: Prices, P: Program<S>, x: Thread<S>, y: Thread<S>)
    requires ThreadsRelated(p, x, y) && x.top.code != [] && y.top.code != []
    requires IsCall(x.top.code[0]) && IsCall(y.top.code[0])
    requires Callee(P, x.top).None? && Callee(MeteredProgram(p, P), y.top).None?
    ensures Matches(p, P, x, Failed, y, 1, Failed, 0)
  {
    ReachesStep(p, P, y);
  }

  lemma MatchCall<S(!new)>(p: Prices, P: Program<S>, x: Thread<S>, y: Thread<S>)
    returns (c: Execution<S>, k: nat, d: Execution<S>, e: nat)
    requires ThreadsRelated(p, x, y) && x.top.code != [] && IsCall(x.top.code[0])
    ensures Matches(p, P, x, c, y, k, d, e) && BothProceed(p, c, d)
  {
    CalleesAgree(p, P, x.top, y.top);
    match Callee(P, x.top) {
      case None =>
        NoCallee(p, P, x, y);
        c, k, d, e := Failed, 1, Failed, 0;
      case Some((f, operands)) =>
        c, k, d, e := MatchPerform(p, P, x, y, f, operands);
    }
  }

  lemma MatchPerform<S(!new)>(p: Prices, P: Program<S>, x: Thread<S>, y: Thread<S>, f: Function, operands: seq<int>)
    returns (c: Execution<S>, k: nat, d: Execution<S>, e: nat)
    requires ThreadsRelated(p, x, y) && x.top.code != [] && y.top.code != []
    requires IsCall(x.top.code[0]) && IsCall(y.top.code[0]) && Callee(P, x.top) == Some((f, operands))
    requires Callee(MeteredProgram(p, P), y.top) == Some((MeteredFunction(p, f), operands))
    requires y.top.code[1..] == Metered(p, x.top.code[1..], Types(x.top.labels))
    ensures Matches(p, P, x, c, y, k, d, e) && BothProceed(p, c, d)
  {
    c := Perform(P, x, f, operands);
    var d0 := Perform(MeteredProgram(p, P), y, MeteredFunction(p, f), operands);
    CallStep(p, P, x, y, f, operands);
    if f.Defined? {
      InvokesAlike(p, P, x, y, f, operands);
    } else {
      PerformsAlike(p, P, x, y, f, operands);
    }
    if c.Failed? {
      k, d, e := 1, d0, MemoryCharge(p, f, operands);
    } else if f.Defined? {
      k, d, e := MatchEntered(p, P, x, y, f, c.thread, d0.thread);
    } else {
      k, d, e := MatchResumed(p, P, x, y, c.thread, d0.thread, MemoryCharge(p, f, operands));
    }
  }

  lemma MatchParts<S(!new)>(p: Prices, P: Program<S>, x: Thread<S>, c: Execution<S>, y: Thread<S>,
                            k: nat, d: Execution<S>, e: nat)
    requires Matches(p, P, x, c, y, k, d, e)
    ensures k >= 1 && Reaches(p, P, Active(y), d, k, e) && BothProceed(p, c, d)
    ensures Steps(P, x, c) && Balanced(p, P, x, c, e)
  {
  }

  /** Every step of the original program is matched by at least one of the metered program. */
  lemma Match<S(!new)>(p: Prices, P: Program<S>, x: Thread<S>, y: Thread<S>)
    returns (c: Execution<S>, k: nat, d: Execution<S>, e: nat)
    requires ThreadsRelated(p, x, y) && !Stopped(Active(x))
    ensures k >= 1 && Reaches(p, P, Active(y), d, k, e) && BothProceed(p, c, d)
    ensures Steps(P, x, c) && Balanced(p, P, x, c, e)
  {
    if x.top.code == [] {
      c, k, d, e := MatchReturn(p, P, x, y);
    } else if IsCall(x.top.code[0]) {
      c, k, d, e := MatchCall(p, P, x, y);
    } else {
      c, k, d, e := MatchInside(p, P, x, y);
    }
    MatchParts(p, P, x, c, y, k, d, e);
  }

  // ---------- Runs ----------

  /** The original program gets from `a` to `c` in `n` steps whose price is `work`. */
  ghost predicate Gets<S>(p: Prices, P: Program<S>, a: Execution<S>, c: Execution<S>, n: nat, work: nat) {
    forall i: nat | Is(i, n) :: After(P, a, i) == c && TotalWork(p, P, a, i) == work
  }

  /** What was paid and `e` make up `work` and what is then paid for; after a failure, at least `work`. */
  ghost predicate Tally<S>(p: Prices, x: Thread<S>, c: Execution<S>, work: nat, e: nat) {
    if c.Failed? then e + Paid(p, x) >= work else e + Paid(p, x) == work + Paid(p, c.thread)
  }

  lemma GetsHere<S(!new)>(p: Prices, P: Program<S>, a: Execution<S>)
    ensures Gets(p, P, a, a, 0, 0)
  {
  }

  lemma GetsStopped<S(!new)>(p: Prices, P: Program<S>, a: Execution<S>, n: nat)
    requires Stopped(a)
    ensures Gets(p, P, a, a, n, 0)
  {
    StaysStopped(P, a, n);
    NoMoreWork(p, P, a, n);
  }

  lemma {:induction false} NoMoreWork<S(!new)>(p: Prices, P: Program<S>, a: Execution<S>, n: nat)
    requires Stopped(a)
    ensures TotalWork(p, P, a, n) == 0
    decreases n
  {
    if n > 0 {
      NoMoreWork(p, P, a, n - 1);
    }
  }

  lemma GetsThen<S(!new)>(p: Prices, P: Program<S>, x: Thread<S>, c1: Execution<S>, c: Execution<S>,
                          n: nat, work: nat, e1: nat) returns (price: nat)
    requires !Stopped(Active(x)) && Steps(P, x, c1) && Balanced(p, P, x, c1, e1) && Gets(p, P, c1, c, n, work)
    ensures Gets(p, P, Active(x), c, n + 1, price + work) && Tally(p, x, c1, price, e1)
  {
    assert Is(Active(x), Active(x)) && Is(n, n) && Is(e1, e1);
    price := ProgramWork(p, P, x);
  }

  lemma ReachesStopped<S(!new)>(p: Prices, P: Program<S>, a: Execution<S>, n: nat)
    requires Stopped(a)
    ensures Reaches(p, P, a, a, n, 0)
  {
    StaysStopped(MeteredProgram(p, P), a, n);
    NoMoreCharges(p, MeteredProgram(p, P), a, n);
  }

  lemma StopAlike<S(!new)>(p: Prices, x: Thread<S>, y: Thread<S>)
    requires ThreadsRelated(p, x, y)
    ensures Stopped(Active(x)) <==> Stopped(Active(y))
    ensures x.top.stack == y.top.stack && x.top.store == y.top.store
  {
    if x.top.code != [] {
      BodyUnfolds(p, x.top.code, Types(x.top.labels));
    }
  }

  lemma StepFails<S(!new)>(p: Prices, P: Program<S>, x: Thread<S>, y: Thread<S>, n: nat,
                           j: nat, d1: Execution<S>, e1: nat)
    returns (work: nat)
    requires !Stopped(Active(x)) && n >= 1 && d1.Failed?
    requires Reaches(p, P, Active(y), d1, j, e1) && Steps(P, x, Failed) && Balanced(p, P, x, Failed, e1)
    ensures Gets(p, P, Active(x), Failed, n, work) && Reaches(p, P, Active(y), Failed, j + n, e1)
    ensures Tally(p, x, Failed, work, e1)
  {
    GetsStopped(p, P, Failed, n - 1);
    work := GetsThen(p, P, x, Failed, Failed, n - 1, 0, e1);
    ReachesStopped(p, P, d1, n);
    ReachesThen(p, P, Active(y), d1, j, e1, d1, n, 0);
  }

  lemma StepContinues<S(!new)>(p: Prices, P: Program<S>, x: Thread<S>, y: Thread<S>, n: nat,
                               x': Thread<S>, j: nat, d1: Execution<S>, e1: nat,
                               c: Execution<S>, work': nat, i: nat, d: Execution<S>, e': nat) returns (work: nat)
    requires !Stopped(Active(x)) && n >= 1
    requires Reaches(p, P, Active(y), d1, j, e1) && Steps(P, x, Active(x')) && Balanced(p, P, x, Active(x'), e1)
    requires Gets(p, P, Active(x'), c, n - 1, work') && Reaches(p, P, d1, d, i, e') && Tally(p, x', c, work', e')
    ensures Gets(p, P, Active(x), c, n, work) && Reaches(p, P, Active(y), d, j + i, e1 + e')
    ensures Tally(p, x, c, work, e1 + e')
  {
    var price := GetsThen(p, P, x, Active(x'), c, n - 1, work', e1);
    ReachesThen(p, P, Active(y), d1, j, e1, d, i, e');
    work := price + work';
  }

  /** After the first step has been matched, the rest of the run. */
  lemma {:induction false} StepsInStep<S(!new)>(p: Prices, P: Program<S>, x: Thread<S>, y: Thread<S>, n: nat)
    returns (c: Execution<S>, work: nat, k: nat, d: Execution<S>, e: nat)
    requires ThreadsRelated(p, x, y) && !Stopped(Active(x)) && n >= 1
    ensures Gets(p, P, Active(x), c, n, work) && Reaches(p, P, Active(y), d, k, e)
    ensures BothProceed(p, c, d) && Tally(p, x, c, work, e) && k >= n
    decreases n, 0
  {
    var c1, j, d1, e1 := Match(p, P, x, y);
    if c1.Failed? {
      work := StepFails(p, P, x, y, n, j, d1, e1);
      c, k, d, e := Failed, j + n, Failed, e1;
    } else {
      var work', i, e';
      c, work', i, d, e' := RunsInStep(p, P, c1.thread, d1.thread, n - 1);
      work := StepContinues(p, P, x, y, n, c1.thread, j, d1, e1, c, work', i, d, e');
      k, e := j + i, e1 + e';
    }
  }

  /** `n` steps of the original program, and the steps of the metered one that match them. */
  lemma {:induction false} RunsInStep<S(!new)>(p: Prices, P: Program<S>, x: Thread<S>, y: Thread<S>, n: nat)
    returns (c: Execution<S>, work: nat, k: nat, d: Execution<S>, e: nat)
    requires ThreadsRelated(p, x, y)
    ensures Gets(p, P, Active(x), c, n, work) && Reaches(p, P, Active(y), d, k, e)
    ensures BothProceed(p, c, d) && Tally(p, x, c, work, e) && k >= n
    decreases n, 1
  {
    if n == 0 {
      GetsHere(p, P, Active(x));
      ReachesHere(p, P, Active(y));
      c, work, k, d, e := Active(x), 0, 0, Active(y), 0;
    } else if Stopped(Active(x)) {
      StopAlike(p, x, y);
      GetsStopped(p, P, Active(x), n);
      ReachesStopped(p, P, Active(y), n);
      c, work, k, d, e := Active(x), 0, n, Active(y), 0;
    } else {
      c, work, k, d, e := StepsInStep(p, P, x, y, n);
    }
  }

  // ---------- Invocations ----------

  /** An invocation of a defined function of the program, its arguments already in the store. */
  function Called<S>(P: Program<S>, g: nat, store: S): Execution<S>
    requires IsDefined(P, g)
  {
    Active(Thread(Beginning(P.functions[g], store), P.functions[g].result, []))
  }

  datatype Outcome<S> = Finished(stack: seq<int>, store: S) | Trap

  function OutcomeOf<S>(c: Execution<S>): Option<Outcome<S>> {
    if c.Failed? then Some(Trap)
    else if Stopped(c) then Some(Finished(c.thread.top.stack, c.thread.top.store))
    else None
  }

  /** After `n` steps of the original invocation and `k` of the metered one: the same outcome, operands
      and state, and all the work so far and the next instruction are paid for. */
  ghost predicate Alike<S>(p: Prices, P: Program<S>, g: nat, store: S, n: nat, k: nat)
    requires IsDefined(P, g)
  {
    forall i: nat | Is(i, k) ::
      var M, a := MeteredProgram(p, P), Called(P, g, store);
      var b := Called(M, g + ADDED_FUNCTIONS, store);
      var c, d := After(P, a, n), After(M, b, i);
      var work, charge := EntryOf(P.functions[g]) + TotalWork(p, P, a, n), TotalCharge(p, M, b, i);
      && OutcomeOf(c) == OutcomeOf(d)
      && (c.Active? ==> c.thread.top.stack == d.thread.top.stack && c.thread.top.store == d.thread.top.store)
      && charge >= work
      && (c.Active? && c.thread.top.code != [] ==>
            charge >= work + CostOf(p, c.thread.top.code[0], Types(c.thread.top.labels)))
      && (c.Active? && Stopped(c) ==> charge == work)
  }

  lemma TallyIsAlike<S(!new)>(p: Prices, P: Program<S>, g: nat, store: S, x: Thread<S>,
                              c: Execution<S>, n: nat, work: nat, k: nat, d: Execution<S>, e: nat)
    requires IsDefined(P, g) && Active(x) == Called(P, g, store) && Gets(p, P, Active(x), c, n, work)
    requires BothProceed(p, c, d) && Tally(p, x, c, work, e)
    requires Reaches(p, P, Called(MeteredProgram(p, P), g + ADDED_FUNCTIONS, store), d, k,
                     EntryOf(P.functions[g]) + Paid(p, x) + e)
    ensures Alike(p, P, g, store, n, k)
  {
    assert Is(n, n) && Is(k, k);
    if c.Active? {
      StopAlike(p, c.thread, d.thread);
    }
  }

  lemma InvocationBegins<S(!new)>(p: Prices, P: Program<S>, g: nat, store: S) returns (j: nat, y: Thread<S>)
    requires IsDefined(P, g)
    ensures var x := Called(P, g, store).thread;
            && ThreadsRelated(p, x, y)
            && Reaches(p, P, Called(MeteredProgram(p, P), g + ADDED_FUNCTIONS, store), Active(y), j,
                       EntryOf(P.functions[g]) + Paid(p, x))
  {
    SameFunction(p, P, g, []);
    var x, b := Called(P, g, store).thread, Called(MeteredProgram(p, P), g + ADDED_FUNCTIONS, store).thread;
    j, y := Began(p, P, P.functions[g], x, b);
  }

  /** At every step of an invocation the metered program has the same operands and state, and has
      already charged for every step so far and the next one, in all the functions called. */
  lemma RunsAlike<S(!new)>(p: Prices, P: Program<S>, g: nat, store: S, n: nat) returns (k: nat)
    requires IsDefined(P, g)
    ensures k >= n && Alike(p, P, g, store, n, k)
  {
    var x, b := Called(P, g, store).thread, Called(MeteredProgram(p, P), g + ADDED_FUNCTIONS, store);
    var j, y := InvocationBegins(p, P, g, store);
    var c, work, i, d, e := RunsInStep(p, P, x, y, n);
    k := j + i;
    ReachesThen(p, P, b, Active(y), j, EntryOf(P.functions[g]) + Paid(p, x), d, i, e);
    TallyIsAlike(p, P, g, store, x, c, n, work, k, d, e);
  }

  lemma StoppedAlready<S(!new)>(p: Prices, M: Program<S>, c: Execution<S>, k: nat, j: nat)
    requires Stopped(After(M, c, k))
    ensures After(M, c, k + j) == After(M, c, k)
    ensures TotalCharge(p, M, c, k + j) == TotalCharge(p, M, c, k)
  {
    StaysStopped(M, After(M, c, k), j);
    AfterAfter(M, c, k, j);
    ChargesAdd(p, M, c, k, j);
    NoMoreCharges(p, M, After(M, c, k), j);
  }

  lemma {:induction false} SameCharge<S(!new)>(p: Prices, M: Program<S>, c: Execution<S>, k: nat, j: nat)
    requires Stopped(After(M, c, k)) && Stopped(After(M, c, j))
    ensures TotalCharge(p, M, c, k) == TotalCharge(p, M, c, j)
  {
    if k < j {
      StoppedAlready(p, M, c, k, j - k);
    } else {
      StoppedAlready(p, M, c, j, k - j);
    }
  }

  ghost predicate Ends<S(!new)>(P: Program<S>, c: Execution<S>, o: Outcome<S>) {
    exists n: nat :: OutcomeOf(After(P, c, n)) == Some(o)
  }

  lemma {:induction false} OutcomeKept<S(!new)>(p: Prices, P: Program<S>, g: nat, store: S, o: Outcome<S>, n: nat)
    requires IsDefined(P, g) && OutcomeOf(After(P, Called(P, g, store), n)) == Some(o)
    ensures Ends(MeteredProgram(p, P), Called(MeteredProgram(p, P), g + ADDED_FUNCTIONS, store), o)
  {
    var k := RunsAlike(p, P, g, store, n);
    SameOutcomeSoFar(p, P, g, store, n, k);
  }

  lemma {:induction false} OutcomeStays<S(!new)>(M: Program<S>, c: Execution<S>, o: Outcome<S>, k: nat, k': nat)
    requires OutcomeOf(After(M, c, k)) == Some(o) && k <= k'
    ensures OutcomeOf(After(M, c, k')) == Some(o)
  {
    var d := After(M, c, k);
    AfterAfter(M, c, k, k' - k);
    StaysStopped(M, d, k' - k);
  }

  lemma {:induction false} SameOutcomeSoFar<S(!new)>(p: Prices, P: Program<S>, g: nat, store: S, n: nat, k: nat)
    requires IsDefined(P, g) && Alike(p, P, g, store, n, k)
    ensures var M := MeteredProgram(p, P);
            OutcomeOf(After(P, Called(P, g, store), n))
              == OutcomeOf(After(M, Called(M, g + ADDED_FUNCTIONS, store), k))
  {
    assert Is(k, k);
  }

  lemma {:induction false} OutcomeNotNew<S(!new)>(p: Prices, P: Program<S>, g: nat, store: S, o: Outcome<S>, k: nat)
    requires IsDefined(P, g)
    requires var M := MeteredProgram(p, P); OutcomeOf(After(M, Called(M, g + ADDED_FUNCTIONS, store), k)) == Some(o)
    ensures OutcomeOf(After(P, Called(P, g, store), k)) == Some(o)
  {
    var k' := RunsAlike(p, P, g, store, k);
    OutcomeStays(MeteredProgram(p, P), Called(MeteredProgram(p, P), g + ADDED_FUNCTIONS, store), o, k, k');
    SameOutcomeSoFar(p, P, g, store, k, k');
  }

  /** An invocation of the metered program has exactly the outcomes of the original one: it finishes
      with the same operands and state, traps, or runs forever. */
  lemma SameOutcome<S(!new)>(p: Prices, P: Program<S>, g: nat, store: S, o: Outcome<S>)
    requires IsDefined(P, g)
    ensures Ends(P, Called(P, g, store), o)
       <==> Ends(MeteredProgram(p, P), Called(MeteredProgram(p, P), g + ADDED_FUNCTIONS, store), o)
  {
    var M := MeteredProgram(p, P);
    if Ends(P, Called(P, g, store), o) {
      var n: nat :| OutcomeOf(After(P, Called(P, g, store), n)) == Some(o);
      OutcomeKept(p, P, g, store, o, n);
    }
    if Ends(M, Called(M, g + ADDED_FUNCTIONS, store), o) {
      var k: nat :| OutcomeOf(After(M, Called(M, g + ADDED_FUNCTIONS, store), k)) == Some(o);
      OutcomeNotNew(p, P, g, store, o, k);
    }
  }

  /** The original invocation has finished after `n` steps. */
  ghost predicate FinishesIn<S>(P: Program<S>, g: nat, store: S, n: nat)
    requires IsDefined(P, g)
  {
    var o := OutcomeOf(After(P, Called(P, g, store), n));
    o.Some? && o.value.Finished?
  }

  /** The price of everything an invocation does in `n` steps. */
  function PriceOf<S>(p: Prices, P: Program<S>, g: nat, store: S, n: nat): nat
    requires IsDefined(P, g)
  {
    EntryOf(P.functions[g]) + TotalWork(p, P, Called(P, g, store), n)
  }

  /** An invocation that finishes has been charged exactly for what it did. */
  lemma ExactCharge<S(!new)>(p: Prices, P: Program<S>, g: nat, store: S, n: nat, k: nat)
    requires IsDefined(P, g) && FinishesIn(P, g, store, n)
    requires var M := MeteredProgram(p, P); Stopped(After(M, Called(M, g + ADDED_FUNCTIONS, store), k))
    ensures var M := MeteredProgram(p, P);
            TotalCharge(p, M, Called(M, g + ADDED_FUNCTIONS, store), k) == PriceOf(p, P, g, store, n)
  {
    var k' := RunsAlike(p, P, g, store, n);
    assert Is(k', k');
    SameCharge(p, MeteredProgram(p, P), Called(MeteredProgram(p, P), g + ADDED_FUNCTIONS, store), k, k');
  }

  /** Charges are never returned. */
  lemma ChargesGrow<S(!new)>(p: Prices, M: Program<S>, c: Execution<S>, k: nat, j: nat)
    ensures TotalCharge(p, M, c, k) <= TotalCharge(p, M, c, k + j)
  {
    ChargesAdd(p, M, c, k, j);
  }

  lemma {:induction false} EndIsMost<S(!new)>(p: Prices, M: Program<S>, d: Execution<S>, end: nat, k: nat)
    requires Stopped(After(M, d, end))
    ensures TotalCharge(p, M, d, k) <= TotalCharge(p, M, d, end)
  {
    if k <= end {
      ChargesGrow(p, M, d, k, end - k);
    } else {
      StoppedAlready(p, M, d, end, k - end);
    }
  }

  ghost predicate StaysWithin<S>(p: Prices, M: Program<S>, c: Execution<S>, limit: nat) {
    forall k: nat :: TotalCharge(p, M, c, k) <= limit
  }

  /** An invocation that finishes stays within an energy limit exactly when its price does. */
  lemma WithinLimit<S(!new)>(p: Prices, P: Program<S>, g: nat, store: S, n: nat, limit: nat)
    requires IsDefined(P, g) && FinishesIn(P, g, store, n)
    ensures var M := MeteredProgram(p, P);
            StaysWithin(p, M, Called(M, g + ADDED_FUNCTIONS, store), limit) <==> PriceOf(p, P, g, store, n) <= limit
  {
    var M := MeteredProgram(p, P);
    var d := Called(M, g + ADDED_FUNCTIONS, store);
    var end := RunsAlike(p, P, g, store, n);
    assert Is(end, end);
    var total := TotalCharge(p, M, d, end);
    assert total == PriceOf(p, P, g, store, n);
    if total <= limit {
      forall k: nat ensures TotalCharge(p, M, d, k) <= limit {
        EndIsMost(p, M, d, end, k);
      }
    }
  }
}
