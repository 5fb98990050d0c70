/** Metered code does what the original does, and pays for it in advance. */
module MeteringProofs {
  import opened Bytes
  import opened Wasm
  import opened Metering

  // ---------- Blocks in the metered code ----------

  function Map(p: Prices, code: Option<seq<Instr>>, labels: seq<BlockType>): Option<seq<Instr>> {
    match code
    case None => None
    case Some(c) => Some(Metered(p, c, labels))
  }

  lemma {:induction false} SkipCharge(e: nat, code: seq<Instr>, depth: nat)
    ensures AfterEnd(Charge(e) + code, depth) == AfterEnd(code, depth)
    ensures AfterElse(Charge(e) + code, depth) == AfterElse(code, depth)
  {
    if e > 0 {
      assert (Charge(e) + code)[1..] == code;
    } else {
      assert Charge(e) + code == code;
    }
  }

  lemma First(i: Instr, code: seq<Instr>)
    ensures ([i] + code)[0] == i && ([i] + code)[1..] == code
  {
  }

  /** An instruction that opens and closes nothing is skipped. */
  lemma {:induction false} SkipOne(i: Instr, code: seq<Instr>, depth: nat)
    requires !Opens(i) && i != End
    ensures AfterEnd([i] + code, depth) == AfterEnd(code, depth)
    ensures i != Else || depth > 0 ==> AfterElse([i] + code, depth) == AfterElse(code, depth)
  {
    First(i, code);
  }

  lemma {:induction false} SkipOpening(i: Instr, code: seq<Instr>, depth: nat)
    requires Opens(i)
    ensures AfterEnd([i] + code, depth) == AfterEnd(code, depth + 1)
    ensures AfterElse([i] + code, depth) == AfterElse(code, depth + 1)
  {
    First(i, code);
  }

  lemma {:induction false} SkipClosing(code: seq<Instr>, depth: nat)
    ensures AfterEnd([End] + code, depth) == if depth == 0 then Some(code) else AfterEnd(code, depth - 1)
    ensures AfterElse([End] + code, depth) == if depth == 0 then None else AfterElse(code, depth - 1)
  {
    First(End, code);
  }

  /** The code that replaces a conditional branch to a block without a result. */
  function Short(e: nat, l: nat, rest: seq<Instr>): seq<Instr> {
    [If(EmptyType)] + ([Tick(e)] + ([Br(l + 1)] + ([End] + rest)))
  }

  /** The code that replaces a conditional branch to a block with a result. */
  function Long(e: nat, l: nat, rest: seq<Instr>): seq<Instr> {
    [If(ValueType)] + ([Tick(e)] + ([Const(1)] + ([Else] + ([Const(0)] + ([End] + ([BrIf(l)] + rest))))))
  }

  lemma SplitShort(p: Prices, l: nat, labels: seq<BlockType>, code: seq<Instr>)
    requires l < |labels| && LabelArity(labels, l) == 0
    ensures Emit(p, BrIf(l), labels) + code == Short(p.branch(0), l, code)
  {
  }

  lemma SplitLong(p: Prices, l: nat, labels: seq<BlockType>, code: seq<Instr>)
    requires l < |labels| && LabelArity(labels, l) != 0
    ensures Emit(p, BrIf(l), labels) + code
         == Long(p.branch(1), l, code)
  {
  }

  lemma {:induction false} SkipTwo(i: Instr, j: Instr, code: seq<Instr>, depth: nat)
    requires !Opens(i) && i != End && !Opens(j) && j != End && depth > 0
    ensures AfterEnd([i] + ([j] + code), depth) == AfterEnd(code, depth)
    ensures AfterElse([i] + ([j] + code), depth) == AfterElse(code, depth)
  {
    SkipOne(i, [j] + code, depth);
    SkipOne(j, code, depth);
  }

  lemma {:induction false} SkipShort(e: nat, l: nat, code: seq<Instr>, depth: nat)
    ensures var c := Short(e, l, code);
            AfterEnd(c, depth) == AfterEnd(code, depth) && AfterElse(c, depth) == AfterElse(code, depth)
  {
    var closing := [End] + code;
    SkipOpening(If(EmptyType), [Tick(e)] + ([Br(l + 1)] + closing), depth);
    SkipTwo(Tick(e), Br(l + 1), closing, depth + 1);
    SkipClosing(code, depth + 1);
  }

  lemma SkipAlternative(code: seq<Instr>, depth: nat)
    ensures var c := [Else] + ([Const(0)] + ([End] + code));
            AfterEnd(c, depth + 1) == AfterEnd(code, depth) && AfterElse(c, depth + 1) == AfterElse(code, depth)
  {
    SkipTwo(Else, Const(0), [End] + code, depth + 1);
    SkipClosing(code, depth + 1);
  }

  lemma {:induction false} SkipLong(e: nat, l: nat, code: seq<Instr>, depth: nat)
    ensures var c := Long(e, l, code);
            AfterEnd(c, depth) == AfterEnd(code, depth) && AfterElse(c, depth) == AfterElse(code, depth)
  {
    var after := [BrIf(l)] + code;
    var alternative := [Else] + ([Const(0)] + ([End] + after));
    SkipOpening(If(ValueType), [Tick(e)] + ([Const(1)] + alternative), depth);
    SkipTwo(Tick(e), Const(1), alternative, depth + 1);
    SkipAlternative(after, depth);
    SkipOne(BrIf(l), code, depth);
  }

  /** What replaces a conditional branch opens and closes one block of its own. */
  lemma {:induction false} SkipBrIf(p: Prices, l: nat, labels: seq<BlockType>, code: seq<Instr>, depth: nat)
    ensures AfterEnd(Emit(p, BrIf(l), labels) + code, depth) == AfterEnd(code, depth)
    ensures AfterElse(Emit(p, BrIf(l), labels) + code, depth) == AfterElse(code, depth)
  {
    if l >= |labels| {
      SkipOne(BrIf(l), code, depth);
    } else if LabelArity(labels, l) == 0 {
      SplitShort(p, l, labels, code);
      SkipShort(p.branch(0), l, code, depth);
    } else {
      SplitLong(p, l, labels, code);
      SkipLong(p.branch(1), l, code, depth);
    }
  }

  /** The code after an instruction in the metered body. */
  function Follow(p: Prices, i: Instr, rest: seq<Instr>, labels: seq<BlockType>): seq<Instr> {
    var after := LabelsAfter(i, labels);
    if StraightLine(i) then Body(p, rest, after) else Metered(p, rest, after)
  }

  lemma {:induction false} BodyUnfolds(p: Prices, code: seq<Instr>, labels: seq<BlockType>)
    requires code != []
    ensures Body(p, code, labels) == Emit(p, code[0], labels) + Follow(p, code[0], code[1..], labels)
  {
  }

  lemma {:induction false} SkipFollow(p: Prices, i: Instr, rest: seq<Instr>, labels: seq<BlockType>, depth: nat)
    ensures AfterEnd(Follow(p, i, rest, labels), depth) == AfterEnd(Body(p, rest, LabelsAfter(i, labels)), depth)
    ensures AfterElse(Follow(p, i, rest, labels), depth) == AfterElse(Body(p, rest, LabelsAfter(i, labels)), depth)
  {
    var after := LabelsAfter(i, labels);
    SkipCharge(Segment(p, rest, after), Body(p, rest, after), depth);
  }

  lemma {:induction false} SkipEmit(p: Prices, i: Instr, labels: seq<BlockType>, code: seq<Instr>, depth: nat)
    requires !Opens(i) && i != End && i != Else
    ensures AfterEnd(Emit(p, i, labels) + code, depth) == AfterEnd(code, depth)
    ensures AfterElse(Emit(p, i, labels) + code, depth) == AfterElse(code, depth)
  {
    if i.BrIf? {
      SkipBrIf(p, i.index, labels, code, depth);
    } else if i.MemoryGrow? {
      assert Emit(p, i, labels) + code == [Call(MEMORY_ALLOC)] + ([MemoryGrow] + code);
      SkipOne(Call(MEMORY_ALLOC), [MemoryGrow] + code, depth);
      SkipOne(MemoryGrow, code, depth);
    } else if i.Call? {
      SkipOne(Call(i.callee + ADDED_FUNCTIONS), code, depth);
    } else {
      SkipOne(i, code, depth);
    }
  }

  /** How far the search for the end of a block gets with the instruction. */
  lemma EndStep(p: Prices, code: seq<Instr>, labels: seq<BlockType>, depth: nat)
    requires code != []
    ensures var i, after := code[0], LabelsAfter(code[0], labels);
            var rest := Body(p, code[1..], after);
            AfterEnd(Body(p, code, labels), depth) ==
              if Opens(i) then AfterEnd(rest, depth + 1)
              else if i != End then AfterEnd(rest, depth)
              else if depth == 0 then Some(Metered(p, code[1..], after))
              else AfterEnd(rest, depth - 1)
  {
    var i, rest := code[0], code[1..];
    var follow := Follow(p, i, rest, labels);
    BodyUnfolds(p, code, labels);
    if Opens(i) {
      SkipOpening(i, follow, depth);
      SkipFollow(p, i, rest, labels, depth + 1);
    } else if i == End {
      SkipClosing(follow, depth);
      if depth > 0 {
        SkipFollow(p, i, rest, labels, depth - 1);
      }
    } else {
      if i == Else {
        SkipOne(i, follow, depth);
      } else {
        SkipEmit(p, i, labels, follow, depth);
      }
      SkipFollow(p, i, rest, labels, depth);
    }
  }

  lemma DropAfter(i: Instr, labels: seq<BlockType>, n: nat)
    ensures Opens(i) ==> Drop(LabelsAfter(i, labels), n + 1) == Drop(labels, n)
    ensures i == End ==> Drop(LabelsAfter(i, labels), n) == Drop(labels, n + 1)
    ensures !Opens(i) && i != End ==> LabelsAfter(i, labels) == labels
  {
  }

  /** A block of the metered code ends where the block of the original does. */
  lemma {:induction false} EndsCorrespond(p: Prices, code: seq<Instr>, labels: seq<BlockType>, depth: nat)
    ensures AfterEnd(Body(p, code, labels), depth) == Map(p, AfterEnd(code, depth), Drop(labels, depth + 1))
    decreases |code|
  {
    if code != [] {
      var i, rest := code[0], code[1..];
      var after := LabelsAfter(i, labels);
      EndStep(p, code, labels, depth);
      if Opens(i) {
        EndsCorrespond(p, rest, after, depth + 1);
        DropAfter(i, labels, depth + 1);
      } else if i == End {
        DropAfter(i, labels, depth);
        if depth > 0 {
          EndsCorrespond(p, rest, after, depth - 1);
        } else {
          assert Drop(after, 0) == after;
        }
      } else {
        DropAfter(i, labels, depth);
        EndsCorrespond(p, rest, after, depth);
      }
    }
  }

  lemma ElseStep(p: Prices, code: seq<Instr>, labels: seq<BlockType>, depth: nat)
    requires code != []
    ensures var i, rest := code[0], Body(p, code[1..], LabelsAfter(code[0], labels));
            AfterElse(Body(p, code, labels), depth) ==
              if Opens(i) then AfterElse(rest, depth + 1)
              else if i == Else && depth == 0 then Some(Metered(p, code[1..], labels))
              else if i != End then AfterElse(rest, depth)
              else if depth == 0 then None
              else AfterElse(rest, depth - 1)
  {
    var i, rest := code[0], code[1..];
    var follow := Follow(p, i, rest, labels);
    BodyUnfolds(p, code, labels);
    if Opens(i) {
      SkipOpening(i, follow, depth);
      SkipFollow(p, i, rest, labels, depth + 1);
    } else if i == End {
      SkipClosing(follow, depth);
      if depth > 0 {
        SkipFollow(p, i, rest, labels, depth - 1);
      }
    } else if i == Else {
      if depth == 0 {
        First(i, follow);
      } else {
        SkipOne(i, follow, depth);
        SkipFollow(p, i, rest, labels, depth);
      }
    } else {
      SkipEmit(p, i, labels, follow, depth);
      SkipFollow(p, i, rest, labels, depth);
    }
  }

  /** So does the alternative of a conditional. */
  lemma {:induction false} ElsesCorrespond(p: Prices, code: seq<Instr>, labels: seq<BlockType>, depth: nat)
    ensures AfterElse(Body(p, code, labels), depth) == Map(p, AfterElse(code, depth), Drop(labels, depth))
    decreases |code|
  {
    if code != [] {
      var i, rest := code[0], code[1..];
      var after := LabelsAfter(i, labels);
      ElseStep(p, code, labels, depth);
      DropAfter(i, labels, depth);
      if Opens(i) {
        ElsesCorrespond(p, rest, after, depth + 1);
      } else if i == End {
        if depth > 0 {
          DropAfter(i, labels, depth - 1);
          ElsesCorrespond(p, rest, after, depth - 1);
        }
      } else if i == Else && depth == 0 {
        assert Drop(labels, 0) == labels;
      } else {
        ElsesCorrespond(p, rest, after, depth);
      }
    }
  }
}
