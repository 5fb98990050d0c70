/** Tracing an account: fetching its transactions page by page, and writing one numbered line
    for each that is of interest. */
module AccountTrace {
  import opened Bytes

  datatype Outcome = Success | Reject
  datatype Origin = Own | Account | Reward
  datatype Kind =
    | InitContract | Update | SimpleTransfer | EncryptedTransfer | TransferToEncrypted
    | TransferToPublic | TransferWithSchedule | BlockReward | FinalizationReward
    | BakingReward | Mint | Uninteresting

  /** The parts of a transaction that decide what is written.  `covered`: the decrypted
      balance did not grow in an outgoing encrypted transfer. */
  datatype Transaction = Transaction(
    id: nat, outcome: Option<Outcome>, kind: Kind, origin: Origin,
    hash: Option<string>, subtotal: Option<int>, total: Option<int>,
    originAddress: Option<string>, covered: bool)

  datatype Rendered = Line | Silent | Malformed

  predicate Rejected(tx: Transaction) {
    tx.outcome == Some(Reject)
  }

  /** What the transaction is written as; `Malformed` where the tool panics. */
  function Render(tx: Transaction, hasKey: bool): Rendered {
    var needsHash := if tx.hash.Some? then Line else Malformed;
    match tx.kind
    case InitContract => if tx.subtotal.Some? then needsHash else Malformed
    case Update => if tx.subtotal.Some? then needsHash else Malformed
    case SimpleTransfer => needsHash
    case EncryptedTransfer =>
      if tx.origin == Reward then Silent
      else if tx.origin == Own && hasKey && !tx.covered then Malformed
      else needsHash
    case TransferToEncrypted => needsHash
    case TransferToPublic => needsHash
    case TransferWithSchedule =>
      if tx.origin == Own then needsHash
      else if tx.total.Some? && tx.total.value >= 0 && tx.originAddress.Some? then needsHash
      else Malformed
    case Uninteresting => Silent
    case _ => if tx.total.Some? && tx.total.value >= 0 then Line else Malformed
  }

  // ---------- What is of interest, and what it takes to write it ----------

  predicate IsReward(kind: Kind) {
    kind in {BlockReward, FinalizationReward, BakingReward, Mint}
  }

  predicate Interesting(tx: Transaction) {
    tx.kind != Uninteresting && !(tx.kind == EncryptedTransfer && tx.origin == Reward)
  }

  /** An incoming scheduled transfer or a reward states an amount received. */
  predicate StatesTotal(tx: Transaction) {
    IsReward(tx.kind) || (tx.kind == TransferWithSchedule && tx.origin != Own)
  }

  /** Something that the line would show is missing or makes no sense. */
  predicate Lacks(tx: Transaction, hasKey: bool) {
    || (tx.hash.None? && !IsReward(tx.kind))
    || (tx.subtotal.None? && tx.kind in {InitContract, Update})
    || ((tx.total.None? || tx.total.value < 0) && StatesTotal(tx))
    || (tx.originAddress.None? && StatesTotal(tx) && !IsReward(tx.kind))
    || (tx.kind == EncryptedTransfer && tx.origin == Own && hasKey && !tx.covered)
  }

  predicate HasLine(tx: Transaction, hasKey: bool) {
    tx.outcome != Some(Reject) && Interesting(tx) && !Lacks(tx, hasKey)
  }

  predicate Panics(tx: Transaction, hasKey: bool) {
    tx.outcome != Some(Reject) && Interesting(tx) && Lacks(tx, hasKey)
  }

  /** Kind by kind: a line for every interesting transaction, and a panic exactly where one lacks
      what its line would show. */
  lemma RenderIsExact(tx: Transaction, hasKey: bool)
    requires !Rejected(tx)
    ensures Render(tx, hasKey) == Line <==> HasLine(tx, hasKey)
    ensures Render(tx, hasKey) == Malformed <==> Panics(tx, hasKey)
    ensures Render(tx, hasKey) == Silent <==> !Interesting(tx)
  {
  }

  // ---------- The server ----------

  predicate Ascending(txs: seq<Transaction>) {
    forall i, j :: 0 <= i < j < |txs| ==> txs[i].id < txs[j].id
  }

  function After(txs: seq<Transaction>, from: Option<nat>): seq<Transaction> {
    if txs == [] then []
    else if from.Some? && txs[0].id <= from.value then After(txs[1..], from)
    else [txs[0]] + After(txs[1..], from)
  }

  /** The first `limit` transactions after the cursor. */
  function Page(txs: seq<Transaction>, from: Option<nat>, limit: nat): seq<Transaction> {
    var found := After(txs, from);
    if |found| <= limit then found else found[..limit]
  }

  lemma {:induction false} AfterAll(txs: seq<Transaction>, from: Option<nat>)
    requires from.None? || forall i :: 0 <= i < |txs| ==> txs[i].id > from.value
    ensures After(txs, from) == txs
  {
    if txs != [] {
      AfterAll(txs[1..], from);
    }
  }

  lemma {:induction false} AfterPrefix(txs: seq<Transaction>, k: nat)
    requires Ascending(txs) && 0 < k <= |txs|
    ensures After(txs, Some(txs[k - 1].id)) == txs[k..]
    decreases |txs|
  {
    var from := Some(txs[k - 1].id);
    assert txs[0].id <= from.value;
    if k == 1 {
      AfterAll(txs[1..], from);
    } else {
      AfterPrefix(txs[1..], k - 1);
      assert txs[1..][k - 1..] == txs[k..];
    }
  }

  // ---------- What is to be written ----------

  function Count(txs: seq<Transaction>): nat {
    if txs == [] then 0
    else Count(txs[..|txs| - 1]) + if txs[|txs| - 1].outcome == Some(Reject) then 0 else 1
  }

  datatype Entry = Entry(number: nat, id: nat)

  /** The line of the last transaction, if it has one. */
  function LastLine(txs: seq<Transaction>, hasKey: bool): seq<Entry>
    requires txs != []
  {
    var tx := txs[|txs| - 1];
    if HasLine(tx, hasKey) then [Entry(Count(txs[..|txs| - 1]), tx.id)] else []
  }

  function Trace(txs: seq<Transaction>, hasKey: bool): seq<Entry> {
    if txs == [] then [] else Trace(txs[..|txs| - 1], hasKey) + LastLine(txs, hasKey)
  }

  /** Whether the transaction has a line, and is the `i`-th. */
  predicate Writes(txs: seq<Transaction>, hasKey: bool, i: nat) {
    i < |txs| && HasLine(txs[i], hasKey)
  }

  /** The entry is the line of the `i`-th transaction. */
  predicate LineOf(txs: seq<Transaction>, hasKey: bool, i: nat, e: Entry) {
    Writes(txs, hasKey, i) && e == Entry(Count(txs[..i]), txs[i].id)
  }

  lemma LineOfFront(txs: seq<Transaction>, hasKey: bool, i: nat, e: Entry)
    requires i + 1 < |txs|
    ensures LineOf(txs[..|txs| - 1], hasKey, i, e) <==> LineOf(txs, hasKey, i, e)
  {
    assert txs[..|txs| - 1][..i] == txs[..i];
  }

  /** Exactly the transactions with a line are in the trace, each numbered by the number of
      transactions before it that were not rejected. */
  lemma {:induction false} TraceIsExact(txs: seq<Transaction>, hasKey: bool, e: Entry)
    ensures e in Trace(txs, hasKey) <==> exists i: nat :: LineOf(txs, hasKey, i, e)
  {
    if txs != [] {
      var n := |txs| - 1;
      var front := txs[..n];
      TraceIsExact(front, hasKey, e);
      if i: nat :| LineOf(front, hasKey, i, e) {
        LineOfFront(txs, hasKey, i, e);
      } else if e in LastLine(txs, hasKey) {
        assert LineOf(txs, hasKey, n, e);
      } else if i: nat :| LineOf(txs, hasKey, i, e) {
        if i < n {
          LineOfFront(txs, hasKey, i, e);
        }
      }
    }
  }

  /** Lines come in the order of the transactions, so none comes twice. */
  lemma {:induction false} TraceIsOrdered(txs: seq<Transaction>, hasKey: bool)
    requires Ascending(txs)
    ensures forall j, k :: 0 <= j < k < |Trace(txs, hasKey)| ==> Trace(txs, hasKey)[j].id < Trace(txs, hasKey)[k].id
    ensures forall e :: e in Trace(txs, hasKey) ==> e.id <= txs[|txs| - 1].id
  {
    if txs != [] {
      var front := txs[..|txs| - 1];
      TraceIsOrdered(front, hasKey);
    }
  }

  // ---------- The paging loop ----------

  /** None of the first `n` transactions makes the tool panic. */
  ghost predicate Clean(txs: seq<Transaction>, hasKey: bool, n: nat)
    requires n <= |txs|
  {
    var clean := forall i :: 0 <= i < n ==> !Panics(txs[i], hasKey);
    clean
  }

  ghost predicate Answered(fails: nat -> bool, requests: nat) {
    var answered := forall n: nat :: n < requests ==> !fails(n);
    answered
  }

  lemma AnsweredMore(fails: nat -> bool, requests: nat)
    requires Answered(fails, requests) && !fails(requests)
    ensures Answered(fails, requests + 1)
  {
  }

  lemma {:induction false} PageIsNext(txs: seq<Transaction>, from: Option<nat>, limit: nat, done: nat)
    requires done <= |txs| && After(txs, from) == txs[done..]
    ensures var page := Page(txs, from, limit);
            && |page| <= limit && done + |page| <= |txs|
            && page == txs[done..done + |page|]
            && (|page| < limit ==> done + |page| == |txs|)
  {
  }

  datatype End = Finished | RequestFailed | Panicked

  lemma {:induction false} FailedEarly(txs: seq<Transaction>, limit: nat, fails: nat -> bool, k: nat, done: nat)
    requires limit >= 1 && done <= |txs| && done == FullPages(k, limit) && fails(k)
    ensures done == k * limit && !Answered(fails, |txs| / limit + 1)
  {
    FullPagesProduct(k, limit);
    NoMorePages(|txs|, limit, k);
  }

  lemma {:induction false} FinishedLast(n: nat, limit: nat, full: nat)
    requires limit >= 1 && FullPages(full, limit) <= n < FullPages(full, limit) + limit
    ensures full == n / limit
  {
    FullPagesProduct(full, limit);
    Pages(n, limit, full);
  }

  /** The first `done` transactions have been written, and none of them made the tool panic. */
  ghost predicate Written(txs: seq<Transaction>, hasKey: bool, number: nat, lines: seq<Entry>, done: nat)
    requires done <= |txs|
  {
    var written := number == Count(txs[..done]) && lines == Trace(txs[..done], hasKey) && Clean(txs, hasKey, done);
    written
  }

  /** The cursor stands just before the transaction numbered `done`. */
  ghost predicate StandsAt(txs: seq<Transaction>, from: Option<nat>, done: nat)
    requires done <= |txs|
  {
    var stands := After(txs, from) == txs[done..];
    stands
  }

  lemma StandsAtStart(txs: seq<Transaction>, hasKey: bool)
    ensures StandsAt(txs, None, 0) && Written(txs, hasKey, 0, [], 0)
  {
    AfterAll(txs, None);
  }

  /** `trace_single_account` once the account is known to exist.  `fails(n)` says whether the
      `n`-th request gets no proper answer; `done` is the number of transactions handled.  It is all
      of them exactly if no request that this takes fails and no transaction makes the tool panic. */
  method TraceAccount(txs: seq<Transaction>, limit: nat, fails: nat -> bool, hasKey: bool)
    returns (lines: seq<Entry>, requests: nat, done: nat, end: End)
    requires Ascending(txs) && limit >= 1
    ensures done <= |txs| && lines == Trace(txs[..done], hasKey) && Clean(txs, hasKey, done)
    ensures end == Finished <==> Answered(fails, |txs| / limit + 1) && Clean(txs, hasKey, |txs|)
    ensures end == Finished ==> done == |txs| && requests == |txs| / limit + 1
    ensures end == RequestFailed ==> requests >= 1 && fails(requests - 1) && done == (requests - 1) * limit
    ensures end == Panicked ==> done < |txs| && Panics(txs[done], hasKey)
  {
    lines, requests, done, end := RequestPages(txs, limit, fails, hasKey);
    if end == Finished {
      FinishedLast(|txs|, limit, requests - 1);
    } else if end == RequestFailed {
      FailedEarly(txs, limit, fails, requests - 1, done);
    }
  }

  /** The loop over the pages. */
  method RequestPages(txs: seq<Transaction>, limit: nat, fails: nat -> bool, hasKey: bool)
    returns (lines: seq<Entry>, requests: nat, done: nat, end: End)
    requires Ascending(txs) && limit >= 1
    ensures requests >= 1 && done <= |txs| && lines == Trace(txs[..done], hasKey) && Clean(txs, hasKey, done)
    ensures end == Finished ==>
      && done == |txs| && Answered(fails, requests)
      && FullPages(requests - 1, limit) <= done < FullPages(requests - 1, limit) + limit
    ensures end == RequestFailed ==> fails(requests - 1) && done == FullPages(requests - 1, limit)
    ensures end == Panicked ==> done < |txs| && Panics(txs[done], hasKey)
  {
    var init: Option<nat> := None;
    var i := 0;
    lines, requests, done := [], 0, 0;
    StandsAtStart(txs, hasKey);
    while true
      invariant done == FullPages(requests, limit) && done <= |txs|
      invariant StandsAt(txs, init, done) && Written(txs, hasKey, i, lines, done)
      invariant Answered(fails, requests)
      decreases |txs| - done
    {
      var failed := fails(requests);
      requests := requests + 1;
      if failed {
        return lines, requests, done, RequestFailed;
      }
      AnsweredMore(fails, requests - 1);
      var next;
      lines, i, done, next := HandleResponse(txs, init, limit, hasKey, lines, i, done);
      match next {
        case Stop(e) => return lines, requests, done, e;
        case Continue(cursor) => init := Some(cursor);
      }
    }
  }

  datatype Next = Continue(cursor: nat) | Stop(end: End)

  /** One good response: write its transactions, and go on from the last of a full page. */
  method HandleResponse(txs: seq<Transaction>, from: Option<nat>, limit: nat, hasKey: bool,
                        before: seq<Entry>, number: nat, start: nat)
    returns (lines: seq<Entry>, i: nat, done: nat, next: Next)
    requires Ascending(txs) && limit >= 1 && start <= |txs| && StandsAt(txs, from, start)
    requires Written(txs, hasKey, number, before, start)
    ensures start <= done <= |txs| && Written(txs, hasKey, i, lines, done)
    ensures next.Continue? ==> done == start + limit && StandsAt(txs, Some(next.cursor), done)
    ensures next.Stop? ==> next.end != RequestFailed
    ensures next == Stop(Finished) ==> done == |txs| && done < start + limit
    ensures next == Stop(Panicked) ==>
      done < |txs| && Panics(txs[done], hasKey)
  {
    var page := Page(txs, from, limit);
    PageIsNext(txs, from, limit, start);
    var panicked;
    lines, i, done, panicked := WritePage(txs, page, hasKey, before, number, start);
    if panicked {
      return lines, i, done, Stop(Panicked);
    }
    if |page| == limit {
      AfterPrefix(txs, done);
      return lines, i, done, Continue(page[|page| - 1].id);
    }
    return lines, i, done, Stop(Finished);
  }

  /** The transactions on so many full pages. */
  function FullPages(n: nat, limit: nat): nat {
    if n == 0 then 0 else FullPages(n - 1, limit) + limit
  }

  lemma {:induction false} FullPagesProduct(n: nat, limit: nat)
    ensures FullPages(n, limit) == n * limit
  {
    if n > 0 {
      FullPagesProduct(n - 1, limit);
      assert n * limit == (n - 1) * limit + limit;
    }
  }

  /** The number of full pages. */
  lemma Pages(n: nat, limit: nat, full: nat)
    requires limit >= 1 && full * limit <= n < full * limit + limit
    ensures n / limit == full
  {
    var q := n / limit;
    assert q * limit <= n < q * limit + limit;
    if q < full {
      Monotone(q + 1, full, limit);
    } else if full < q {
      Monotone(full + 1, q, limit);
    }
  }

  lemma NoMorePages(n: nat, limit: nat, full: nat)
    requires limit >= 1 && full * limit <= n
    ensures full <= n / limit
  {
    var q := n / limit;
    assert n < q * limit + limit;
    if q < full {
      Monotone(q + 1, full, limit);
    }
  }

  lemma Monotone(a: nat, b: nat, c: nat)
    requires a <= b
    ensures a * c <= b * c
  {
  }

  /** What one more transaction adds. */
  lemma {:induction false} OneMore(txs: seq<Transaction>, hasKey: bool, n: nat)
    requires n < |txs|
    ensures Count(txs[..n + 1]) == Count(txs[..n]) + if Rejected(txs[n]) then 0 else 1
    ensures Trace(txs[..n + 1], hasKey)
         == Trace(txs[..n], hasKey) + if HasLine(txs[n], hasKey) then [Entry(Count(txs[..n]), txs[n].id)] else []
  {
    assert txs[..n + 1][..n] == txs[..n];
  }

  lemma WrittenMore(txs: seq<Transaction>, hasKey: bool, i: nat, lines: seq<Entry>, n: nat)
    requires n < |txs| && Written(txs, hasKey, i, lines, n) && !Panics(txs[n], hasKey)
    ensures Rejected(txs[n]) ==> Written(txs, hasKey, i, lines, n + 1)
    ensures !Rejected(txs[n]) ==>
      Written(txs, hasKey, i + 1, lines + if HasLine(txs[n], hasKey) then [Entry(i, txs[n].id)] else [], n + 1)
  {
    OneMore(txs, hasKey, n);
  }

  /** The loop over one page: the next transactions, up to the first malformed one. */
  method WritePage(ghost txs: seq<Transaction>, page: seq<Transaction>, hasKey: bool,
                   before: seq<Entry>, number: nat, start: nat)
    returns (lines: seq<Entry>, i: nat, done: nat, panicked: bool)
    requires start + |page| <= |txs| && forall k :: 0 <= k < |page| ==> page[k] == txs[start + k]
    requires Written(txs, hasKey, number, before, start)
    ensures start <= done <= |txs| && Written(txs, hasKey, i, lines, done)
    ensures !panicked ==> done == start + |page|
    ensures panicked ==> done < |txs| && Panics(txs[done], hasKey)
  {
    lines, i, done := before, number, start;
    for k := 0 to |page|
      invariant done == start + k
      invariant Written(txs, hasKey, i, lines, done)
    {
      var tx := page[k];
      if !Panics(txs[done], hasKey) {
        WrittenMore(txs, hasKey, i, lines, done);
      }
      if !Rejected(tx) {
        RenderIsExact(tx, hasKey);
        match Render(tx, hasKey) {
          case Malformed => return lines, i, done, true;
          case Silent =>
          case Line => lines := lines + [Entry(i, tx.id)];
        }
        i := i + 1;
      }
      done := done + 1;
    }
    panicked := false;
  }
}
