/** Runs in which no key is created twice: what a wallet that polls for its identity is told,
    what a restart preserves, and how records and objects agree. */
module IdentityOnce {
  import opened Bytes
  import opened IdentityStore
  import opened IdentityProtocol
  import opened IdentityProofs
  import Base16

  // ---------- The invariant ----------

  /** How far the one creation handler of a key has got shows in the store. */
  ghost predicate PhaseOk(s: Store, t: Task) {
    match t
    case Fetching(_, key, _) => key !in s.revocation && key !in s.identity
    case Signed(_, key, _) => key !in s.revocation && key !in s.identity
    case Revocable(_, key, obj) =>
      key !in s.identity && key in s.revocation && s.revocation[key] == RecordOf(obj)
    case Submitting(key, _) => key in s.identity
    case _ => true
  }

  ghost predicate CreatorOk(s: System, t: Task) {
    Creating(t) ==> t.key in s.history.created && t.key !in s.history.recorded && PhaseOk(s.store, t)
  }

  ghost predicate CreatorsOk(s: System) {
    && (forall i :: i in s.tasks ==> CreatorOk(s, s.tasks[i]))
    && (forall i, j | i in s.tasks && j in s.tasks && Creating(s.tasks[i]) && Creating(s.tasks[j]) ::
          s.tasks[i].key == s.tasks[j].key ==> i == j)
  }

  ghost predicate KeysOk(s: System) {
    && (forall k | k in s.store.revocation || k in s.store.identity || k in s.history.recorded ::
          k in s.history.created)
    && (forall k :: k in s.history.created ==> Base16.SafeKey(k))
  }

  /** A live revocation record is the one of the live identity object. */
  ghost predicate RecordsAgree(s: Store) {
    forall k :: k in s.identity && k in s.revocation ==> s.revocation[k] == RecordOf(s.identity[k])
  }

  /** A recorded key is pending until it is settled, in one of two exclusive ways; its
      object is there unless it was moved away. */
  ghost predicate Lifecycle(s: System) {
    var h := s.history;
    && s.store.pending.Keys <= h.recorded
    && h.finalized <= h.recorded && h.rejected <= h.recorded && h.moved <= h.rejected
    && h.finalized !! h.rejected
    && (forall k :: k in h.recorded ==> (k in s.store.pending <==> !IsSettled(h, k)))
    && (forall k :: k in h.recorded ==> (k in s.store.identity <==> k !in h.moved))
  }

  /** The status on file is the one in memory, or says to submit again. */
  ghost predicate StatusOnFile(s: Store) {
    forall k :: k in s.pending && k in s.pendingFiles ==>
      s.pendingFiles[k].status == CouldNotSubmit || s.pendingFiles[k].status == s.pending[k].status
  }

  ghost predicate ResubmitterOk(s: System, t: Task) {
    t.Resubmitting? ==>
      && t.key in s.history.recorded
      && (t.key in s.store.pendingFiles ==> s.store.pendingFiles[t.key].status == CouldNotSubmit)
  }

  ghost predicate StatusOk(s: System) {
    StatusOnFile(s.store) && forall i :: i in s.tasks ==> ResubmitterOk(s, s.tasks[i])
  }

  /** What a poll is told.  If its pending check came after the recording: Pending exactly while
      the key is unsettled, Error exactly if its object has been moved away.  If it came before:
      never Pending, and Done only for a key that is being created. */
  ghost predicate AnswerSound(h: History, a: Answer) {
    if a.late then
      && a.key in h.recorded
      && (a.settled ==> IsSettled(h, a.key))
      && (a.status == Pending <==> !a.settled)
      && (a.status == Error <==> a.settled && a.key in h.moved)
    else
      && !a.settled && a.status != Pending
      && (a.status == Done ==> a.key in h.created)
  }

  ghost predicate ReaderOk(h: History, t: Task) {
    t.Reading? ==>
      && t.settled == t.late
      && (t.late ==> t.key in h.recorded && IsSettled(h, t.key))
  }

  ghost predicate PollsOk(s: System) {
    && (forall i :: i in s.tasks ==> ReaderOk(s.history, s.tasks[i]))
    && (forall a :: a in s.history.answers ==> AnswerSound(s.history, a))
  }

  ghost predicate OnceInvariant(cfg: Config, s: System) {
    && Invariant(cfg, s)
    && CreatorsOk(s) && KeysOk(s) && RecordsAgree(s.store)
    && Lifecycle(s) && StatusOk(s) && PollsOk(s)
  }

  // ---------- Every step keeps it ----------

  lemma KeysOkStep(cfg: Config, s: System, l: Label)
    requires Enabled(cfg, true, s, l) && CreatorsOk(s) && KeysOk(s) && TasksSound(cfg, s)
    ensures KeysOk(Step(cfg, true, s, l))
  {
    if Actor(l).Some? && l.id in s.tasks {
      assert CreatorOk(s, s.tasks[l.id]) && TaskProvenance(cfg, s.history, s.tasks[l.id]);
    }
  }

  /** A key that is not pending and not being created by the acting handler stays as it is. */
  lemma UntouchedKey(cfg: Config, once: bool, s: System, l: Label, k: Key)
    requires Enabled(cfg, once, s, l) && TasksSound(cfg, s)
    requires k !in s.store.pending
    requires Actor(l).Some? && l.id in s.tasks && Creating(s.tasks[l.id]) ==> s.tasks[l.id].key != k
    ensures Untouched(s, Step(cfg, once, s, l), k)
  {
    if Quiet(l) {
      QuietStep(cfg, once, s, l);
    } else if l.SaveRevocation? || l.SaveObject? || l.FirstSubmission? {
      assert TaskProvenance(cfg, s.history, s.tasks[l.id]);
      CreationLeavesOthers(cfg, once, s, l, k);
    } else {
      RemovalLeavesOthers(cfg, once, s, l, k);
    }
  }

  ghost predicate Untouched(s: System, s': System, k: Key) {
    && SameAt(s.store.revocation, s'.store.revocation, k)
    && SameAt(s.store.identity, s'.store.identity, k)
    && (k in s.history.recorded <==> k in s'.history.recorded)
    && (k in s.history.created ==> k in s'.history.created)
  }

  lemma CreationLeavesOthers(cfg: Config, once: bool, s: System, l: Label, k: Key)
    requires Enabled(cfg, once, s, l) && (l.SaveRevocation? || l.SaveObject? || l.FirstSubmission?)
    requires s.tasks[l.id].key != k && TaskProvenance(cfg, s.history, s.tasks[l.id])
    ensures Untouched(s, Step(cfg, once, s, l), k)
  {
  }

  lemma RemovalLeavesOthers(cfg: Config, once: bool, s: System, l: Label, k: Key)
    requires Enabled(cfg, once, s, l) && (l.Resubmission? || l.QueryStatus? || l.Restart?)
    requires k !in s.store.pending
    ensures Untouched(s, Step(cfg, once, s, l), k)
  {
    if l.Resubmission? {
      ResubmissionStep(cfg, once, s, l);
      DeleteAllElsewhere(s.store, s.tasks[l.id].key, l.revocationOk, l.identityOk, k);
    }
  }

  /** A handler other than the acting one keeps its phase. */
  lemma OtherCreatorOk(cfg: Config, s: System, l: Label, i: TaskId)
    requires Enabled(cfg, true, s, l) && CreatorsOk(s) && TasksSound(cfg, s)
    requires s.store.pending.Keys <= s.history.recorded
    requires i in s.tasks && Actor(l) != Some(i)
    ensures CreatorOk(Step(cfg, true, s, l), s.tasks[i])
  {
    var t := s.tasks[i];
    assert CreatorOk(s, t);
    if Creating(t) {
      UntouchedKey(cfg, true, s, l, t.key);
    }
  }

  lemma ActingCreatorOk(cfg: Config, s: System, l: Label, i: TaskId)
    requires Enabled(cfg, true, s, l) && CreatorsOk(s) && KeysOk(s) && TasksSound(cfg, s)
    requires Actor(l) == Some(i) && i in Step(cfg, true, s, l).tasks
    ensures CreatorOk(Step(cfg, true, s, l), Step(cfg, true, s, l).tasks[i])
  {
    if i in s.tasks {
      assert CreatorOk(s, s.tasks[i]) && TaskProvenance(cfg, s.history, s.tasks[i]);
    }
  }

  lemma CreatorsOkStep(cfg: Config, s: System, l: Label)
    requires Enabled(cfg, true, s, l) && CreatorsOk(s) && KeysOk(s) && TasksSound(cfg, s)
    requires s.store.pending.Keys <= s.history.recorded
    ensures CreatorsOk(Step(cfg, true, s, l))
  {
    var s' := Step(cfg, true, s, l);
    StepFrame(cfg, true, s, l);
    forall i | i in s'.tasks ensures CreatorOk(s', s'.tasks[i]) {
      if Actor(l) == Some(i) {
        ActingCreatorOk(cfg, s, l, i);
      } else {
        OtherCreatorOk(cfg, s, l, i);
      }
    }
    forall i, j | i in s'.tasks && j in s'.tasks && Creating(s'.tasks[i]) && Creating(s'.tasks[j])
                  && s'.tasks[i].key == s'.tasks[j].key
      ensures i == j
    {
      SoleCreator(cfg, s, l, i);
      SoleCreator(cfg, s, l, j);
    }
  }

  /** A handler that creates was creating the same key before, or read the first request for it. */
  lemma SoleCreator(cfg: Config, s: System, l: Label, i: TaskId)
    requires Enabled(cfg, true, s, l) && CreatorsOk(s)
    requires i in Step(cfg, true, s, l).tasks && Creating(Step(cfg, true, s, l).tasks[i])
    ensures var key := Step(cfg, true, s, l).tasks[i].key;
            || (i in s.tasks && Creating(s.tasks[i]) && s.tasks[i].key == key && CreatorOk(s, s.tasks[i]))
            || (l.Create? && l.id == i && l.key == key && key !in s.history.created)
  {
    StepFrame(cfg, true, s, l);
  }

  lemma RecordsAgreeStep(cfg: Config, s: System, l: Label)
    requires Enabled(cfg, true, s, l) && CreatorsOk(s) && RecordsAgree(s.store) && TasksSound(cfg, s)
    ensures RecordsAgree(Step(cfg, true, s, l).store)
  {
    if Actor(l).Some? && l.id in s.tasks {
      assert CreatorOk(s, s.tasks[l.id]) && TaskProvenance(cfg, s.history, s.tasks[l.id]);
    }
  }

  /** Only the steps that write or remove a pending entry, store an object or restart
      concern the life of a key. */
  lemma LifecycleStep(cfg: Config, s: System, l: Label)
    requires Enabled(cfg, true, s, l) && CreatorsOk(s) && Lifecycle(s) && PendingMirrored(s.store)
    ensures Lifecycle(Step(cfg, true, s, l))
  {
    if Quiet(l) {
      QuietStep(cfg, true, s, l);
    } else if l.FirstSubmission? || l.SaveObject? {
      assert CreatorOk(s, s.tasks[l.id]);
      CreationStep(cfg, s, l);
    } else if l.Resubmission? {
      RejectionStep(cfg, s, l);
    } else if l.QueryStatus? {
      FinalizationStep(cfg, s, l);
    }
  }

  lemma CreationStep(cfg: Config, s: System, l: Label)
    requires Enabled(cfg, true, s, l) && (l.FirstSubmission? || l.SaveObject?) && Lifecycle(s)
    requires CreatorOk(s, s.tasks[l.id])
    ensures Lifecycle(Step(cfg, true, s, l))
  {
  }

  lemma FinalizationStep(cfg: Config, s: System, l: Label)
    requires Enabled(cfg, true, s, l) && l.QueryStatus? && Lifecycle(s)
    ensures Lifecycle(Step(cfg, true, s, l))
  {
  }

  lemma RejectionStep(cfg: Config, s: System, l: Label)
    requires Enabled(cfg, true, s, l) && l.Resubmission? && Lifecycle(s)
    ensures Lifecycle(Step(cfg, true, s, l))
  {
  }

  lemma StatusOnFileStep(cfg: Config, s: System, l: Label)
    requires Enabled(cfg, true, s, l) && StatusOnFile(s.store) && PendingMirrored(s.store)
    requires l.Resubmission? ==> ResubmitterOk(s, s.tasks[l.id])
    ensures StatusOnFile(Step(cfg, true, s, l).store)
  {
    if Quiet(l) {
      QuietStep(cfg, true, s, l);
    }
  }

  lemma ResubmitterOkStep(cfg: Config, s: System, l: Label, t: Task)
    requires Enabled(cfg, true, s, l) && Lifecycle(s) && CreatorsOk(s) && ResubmitterOk(s, t)
    ensures ResubmitterOk(Step(cfg, true, s, l), t)
  {
    if Quiet(l) {
      QuietStep(cfg, true, s, l);
    } else if l.FirstSubmission? {
      assert CreatorOk(s, s.tasks[l.id]);
    }
  }

  lemma StatusOkStep(cfg: Config, s: System, l: Label)
    requires Enabled(cfg, true, s, l) && CreatorsOk(s) && StatusOk(s) && Lifecycle(s) && PendingMirrored(s.store)
    ensures StatusOk(Step(cfg, true, s, l))
  {
    var s' := Step(cfg, true, s, l);
    StepFrame(cfg, true, s, l);
    if l.Resubmission? {
      assert ResubmitterOk(s, s.tasks[l.id]);
    }
    StatusOnFileStep(cfg, s, l);
    forall i | i in s'.tasks ensures ResubmitterOk(s', s'.tasks[i]) {
      if Actor(l) != Some(i) {
        ResubmitterOkStep(cfg, s, l, s.tasks[i]);
      } else if l.Poll? {
        QuietStep(cfg, true, s, l);
      }
    }
  }

  lemma PollsOkStep(cfg: Config, s: System, l: Label)
    requires Enabled(cfg, true, s, l) && Lifecycle(s) && KeysOk(s) && PollsOk(s)
    ensures PollsOk(Step(cfg, true, s, l))
  {
    var s' := Step(cfg, true, s, l);
    StepFrame(cfg, true, s, l);
    forall i | i in s'.tasks ensures ReaderOk(s'.history, s'.tasks[i]) {
      if i in s.tasks {
        assert ReaderOk(s.history, s.tasks[i]);
      }
    }
    forall a | a in s'.history.answers ensures AnswerSound(s'.history, a) {
      if a in s.history.answers {
        AnswerStaysSound(cfg, s, l, a);
      } else {
        assert ReaderOk(s.history, s.tasks[l.id]);
      }
    }
  }

  lemma AnswerStaysSound(cfg: Config, s: System, l: Label, a: Answer)
    requires Enabled(cfg, true, s, l) && Lifecycle(s) && AnswerSound(s.history, a)
    ensures AnswerSound(Step(cfg, true, s, l).history, a)
  {
  }

  lemma OnceInvariantStep(cfg: Config, s: System, l: Label)
    requires OnceInvariant(cfg, s) && Enabled(cfg, true, s, l)
    ensures OnceInvariant(cfg, Step(cfg, true, s, l))
  {
    InvariantStep(cfg, true, s, l);
    KeysOkStep(cfg, s, l);
    CreatorsOkStep(cfg, s, l);
    RecordsAgreeStep(cfg, s, l);
    LifecycleStep(cfg, s, l);
    StatusOkStep(cfg, s, l);
    PollsOkStep(cfg, s, l);
  }

  lemma {:induction false} OnceInvariantRun(cfg: Config, s: System, run: seq<Label>)
    requires OnceInvariant(cfg, s) && Run(cfg, true, s, run).Some?
    ensures OnceInvariant(cfg, Run(cfg, true, s, run).value)
    decreases |run|
  {
    if run != [] {
      OnceInvariantStep(cfg, s, run[0]);
      OnceInvariantRun(cfg, Step(cfg, true, s, run[0]), run[1..]);
    }
  }
}
