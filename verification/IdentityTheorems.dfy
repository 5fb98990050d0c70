/** The promises of the identity issuance service, over all its runs. */
module IdentityTheorems {
  import opened Bytes
  import opened IdentityStore
  import opened IdentityProtocol
  import opened IdentityProofs
  import opened IdentityOnce
  import Base16

  // ---------- Events of a run ----------

  /** Some step of the run is one that `event` picks out, given the state before it. */
  ghost predicate Occurs(cfg: Config, once: bool, s: System, run: seq<Label>, event: (System, Label) -> bool)
    decreases |run|
  {
    && run != []
    && Enabled(cfg, once, s, run[0])
    && (event(s, run[0]) || Occurs(cfg, once, Step(cfg, once, s, run[0]), run[1..], event))
  }

  /** A poll learns from the wallet proxy that the account creation for `k` is finalized. */
  ghost function SeesFinalized(k: Key): (System, Label) -> bool {
    (s: System, l: Label) =>
      && l.QueryStatus? && l.reply == Some(Finalized)
      && l.id in s.tasks && s.tasks[l.id].Querying? && s.tasks[l.id].key == k
  }

  /** A poll resubmits the account creation for `k` and has it rejected. */
  ghost function SeesRejection(k: Key): (System, Label) -> bool {
    (s: System, l: Label) =>
      && l.Resubmission? && l.answer == BadRequest
      && l.id in s.tasks && s.tasks[l.id].Resubmitting? && s.tasks[l.id].key == k
  }

  /** A creation handler writes the pending entry of `k`. */
  ghost function RecordsPending(k: Key): (System, Label) -> bool {
    (s: System, l: Label) =>
      && l.FirstSubmission? && l.answer != BadRequest
      && l.id in s.tasks && s.tasks[l.id].Submitting? && s.tasks[l.id].key == k
  }

  /** A rejected resubmission for `k` fails to rename the identity object into the backup directory. */
  ghost function RenameFails(k: Key): (System, Label) -> bool {
    (s: System, l: Label) =>
      && l.Resubmission? && l.answer == BadRequest && !l.identityOk
      && l.id in s.tasks && s.tasks[l.id].Resubmitting? && s.tasks[l.id].key == k
  }

  lemma {:induction false} FinalizedWasSeen(cfg: Config, once: bool, s: System, run: seq<Label>, k: Key)
    requires Run(cfg, once, s, run).Some?
    requires k in Run(cfg, once, s, run).value.history.finalized
    ensures k in s.history.finalized || Occurs(cfg, once, s, run, SeesFinalized(k))
    decreases |run|
  {
    if run != [] {
      FinalizedWasSeen(cfg, once, Step(cfg, once, s, run[0]), run[1..], k);
    }
  }

  lemma {:induction false} RejectedWasSeen(cfg: Config, once: bool, s: System, run: seq<Label>, k: Key)
    requires Run(cfg, once, s, run).Some?
    requires k in Run(cfg, once, s, run).value.history.rejected
    ensures k in s.history.rejected || Occurs(cfg, once, s, run, SeesRejection(k))
    decreases |run|
  {
    if run != [] {
      RejectedWasSeen(cfg, once, Step(cfg, once, s, run[0]), run[1..], k);
    }
  }

  lemma {:induction false} RejectedIsMoved(cfg: Config, s: System, run: seq<Label>, k: Key)
    requires OnceInvariant(cfg, s) && (k in s.history.rejected ==> k in s.history.moved)
    requires Run(cfg, true, s, run).Some? && !Occurs(cfg, true, s, run, RenameFails(k))
    ensures k in Run(cfg, true, s, run).value.history.rejected ==> k in Run(cfg, true, s, run).value.history.moved
    decreases |run|
  {
    if run != [] {
      var s' := Step(cfg, true, s, run[0]);
      RejectionMoves(cfg, s, run[0], k);
      OnceInvariantStep(cfg, s, run[0]);
      RejectedIsMoved(cfg, s', run[1..], k);
    }
  }

  lemma RejectionMoves(cfg: Config, s: System, l: Label, k: Key)
    requires Enabled(cfg, true, s, l) && Lifecycle(s) && (k in s.history.rejected ==> k in s.history.moved)
    requires !RenameFails(k)(s, l)
    ensures var h := Step(cfg, true, s, l).history; k in h.rejected ==> k in h.moved
  {
    if Quiet(l) {
      QuietStep(cfg, true, s, l);
    }
  }

  lemma InitialInvariant(cfg: Config)
    ensures OnceInvariant(cfg, Initial)
  {
  }

  // ---------- What a polling wallet is told ----------

  /** Version 0 polls, in every run that creates no key twice.  Once a key has been recorded
      as pending, a poll is told Pending exactly as long as the key is unsettled, and Error
      exactly if its object was moved away after a rejected resubmission.  Otherwise it is
      told Done: then finalization was seen, or a rejection whose rename failed. */
  lemma {:induction false} PollAnswers(cfg: Config, run: seq<Label>, s: System, a: Answer)
    requires Run(cfg, true, Initial, run) == Some(s)
    requires a in s.history.answers && a.late
    ensures a.key in s.history.recorded
    ensures a.status == Pending <==> !a.settled
    ensures a.status == Error <==> a.settled && a.key in s.history.moved
    ensures a.status == Done <==> a.settled && a.key !in s.history.moved
    ensures a.status == Error ==> Occurs(cfg, true, Initial, run, SeesRejection(a.key))
    ensures a.status == Done ==>
      || Occurs(cfg, true, Initial, run, SeesFinalized(a.key))
      || Occurs(cfg, true, Initial, run, RenameFails(a.key))
  {
    InitialInvariant(cfg);
    OnceInvariantRun(cfg, Initial, run);
    assert AnswerSound(s.history, a);
    if a.settled {
      if a.key in s.history.finalized {
        FinalizedWasSeen(cfg, true, Initial, run, a.key);
      } else {
        RejectedWasSeen(cfg, true, Initial, run, a.key);
        if !Occurs(cfg, true, Initial, run, RenameFails(a.key)) {
          RejectedIsMoved(cfg, Initial, run, a.key);
        }
      }
    }
  }

  /** When moreover no rename of the key's object failed, Done means that finalization was seen
      and Error that a resubmission was rejected. */
  lemma {:induction false} PollAnswersWithBackup(cfg: Config, run: seq<Label>, s: System, a: Answer)
    requires Run(cfg, true, Initial, run) == Some(s)
    requires a in s.history.answers && a.late && !Occurs(cfg, true, Initial, run, RenameFails(a.key))
    ensures a.status == Done <==> a.settled && a.key in s.history.finalized
    ensures a.status == Error <==> a.settled && a.key in s.history.rejected
    ensures a.status == Done ==> Occurs(cfg, true, Initial, run, SeesFinalized(a.key))
  {
    InitialInvariant(cfg);
    OnceInvariantRun(cfg, Initial, run);
    RejectedIsMoved(cfg, Initial, run, a.key);
    PollAnswers(cfg, run, s, a);
    assert AnswerSound(s.history, a);
    if a.key in s.history.finalized {
      FinalizedWasSeen(cfg, true, Initial, run, a.key);
    }
  }

  /** Every poll, early or late: one that is told Done has been told so because of a finalization if
      and only if its pending check came after the recording and the key was not rejected. */
  lemma {:induction false} DoneMeansFinalized(cfg: Config, run: seq<Label>, s: System, a: Answer)
    requires Run(cfg, true, Initial, run) == Some(s)
    requires a in s.history.answers && a.status == Done
    ensures a.settled && a.key in s.history.finalized <==> a.late && a.key !in s.history.rejected
  {
    InitialInvariant(cfg);
    OnceInvariantRun(cfg, Initial, run);
    assert AnswerSound(s.history, a);
  }

  /** A poll whose pending check came before the recording is never told Pending, and is told Done
      only for a key that a creation handler has started on. */
  lemma {:induction false} EarlyPollAnswers(cfg: Config, run: seq<Label>, s: System, a: Answer)
    requires Run(cfg, true, Initial, run) == Some(s)
    requires a in s.history.answers && !a.late
    ensures !a.settled && a.status != Pending
    ensures a.status == Done ==> a.key in s.history.created
  {
    InitialInvariant(cfg);
    OnceInvariantRun(cfg, Initial, run);
    assert AnswerSound(s.history, a);
  }

  // All three conditions are needed: an early poll, a failed rename and a second creation of the
  // key can each yield Done although no poll ever saw the account finalized.

  lemma {:induction false} RunExtends(cfg: Config, once: bool, s: System, run: seq<Label>, l: Label)
    requires Run(cfg, once, s, run).Some? && Enabled(cfg, once, Run(cfg, once, s, run).value, l)
    ensures Run(cfg, once, s, run + [l]) == Some(Step(cfg, once, Run(cfg, once, s, run).value, l))
    decreases |run|
  {
    if run == [] {
      assert (run + [l])[1..] == [];
    } else {
      assert (run + [l])[1..] == run[1..] + [l];
      RunExtends(cfg, once, Step(cfg, once, s, run[0]), run[1..], l);
    }
  }

  const ZEROS: seq<Byte> := seq(32, i => 0)
  const SAMPLE_CONFIG := Config((x: seq<Byte>) => ZEROS, (r: Request) => true)
  const SAMPLE_REQUEST := Request(V0, 0, [], map[], 1, "", "")
  const SAMPLE_KEY: Key := Base16.Encode(ZEROS)

  /** No rename in the run fails. */
  ghost predicate RenamesSucceed(run: seq<Label>) {
    forall l :: l in run && l.Resubmission? ==> l.revocationOk && l.identityOk
  }

  lemma {:induction false} NoRenameFails(cfg: Config, once: bool, s: System, run: seq<Label>, k: Key)
    requires RenamesSucceed(run)
    ensures !Occurs(cfg, once, s, run, RenameFails(k))
    decreases |run|
  {
    if run != [] && Enabled(cfg, once, s, run[0]) {
      assert run[0] in run && RenamesSucceed(run[1..]);
      NoRenameFails(cfg, once, Step(cfg, once, s, run[0]), run[1..], k);
    }
  }

  /** The sample run so far. */
  ghost predicate Sampled(cfg: Config, once: bool, run: seq<Label>, s: System) {
    && Run(cfg, once, Initial, run) == Some(s)
    && s.history.finalized == {} && s.history.answers == []
  }

  lemma Advance(once: bool, run: seq<Label>, s: System, l: Label) returns (run': seq<Label>, s': System)
    requires Run(SAMPLE_CONFIG, once, Initial, run) == Some(s) && Enabled(SAMPLE_CONFIG, once, s, l)
    ensures run' == run + [l] && s' == Step(SAMPLE_CONFIG, once, s, l)
    ensures Run(SAMPLE_CONFIG, once, Initial, run') == Some(s')
    ensures RenamesSucceed(run) && (l.Resubmission? ==> l.revocationOk && l.identityOk) ==> RenamesSucceed(run')
  {
    RunExtends(SAMPLE_CONFIG, once, Initial, run, l);
    run', s' := run + [l], Step(SAMPLE_CONFIG, once, s, l);
  }

  lemma SampleKeyIsSafe()
    ensures Base16.SafeKey(SAMPLE_KEY) && KeyOf(SAMPLE_CONFIG, SAMPLE_REQUEST) == SAMPLE_KEY
  {
    Base16.DecodeEncode(ZEROS);
  }

  lemma SampleAccepted() returns (run: seq<Label>, s: System)
    ensures Sampled(SAMPLE_CONFIG, true, run, s) && RenamesSucceed(run)
    ensures s.tasks == map[0 := Validated(SAMPLE_REQUEST)] && s.store == EmptyStore && s.verifier == map[]
    ensures s.history == Initial.history.(accepted := {SAMPLE_REQUEST})
  {
    SampleKeyIsSafe();
    run, s := Advance(true, [], Initial, RequestIdentity(0, SAMPLE_REQUEST));
  }

  lemma SampleSaved() returns (run: seq<Label>, s: System)
    ensures Sampled(SAMPLE_CONFIG, true, run, s) && RenamesSucceed(run)
    ensures s.tasks == map[] && s.store == EmptyStore.(requests := map[SAMPLE_KEY := SAMPLE_REQUEST])
    ensures s.history == Initial.history.(accepted := {SAMPLE_REQUEST}, signed := {ZEROS})
  {
    run, s := SampleAccepted();
    run, s := Advance(true, run, s, SaveRequest(0));
  }

  /** The request can be read and its attributes fetched. */
  ghost predicate Creatable(s: System, k: Key) {
    ReadRequest(s.store, V0, k).Some? && k in s.verifier
  }

  /** A validated request for which the verifier holds attributes. */
  lemma SampleRequest() returns (run: seq<Label>, s: System)
    ensures Sampled(SAMPLE_CONFIG, true, run, s) && RenamesSucceed(run) && Creatable(s, SAMPLE_KEY)
    ensures s.tasks == map[] && s.store.pending == map[]
    ensures s.history.recorded == s.history.created == {}
  {
    Base16.DecodeEncode(ZEROS);
    run, s := SampleSaved();
    run, s := Advance(true, run, s, SubmitAttributes(SAMPLE_KEY, map[]));
  }

  lemma SampleSigned() returns (run: seq<Label>, s: System)
    ensures Sampled(SAMPLE_CONFIG, true, run, s) && RenamesSucceed(run) && Creatable(s, SAMPLE_KEY)
    ensures s.tasks.Keys == {0} && s.tasks[0].Signed? && s.tasks[0].key == SAMPLE_KEY && s.tasks[0].flow == V0
    ensures s.store.pending == map[] && s.history.recorded == {}
  {
    run, s := SampleRequest();
    run, s := Advance(true, run, s, Create(0, V0, SAMPLE_KEY));
    run, s := Advance(true, run, s, Sign(0, 0, 0));
  }

  /** A creation handler that has stored its object and waits for the wallet proxy. */
  lemma SampleObject() returns (run: seq<Label>, s: System)
    ensures Sampled(SAMPLE_CONFIG, true, run, s) && RenamesSucceed(run) && Creatable(s, SAMPLE_KEY)
    ensures s.tasks.Keys == {0} && s.tasks[0].Submitting? && s.tasks[0].key == SAMPLE_KEY
    ensures SAMPLE_KEY in s.store.identity && s.store.pending == map[] && s.history.recorded == {}
  {
    run, s := SampleSigned();
    run, s := Advance(true, run, s, SaveRevocation(0));
    run, s := Advance(true, run, s, SaveObject(0, 0));
  }

  /** A poll between storing the object and recording the pending entry is told Done. */
  lemma EarlyPollIsToldDone() returns (run: seq<Label>, s: System, a: Answer)
    ensures Run(SAMPLE_CONFIG, true, Initial, run) == Some(s) && RenamesSucceed(run)
    ensures a in s.history.answers && a.status == Done && !a.late
    ensures s.history.finalized == {}
  {
    run, s := SampleObject();
    run, s := Advance(true, run, s, Poll(1, SAMPLE_KEY));
    run, s := Advance(true, run, s, CheckPending(1));
    run, s := Advance(true, run, s, ReadObject(1));
    a := s.history.answers[0];
  }

  /** A poll that is about to resubmit an account creation. */
  lemma SampleResubmission() returns (run: seq<Label>, s: System)
    ensures Sampled(SAMPLE_CONFIG, true, run, s) && RenamesSucceed(run) && Creatable(s, SAMPLE_KEY)
    ensures s.tasks.Keys == {1} && s.tasks[1].Resubmitting? && s.tasks[1].key == SAMPLE_KEY
    ensures SAMPLE_KEY in s.store.identity && s.store.pending.Keys == {SAMPLE_KEY}
    ensures SAMPLE_KEY in s.history.recorded
  {
    run, s := SampleObject();
    run, s := Advance(true, run, s, FirstSubmission(0, Unreachable));
    run, s := Advance(true, run, s, Poll(1, SAMPLE_KEY));
  }

  /** A rejected account whose object cannot be moved away is reported as Done. */
  lemma FailedRenameIsToldDone() returns (run: seq<Label>, s: System, a: Answer)
    ensures Run(SAMPLE_CONFIG, true, Initial, run) == Some(s)
    ensures a in s.history.answers && a.status == Done && a.late && a.key in s.history.rejected
    ensures s.history.finalized == {}
  {
    run, s := SampleResubmission();
    run, s := Advance(true, run, s, Resubmission(1, BadRequest, false, false));
    run, s := Advance(true, run, s, CheckPending(1));
    run, s := Advance(true, run, s, ReadObject(1));
    a := s.history.answers[0];
  }

  lemma {:induction false} RunRelaxes(cfg: Config, s: System, run: seq<Label>)
    requires Run(cfg, true, s, run).Some?
    ensures Run(cfg, false, s, run) == Run(cfg, true, s, run)
    decreases |run|
  {
    if run != [] {
      StepRelaxes(cfg, s, run[0]);
      RunRelaxes(cfg, Step(cfg, true, s, run[0]), run[1..]);
    }
  }

  lemma StepRelaxes(cfg: Config, s: System, l: Label)
    requires Enabled(cfg, true, s, l)
    ensures Enabled(cfg, false, s, l) && Step(cfg, false, s, l) == Step(cfg, true, s, l)
  {
  }

  /** The resubmission was rejected and the object moved away; the poll is about to check. */
  lemma SampleRejection() returns (run: seq<Label>, s: System)
    ensures Sampled(SAMPLE_CONFIG, false, run, s) && RenamesSucceed(run) && Creatable(s, SAMPLE_KEY)
    ensures s.tasks == map[1 := Checking(SAMPLE_KEY)] && s.store.pending == map[]
    ensures SAMPLE_KEY in s.history.recorded && SAMPLE_KEY in s.history.moved
  {
    run, s := SampleResubmission();
    RunRelaxes(SAMPLE_CONFIG, Initial, run);
    run, s := Advance(false, run, s, Resubmission(1, BadRequest, true, true));
  }

  /** The key is created again up to its signature: no endpoint objects. */
  lemma SampleRecreation() returns (run: seq<Label>, s: System)
    ensures Sampled(SAMPLE_CONFIG, false, run, s) && RenamesSucceed(run) && Base16.SafeKey(SAMPLE_KEY)
    ensures s.tasks.Keys == {0, 1} && s.tasks[1] == Checking(SAMPLE_KEY)
    ensures s.tasks[0].Signed? && s.tasks[0].key == SAMPLE_KEY && s.store.pending == map[]
    ensures SAMPLE_KEY in s.history.recorded && SAMPLE_KEY in s.history.moved
  {
    run, s := SampleRejection();
    run, s := Advance(false, run, s, Create(0, V0, SAMPLE_KEY));
    run, s := Advance(false, run, s, Sign(0, 0, 0));
  }

  lemma SampleSecondObject() returns (run: seq<Label>, s: System)
    ensures Sampled(SAMPLE_CONFIG, false, run, s) && RenamesSucceed(run) && Base16.SafeKey(SAMPLE_KEY)
    ensures 1 in s.tasks && s.tasks[1] == Checking(SAMPLE_KEY)
    ensures SAMPLE_KEY in s.store.identity && s.store.pending == map[]
    ensures SAMPLE_KEY in s.history.recorded && SAMPLE_KEY in s.history.moved
  {
    run, s := SampleRecreation();
    run, s := Advance(false, run, s, SaveRevocation(0));
    run, s := Advance(false, run, s, SaveObject(0, 0));
  }

  /** With every rename successful, a key that was rejected and is then created again looks done to a
      late poll before the second creation has been submitted: its object was moved away, and
      replaced. */
  lemma RecreatedIsToldDone() returns (run: seq<Label>, s: System, a: Answer)
    ensures Run(SAMPLE_CONFIG, false, Initial, run) == Some(s)
    ensures !Occurs(SAMPLE_CONFIG, false, Initial, run, RenameFails(a.key))
    ensures a in s.history.answers && a.status == Done && a.late && a.key in s.history.moved
    ensures s.history.finalized == {}
  {
    run, s := SampleSecondObject();
    run, s := Advance(false, run, s, CheckPending(1));
    run, s := Advance(false, run, s, ReadObject(1));
    a := s.history.answers[0];
    NoRenameFails(SAMPLE_CONFIG, false, Initial, run, a.key);
  }

  // ---------- Finalization and deletion race ----------

  /** Whichever of the two first takes the key out of the pending table wins. */
  lemma FirstRemovalWins(s: Store, k: Key, revocationOk: bool, identityOk: bool)
    ensures DeleteAll(MarkFinalized(s, k), k, revocationOk, identityOk) == MarkFinalized(s, k)
    ensures MarkFinalized(DeleteAll(s, k, revocationOk, identityOk), k) == DeleteAll(s, k, revocationOk, identityOk)
    ensures k in s.pending && k in s.identity && identityOk ==>
      MarkFinalized(s, k) != DeleteAll(s, k, revocationOk, identityOk)
  {
  }

  /** A key that is not pending stays so, and its object and record are not moved away, whatever
      happens, until some creation handler records it as pending again. */
  lemma {:induction false} SettledStays(cfg: Config, once: bool, s: System, run: seq<Label>, k: Key)
    requires Invariant(cfg, s) && k !in s.store.pending
    requires Run(cfg, once, s, run).Some? && !Occurs(cfg, once, s, run, RecordsPending(k))
    ensures var s' := Run(cfg, once, s, run).value;
            && k !in s'.store.pending
            && (k in s.store.identity ==> k in s'.store.identity)
            && (k in s.store.revocation ==> k in s'.store.revocation)
    decreases |run|
  {
    if run != [] {
      var s' := Step(cfg, once, s, run[0]);
      SettledStep(cfg, once, s, run[0], k);
      InvariantStep(cfg, once, s, run[0]);
      SettledStays(cfg, once, s', run[1..], k);
    }
  }

  lemma SettledStep(cfg: Config, once: bool, s: System, l: Label, k: Key)
    requires Enabled(cfg, once, s, l) && PendingMirrored(s.store) && k !in s.store.pending
    requires !RecordsPending(k)(s, l)
    ensures var s' := Step(cfg, once, s, l);
            && k !in s'.store.pending
            && (k in s.store.identity ==> k in s'.store.identity)
            && (k in s.store.revocation ==> k in s'.store.revocation)
  {
    if Quiet(l) {
      QuietStep(cfg, once, s, l);
    } else if l.Resubmission? {
      SettledResubmission(cfg, once, s, l, k);
    }
  }

  lemma SettledResubmission(cfg: Config, once: bool, s: System, l: Label, k: Key)
    requires Enabled(cfg, once, s, l) && l.Resubmission? && k !in s.store.pending
    ensures var s' := Step(cfg, once, s, l);
            && k !in s'.store.pending
            && (k in s.store.identity ==> k in s'.store.identity)
            && (k in s.store.revocation ==> k in s'.store.revocation)
  {
    ResubmissionStep(cfg, once, s, l);
    DeleteAllElsewhere(s.store, s.tasks[l.id].key, l.revocationOk, l.identityOk, k);
  }

  /** The key has the same object and record in both states. */
  ghost predicate SameFiles(s: System, s': System, k: Key) {
    SameAt(s.store.identity, s'.store.identity, k) && SameAt(s.store.revocation, s'.store.revocation, k)
  }

  /** If no key is created twice, a key that has been settled keeps the very same object and record
      for ever. */
  lemma {:induction false} SettledIsKept(cfg: Config, before: seq<Label>, s: System, run: seq<Label>, k: Key)
    requires Run(cfg, true, Initial, before) == Some(s) && IsSettled(s.history, k)
    requires Run(cfg, true, s, run).Some?
    ensures var s' := Run(cfg, true, s, run).value;
            k !in s'.store.pending && IsSettled(s'.history, k) && SameFiles(s, s', k)
  {
    InitialInvariant(cfg);
    OnceInvariantRun(cfg, Initial, before);
    RecordedIsKept(cfg, s, run, k);
    OnceInvariantRun(cfg, s, run);
  }

  lemma {:induction false} RecordedIsKept(cfg: Config, s: System, run: seq<Label>, k: Key)
    requires OnceInvariant(cfg, s) && k in s.history.recorded && k !in s.store.pending
    requires Run(cfg, true, s, run).Some?
    ensures var s' := Run(cfg, true, s, run).value;
            k in s'.history.recorded && k !in s'.store.pending && SameFiles(s, s', k)
    decreases |run|
  {
    if run != [] {
      RecordedUntouched(cfg, s, run[0], k);
      OnceInvariantStep(cfg, s, run[0]);
      RecordedIsKept(cfg, Step(cfg, true, s, run[0]), run[1..], k);
    }
  }

  lemma RecordedUntouched(cfg: Config, s: System, l: Label, k: Key)
    requires Enabled(cfg, true, s, l) && CreatorsOk(s) && TasksSound(cfg, s) && PendingMirrored(s.store)
    requires k in s.history.recorded && k !in s.store.pending
    ensures var s' := Step(cfg, true, s, l);
            k in s'.history.recorded && k !in s'.store.pending && SameFiles(s, s', k)
  {
    if Actor(l).Some? && l.id in s.tasks {
      assert CreatorOk(s, s.tasks[l.id]);
    }
    UntouchedKey(cfg, true, s, l, k);
    SettledStep(cfg, true, s, l, k);
  }

  // ---------- Restarts ----------

  /** How a poll classifies a key, from the store alone. */
  function Classify(s: Store, k: Key): Status {
    if k in s.pending then Pending else if ReadIdentity(s, k).Some? then Done else Error
  }

  /** A restart changes no key's classification and loses no submission; in runs that create
      no key twice a restored status is the one in memory or a request to submit again. */
  lemma {:induction false} RestartIsFaithful(cfg: Config, once: bool, run: seq<Label>, s: System, k: Key)
    requires Run(cfg, once, Initial, run) == Some(s)
    ensures Classify(Reopen(s.store), k) == Classify(s.store, k)
    ensures k in s.store.pending ==>
      && k in Reopen(s.store).pending
      && Reopen(s.store).pending[k].value == s.store.pending[k].value
    ensures once && k in s.store.pending ==>
      Reopen(s.store).pending[k].status in {s.store.pending[k].status, CouldNotSubmit}
  {
    InitialInvariant(cfg);
    InvariantRun(cfg, once, Initial, run);
    if once {
      OnceInvariantRun(cfg, Initial, run);
    }
  }

  // ---------- Revocation records ----------

  /** In every run, whatever the renames do, an identity object on disk has a revocation
      record on disk under the same key; if no key is created twice, a live record is the
      one of the live object. */
  lemma {:induction false} ObjectsAreRevocable(cfg: Config, once: bool, run: seq<Label>, s: System, k: Key)
    requires Run(cfg, once, Initial, run) == Some(s) && k in s.store.identity
    ensures k in s.store.revocation || k in s.store.backupRevocation
    ensures once && k in s.store.revocation ==>
      && s.store.revocation[k].idCredPub == s.store.identity[k].request.idCredPub
      && s.store.revocation[k].arData == s.store.identity[k].request.arData
      && s.store.revocation[k].threshold == s.store.identity[k].request.threshold
      && s.store.revocation[k].maxAccounts == s.store.identity[k].alist.maxAccounts
  {
    InitialInvariant(cfg);
    InvariantRun(cfg, once, Initial, run);
    if once {
      OnceInvariantRun(cfg, Initial, run);
    }
  }

  // ---------- Provenance across both services ----------

  /** The verifier holds attributes only under names of a hash that the provider signed, and
      so of a request that the provider validated. */
  lemma {:induction false} AttributesAreAuthorized(cfg: Config, once: bool, run: seq<Label>, s: System, k: Key)
    requires Run(cfg, once, Initial, run) == Some(s) && k in s.verifier
    ensures Base16.Decode(k).Some? && Base16.Decode(k).value in s.history.signed
    ensures exists r :: r in s.history.accepted && r.version == 0 && cfg.proofsOk(r)
                        && Base16.Decode(k) == Some(cfg.sha(r.idCredPub))
  {
    InitialInvariant(cfg);
    InvariantRun(cfg, once, Initial, run);
    assert (k, s.verifier[k]) in s.history.held;
    var bytes := Base16.Decode(k).value;
    var r := s.store.requests[Base16.Encode(bytes)];
    assert RequestFor(cfg, s.history, Base16.Encode(bytes), r);
    Base16.DecodeEncode(bytes);
    Base16.DecodeEncode(cfg.sha(r.idCredPub));
  }

  /** Every stored identity object pairs a request validated for its key with an attribute
      list that the verifier held under that same key. */
  lemma {:induction false} ObjectsAreAuthorized(cfg: Config, once: bool, run: seq<Label>, s: System, k: Key)
    requires Run(cfg, once, Initial, run) == Some(s) && k in s.store.identity
    ensures var obj := s.store.identity[k];
            && obj.request in s.history.accepted
            && obj.request.version == 0 && cfg.proofsOk(obj.request)
            && k == Base16.Encode(cfg.sha(obj.request.idCredPub))
            && obj.alist.maxAccounts == 200
            && (k, obj.alist.attributes) in s.history.held
            && Base16.Decode(k) == Some(cfg.sha(obj.request.idCredPub))
  {
    InitialInvariant(cfg);
    InvariantRun(cfg, once, Initial, run);
    assert ObjectFor(cfg, s.history, k, s.store.identity[k]);
    Base16.DecodeEncode(cfg.sha(s.store.identity[k].request.idCredPub));
  }
}
