/** Account creations that the wallet proxy has accepted, refused or not answered, and what becomes
    of their entries. */
module IdentitySubmissions {
  import opened Bytes
  import opened IdentityStore
  import opened IdentityProtocol
  import opened IdentityProofs
  import opened IdentityTheorems
  import Base16

  // ---------- Where submissions come from ----------

  /** The submission is for a version 0 request validated for `k`, with attributes held under `k`. */
  ghost predicate SubmissionFor(cfg: Config, h: History, k: Key, v: Submission) {
    && (k, v.alist.attributes) in h.held
    && exists r :: RequestFor(cfg, h, k, r) && r.flow == V0 && r.idCredPub == v.idCredPub
  }

  ghost predicate TaskSubmits(cfg: Config, h: History, t: Task) {
    t.Submitting? ==> SubmissionFor(cfg, h, t.key, t.value)
  }

  ghost predicate SubmissionsSound(cfg: Config, s: System) {
    && (forall k :: k in s.store.pending ==> SubmissionFor(cfg, s.history, k, s.store.pending[k].value))
    && (forall i :: i in s.tasks ==> TaskSubmits(cfg, s.history, s.tasks[i]))
  }

  lemma SubmissionGrows(cfg: Config, h: History, h': History, k: Key, v: Submission)
    requires h.accepted <= h'.accepted && h.held <= h'.held && SubmissionFor(cfg, h, k, v)
    ensures SubmissionFor(cfg, h', k, v)
  {
    var r :| RequestFor(cfg, h, k, r) && r.flow == V0 && r.idCredPub == v.idCredPub;
    assert RequestFor(cfg, h', k, r);
  }

  /** An entry of the table was there with the same submission, or is that of the acting handler. */
  lemma EntryOrigin(cfg: Config, once: bool, s: System, l: Label, k: Key)
    requires Enabled(cfg, once, s, l) && PendingMirrored(s.store) && k in Step(cfg, once, s, l).store.pending
    ensures var value := Step(cfg, once, s, l).store.pending[k].value;
            || (k in s.store.pending && s.store.pending[k].value == value)
            || (l.FirstSubmission? && s.tasks[l.id] == Submitting(k, value))
  {
    if Quiet(l) {
      QuietStep(cfg, once, s, l);
    } else if l.Resubmission? {
      ResubmissionStep(cfg, once, s, l);
    }
  }

  /** A handler submits what it submitted before, or the object it has just stored. */
  lemma SubmitterOrigin(cfg: Config, once: bool, s: System, l: Label, i: TaskId)
    requires Enabled(cfg, once, s, l) && i in Step(cfg, once, s, l).tasks && Step(cfg, once, s, l).tasks[i].Submitting?
    ensures var t := Step(cfg, once, s, l).tasks[i];
            || (i in s.tasks && s.tasks[i] == t)
            || (l.SaveObject? && l.id == i && s.tasks[i].flow == V0 && s.tasks[i].key == t.key
                && t.value == Submission(s.tasks[i].obj.request.idCredPub, s.tasks[i].obj.alist, l.expiry))
  {
    StepFrame(cfg, once, s, l);
  }

  lemma SubmissionsSoundStep(cfg: Config, once: bool, s: System, l: Label)
    requires Enabled(cfg, once, s, l) && Invariant(cfg, s) && SubmissionsSound(cfg, s)
    ensures SubmissionsSound(cfg, Step(cfg, once, s, l))
  {
    var s' := Step(cfg, once, s, l);
    StepFrame(cfg, once, s, l);
    forall k | k in s'.store.pending ensures SubmissionFor(cfg, s'.history, k, s'.store.pending[k].value) {
      EntryOrigin(cfg, once, s, l, k);
      if l.FirstSubmission? {
        assert TaskSubmits(cfg, s.history, s.tasks[l.id]);
      }
      SubmissionGrows(cfg, s.history, s'.history, k, s'.store.pending[k].value);
    }
    forall i | i in s'.tasks ensures TaskSubmits(cfg, s'.history, s'.tasks[i]) {
      if s'.tasks[i].Submitting? {
        NewSubmitter(cfg, once, s, l, i);
      }
    }
  }

  lemma NewSubmitter(cfg: Config, once: bool, s: System, l: Label, i: TaskId)
    requires Enabled(cfg, once, s, l) && TasksSound(cfg, s) && SubmissionsSound(cfg, s)
    requires i in Step(cfg, once, s, l).tasks && Step(cfg, once, s, l).tasks[i].Submitting?
    ensures TaskSubmits(cfg, Step(cfg, once, s, l).history, Step(cfg, once, s, l).tasks[i])
  {
    var s' := Step(cfg, once, s, l);
    StepFrame(cfg, once, s, l);
    SubmitterOrigin(cfg, once, s, l, i);
    var t := s'.tasks[i];
    if i in s.tasks && s.tasks[i] == t {
      assert TaskSubmits(cfg, s.history, s.tasks[i]);
    } else {
      assert TaskProvenance(cfg, s.history, s.tasks[i]);
      assert RequestFor(cfg, s.history, t.key, s.tasks[i].obj.request);
    }
    SubmissionGrows(cfg, s.history, s'.history, t.key, t.value);
  }

  lemma {:induction false} SubmissionsSoundRun(cfg: Config, once: bool, s: System, run: seq<Label>)
    requires Invariant(cfg, s) && SubmissionsSound(cfg, s) && Run(cfg, once, s, run).Some?
    ensures SubmissionsSound(cfg, Run(cfg, once, s, run).value)
    decreases |run|
  {
    if run != [] {
      SubmissionsSoundStep(cfg, once, s, run[0]);
      InvariantStep(cfg, once, s, run[0]);
      SubmissionsSoundRun(cfg, once, Step(cfg, once, s, run[0]), run[1..]);
    }
  }

  /** After any run, an account is pending only for a version 0 request that was validated for its
      key, with attributes the verifier held under that key. */
  lemma {:induction false} SubmissionsAreAuthorized(cfg: Config, once: bool, run: seq<Label>, s: System, k: Key)
    requires Run(cfg, once, Initial, run) == Some(s) && k in s.store.pending
    ensures (k, s.store.pending[k].value.alist.attributes) in s.history.held
    ensures exists r :: r in s.history.accepted && r.flow == V0 && r.version == 0 && cfg.proofsOk(r)
                        && r.idCredPub == s.store.pending[k].value.idCredPub
                        && k == Base16.Encode(cfg.sha(r.idCredPub))
  {
    InitialInvariant(cfg);
    SubmissionsSoundRun(cfg, once, Initial, run);
    var v := s.store.pending[k].value;
    assert SubmissionFor(cfg, s.history, k, v);
    var r :| RequestFor(cfg, s.history, k, r) && r.flow == V0 && r.idCredPub == v.idCredPub;
    assert r in s.history.accepted;
  }

  // ---------- What becomes of an answer ----------

  /** What the first submission records: the answer of the wallet proxy, in memory and on file, unless
      the account was rejected. */
  lemma FirstSubmissionRecords(cfg: Config, once: bool, s: System, id: TaskId, answer: WalletAnswer)
    requires id in s.tasks && s.tasks[id].Submitting?
    ensures var t, s' := s.tasks[id], Step(cfg, once, s, FirstSubmission(id, answer));
            match answer
            case BadRequest => s'.store == s.store && s'.history == s.history
            case Accepted(txId) =>
              && t.key in s'.store.pending
              && s'.store.pending[t.key] == PendingEntry(Submitted(txId, Received), t.value)
              && t.key in s'.store.pendingFiles && s'.store.pendingFiles[t.key] == s'.store.pending[t.key]
            case _ =>
              && t.key in s'.store.pending && s'.store.pending[t.key] == PendingEntry(CouldNotSubmit, t.value)
              && t.key in s'.store.pendingFiles && s'.store.pendingFiles[t.key] == s'.store.pending[t.key]
  {
  }

  /** A resubmission that is accepted changes the status of the entry in memory and nothing else. */
  lemma AcceptedResubmission(cfg: Config, once: bool, s: System, l: Label, txId: string)
    requires l.Resubmission? && l.answer == Accepted(txId) && Enabled(cfg, once, s, l)
    requires s.tasks[l.id].key in s.store.pending
    ensures var k, s' := s.tasks[l.id].key, Step(cfg, once, s, l);
            && k in s'.store.pending
            && s'.store.pending[k] == PendingEntry(Submitted(txId, Received), s.store.pending[k].value)
            && s'.store.pending.Keys == s.store.pending.Keys
            && (forall j :: j in s.store.pending && j != k ==> s'.store.pending[j] == s.store.pending[j])
            && s'.store.pendingFiles == s.store.pendingFiles && s'.store.identity == s.store.identity
            && s'.tasks == s.tasks[l.id := Checking(k)]
  {
  }

  lemma QueryAfter(cfg: Config, once: bool, s: System, j: TaskId, k: Key, txId: string)
    requires j !in s.tasks && k in s.store.pending && s.store.pending[k].status == Submitted(txId, Received)
    ensures var s' := Step(cfg, once, s, Poll(j, k));
            s'.tasks == s.tasks[j := Querying(k, txId)] && s'.store == s.store && s'.history == s.history
  {
  }

  lemma FinalizedAfter(cfg: Config, once: bool, s: System, j: TaskId, k: Key, txId: string)
    requires j in s.tasks && s.tasks[j] == Querying(k, txId) && k in s.store.pending
    ensures var s' := Step(cfg, once, s, QueryStatus(j, Some(Finalized)));
            && k !in s'.store.pending && k !in s'.store.pendingFiles && k in s'.history.finalized
            && s'.store.identity == s.store.identity
  {
  }

  /** An account that could not be submitted at first, and is accepted when a poll submits it again, is
      asked about by the next poll under the identifier that the wallet proxy gave; when it is
      finalized its key is settled, and reported as done exactly when the object is there. */
  lemma AcceptedThenFinalized(cfg: Config, once: bool, s: System, l: Label, txId: string, j: TaskId)
    returns (run: seq<Label>, s': System)
    requires l.Resubmission? && l.answer == Accepted(txId) && Enabled(cfg, once, s, l)
    requires s.tasks[l.id].key in s.store.pending && j !in s.tasks
    ensures var k := s.tasks[l.id].key;
            && run == [l, Poll(j, k), QueryStatus(j, Some(Finalized))] && Run(cfg, once, s, run) == Some(s')
            && k !in s'.store.pending && k !in s'.store.pendingFiles && k in s'.history.finalized
            && (Classify(s'.store, k) == Done <==> Base16.SafeKey(k) && k in s.store.identity)
  {
    var k := s.tasks[l.id].key;
    AcceptedResubmission(cfg, once, s, l, txId);
    var s1 := Step(cfg, once, s, l);
    QueryAfter(cfg, once, s1, j, k, txId);
    var s2 := Step(cfg, once, s1, Poll(j, k));
    FinalizedAfter(cfg, once, s2, j, k, txId);
    s' := Step(cfg, once, s2, QueryStatus(j, Some(Finalized)));
    assert [l][1..] == [] && Run(cfg, once, s, [l]) == Some(s1);
    RunExtends(cfg, once, s, [l], Poll(j, k));
    RunExtends(cfg, once, s, [l] + [Poll(j, k)], QueryStatus(j, Some(Finalized)));
    run := [l] + [Poll(j, k)] + [QueryStatus(j, Some(Finalized))];
  }

  /** A restart forgets that a resubmission was accepted: the file still says that the account could
      not be submitted, so the next poll submits it again. */
  lemma AcceptedThenForgotten(cfg: Config, once: bool, s: System, l: Label, txId: string, j: TaskId)
    requires l.Resubmission? && l.answer == Accepted(txId) && Enabled(cfg, once, s, l)
    requires PendingMirrored(s.store) && s.tasks[l.id].key in s.store.pending
    requires s.store.pendingFiles[s.tasks[l.id].key].status == CouldNotSubmit
    ensures var k, s1 := s.tasks[l.id].key, Step(cfg, once, s, l);
            var s2 := Step(cfg, once, s1, Restart);
            var s3 := Step(cfg, once, s2, Poll(j, k));
            && s2.tasks == map[] && s2.store.pending == s.store.pendingFiles
            && s3.tasks == map[j := Resubmitting(k, s.store.pending[k].value)]
  {
    AcceptedResubmission(cfg, once, s, l, txId);
  }

  // ---------- What is moved away ----------

  /** Deleting moves: the object and the record of the key go to the backup as they are, as far as the
      renames succeed, and nothing else moves. */
  lemma DeletedIsMoved(s: Store, key: Key, revocationOk: bool, identityOk: bool, k: Key)
    ensures var s' := DeleteAll(s, key, revocationOk, identityOk);
            && (k in s.identity ==>
                  if k == key && k in s.pending && identityOk
                  then k !in s'.identity && k in s'.backupIdentity && s'.backupIdentity[k] == s.identity[k]
                  else k in s'.identity && s'.identity[k] == s.identity[k])
            && (k in s.revocation ==>
                  if k == key && k in s.pending && revocationOk
                  then k !in s'.revocation && k in s'.backupRevocation && s'.backupRevocation[k] == s.revocation[k]
                  else k in s'.revocation && s'.revocation[k] == s.revocation[k])
  {
  }

  lemma MovedStep(cfg: Config, once: bool, s: System, l: Label)
    requires Enabled(cfg, once, s, l) && s.history.moved <= s.store.backupIdentity.Keys
    ensures Step(cfg, once, s, l).history.moved <= Step(cfg, once, s, l).store.backupIdentity.Keys
  {
    if Quiet(l) {
      QuietStep(cfg, once, s, l);
    }
  }

  /** After any run, an object that was moved away is in the backup. */
  lemma {:induction false} MovedIsInBackup(cfg: Config, once: bool, s: System, run: seq<Label>)
    requires s.history.moved <= s.store.backupIdentity.Keys && Run(cfg, once, s, run).Some?
    ensures var s' := Run(cfg, once, s, run).value; s'.history.moved <= s'.store.backupIdentity.Keys
    decreases |run|
  {
    if run != [] {
      MovedStep(cfg, once, s, run[0]);
      MovedIsInBackup(cfg, once, Step(cfg, once, s, run[0]), run[1..]);
    }
  }
}
