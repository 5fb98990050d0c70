/** What every run of the identity issuance service keeps. */
module IdentityProofs {
  import opened Bytes
  import opened IdentityStore
  import opened IdentityProtocol
  import Base16

  // ---------- Invariants of every run ----------

  /** The pending table and the pending files hold the same keys and submissions. */
  ghost predicate PendingMirrored(s: Store) {
    && s.pending.Keys == s.pendingFiles.Keys
    && forall k :: k in s.pending ==> s.pending[k].value == s.pendingFiles[k].value
  }

  ghost predicate HasRecord(s: Store, k: Key) {
    k in s.revocation || k in s.backupRevocation
  }

  /** Every identity object, stored or about to be, has its revocation record on disk. */
  ghost predicate RevocationKept(s: System) {
    && (forall k :: k in s.store.identity ==> HasRecord(s.store, k))
    && (forall i :: i in s.tasks && s.tasks[i].Revocable? ==> HasRecord(s.store, s.tasks[i].key))
  }

  /** The request was validated for this very key. */
  ghost predicate RequestFor(cfg: Config, h: History, k: Key, r: Request) {
    r in h.accepted && Validates(cfg, r) && KeyOf(cfg, r) == k
  }

  /** The object pairs a request validated for `k` with attributes the verifier held under `k`, for at
      most 200 accounts. */
  ghost predicate ObjectFor(cfg: Config, h: History, k: Key, obj: IdentityObject) {
    RequestFor(cfg, h, k, obj.request) && (k, obj.alist.attributes) in h.held && obj.alist.maxAccounts == 200
  }

  ghost predicate SignedKey(h: History, k: Key) {
    Base16.Decode(k).Some? && Base16.Decode(k).value in h.signed
  }

  ghost predicate TaskProvenance(cfg: Config, h: History, t: Task) {
    match t
    case Validated(r) => RequestFor(cfg, h, KeyOf(cfg, r), r)
    case Fetching(flow, key, r) => RequestFor(cfg, h, key, r) && r.flow == flow
    case Signed(flow, key, obj) => ObjectFor(cfg, h, key, obj) && obj.request.flow == flow
    case Revocable(flow, key, obj) => ObjectFor(cfg, h, key, obj) && obj.request.flow == flow
    case _ => true
  }

  ghost predicate RequestsSound(cfg: Config, s: System) {
    && (forall k :: k in s.store.requests ==> RequestFor(cfg, s.history, k, s.store.requests[k]))
    && (forall b :: b in s.history.signed ==> Base16.Encode(b) in s.store.requests)
  }

  ghost predicate AttributesSound(s: System) {
    && (forall k :: k in s.verifier ==> (k, s.verifier[k]) in s.history.held)
    && (forall e :: e in s.history.held ==> SignedKey(s.history, e.0))
  }

  ghost predicate TasksSound(cfg: Config, s: System) {
    forall i :: i in s.tasks ==> TaskProvenance(cfg, s.history, s.tasks[i])
  }

  ghost predicate ObjectsSound(cfg: Config, s: System) {
    forall k :: k in s.store.identity ==> ObjectFor(cfg, s.history, k, s.store.identity[k])
  }

  ghost predicate Provenance(cfg: Config, s: System) {
    RequestsSound(cfg, s) && AttributesSound(s) && TasksSound(cfg, s) && ObjectsSound(cfg, s)
  }

  ghost predicate Invariant(cfg: Config, s: System) {
    PendingMirrored(s.store) && Provenance(cfg, s) && RevocationKept(s)
  }

  /** Steps that leave all files but the request records alone. */
  predicate Quiet(l: Label) {
    && !l.SaveRevocation? && !l.SaveObject? && !l.FirstSubmission?
    && !l.Resubmission? && !l.QueryStatus? && !l.Restart?
  }

  lemma QuietStep(cfg: Config, once: bool, s: System, l: Label)
    requires Enabled(cfg, once, s, l) && Quiet(l)
    ensures var s' := Step(cfg, once, s, l);
            && s'.store == s.store.(requests := s'.store.requests)
            && s'.history.recorded == s.history.recorded && s'.history.finalized == s.history.finalized
            && s'.history.rejected == s.history.rejected && s'.history.moved == s.history.moved
            && s.history.created <= s'.history.created
  {
  }

  lemma PendingMirroredStep(cfg: Config, once: bool, s: System, l: Label)
    requires Enabled(cfg, once, s, l) && PendingMirrored(s.store)
    ensures PendingMirrored(Step(cfg, once, s, l).store)
  {
    if Quiet(l) {
      QuietStep(cfg, once, s, l);
    } else if l.Resubmission? {
      ResubmissionMirrored(cfg, once, s, l);
    }
  }

  /** A resubmission sets the status of the entry, or deletes everything about the key. */
  lemma ResubmissionStep(cfg: Config, once: bool, s: System, l: Label)
    requires Enabled(cfg, once, s, l) && l.Resubmission?
    ensures var s', key := Step(cfg, once, s, l), s.tasks[l.id].key;
            && s'.store == (match SubmissionResult(l.answer)
                            case Some(status) => SetStatus(s.store, key, status)
                            case None => DeleteAll(s.store, key, l.revocationOk, l.identityOk))
            && s'.history.recorded == s.history.recorded && s'.history.created == s.history.created
  {
  }

  lemma SetStatusMirrored(s: Store, key: Key, status: PendingStatus)
    requires PendingMirrored(s)
    ensures PendingMirrored(SetStatus(s, key, status))
  {
  }

  lemma DeleteAllMirrored(s: Store, key: Key, revocationOk: bool, identityOk: bool)
    requires PendingMirrored(s)
    ensures PendingMirrored(DeleteAll(s, key, revocationOk, identityOk))
  {
  }

  ghost predicate SameAt<V>(m: map<Key, V>, m': map<Key, V>, k: Key) {
    (k in m <==> k in m') && (k in m ==> m[k] == m'[k])
  }

  /** Deleting leaves the files of a key that is not pending. */
  lemma DeleteAllElsewhere(s: Store, key: Key, revocationOk: bool, identityOk: bool, k: Key)
    requires k !in s.pending
    ensures var s' := DeleteAll(s, key, revocationOk, identityOk);
            k !in s'.pending && SameAt(s.revocation, s'.revocation, k) && SameAt(s.identity, s'.identity, k)
  {
  }

  lemma ResubmissionMirrored(cfg: Config, once: bool, s: System, l: Label)
    requires Enabled(cfg, once, s, l) && PendingMirrored(s.store) && l.Resubmission?
    ensures PendingMirrored(Step(cfg, once, s, l).store)
  {
    ResubmissionStep(cfg, once, s, l);
    var key := s.tasks[l.id].key;
    match SubmissionResult(l.answer) {
      case Some(status) => SetStatusMirrored(s.store, key, status);
      case None => DeleteAllMirrored(s.store, key, l.revocationOk, l.identityOk);
    }
  }

  /** The handler a step belongs to, if any. */
  function Actor(l: Label): Option<TaskId> {
    if l.SubmitAttributes? || l.Restart? then None else Some(l.id)
  }

  /** A step touches one handler at most, and forgets nothing that has happened. */
  lemma StepFrame(cfg: Config, once: bool, s: System, l: Label)
    requires Enabled(cfg, once, s, l)
    ensures var s' := Step(cfg, once, s, l);
            && s.history.accepted <= s'.history.accepted
            && s.history.signed <= s'.history.signed
            && s.history.held <= s'.history.held
            && s.store.requests.Keys <= s'.store.requests.Keys
            && (forall i :: i in s'.tasks ==> Actor(l) == Some(i) || (i in s.tasks && s'.tasks[i] == s.tasks[i]))
  {
  }

  lemma RequestsSoundStep(cfg: Config, once: bool, s: System, l: Label)
    requires Enabled(cfg, once, s, l) && RequestsSound(cfg, s) && TasksSound(cfg, s)
    ensures RequestsSound(cfg, Step(cfg, once, s, l))
  {
    StepFrame(cfg, once, s, l);
    if l.SaveRequest? {
      assert TaskProvenance(cfg, s.history, s.tasks[l.id]);
      RequestSaved(cfg, once, s, l);
    } else {
      RequestsStay(cfg, once, s, l);
    }
  }

  lemma RequestSaved(cfg: Config, once: bool, s: System, l: Label)
    requires Enabled(cfg, once, s, l) && l.SaveRequest? && RequestsSound(cfg, s)
    requires TaskProvenance(cfg, s.history, s.tasks[l.id])
    ensures RequestsSound(cfg, Step(cfg, once, s, l))
  {
  }

  lemma RequestsStay(cfg: Config, once: bool, s: System, l: Label)
    requires Enabled(cfg, once, s, l) && !l.SaveRequest?
    ensures Step(cfg, once, s, l).store.requests == s.store.requests
    ensures Step(cfg, once, s, l).history.signed == s.history.signed
  {
    if l.Resubmission? {
      ResubmissionStep(cfg, once, s, l);
    }
  }

  lemma AttributesSoundStep(cfg: Config, once: bool, s: System, l: Label)
    requires Enabled(cfg, once, s, l) && AttributesSound(s)
    ensures AttributesSound(Step(cfg, once, s, l))
  {
    StepFrame(cfg, once, s, l);
    if !l.SubmitAttributes? {
      AttributesStay(cfg, once, s, l);
    }
  }

  lemma AttributesStay(cfg: Config, once: bool, s: System, l: Label)
    requires Enabled(cfg, once, s, l) && !l.SubmitAttributes?
    ensures Step(cfg, once, s, l).verifier == s.verifier
    ensures Step(cfg, once, s, l).history.held == s.history.held
  {
  }

  lemma ProvenanceGrows(cfg: Config, h: History, h': History, t: Task)
    requires h.accepted <= h'.accepted && h.held <= h'.held
    requires TaskProvenance(cfg, h, t)
    ensures TaskProvenance(cfg, h', t)
  {
  }

  lemma TasksSoundStep(cfg: Config, once: bool, s: System, l: Label)
    requires Enabled(cfg, once, s, l) && Provenance(cfg, s)
    ensures TasksSound(cfg, Step(cfg, once, s, l))
  {
    var s' := Step(cfg, once, s, l);
    StepFrame(cfg, once, s, l);
    forall i | i in s'.tasks ensures TaskProvenance(cfg, s'.history, s'.tasks[i]) {
      if Actor(l) == Some(i) {
        NewTaskSound(cfg, once, s, l, i);
      } else {
        ProvenanceGrows(cfg, s.history, s'.history, s.tasks[i]);
      }
    }
  }

  lemma NewTaskSound(cfg: Config, once: bool, s: System, l: Label, i: TaskId)
    requires Enabled(cfg, once, s, l) && Provenance(cfg, s)
    requires Actor(l) == Some(i) && i in Step(cfg, once, s, l).tasks
    ensures TaskProvenance(cfg, Step(cfg, once, s, l).history, Step(cfg, once, s, l).tasks[i])
  {
    if i in s.tasks {
      assert TaskProvenance(cfg, s.history, s.tasks[i]);
    }
  }

  lemma ObjectsSoundStep(cfg: Config, once: bool, s: System, l: Label)
    requires Enabled(cfg, once, s, l) && TasksSound(cfg, s) && ObjectsSound(cfg, s)
    ensures ObjectsSound(cfg, Step(cfg, once, s, l))
  {
    var s' := Step(cfg, once, s, l);
    StepFrame(cfg, once, s, l);
    forall k | k in s'.store.identity ensures ObjectFor(cfg, s'.history, k, s'.store.identity[k]) {
      if l.SaveObject? && s.tasks[l.id].key == k {
        assert TaskProvenance(cfg, s.history, s.tasks[l.id]);
      } else {
        ObjectWasThere(cfg, once, s, l, k);
      }
    }
  }

  lemma ObjectWasThere(cfg: Config, once: bool, s: System, l: Label, k: Key)
    requires Enabled(cfg, once, s, l) && k in Step(cfg, once, s, l).store.identity
    requires !(l.SaveObject? && s.tasks[l.id].key == k)
    ensures k in s.store.identity && Step(cfg, once, s, l).store.identity[k] == s.store.identity[k]
  {
    if Quiet(l) {
      QuietStep(cfg, once, s, l);
    } else if l.Resubmission? {
      ResubmissionStep(cfg, once, s, l);
    }
  }

  lemma RecordsStay(cfg: Config, once: bool, s: System, l: Label, k: Key)
    requires Enabled(cfg, once, s, l) && HasRecord(s.store, k)
    ensures HasRecord(Step(cfg, once, s, l).store, k)
  {
    if Quiet(l) {
      QuietStep(cfg, once, s, l);
    } else if l.Resubmission? {
      ResubmissionStep(cfg, once, s, l);
    }
  }

  lemma RevocationKeptStep(cfg: Config, once: bool, s: System, l: Label)
    requires Enabled(cfg, once, s, l) && TasksSound(cfg, s) && RevocationKept(s)
    ensures RevocationKept(Step(cfg, once, s, l))
  {
    var s' := Step(cfg, once, s, l);
    StepFrame(cfg, once, s, l);
    forall k | k in s'.store.identity ensures HasRecord(s'.store, k) {
      if !(l.SaveObject? && s.tasks[l.id].key == k) {
        ObjectWasThere(cfg, once, s, l, k);
      }
      RecordsStay(cfg, once, s, l, k);
    }
    forall i | i in s'.tasks && s'.tasks[i].Revocable? ensures HasRecord(s'.store, s'.tasks[i].key) {
      if Actor(l) == Some(i) {
        assert l.SaveRevocation? && TaskProvenance(cfg, s.history, s.tasks[i]);
      } else {
        RecordsStay(cfg, once, s, l, s.tasks[i].key);
      }
    }
  }

  lemma InvariantStep(cfg: Config, once: bool, s: System, l: Label)
    requires Invariant(cfg, s) && Enabled(cfg, once, s, l)
    ensures Invariant(cfg, Step(cfg, once, s, l))
  {
    PendingMirroredStep(cfg, once, s, l);
    RequestsSoundStep(cfg, once, s, l);
    AttributesSoundStep(cfg, once, s, l);
    TasksSoundStep(cfg, once, s, l);
    ObjectsSoundStep(cfg, once, s, l);
    RevocationKeptStep(cfg, once, s, l);
  }

  lemma {:induction false} InvariantRun(cfg: Config, once: bool, s: System, run: seq<Label>)
    requires Invariant(cfg, s) && Run(cfg, once, s, run).Some?
    ensures Invariant(cfg, Run(cfg, once, s, run).value)
    decreases |run|
  {
    if run != [] {
      InvariantStep(cfg, once, s, run[0]);
      InvariantRun(cfg, once, Step(cfg, once, s, run[0]), run[1..]);
    }
  }
}
