/** The request handlers of the identity provider, run without interruption: each takes the
    database through exactly the steps that the protocol lets interleave. */
module IdentityHandlers {
  import opened Bytes
  import opened IdentityStore
  import opened IdentityProtocol
  import opened IdentityTheorems
  import Base16

  /** The steps of one poll from state `s`. */
  ghost function PollSteps(s: System, id: TaskId, key: Key,
                           wallet: WalletAnswer, reply: Option<SubmissionStatus>,
                           revocationOk: bool, identityOk: bool): seq<Label>
  {
    if key !in s.store.pending then [Poll(id, key)]
    else if s.store.pending[key].status.CouldNotSubmit?
    then [Poll(id, key), Resubmission(id, wallet, revocationOk, identityOk)]
    else [Poll(id, key), QueryStatus(id, reply)]
  }

  /** The store after one poll. */
  function FollowedUp(s: Store, key: Key, wallet: WalletAnswer, reply: Option<SubmissionStatus>,
                      revocationOk: bool, identityOk: bool): Store
  {
    if key !in s.pending then s
    else if s.pending[key].status.CouldNotSubmit? then
      match SubmissionResult(wallet) {
        case Some(status) => SetStatus(s, key, status)
        case None => DeleteAll(s, key, revocationOk, identityOk)
      }
    else if reply == Some(Finalized) then MarkFinalized(s, key)
    else s
  }

  lemma PollStep(cfg: Config, once: bool, s: System, id: TaskId, key: Key)
    requires id !in s.tasks
    ensures var s' := Step(cfg, once, s, Poll(id, key));
            && s'.store == s.store
            && s'.tasks == s.tasks[id := if key !in s.store.pending then Checking(key)
                                         else match s.store.pending[key].status
                                              case CouldNotSubmit => Resubmitting(key, s.store.pending[key].value)
                                              case Submitted(i, _) => Querying(key, i)]
  {
  }

  lemma ResubmissionFollowsUp(cfg: Config, once: bool, s: System, l: Label, key: Key)
    requires l.Resubmission? && Enabled(cfg, once, s, l) && s.tasks[l.id].key == key
    ensures var s' := Step(cfg, once, s, l);
            && s'.store == (match SubmissionResult(l.answer)
                            case Some(status) => SetStatus(s.store, key, status)
                            case None => DeleteAll(s.store, key, l.revocationOk, l.identityOk))
            && s'.tasks == s.tasks[l.id := Checking(key)]
  {
  }

  lemma QueryFollowsUp(cfg: Config, once: bool, s: System, l: Label, key: Key)
    requires l.QueryStatus? && Enabled(cfg, once, s, l) && s.tasks[l.id].key == key
    ensures var s' := Step(cfg, once, s, l);
            && s'.store == (if l.reply == Some(Finalized) then MarkFinalized(s.store, key) else s.store)
            && s'.tasks == s.tasks[l.id := Checking(key)]
  {
  }

  lemma Overwrite<K, V>(m: map<K, V>, k: K, v: V, w: V)
    ensures m[k := v][k := w] == m[k := w]
    ensures k !in m ==> m[k := v] - {k} == m
  {
  }

  lemma {:induction false} ResubmittingPoll(cfg: Config, once: bool, s: System, id: TaskId, key: Key, l: Label)
    requires id !in s.tasks && key in s.store.pending && s.store.pending[key].status.CouldNotSubmit?
    requires l.Resubmission? && l.id == id
    ensures var s' := Run(cfg, once, s, [Poll(id, key), l]);
            && s'.Some? && s'.value.tasks == s.tasks[id := Checking(key)]
            && s'.value.store == (match SubmissionResult(l.answer)
                                  case Some(status) => SetStatus(s.store, key, status)
                                  case None => DeleteAll(s.store, key, l.revocationOk, l.identityOk))
  {
    PollStep(cfg, once, s, id, key);
    var s' := Step(cfg, once, s, Poll(id, key));
    TwoSteps(cfg, once, s, Poll(id, key), l);
    ResubmissionFollowsUp(cfg, once, s', l, key);
    Overwrite(s.tasks, id, s'.tasks[id], Checking(key));
  }

  lemma {:induction false} QueryingPoll(cfg: Config, once: bool, s: System, id: TaskId, key: Key, l: Label)
    requires id !in s.tasks && key in s.store.pending && s.store.pending[key].status.Submitted?
    requires l.QueryStatus? && l.id == id
    ensures var s' := Run(cfg, once, s, [Poll(id, key), l]);
            && s'.Some? && s'.value.tasks == s.tasks[id := Checking(key)]
            && s'.value.store == (if l.reply == Some(Finalized) then MarkFinalized(s.store, key) else s.store)
  {
    PollStep(cfg, once, s, id, key);
    var s' := Step(cfg, once, s, Poll(id, key));
    TwoSteps(cfg, once, s, Poll(id, key), l);
    QueryFollowsUp(cfg, once, s', l, key);
    Overwrite(s.tasks, id, s'.tasks[id], Checking(key));
  }

  lemma {:induction false} PollStepsFollowUp(cfg: Config, once: bool, s: System, id: TaskId, key: Key,
                                             wallet: WalletAnswer, reply: Option<SubmissionStatus>, revocationOk: bool,
                                             identityOk: bool)
    requires id !in s.tasks
    ensures var s' := Run(cfg, once, s, PollSteps(s, id, key, wallet, reply, revocationOk, identityOk));
            && s'.Some? && s'.value.store == FollowedUp(s.store, key, wallet, reply, revocationOk, identityOk)
            && s'.value.tasks == s.tasks[id := Checking(key)]
  {
    if key !in s.store.pending {
      PollStep(cfg, once, s, id, key);
      assert [Poll(id, key)][1..] == [];
    } else if s.store.pending[key].status.CouldNotSubmit? {
      ResubmittingPoll(cfg, once, s, id, key, Resubmission(id, wallet, revocationOk, identityOk));
    } else {
      QueryingPoll(cfg, once, s, id, key, QueryStatus(id, reply));
    }
  }

  /** What a followup does to the entry of the key: an account that could not be submitted takes the
      answer of the wallet proxy, in memory only, or is removed with what belongs to it; a submitted
      one goes when it is finalized; nothing else changes. */
  ghost predicate BroughtUpToDate(s: Store, s': Store, key: Key, wallet: WalletAnswer,
                                  reply: Option<SubmissionStatus>, revocationOk: bool, identityOk: bool) {
    var gone := s.(pending := s.pending - {key}, pendingFiles := s.pendingFiles - {key});
    if key !in s.pending then s' == s
    else match s.pending[key].status
      case CouldNotSubmit => (
        match wallet
        case Accepted(txId) =>
          s' == s.(pending := s.pending[key := PendingEntry(Submitted(txId, Received), s.pending[key].value)])
        case BadRequest => (
          && s'.pending == gone.pending && s'.pendingFiles == gone.pendingFiles
          && s'.identity == (if identityOk then s.identity - {key} else s.identity)
          && s'.revocation == (if revocationOk then s.revocation - {key} else s.revocation))
        case _ => s' == s)
      case Submitted(_, _) => s' == if reply == Some(Finalized) then gone else s
  }

  lemma FollowupBringsUpToDate(s: Store, key: Key, wallet: WalletAnswer, reply: Option<SubmissionStatus>,
                               revocationOk: bool, identityOk: bool)
    ensures BroughtUpToDate(s, FollowedUp(s, key, wallet, reply, revocationOk, identityOk), key, wallet, reply,
                            revocationOk, identityOk)
  {
  }

  /** `followup`: bring the pending entry of the key up to date. */
  method Followup(db: DB, key: Key, wallet: WalletAnswer, reply: Option<SubmissionStatus>,
                  revocationOk: bool, identityOk: bool,
                  ghost cfg: Config, ghost once: bool, ghost s: System, ghost id: TaskId)
    requires s.store == db.View() && id !in s.tasks
    modifies db
    ensures var s' := Run(cfg, once, s, PollSteps(s, id, key, wallet, reply, revocationOk, identityOk));
            && s'.Some? && s'.value.store == db.View()
            && s'.value.tasks == s.tasks[id := Checking(key)]
    ensures BroughtUpToDate(old(db.View()), db.View(), key, wallet, reply, revocationOk, identityOk)
  {
    PollStepsFollowUp(cfg, once, s, id, key, wallet, reply, revocationOk, identityOk);
    FollowupBringsUpToDate(s.store, key, wallet, reply, revocationOk, identityOk);
    if key in db.pending {
      var v := db.pending[key];
      match v.status
      case CouldNotSubmit =>
        var result := SubmissionResult(wallet);
        if result.Some? {
          db.UpdateStatus(key, result.value);
        } else {
          db.DeleteEntry(key, revocationOk, identityOk);
        }
      case Submitted(_, _) =>
        if reply == Some(Finalized) {
          db.MarkFinalizedEntry(key);
        }
    }
  }

  lemma {:induction false} TwoSteps(cfg: Config, once: bool, s: System, l1: Label, l2: Label)
    requires Enabled(cfg, once, s, l1) && Enabled(cfg, once, Step(cfg, once, s, l1), l2)
    ensures Run(cfg, once, s, [l1, l2]) == Some(Step(cfg, once, Step(cfg, once, s, l1), l2))
  {
    assert [l1][1..] == [] && [l1] + [l2] == [l1, l2];
    assert Run(cfg, once, s, [l1]) == Some(Step(cfg, once, s, l1));
    RunExtends(cfg, once, s, [l1], l2);
  }

  /** `get_identity_token`: without interruption, the answer is the classification of the
      key in the store that the followup leaves. */
  method GetIdentityToken(db: DB, key: Key, wallet: WalletAnswer, reply: Option<SubmissionStatus>,
                          revocationOk: bool, identityOk: bool,
                          ghost cfg: Config, ghost once: bool, ghost s: System, ghost id: TaskId)
    returns (status: Status)
    requires s.store == db.View() && id !in s.tasks
    modifies db
    ensures var s' := Run(cfg, once, s, PollSteps(s, id, key, wallet, reply, revocationOk, identityOk));
            && s'.Some? && s'.value.store == db.View()
            && status == Classify(db.View(), key)
  {
    Followup(db, key, wallet, reply, revocationOk, identityOk, cfg, once, s, id);
    if key in db.pending {
      return Pending;
    }
    var obj := db.ReadIdentityObject(key);
    return if obj.Some? then Done else Error;
  }

  datatype CreateReply = NoValidRequest | VerifierFailure | InternalError | ReuseOfRegId | Redirect

  lemma Next(cfg: Config, once: bool, s0: System, run: seq<Label>, s: System, l: Label)
    returns (run': seq<Label>, s': System)
    requires Run(cfg, once, s0, run) == Some(s) && Enabled(cfg, once, s, l)
    ensures run' == run + [l] && s' == Step(cfg, once, s, l)
    ensures Run(cfg, once, s0, run') == Some(s')
  {
    RunExtends(cfg, once, s0, run, l);
    run', s' := run + [l], Step(cfg, once, s, l);
  }

  /** The object that a creation signs: the stored request with the attributes the verifier holds. */
  ghost function ObjectFor(s: System, key: Key, expiry: nat, now: nat): IdentityObject
    requires key in s.store.requests && key in s.verifier
  {
    IdentityObject(s.store.requests[key], AttributeList(expiry, now, s.verifier[key], MAX_ACCOUNTS))
  }

  /** What a creation submits to the wallet proxy. */
  ghost function SubmissionFor(obj: IdentityObject, expiry: nat): Submission {
    Submission(obj.request.idCredPub, obj.alist, expiry)
  }

  /** What a creation writes before it turns to the wallet proxy. */
  ghost function WithObject(cfg: Config, s: Store, key: Key, obj: IdentityObject): Store {
    WriteIdentity(WriteRevocation(s, KeyOf(cfg, obj.request), RecordOf(obj)), key, obj)
  }

  lemma SigningSteps(cfg: Config, s0: System, id: TaskId, flow: Flow, key: Key, expiry: nat, now: nat)
    returns (run: seq<Label>, s: System)
    requires id !in s0.tasks && ReadRequest(s0.store, flow, key).Some? && key in s0.verifier
    ensures Run(cfg, false, s0, run) == Some(s) && s.store == s0.store
    ensures var obj := ObjectFor(s0, key, expiry, now);
            s.tasks == s0.tasks[id := Signed(flow, key, obj)]
  {
    run, s := Next(cfg, false, s0, [], s0, Create(id, flow, key));
    run, s := Next(cfg, false, s0, run, s, Sign(id, expiry, now));
  }

  lemma RevocationStep(cfg: Config, s: System, id: TaskId) returns (s': System)
    requires id in s.tasks && s.tasks[id].Signed?
    ensures var t := s.tasks[id];
            && s' == Step(cfg, false, s, SaveRevocation(id))
            && s'.store == WriteRevocation(s.store, KeyOf(cfg, t.obj.request), RecordOf(t.obj))
            && s'.tasks == s.tasks[id := Revocable(t.flow, t.key, t.obj)]
  {
    s' := Step(cfg, false, s, SaveRevocation(id));
  }

  lemma ObjectStep(cfg: Config, s: System, id: TaskId, expiry: nat) returns (s': System)
    requires id in s.tasks && s.tasks[id].Revocable?
    ensures var t := s.tasks[id];
            && s' == Step(cfg, false, s, SaveObject(id, expiry))
            && s'.store == WriteIdentity(s.store, t.key, t.obj)
            && s'.tasks == if t.flow == V0
                           then s.tasks[id := Submitting(t.key, SubmissionFor(t.obj, expiry))]
                           else s.tasks - {id}
  {
    s' := Step(cfg, false, s, SaveObject(id, expiry));
  }

  /** The steps of a creation handler up to the stored object. */
  lemma ObjectSteps(cfg: Config, s0: System, id: TaskId, flow: Flow, key: Key,
                    expiry: nat, now: nat, messageExpiry: nat)
    returns (run: seq<Label>, s: System)
    requires id !in s0.tasks && ReadRequest(s0.store, flow, key).Some? && key in s0.verifier
    ensures Run(cfg, false, s0, run) == Some(s)
    ensures var obj := ObjectFor(s0, key, expiry, now);
            && s.store == WithObject(cfg, s0.store, key, obj)
            && s.tasks == if flow == V0
                          then s0.tasks[id := Submitting(key, SubmissionFor(obj, messageExpiry))]
                          else s0.tasks
  {
    var obj := ObjectFor(s0, key, expiry, now);
    run, s := SigningSteps(cfg, s0, id, flow, key, expiry, now);
    var s1 := RevocationStep(cfg, s, id);
    run, s := Next(cfg, false, s0, run, s, SaveRevocation(id));
    var s2 := ObjectStep(cfg, s, id, messageExpiry);
    run, s := Next(cfg, false, s0, run, s, SaveObject(id, messageExpiry));
    Overwrite(s0.tasks, id, Signed(flow, key, obj), Revocable(flow, key, obj));
    Overwrite(s0.tasks, id, Revocable(flow, key, obj), Submitting(key, SubmissionFor(obj, messageExpiry)));
  }

  /** The last step of a version 0 creation. */
  lemma SubmissionSteps(cfg: Config, s0: System, id: TaskId, key: Key,
                        expiry: nat, now: nat, messageExpiry: nat, wallet: WalletAnswer)
    returns (run: seq<Label>, s: System)
    requires id !in s0.tasks && ReadRequest(s0.store, V0, key).Some? && key in s0.verifier
    ensures Run(cfg, false, s0, run) == Some(s) && s.tasks == s0.tasks
    ensures var obj := ObjectFor(s0, key, expiry, now);
            s.store == match SubmissionResult(wallet)
              case Some(status) =>
                WritePending(WithObject(cfg, s0.store, key, obj), key,
                             PendingEntry(status, SubmissionFor(obj, messageExpiry)))
              case None => WithObject(cfg, s0.store, key, obj)
  {
    run, s := ObjectSteps(cfg, s0, id, V0, key, expiry, now, messageExpiry);
    run, s := Next(cfg, false, s0, run, s, FirstSubmission(id, wallet));
    assert s.tasks == s0.tasks;
  }

  lemma AbortSteps(cfg: Config, s0: System, id: TaskId, flow: Flow, key: Key) returns (run: seq<Label>, s: System)
    requires id !in s0.tasks && ReadRequest(s0.store, flow, key).Some?
    ensures Run(cfg, false, s0, run) == Some(s) && s.tasks == s0.tasks && s.store == s0.store
  {
    run, s := Next(cfg, false, s0, [], s0, Create(id, flow, key));
    run, s := Next(cfg, false, s0, run, s, Abort(id));
    assert s.tasks == s0.tasks;
  }

  /** What the identity verifier answers to the query for the attributes of a key. */
  datatype Fetched = Unreached | Undecodable | Held(attributes: Attributes)

  /** `create_signed_identity_object` in either flow, with what the verifier, the signer and the
      wallet proxy answer: a run of the protocol, which reaches the end unless refused. */
  method CreateSignedIdentityObject(db: DB, cfg: Config, flow: Flow, key: Key,
                                    fetched: Fetched, signs: bool, expiry: nat, now: nat,
                                    messageExpiry: nat, wallet: WalletAnswer,
                                    ghost s0: System, ghost id: TaskId)
    returns (reply: CreateReply, ghost run: seq<Label>, ghost s: System)
    requires s0.store == db.View() && id !in s0.tasks
    requires fetched.Held? ==> key in s0.verifier && fetched.attributes == s0.verifier[key]
    modifies db
    ensures Run(cfg, false, s0, run) == Some(s) && s.store == db.View() && s.tasks == s0.tasks
    ensures reply == NoValidRequest <==> ReadRequest(s0.store, flow, key).None?
    ensures reply == VerifierFailure <==> ReadRequest(s0.store, flow, key).Some? && fetched.Undecodable?
    ensures reply == InternalError <==>
      ReadRequest(s0.store, flow, key).Some? && (fetched.Unreached? || (fetched.Held? && !signs))
    ensures reply in {NoValidRequest, VerifierFailure, InternalError} ==> db.View() == s0.store
    ensures reply in {Redirect, ReuseOfRegId} ==> (reply == ReuseOfRegId <==> flow == V0 && wallet == BadRequest)
    ensures reply in {Redirect, ReuseOfRegId} ==>
      var obj := ObjectFor(s0, key, expiry, now);
      var stored := WithObject(cfg, s0.store, key, obj);
      var submission := SubmissionFor(obj, messageExpiry);
      if flow == V1 || SubmissionResult(wallet).None? then db.View() == stored
      else db.View() == WritePending(stored, key, PendingEntry(SubmissionResult(wallet).value, submission))
  {
    var request := db.ReadRequestRecord(flow, key);
    if request.None? {
      return NoValidRequest, [], s0;
    }
    if !fetched.Held? || !signs {
      run, s := AbortSteps(cfg, s0, id, flow, key);
      return if fetched.Undecodable? then VerifierFailure else InternalError, run, s;
    }
    var obj := IdentityObject(request.value, AttributeList(expiry, now, fetched.attributes, MAX_ACCOUNTS));
    db.WriteRevocationRecord(KeyOf(cfg, obj.request), RecordOf(obj));
    db.WriteIdentityObject(key, obj);
    if flow == V1 {
      run, s := ObjectSteps(cfg, s0, id, flow, key, expiry, now, messageExpiry);
      return Redirect, run, s;
    }
    run, s := SubmissionSteps(cfg, s0, id, key, expiry, now, messageExpiry, wallet);
    var result := SubmissionResult(wallet);
    if result.None? {
      return ReuseOfRegId, run, s;
    }
    db.WritePendingEntry(key, result.value, Submission(obj.request.idCredPub, obj.alist, messageExpiry));
    return Redirect, run, s;
  }

  datatype RequestReply = DatabaseError | DuplicateRequest | InvalidRequest | VerificationForm(key: Key)

  /** A request for an identity: the duplicate check, validation, and `save_validated_request` in
      either flow.  The user is sent to the verifier exactly for a valid request whose key has
      neither object nor revocation record, and only then is anything written. */
  method RequestIdentityObject(db: DB, cfg: Config, r: Request, ghost once: bool, ghost s0: System, ghost id: TaskId)
    returns (reply: RequestReply)
    requires s0.store == db.View() && id !in s0.tasks
    modifies db
    ensures reply.DatabaseError? <==> !Base16.SafeKey(KeyOf(cfg, r))
    ensures reply.DuplicateRequest? <==>
      Base16.SafeKey(KeyOf(cfg, r)) && (KeyOf(cfg, r) in s0.store.identity || KeyOf(cfg, r) in s0.store.revocation)
    ensures reply.InvalidRequest? <==>
      && Base16.SafeKey(KeyOf(cfg, r)) && KeyOf(cfg, r) !in s0.store.identity && KeyOf(cfg, r) !in s0.store.revocation
      && !(r.version == 0 && cfg.proofsOk(r))
    ensures reply.VerificationForm? ==>
      var s := Run(cfg, once, s0, [RequestIdentity(id, r), SaveRequest(id)]);
      && reply.key == KeyOf(cfg, r)
      && s.Some? && s.value.store == db.View() && s.value.tasks == s0.tasks
      && cfg.sha(r.idCredPub) in s.value.history.signed
    ensures !reply.VerificationForm? ==> db.View() == s0.store
  {
    var key := KeyOf(cfg, r);
    var duplicate := db.IsDuplicateKey(key);
    if duplicate.None? {
      return DatabaseError;
    }
    if duplicate.value {
      return DuplicateRequest;
    }
    if !Validates(cfg, r) {
      return InvalidRequest;
    }
    TwoSteps(cfg, once, s0, RequestIdentity(id, r), SaveRequest(id));
    Overwrite(s0.tasks, id, Validated(r), Validated(r));
    db.WriteRequestRecord(key, r);
    return VerificationForm(key);
  }
}
