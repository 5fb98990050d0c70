/** The identity issuance service as a state machine.  Every database method is one
    atomic step, so handlers interleave between any two of their database calls.  The
    answers of the outside world (wallet proxy, clocks, renames) are parts of the step
    labels; a restart loses all handlers in flight and the table in memory. */
module IdentityProtocol {
  import opened Bytes
  import opened IdentityStore
  import Base16

  const MAX_ACCOUNTS := 200

  /** `sha` is SHA-256 and `proofsOk` the validation of the cryptographic proofs. */
  datatype Config = Config(sha: seq<Byte> -> seq<Byte>, proofsOk: Request -> bool)

  function KeyOf(cfg: Config, r: Request): Key {
    Base16.Encode(cfg.sha(r.idCredPub))
  }

  /** `validate_worker`: only version 0 of either request format, with correct proofs. */
  predicate Validates(cfg: Config, r: Request) {
    r.version == 0 && cfg.proofsOk(r)
  }

  /** What the wallet proxy answers to the submission of an account creation. */
  datatype WalletAnswer = Unreachable | BadGateway | BadRequest | Malformed | OtherCode | Accepted(id: string)

  /** `submit_account_creation`: `None` when the transaction itself was rejected. */
  function SubmissionResult(a: WalletAnswer): Option<PendingStatus> {
    match a
    case BadRequest => None
    case Accepted(id) => Some(Submitted(id, Received))
    case _ => Some(CouldNotSubmit)
  }

  /** A handler in flight, at the point between two of its atomic steps. */
  datatype Task =
    | Validated(request: Request)                        // next: write the request record
    | Fetching(flow: Flow, key: Key, request: Request)   // next: ask the verifier
    | Signed(flow: Flow, key: Key, obj: IdentityObject)  // next: write the revocation record
    | Revocable(flow: Flow, key: Key, obj: IdentityObject) // next: write the identity object
    | Submitting(key: Key, value: Submission)            // next: record the pending entry
    | Resubmitting(key: Key, value: Submission)          // a poll that saw CouldNotSubmit
    | Querying(key: Key, submissionId: string)           // a poll that saw Submitted
    | Checking(key: Key)                                 // a poll after its followup
    | Reading(key: Key, late: bool, settled: bool)       // a poll that found nothing pending

  /** Creation handlers, from reading the request up to recording the pending entry. */
  predicate Creating(t: Task) {
    t.Fetching? || t.Signed? || t.Revocable? || t.Submitting?
  }

  datatype Status = Pending | Done | Error

  /** One answered version 0 poll.  `late`: the key had been recorded as pending before the
      pending check; `settled`: its entry had been removed again by then. */
  datatype Answer = Answer(key: Key, status: Status, late: bool, settled: bool)

  /** What has happened so far. */
  datatype History = History(
    accepted: set<Request>,               // requests that passed validation
    signed: set<seq<Byte>>,               // hashes the provider signed for the verifier
    held: set<(Key, Attributes)>,         // attribute lists the verifier has ever stored
    created: set<Key>,                    // keys a creation handler has read the request of
    recorded: set<Key>,                   // keys written to the pending table
    finalized: set<Key>,                  // entries removed because a poll saw Finalized
    rejected: set<Key>,                   // entries removed because a resubmission was rejected
    moved: set<Key>,                      // ... whose identity object was moved to the backup
    answers: seq<Answer>)

  type TaskId = nat

  datatype System = System(
    store: Store,
    verifier: map<Key, Attributes>,
    tasks: map<TaskId, Task>,
    history: History)

  const Initial := System(EmptyStore, map[], map[], History({}, {}, {}, {}, {}, {}, {}, {}, []))

  datatype Label =
    | RequestIdentity(id: TaskId, request: Request)
    | SaveRequest(id: TaskId)
    | SubmitAttributes(key: Key, attributes: Attributes)
    | Create(id: TaskId, flow: Flow, key: Key)
    | Abort(id: TaskId)   // a handler fails, or is dropped when its client disconnects
    | Sign(id: TaskId, expiry: nat, now: nat)
    | SaveRevocation(id: TaskId)
    | SaveObject(id: TaskId, expiry: nat)
    | FirstSubmission(id: TaskId, answer: WalletAnswer)
    | Poll(id: TaskId, key: Key)
    | Resubmission(id: TaskId, answer: WalletAnswer, revocationOk: bool, identityOk: bool)
    | QueryStatus(id: TaskId, reply: Option<SubmissionStatus>)
    | CheckPending(id: TaskId)
    | ReadObject(id: TaskId)
    | Restart

  predicate IsSettled(h: History, key: Key) {
    key in h.finalized || key in h.rejected
  }

  /** Whether the step is possible.  With `once`, no key is created a second time. */
  predicate Enabled(cfg: Config, once: bool, s: System, l: Label) {
    match l
    case RequestIdentity(id, r) =>
      && id !in s.tasks
      && IsDuplicate(s.store, KeyOf(cfg, r)) == Some(false)
      && Validates(cfg, r)
    case SaveRequest(id) => id in s.tasks && s.tasks[id].Validated?
    case SubmitAttributes(key, _) =>
      var bytes := Base16.Decode(key);
      bytes.Some? && bytes.value in s.history.signed
    case Create(id, flow, key) =>
      && id !in s.tasks
      && ReadRequest(s.store, flow, key).Some?
      && (once ==> key !in s.history.created)
    case Abort(id) => id in s.tasks
    case Sign(id, _, _) => id in s.tasks && s.tasks[id].Fetching? && s.tasks[id].key in s.verifier
    case SaveRevocation(id) => id in s.tasks && s.tasks[id].Signed?
    case SaveObject(id, _) => id in s.tasks && s.tasks[id].Revocable?
    case FirstSubmission(id, _) => id in s.tasks && s.tasks[id].Submitting?
    case Poll(id, _) => id !in s.tasks
    case Resubmission(id, _, _, _) => id in s.tasks && s.tasks[id].Resubmitting?
    case QueryStatus(id, _) => id in s.tasks && s.tasks[id].Querying?
    case CheckPending(id) => id in s.tasks && s.tasks[id].Checking?
    case ReadObject(id) => id in s.tasks && s.tasks[id].Reading?
    case Restart => true
  }

  /** The state after an enabled step. */
  function Step(cfg: Config, once: bool, s: System, l: Label): System
    requires Enabled(cfg, once, s, l)
  {
    var h := s.history;
    match l
    case RequestIdentity(id, r) =>
      s.(tasks := s.tasks[id := Validated(r)], history := h.(accepted := h.accepted + {r}))
    case SaveRequest(id) =>
      var r := s.tasks[id].request;
      s.(store := WriteRequest(s.store, KeyOf(cfg, r), r),
         tasks := s.tasks - {id},
         history := h.(signed := h.signed + {cfg.sha(r.idCredPub)}))
    case SubmitAttributes(key, attributes) =>
      s.(verifier := s.verifier[key := attributes],
         history := h.(held := h.held + {(key, attributes)}))
    case Create(id, flow, key) =>
      s.(tasks := s.tasks[id := Fetching(flow, key, s.store.requests[key])],
         history := h.(created := h.created + {key}))
    case Abort(id) =>
      s.(tasks := s.tasks - {id})
    case Sign(id, expiry, now) =>
      var t := s.tasks[id];
      var alist := AttributeList(expiry, now, s.verifier[t.key], MAX_ACCOUNTS);
      s.(tasks := s.tasks[id := Signed(t.flow, t.key, IdentityObject(t.request, alist))])
    case SaveRevocation(id) =>
      var t := s.tasks[id];
      s.(store := WriteRevocation(s.store, KeyOf(cfg, t.obj.request), RecordOf(t.obj)),
         tasks := s.tasks[id := Revocable(t.flow, t.key, t.obj)])
    case SaveObject(id, expiry) =>
      var t := s.tasks[id];
      s.(store := WriteIdentity(s.store, t.key, t.obj),
         tasks := if t.flow == V0
                  then s.tasks[id := Submitting(t.key, Submission(t.obj.request.idCredPub, t.obj.alist, expiry))]
                  else s.tasks - {id})
    case FirstSubmission(id, answer) =>
      var t := s.tasks[id];
      (match SubmissionResult(answer)
       case Some(status) =>
         s.(store := WritePending(s.store, t.key, PendingEntry(status, t.value)),
            tasks := s.tasks - {id},
            history := h.(recorded := h.recorded + {t.key}))
       case None => s.(tasks := s.tasks - {id}))
    case Poll(id, key) =>
      var t :=
        if key !in s.store.pending then Checking(key)
        else match s.store.pending[key].status
          case CouldNotSubmit => Resubmitting(key, s.store.pending[key].value)
          case Submitted(submissionId, _) => Querying(key, submissionId);
      s.(tasks := s.tasks[id := t])
    case Resubmission(id, answer, revocationOk, identityOk) =>
      var key := s.tasks[id].key;
      (match SubmissionResult(answer)
       case Some(status) =>
         s.(store := SetStatus(s.store, key, status), tasks := s.tasks[id := Checking(key)])
       case None =>
         var removed := if key in s.store.pending then {key} else {};
         var moved := if identityOk && key in s.store.identity then removed else {};
         s.(store := DeleteAll(s.store, key, revocationOk, identityOk),
            tasks := s.tasks[id := Checking(key)],
            history := h.(rejected := h.rejected + removed, moved := h.moved + moved)))
    case QueryStatus(id, reply) =>
      var key := s.tasks[id].key;
      if reply == Some(Finalized) then
        s.(store := MarkFinalized(s.store, key),
           tasks := s.tasks[id := Checking(key)],
           history := h.(finalized := h.finalized + if key in s.store.pending then {key} else {}))
      else
        s.(tasks := s.tasks[id := Checking(key)])
    case CheckPending(id) =>
      var key := s.tasks[id].key;
      if key in s.store.pending then
        s.(tasks := s.tasks - {id},
           history := h.(answers := h.answers + [Answer(key, Pending, key in h.recorded, IsSettled(h, key))]))
      else
        s.(tasks := s.tasks[id := Reading(key, key in h.recorded, IsSettled(h, key))])
    case ReadObject(id) =>
      var t := s.tasks[id];
      var status := if ReadIdentity(s.store, t.key).Some? then Done else Error;
      s.(tasks := s.tasks - {id},
         history := h.(answers := h.answers + [Answer(t.key, status, t.late, t.settled)]))
    case Restart =>
      s.(store := Reopen(s.store), tasks := map[])
  }

  /** The state after a run of steps; `None` if some step was not possible. */
  function Run(cfg: Config, once: bool, s: System, run: seq<Label>): Option<System>
    decreases |run|
  {
    if run == [] then Some(s)
    else if !Enabled(cfg, once, s, run[0]) then None
    else Run(cfg, once, Step(cfg, once, s, run[0]), run[1..])
  }
}
