/** The database of the identity provider: a table of pending entries in memory, and
    directories of files.  `Store` is its contents as a value; `DB` is the object whose
    methods, each under one lock, change it. */
module IdentityStore {
  import opened Bytes
  import Base16

  type Key = string
  type Attributes = map<string, string>

  /** The two issuance flows.  Version 0 also creates an initial account. */
  datatype Flow = V0 | V1

  datatype Request = Request(
    flow: Flow,
    version: nat,
    idCredPub: seq<Byte>,
    arData: map<nat, string>,
    threshold: nat,
    proofs: string,
    redirectUri: string)

  datatype AttributeList = AttributeList(
    validTo: nat, createdAt: nat, attributes: Attributes, maxAccounts: nat)

  datatype RevocationRecord = RevocationRecord(
    idCredPub: seq<Byte>, arData: map<nat, string>, maxAccounts: nat, threshold: nat)

  datatype IdentityObject = IdentityObject(request: Request, alist: AttributeList)

  /** The credential message sent to the wallet proxy to create the initial account. */
  datatype Submission = Submission(idCredPub: seq<Byte>, alist: AttributeList, expiry: nat)

  datatype SubmissionStatus = Absent | Received | Committed | Finalized

  datatype PendingStatus =
    | Submitted(submissionId: string, status: SubmissionStatus)
    | CouldNotSubmit

  datatype PendingEntry = PendingEntry(status: PendingStatus, value: Submission)

  datatype Store = Store(
    pending: map<Key, PendingEntry>,
    requests: map<Key, Request>,
    revocation: map<Key, RevocationRecord>,
    identity: map<Key, IdentityObject>,
    pendingFiles: map<Key, PendingEntry>,
    backupRevocation: map<Key, RevocationRecord>,
    backupIdentity: map<Key, IdentityObject>)

  const EmptyStore := Store(map[], map[], map[], map[], map[], map[], map[])

  /** The record kept for revoking the anonymity of the holder of `obj`. */
  function RecordOf(obj: IdentityObject): RevocationRecord {
    RevocationRecord(obj.request.idCredPub, obj.request.arData, obj.alist.maxAccounts, obj.request.threshold)
  }

  function WriteRequest(s: Store, key: Key, r: Request): Store {
    s.(requests := s.requests[key := r])
  }

  /** A request is readable only in the flow it was made for: the two file formats differ. */
  function ReadRequest(s: Store, flow: Flow, key: Key): Option<Request> {
    if Base16.SafeKey(key) && key in s.requests && s.requests[key].flow == flow
    then Some(s.requests[key]) else None
  }

  function WriteRevocation(s: Store, key: Key, record: RevocationRecord): Store {
    s.(revocation := s.revocation[key := record])
  }

  function WriteIdentity(s: Store, key: Key, obj: IdentityObject): Store {
    s.(identity := s.identity[key := obj])
  }

  function ReadIdentity(s: Store, key: Key): Option<IdentityObject> {
    if Base16.SafeKey(key) && key in s.identity then Some(s.identity[key]) else None
  }

  /** `None` is the error for a key that is not a safe file name. */
  function IsDuplicate(s: Store, key: Key): Option<bool> {
    if Base16.SafeKey(key) then Some(key in s.identity || key in s.revocation) else None
  }

  function WritePending(s: Store, key: Key, entry: PendingEntry): Store {
    s.(pending := s.pending[key := entry], pendingFiles := s.pendingFiles[key := entry])
  }

  /** A resubmission that got an answer: only the table in memory learns the new status. */
  function SetStatus(s: Store, key: Key, status: PendingStatus): Store {
    if key in s.pending
    then s.(pending := s.pending[key := s.pending[key].(status := status)])
    else s
  }

  function MarkFinalized(s: Store, key: Key): Store {
    if key in s.pending
    then s.(pending := s.pending - {key}, pendingFiles := s.pendingFiles - {key})
    else s
  }

  function Move<V>(from: map<Key, V>, to: map<Key, V>, key: Key, ok: bool): (map<Key, V>, map<Key, V>) {
    if ok && key in from then (from - {key}, to[key := from[key]]) else (from, to)
  }

  /** `revocationOk` and `identityOk` say whether the two renames into the backup directories succeed. */
  function DeleteAll(s: Store, key: Key, revocationOk: bool, identityOk: bool): Store {
    if key in s.pending then
      var (rev, backupRev) := Move(s.revocation, s.backupRevocation, key, revocationOk);
      var (ids, backupIds) := Move(s.identity, s.backupIdentity, key, identityOk);
      s.(pending := s.pending - {key}, pendingFiles := s.pendingFiles - {key},
         revocation := rev, backupRevocation := backupRev,
         identity := ids, backupIdentity := backupIds)
    else s
  }

  /** Starting the server again on the same files. */
  function Reopen(s: Store): Store {
    s.(pending := s.pendingFiles)
  }

  class DB {
    var pending: map<Key, PendingEntry>
    var requests: map<Key, Request>
    var revocation: map<Key, RevocationRecord>
    var identity: map<Key, IdentityObject>
    var pendingFiles: map<Key, PendingEntry>
    var backupRevocation: map<Key, RevocationRecord>
    var backupIdentity: map<Key, IdentityObject>

    function View(): Store
      reads this
    {
      Store(pending, requests, revocation, identity, pendingFiles, backupRevocation, backupIdentity)
    }

    /** Opens the directories found on disk and rebuilds the pending table file by file. */
    constructor (disk: Store)
      ensures View() == Reopen(disk)
      ensures pending == pendingFiles == disk.pendingFiles
    {
      requests := disk.requests;
      revocation := disk.revocation;
      identity := disk.identity;
      pendingFiles := disk.pendingFiles;
      backupRevocation := disk.backupRevocation;
      backupIdentity := disk.backupIdentity;
      var table: map<Key, PendingEntry> := map[];
      var todo := disk.pendingFiles.Keys;
      while todo != {}
        invariant todo <= disk.pendingFiles.Keys
        invariant table == map k | k in disk.pendingFiles && k !in todo :: disk.pendingFiles[k]
        decreases |todo|
      {
        var name :| name in todo;
        table := table[name := disk.pendingFiles[name]];
        todo := todo - {name};
      }
      pending := table;
      new;
      assert table == disk.pendingFiles;
    }

    method WriteRequestRecord(key: Key, r: Request)
      modifies this
      ensures View() == WriteRequest(old(View()), key, r)
    {
      requests := requests[key := r];
    }

    method ReadRequestRecord(flow: Flow, key: Key) returns (r: Option<Request>)
      ensures r == ReadRequest(View(), flow, key)
    {
      if !Base16.SafeKey(key) || key !in requests {
        return None;
      }
      var contents := requests[key];
      return if contents.flow == flow then Some(contents) else None;
    }

    method WriteRevocationRecord(key: Key, record: RevocationRecord)
      modifies this
      ensures View() == WriteRevocation(old(View()), key, record)
    {
      revocation := revocation[key := record];
    }

    method WriteIdentityObject(key: Key, obj: IdentityObject)
      modifies this
      ensures View() == WriteIdentity(old(View()), key, obj)
    {
      identity := identity[key := obj];
    }

    method ReadIdentityObject(key: Key) returns (r: Option<IdentityObject>)
      ensures r == ReadIdentity(View(), key)
    {
      if !Base16.SafeKey(key) || key !in identity {
        return None;
      }
      return Some(identity[key]);
    }

    method IsDuplicateKey(key: Key) returns (r: Option<bool>)
      ensures r == IsDuplicate(View(), key)
    {
      if !Base16.SafeKey(key) {
        return None;
      }
      return Some(key in identity || key in revocation);
    }

    method WritePendingEntry(key: Key, status: PendingStatus, value: Submission)
      modifies this
      ensures View() == WritePending(old(View()), key, PendingEntry(status, value))
    {
      var entry := PendingEntry(status, value);
      pendingFiles := pendingFiles[key := entry];
      pending := pending[key := entry];
    }

    method UpdateStatus(key: Key, status: PendingStatus)
      modifies this
      ensures View() == SetStatus(old(View()), key, status)
      ensures key in old(pending) ==> key in pending && pending[key] == PendingEntry(status, old(pending)[key].value)
    {
      if key in pending {
        pending := pending[key := pending[key].(status := status)];
      }
    }

    method MarkFinalizedEntry(key: Key)
      modifies this
      ensures View() == MarkFinalized(old(View()), key)
    {
      if key in pending {
        pending := pending - {key};
        pendingFiles := pendingFiles - {key};
      }
    }

    method DeleteEntry(key: Key, revocationOk: bool, identityOk: bool)
      modifies this
      ensures View() == DeleteAll(old(View()), key, revocationOk, identityOk)
    {
      if key in pending {
        pending := pending - {key};
        if revocationOk && key in revocation {
          backupRevocation := backupRevocation[key := revocation[key]];
          revocation := revocation - {key};
        }
        if identityOk && key in identity {
          backupIdentity := backupIdentity[key := identity[key]];
          identity := identity - {key};
        }
        pendingFiles := pendingFiles - {key};
      }
    }
  }
}
