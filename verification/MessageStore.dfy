/** `save_message` and the commit around it, as the steps of concurrent transactions.

    A handler looks its key up among the committed rows, inserts if it found nothing (the flush), and commits.
    The table has a primary key on `id` and a unique constraint on a non-null `idempotency_key`; an insert that
    meets an uncommitted row with the same key waits for that transaction. */
module MessageStore {
  import opened Options
  import opened Events

  type Txn = nat

  datatype Request = Request(room: Room, sender: User, content: string, key: Option<string>)

  /** A stored message: its request's fields, the key column included. */
  type Row = Request

  datatype Phase =
    | Checking(req: Request)                    // about to look the key up
    | Inserting(req: Request)                   // found nothing, or did not look
    | Pending(req: Request, id: MessageId)      // flushed, not committed
    | Found(req: Request, id: MessageId)        // the lookup returned a committed row
    | Ready(req: Request, id: MessageId)        // committed, about to publish
    | Failed(req: Request)

  datatype Store = Store(rows: map<MessageId, Row>, txns: map<Txn, Phase>)

  function EmptyStore(): Store {
    Store(map[], map[])
  }

  /** `if idempotency_key:` is false for None and for the empty string. */
  predicate Looked(key: Option<string>) {
    key.Some? && key.value != ""
  }

  ghost predicate HasKey(rows: map<MessageId, Row>, key: Option<string>) {
    exists id <- rows :: rows[id].key == key
  }

  /** Another transaction holds an uncommitted row with this key. */
  ghost predicate KeyHeld(s: Store, key: Option<string>) {
    exists t <- s.txns :: s.txns[t].Pending? && s.txns[t].req.key == key
  }

  ghost predicate IdHeld(s: Store, id: MessageId) {
    exists t <- s.txns :: s.txns[t].Pending? && s.txns[t].id == id
  }

  datatype StoreOp =
    | Begin(txn: Txn, req: Request)
    | Check(txn: Txn, hit: Option<MessageId>)   // the row the lookup returned, if any
    | Flush(txn: Txn, newId: MessageId)
    | Reject(txn: Txn)                          // the unique constraint refuses the insert
    | Commit(txn: Txn)
    | Abort(txn: Txn)                           // any database error or cancellation: rollback

  /** The select sees the committed rows; without a usable key there is no select. */
  ghost predicate LookupAnswers(s: Store, key: Option<string>, hit: Option<MessageId>) {
    if hit.Some? then Looked(key) && hit.value in s.rows && s.rows[hit.value].key == key
    else Looked(key) ==> !HasKey(s.rows, key)
  }

  ghost predicate StoreEnabled(s: Store, op: StoreOp) {
    match op
    case Begin(t, _) => t !in s.txns
    case Check(t, hit) =>
      t in s.txns && s.txns[t].Checking? && LookupAnswers(s, s.txns[t].req.key, hit)
    case Flush(t, id) =>
      && t in s.txns && s.txns[t].Inserting?
      && id !in s.rows && !IdHeld(s, id)
      && (s.txns[t].req.key.Some? ==> !HasKey(s.rows, s.txns[t].req.key) && !KeyHeld(s, s.txns[t].req.key))
    case Reject(t) =>
      t in s.txns && s.txns[t].Inserting? && s.txns[t].req.key.Some? && HasKey(s.rows, s.txns[t].req.key)
    case Commit(t) => t in s.txns && (s.txns[t].Pending? || s.txns[t].Found?)
    case Abort(t) => t in s.txns && !s.txns[t].Ready?
  }

  function StoreApply(s: Store, op: StoreOp): Store
    requires op.Begin? || op.txn in s.txns
    requires op.Commit? ==> s.txns[op.txn].Pending? || s.txns[op.txn].Found?
  {
    match op
    case Begin(t, req) => s.(txns := s.txns[t := Checking(req)])
    case Check(t, hit) =>
      var req := s.txns[t].req;
      s.(txns := s.txns[t := if hit.Some? then Found(req, hit.value) else Inserting(req)])
    case Flush(t, id) => s.(txns := s.txns[t := Pending(s.txns[t].req, id)])
    case Reject(t) => s.(txns := s.txns[t := Failed(s.txns[t].req)])
    case Commit(t) =>
      var ph := s.txns[t];
      Store(if ph.Pending? then s.rows[ph.id := ph.req] else s.rows, s.txns[t := Ready(ph.req, ph.id)])
    case Abort(t) => s.(txns := s.txns[t := Failed(s.txns[t].req)])
  }

  // ---------------------------------------------------------------- invariant

  ghost predicate UniqueKeys(s: Store) {
    forall i <- s.rows, j <- s.rows :: s.rows[i].key.Some? && s.rows[i].key == s.rows[j].key ==> i == j
  }

  /** A flushed row collides with no committed row. */
  ghost predicate PendingFresh(s: Store) {
    forall t <- s.txns :: s.txns[t].Pending? ==>
      && s.txns[t].id !in s.rows
      && (s.txns[t].req.key.Some? ==> !HasKey(s.rows, s.txns[t].req.key))
  }

  /** Two flushed rows collide with each other neither. */
  ghost predicate PendingApart(s: Store) {
    forall t <- s.txns, u <- s.txns :: t != u && s.txns[t].Pending? && s.txns[u].Pending? ==>
      && s.txns[t].id != s.txns[u].id
      && (s.txns[t].req.key.Some? ==> s.txns[t].req.key != s.txns[u].req.key)
  }

  predicate Settled(ph: Phase) {
    ph.Found? || ph.Ready?
  }

  /** A handler that got past its save points at a committed row with its own key. */
  ghost predicate SettledPersisted(s: Store) {
    forall t <- s.txns :: Settled(s.txns[t]) ==>
      s.txns[t].id in s.rows && s.rows[s.txns[t].id].key == s.txns[t].req.key
  }

  /** Handlers that never look up own the row they point at. */
  ghost predicate OwnRows(s: Store) {
    && (forall t <- s.txns :: s.txns[t].Found? ==> Looked(s.txns[t].req.key))
    && (forall t <- s.txns :: s.txns[t].Ready? && !Looked(s.txns[t].req.key) ==>
          s.txns[t].id in s.rows && s.rows[s.txns[t].id] == s.txns[t].req)
    && (forall t <- s.txns, u <- s.txns ::
          t != u && s.txns[t].Ready? && s.txns[u].Ready? && !Looked(s.txns[t].req.key) ==> s.txns[t].id != s.txns[u].id)
  }

  /** Every row was written, as it stands, by some handler. */
  ghost predicate RowsWritten(s: Store) {
    forall id <- s.rows :: exists t <- s.txns :: s.txns[t] == Ready(s.rows[id], id)
  }

  ghost predicate StoreInv(s: Store) {
    && UniqueKeys(s)
    && PendingFresh(s)
    && PendingApart(s)
    && SettledPersisted(s)
    && OwnRows(s)
    && RowsWritten(s)
  }

  lemma RowsWrittenKept(s: Store, op: StoreOp)
    requires RowsWritten(s) && StoreEnabled(s, op)
    ensures RowsWritten(StoreApply(s, op))
  {
    var s' := StoreApply(s, op);
    forall id <- s'.rows ensures exists t <- s'.txns :: s'.txns[t] == Ready(s'.rows[id], id) {
      if op.Commit? && s.txns[op.txn].Pending? && s.txns[op.txn].id == id {
        assert s'.txns[op.txn] == Ready(s'.rows[id], id);
      } else {
        var t :| t in s.txns && s.txns[t] == Ready(s.rows[id], id);
        assert t in s'.txns && s'.txns[t] == s.txns[t];
      }
    }
  }

  lemma NewRowIsUnique(s: Store, t: Txn)
    requires UniqueKeys(s) && PendingFresh(s) && PendingApart(s) && t in s.txns && s.txns[t].Pending?
    ensures UniqueKeys(StoreApply(s, Commit(t))) && PendingFresh(StoreApply(s, Commit(t)))
  {
    var s' := StoreApply(s, Commit(t));
    assert s'.rows == s.rows[s.txns[t].id := s.txns[t].req];
    forall u <- s'.txns | s'.txns[u].Pending? && s'.txns[u].req.key.Some?
      ensures !HasKey(s'.rows, s'.txns[u].req.key)
    {
      assert !HasKey(s.rows, s.txns[u].req.key);
    }
  }

  lemma NewRowIsOwned(s: Store, t: Txn)
    requires PendingFresh(s) && SettledPersisted(s) && OwnRows(s) && t in s.txns && s.txns[t].Pending?
    ensures SettledPersisted(StoreApply(s, Commit(t))) && OwnRows(StoreApply(s, Commit(t)))
  {
  }

  lemma NewRowKeepsInv(s: Store, t: Txn)
    requires StoreInv(s) && t in s.txns && s.txns[t].Pending?
    ensures StoreInv(StoreApply(s, Commit(t)))
  {
    RowsWrittenKept(s, Commit(t));
    NewRowIsUnique(s, t);
    NewRowIsOwned(s, t);
  }

  lemma QuietKeepsRows(s: Store, t: Txn, ph: Phase)
    requires RowsWritten(s) && (t in s.txns ==> !s.txns[t].Ready?)
    ensures RowsWritten(s.(txns := s.txns[t := ph]))
  {
    var s' := s.(txns := s.txns[t := ph]);
    forall id <- s'.rows ensures exists u <- s'.txns :: s'.txns[u] == Ready(s'.rows[id], id) {
      var u :| u in s.txns && s.txns[u] == Ready(s.rows[id], id);
      assert u in s'.txns && s'.txns[u] == s.txns[u];
    }
  }

  lemma QuietKeepsOwn(s: Store, t: Txn, ph: Phase)
    requires SettledPersisted(s) && OwnRows(s) && (t in s.txns ==> !s.txns[t].Ready?)
    requires Settled(ph) ==> Looked(ph.req.key) && ph.id in s.rows && s.rows[ph.id].key == ph.req.key
    ensures OwnRows(s.(txns := s.txns[t := ph])) && SettledPersisted(s.(txns := s.txns[t := ph]))
  {
    if ph.Ready? {
      forall u <- s.txns | s.txns[u].Ready? && !Looked(s.txns[u].req.key) ensures s.txns[u].id != ph.id {
        assert s.rows[s.txns[u].id].key == s.txns[u].req.key;
      }
    }
  }

  /** A transaction moving on without touching the table and without holding a row afterwards. */
  lemma QuietKeepsInv(s: Store, t: Txn, ph: Phase)
    requires StoreInv(s) && !ph.Pending? && (t in s.txns ==> !s.txns[t].Ready?)
    requires Settled(ph) ==> Looked(ph.req.key) && ph.id in s.rows && s.rows[ph.id].key == ph.req.key
    ensures StoreInv(s.(txns := s.txns[t := ph]))
  {
    QuietKeepsRows(s, t, ph);
    QuietKeepsOwn(s, t, ph);
  }

  lemma FlushKeepsInv(s: Store, t: Txn, id: MessageId)
    requires StoreInv(s) && StoreEnabled(s, Flush(t, id))
    ensures StoreInv(StoreApply(s, Flush(t, id)))
  {
    RowsWrittenKept(s, Flush(t, id));
    var s' := StoreApply(s, Flush(t, id));
    forall u <- s.txns | s.txns[u].Pending? ensures s.txns[u].id != id {
      assert !IdHeld(s, id);
    }
    forall u <- s.txns | s.txns[u].Pending? && s.txns[t].req.key.Some? ensures s.txns[u].req.key != s.txns[t].req.key {
      assert !KeyHeld(s, s.txns[t].req.key);
    }
  }

  /** Every step of every interleaving keeps the store's invariant. */
  lemma StoreStepKeepsInv(s: Store, op: StoreOp)
    requires StoreInv(s) && StoreEnabled(s, op)
    ensures StoreInv(StoreApply(s, op))
  {
    match op
    case Begin(t, req) => QuietKeepsInv(s, t, Checking(req));
    case Check(t, hit) => QuietKeepsInv(s, t, StoreApply(s, op).txns[t]);
    case Flush(t, id) => FlushKeepsInv(s, t, id);
    case Reject(t) => QuietKeepsInv(s, t, Failed(s.txns[t].req));
    case Commit(t) =>
      if s.txns[t].Pending? {
        NewRowKeepsInv(s, t);
      } else {
        QuietKeepsInv(s, t, Ready(s.txns[t].req, s.txns[t].id));
      }
    case Abort(t) => QuietKeepsInv(s, t, Failed(s.txns[t].req));
  }

  // ---------------------------------------------------------------- whole runs

  ghost predicate StoreRun(states: seq<Store>, ops: seq<StoreOp>) {
    && |states| == |ops| + 1
    && states[0] == EmptyStore()
    && forall k :: 0 <= k < |ops| ==>
         StoreEnabled(states[k], ops[k]) && states[k + 1] == StoreApply(states[k], ops[k])
  }

  lemma {:induction false} StoreRunKeepsInv(states: seq<Store>, ops: seq<StoreOp>, k: nat)
    requires StoreRun(states, ops) && k < |states|
    ensures StoreInv(states[k])
  {
    if k > 0 {
      StoreRunKeepsInv(states, ops, k - 1);
      StoreStepKeepsInv(states[k - 1], ops[k - 1]);
    }
  }

  /** Committed rows and finished handlers stay as they are. */
  ghost predicate Extends(s: Store, s': Store) {
    && (forall id <- s.rows :: id in s'.rows && s'.rows[id] == s.rows[id])
    && (forall t <- s.txns :: t in s'.txns && (s.txns[t].Ready? ==> s'.txns[t] == s.txns[t]))
  }

  lemma StoreStepExtends(s: Store, op: StoreOp)
    requires StoreInv(s) && StoreEnabled(s, op)
    ensures Extends(s, StoreApply(s, op))
  {
  }

  lemma {:induction false} StoreRunExtends(states: seq<Store>, ops: seq<StoreOp>, j: nat, k: nat)
    requires StoreRun(states, ops) && j <= k < |states|
    ensures Extends(states[j], states[k])
  {
    if j < k {
      StoreRunExtends(states, ops, j, k - 1);
      StoreRunKeepsInv(states, ops, k - 1);
      StoreStepExtends(states[k - 1], ops[k - 1]);
    }
  }

  /** Idempotent save over whole runs: whatever the interleaving, two handlers that reach publish with the same
      non-null key, at any two moments, publish the id of one and the same row, and that row is the only one that
      ever carries the key. */
  lemma SameKeySameRow(states: seq<Store>, ops: seq<StoreOp>, j: nat, k: nat, t: Txn, u: Txn, other: MessageId)
    requires StoreRun(states, ops) && j <= k < |states|
    requires t in states[j].txns && states[j].txns[t].Ready?
    requires u in states[k].txns && states[k].txns[u].Ready?
    requires states[j].txns[t].req.key.Some? && states[j].txns[t].req.key == states[k].txns[u].req.key
    ensures states[j].txns[t].id == states[k].txns[u].id
    ensures other in states[k].rows && states[k].rows[other].key == states[j].txns[t].req.key ==>
              other == states[j].txns[t].id
  {
    StoreRunExtends(states, ops, j, k);
    StoreRunKeepsInv(states, ops, k);
    assert states[k].txns[t] == states[j].txns[t];
  }

  /** The empty key skips the lookup yet is unique in the table, so only one handler ever publishes with it;
      every later one is refused by the constraint. */
  lemma EmptyKeySavesOnce(states: seq<Store>, ops: seq<StoreOp>, k: nat, t: Txn, u: Txn)
    requires StoreRun(states, ops) && k < |states|
    requires t in states[k].txns && states[k].txns[t].Ready? && states[k].txns[t].req.key == Some("")
    requires u in states[k].txns && states[k].txns[u].req.key == Some("") && u != t
    ensures !states[k].txns[u].Ready?
    ensures states[k].txns[u].Inserting? ==> StoreEnabled(states[k], Reject(u))
    ensures forall id :: !StoreEnabled(states[k], Flush(u, id))
  {
    StoreRunKeepsInv(states, ops, k);
    var s := states[k];
    assert HasKey(s.rows, Some("")) by {
      assert s.rows[s.txns[t].id].key == Some("");
    }
  }

  lemma StoreRunSnoc(states: seq<Store>, ops: seq<StoreOp>, op: StoreOp)
    requires StoreRun(states, ops) && StoreEnabled(states[|ops|], op)
    ensures StoreRun(states + [StoreApply(states[|ops|], op)], ops + [op])
  {
    var states', ops' := states + [StoreApply(states[|ops|], op)], ops + [op];
    forall k | 0 <= k < |ops'|
      ensures StoreEnabled(states'[k], ops'[k]) && states'[k + 1] == StoreApply(states'[k], ops'[k])
    {
      if k < |ops| {
        assert ops'[k] == ops[k] && states'[k] == states[k] && states'[k + 1] == states[k + 1];
      }
    }
  }

  /** One handler saving and committing, then another one beginning. */
  function FirstSaved(a: Request, b: Request): seq<StoreOp> {
    [Begin(0, a), Check(0, None), Flush(0, 7), Commit(0), Begin(1, b)]
  }

  lemma FirstSavedRuns(a: Request, b: Request) returns (states: seq<Store>)
    ensures |states| == 6 && StoreRun(states, FirstSaved(a, b))
    ensures states[5] == Store(map[7 := a], map[0 := Ready(a, 7), 1 := Checking(b)])
  {
    var s1 := Store(map[], map[0 := Checking(a)]);
    var s2 := Store(map[], map[0 := Inserting(a)]);
    var s3 := Store(map[], map[0 := Pending(a, 7)]);
    var s4 := Store(map[7 := a], map[0 := Ready(a, 7)]);
    states := [EmptyStore(), s1, s2, s3, s4, Store(map[7 := a], map[0 := Ready(a, 7), 1 := Checking(b)])];
  }

  /** The run in which it happens: the second message with the empty key is lost to the constraint. */
  lemma SecondEmptyKeyIsRefused(a: Request, b: Request) returns (states: seq<Store>)
    requires a.key == Some("") && b.key == Some("")
    ensures |states| == 8 && StoreRun(states, FirstSaved(a, b) + [Check(1, None)] + [Reject(1)])
    ensures states[7].txns == map[0 := Ready(a, 7), 1 := Failed(b)] && states[7].rows == map[7 := a]
  {
    states := FirstSavedRuns(a, b);
    StoreRunSnoc(states, FirstSaved(a, b), Check(1, None));
    states := states + [StoreApply(states[5], Check(1, None))];
    assert HasKey(states[6].rows, Some("")) by {
      assert states[6].rows[7].key == Some("");
    }
    StoreRunSnoc(states, FirstSaved(a, b) + [Check(1, None)], Reject(1));
    states := states + [StoreApply(states[6], Reject(1))];
  }

  /** Handlers without a key never collide: their rows differ, and no insert of theirs can be refused or has to
      wait. */
  lemma NullKeysNeverCollide(states: seq<Store>, ops: seq<StoreOp>, k: nat, t: Txn, u: Txn, id: MessageId)
    requires StoreRun(states, ops) && k < |states|
    requires t in states[k].txns && states[k].txns[t].req.key.None?
    requires u in states[k].txns && u != t
    ensures states[k].txns[t].Ready? && states[k].txns[u].Ready? ==> states[k].txns[t].id != states[k].txns[u].id
    ensures !StoreEnabled(states[k], Reject(t))
    ensures states[k].txns[t].Inserting? && id !in states[k].rows && !IdHeld(states[k], id) ==>
              StoreEnabled(states[k], Flush(t, id))
  {
    StoreRunKeepsInv(states, ops, k);
  }

  /** Every finished handler publishes its own request's fields under a row that has the same fields. */
  ghost predicate PublishedMatchesStored(s: Store) {
    forall t <- s.txns :: s.txns[t].Ready? ==> s.txns[t].id in s.rows && s.rows[s.txns[t].id] == s.txns[t].req
  }

  /** A usable key always comes with the same room, sender and content. */
  ghost predicate KeysNameRequests(s: Store) {
    forall t <- s.txns, u <- s.txns | s.txns[t].Ready? && s.txns[u].Ready? ::
      Looked(s.txns[t].req.key) && s.txns[t].req.key == s.txns[u].req.key ==> s.txns[t].req == s.txns[u].req
  }

  lemma PublishedMatchesStoredIff(s: Store)
    requires StoreInv(s)
    ensures PublishedMatchesStored(s) <==> KeysNameRequests(s)
  {
  }

  /** What is published agrees with what is stored, for every handler of the run, if and only if handlers that
      reuse a key also repeat its room, sender and content. */
  lemma RunPublishesWhatIsStoredIff(states: seq<Store>, ops: seq<StoreOp>, k: nat)
    requires StoreRun(states, ops) && k < |states|
    ensures PublishedMatchesStored(states[k]) <==> KeysNameRequests(states[k])
  {
    StoreRunKeepsInv(states, ops, k);
    PublishedMatchesStoredIff(states[k]);
  }

  /** A retry of a key with other content: stored once, published twice, the second time with fields the row does
      not have. */
  lemma RetryMayPublishOtherContent(a: Request, b: Request) returns (states: seq<Store>)
    requires Looked(a.key) && b.key == a.key && b != a
    ensures |states| == 8 && StoreRun(states, FirstSaved(a, b) + [Check(1, Some(7))] + [Commit(1)])
    ensures states[7].txns == map[0 := Ready(a, 7), 1 := Ready(b, 7)] && states[7].rows == map[7 := a]
    ensures !PublishedMatchesStored(states[7])
  {
    states := FirstSavedRuns(a, b);
    StoreRunSnoc(states, FirstSaved(a, b), Check(1, Some(7)));
    states := states + [StoreApply(states[5], Check(1, Some(7)))];
    StoreRunSnoc(states, FirstSaved(a, b) + [Check(1, Some(7))], Commit(1));
    states := states + [StoreApply(states[6], Commit(1))];
    assert states[7].txns[1] == Ready(b, 7) && states[7].rows[7] == a;
  }

  // ---------------------------------------------------------------- what is stored is what was asked for

  lemma {:induction false} RequestKept(states: seq<Store>, ops: seq<StoreOp>, j: nat, k: nat, t: Txn)
    requires StoreRun(states, ops) && j <= k < |states| && t in states[j].txns
    ensures t in states[k].txns && states[k].txns[t].req == states[j].txns[t].req
  {
    if j < k {
      RequestKept(states, ops, j, k - 1, t);
      assert StoreEnabled(states[k - 1], ops[k - 1]) && states[k - 1 + 1] == StoreApply(states[k - 1], ops[k - 1]);
    }
  }

  /** Every row is, field for field, the request some handler began with. */
  lemma RowsAreRequests(states: seq<Store>, ops: seq<StoreOp>, k: nat, id: MessageId)
    requires StoreRun(states, ops) && k < |states| && id in states[k].rows
    ensures exists t, j :: 0 <= j < k && ops[j] == Begin(t, states[k].rows[id])
  {
    StoreRunKeepsInv(states, ops, k);
    var t :| t in states[k].txns && states[k].txns[t] == Ready(states[k].rows[id], id);
    var j := BegunAt(states, ops, k, t);
    assert ops[j] == Begin(t, states[k].rows[id]);
  }

  lemma {:induction false} BegunAt(states: seq<Store>, ops: seq<StoreOp>, k: nat, t: Txn) returns (j: nat)
    requires StoreRun(states, ops) && k < |states| && t in states[k].txns
    ensures j < k && ops[j] == Begin(t, states[k].txns[t].req)
  {
    if t in states[k - 1].txns {
      RequestKept(states, ops, k - 1, k, t);
      j := BegunAt(states, ops, k - 1, t);
    } else {
      j := k - 1;
    }
  }

  // ---------------------------------------------------------------- handlers that fail

  lemma {:induction false} FailedForGood(states: seq<Store>, ops: seq<StoreOp>, j: nat, k: nat, t: Txn)
    requires StoreRun(states, ops) && j <= k < |states| && t in states[j].txns && states[j].txns[t].Failed?
    ensures t in states[k].txns && states[k].txns[t] == states[j].txns[t]
  {
    if j < k {
      FailedForGood(states, ops, j, k - 1, t);
      assert StoreEnabled(states[k - 1], ops[k - 1]) && states[k - 1 + 1] == StoreApply(states[k - 1], ops[k - 1]);
    }
  }

  /** A handler that was refused, or whose transaction was rolled back, leaves the table as it was and never gets to
      publish. */
  lemma FailedNeverPublishes(states: seq<Store>, ops: seq<StoreOp>, j: nat, k: nat, t: Txn)
    requires StoreRun(states, ops) && j < k < |states| && (ops[j] == Reject(t) || ops[j] == Abort(t))
    ensures states[j + 1].rows == states[j].rows
    ensures t in states[j].txns && t in states[k].txns && states[k].txns[t] == Failed(states[j].txns[t].req)
  {
    assert StoreEnabled(states[j], ops[j]) && states[j + 1] == StoreApply(states[j], ops[j]);
    FailedForGood(states, ops, j + 1, k, t);
  }

  // ---------------------------------------------------------------- when a usable key is refused

  /** Handler `t` looked its key up at step `i` and found nothing. */
  predicate LookedUpAt(ops: seq<StoreOp>, i: nat, t: Txn) {
    i < |ops| && ops[i] == Check(t, None)
  }

  lemma {:induction false} InsertingLookedUp(states: seq<Store>, ops: seq<StoreOp>, k: nat, t: Txn) returns (i: nat)
    requires StoreRun(states, ops) && k < |states| && t in states[k].txns && states[k].txns[t].Inserting?
    ensures i < k && LookedUpAt(ops, i, t)
    ensures t in states[i].txns && states[i].txns[t].req == states[k].txns[t].req
  {
    if t in states[k - 1].txns && states[k - 1].txns[t].Inserting? {
      i := InsertingLookedUp(states, ops, k - 1, t);
    } else {
      i := k - 1;
    }
  }

  /** Somewhere between a state without a key and a later one with it, a commit added it. */
  lemma {:induction false} KeyAppears(states: seq<Store>, ops: seq<StoreOp>, i: nat, k: nat, key: Option<string>)
    returns (j: nat)
    requires StoreRun(states, ops) && i <= k < |states|
    requires !HasKey(states[i].rows, key) && HasKey(states[k].rows, key)
    ensures i <= j < k && !HasKey(states[j].rows, key) && HasKey(states[j + 1].rows, key)
    ensures ops[j].Commit? && ops[j].txn in states[j].txns && states[j].txns[ops[j].txn].req.key == key
  {
    if HasKey(states[k - 1].rows, key) {
      j := KeyAppears(states, ops, i, k - 1, key);
    } else {
      j := k - 1;
      assert ops[j].Commit?;
    }
  }

  /** The constraint refuses a handler with a usable key only if the row was committed after that handler's own lookup:
      there is a lookup that found nothing and, later, another handler's commit of the same key. */
  lemma RefusedOnlyByALaterCommit(states: seq<Store>, ops: seq<StoreOp>, k: nat, t: Txn) returns (i: nat, j: nat)
    requires StoreRun(states, ops) && k < |ops| && ops[k] == Reject(t) && Looked(states[k].txns[t].req.key)
    ensures i <= j < k && LookedUpAt(ops, i, t)
    ensures ops[j].Commit? && ops[j].txn != t && ops[j].txn in states[j].txns
    ensures states[j].txns[ops[j].txn].req.key == states[k].txns[t].req.key
  {
    i := InsertingLookedUp(states, ops, k, t);
    assert StoreEnabled(states[i], ops[i]);
    j := KeyAppears(states, ops, i, k, states[k].txns[t].req.key);
    // Had it been its own commit, the handler would be finished by now.
    StoreRunExtends(states, ops, j + 1, k);
  }

  /** A handler whose lookup happens once the row is committed finds it: from then on it is past the insert, or failed
      for another reason, and the constraint never refuses it. */
  lemma {:induction false} LateLookupIsNeverRefused(states: seq<Store>, ops: seq<StoreOp>, i: nat, k: nat, t: Txn)
    requires StoreRun(states, ops) && i < k < |states|
    requires ops[i].Check? && ops[i].txn == t
    requires Looked(states[i].txns[t].req.key) && HasKey(states[i].rows, states[i].txns[t].req.key)
    ensures t in states[k].txns && (Settled(states[k].txns[t]) || states[k].txns[t].Failed?)
    ensures !StoreEnabled(states[k], Reject(t))
    decreases k
  {
    assert StoreEnabled(states[k - 1], ops[k - 1]) && states[k - 1 + 1] == StoreApply(states[k - 1], ops[k - 1]);
    if i < k - 1 {
      LateLookupIsNeverRefused(states, ops, i, k - 1, t);
    }
  }
}
