/** The persistent node identity: `internal/hnieoj/identity/identity.go`.
    Every change clones the state, persists the clone, and publishes it only if
    the write reported success.  The transitions are functions on the file state;
    class `Store` performs them on memory and disk. */
module Identity {
  import opened Basics

  /** Key material is an opaque token; the public key determines its seed. */
  type Seed = nat
  datatype PublicKey = NoKey | KeyOf(seed: Seed)

  datatype KeyStatus = Active | Grace | Pending | Revoked

  datatype KeyRecord = KeyRecord(
    keyId: string, publicKey: PublicKey, privateKey: Seed, status: KeyStatus, graceUntil: int)

  datatype PendingRotation = PendingRotation(
    rotationId: string, newKeyId: string, newPublicKey: PublicKey, newKey: Seed,
    confirmNonce: string, expiresAt: int, confirmed: bool, graceUntil: int)

  datatype FileState = FileState(
    nodeId: string, currentKeyId: string, keys: seq<KeyRecord>, pending: Option<PendingRotation>)

  // ---------- lookups ----------

  function IndexByPublic(keys: seq<KeyRecord>, pub: PublicKey): (r: int)
    ensures -1 <= r < |keys|
  {
    FirstIndex(keys, (k: KeyRecord) => k.publicKey == pub)
  }

  /** `currentKeyOf`, as an index: by current id, else the first ACTIVE, else the first key. */
  function CurrentIndex(st: FileState): (r: int)
    ensures -1 <= r < |st.keys|
  {
    var byId := if st.currentKeyId == "" then -1
                else FirstIndex(st.keys, (k: KeyRecord) => k.keyId == st.currentKeyId);
    var active := FirstIndex(st.keys, (k: KeyRecord) => k.status == Active);
    if byId >= 0 then byId else if active >= 0 then active else if |st.keys| > 0 then 0 else -1
  }

  /** A GRACE key past its hard deadline; a deadline of zero or less never passes. */
  predicate GraceOver(k: KeyRecord, now: int) {
    k.status == Grace && k.graceUntil > 0 && now >= k.graceUntil
  }

  predicate Usable(k: KeyRecord, now: int) {
    k.status == Active || (k.status == Grace && !GraceOver(k, now))
  }

  /** `PrivateKeyByID`: only the first record carrying the id is considered. */
  function PrivateKeyById(st: FileState, keyId: string, now: int): Option<Seed> {
    var i := FirstIndex(st.keys, (k: KeyRecord) => k.keyId == keyId);
    if i >= 0 && Usable(st.keys[i], now) then Some(st.keys[i].privateKey) else None
  }

  /** The loop of `HasSigningKey`: a record that is neither ACTIVE nor GRACE does not stop it. */
  predicate HasUsable(keys: seq<KeyRecord>, keyId: string, now: int) {
    var i := FirstIndex(keys, (k: KeyRecord) => k.keyId == keyId && (k.status == Active || k.status == Grace));
    i >= 0 && Usable(keys[i], now)
  }

  predicate HasSigningKey(st: FileState, keyId: string, now: int) {
    (st.pending.Some? && st.pending.value.newKeyId == keyId) || HasUsable(st.keys, keyId, now)
  }

  // ---------- transitions ----------

  /** `newFileState`: one unenrolled ACTIVE key. */
  function Fresh(seed: Seed): FileState {
    FileState("", "", [KeyRecord("", KeyOf(seed), seed, Active, 0)], None)
  }

  function Enroll(st: FileState, nodeId: string, keyId: string): Option<FileState> {
    if nodeId == "" || keyId == "" then None
    else
      var next := st.(nodeId := nodeId, currentKeyId := keyId);
      var c := CurrentIndex(next);
      if c < 0 then Some(next)
      else
        var i := IndexByPublic(next.keys, next.keys[c].publicKey);
        Some(if i < 0 then next else next.(keys := next.keys[i := next.keys[i].(keyId := keyId)]))
  }

  function NewPending(rotationId: string, seed: Seed): PendingRotation {
    PendingRotation(rotationId, "", KeyOf(seed), seed, "", 0, false, 0)
  }

  function Begin(st: FileState, rotationId: string, seed: Seed): FileState {
    st.(keys := st.keys + [KeyRecord("", KeyOf(seed), seed, Pending, 0)],
        pending := Some(NewPending(rotationId, seed)))
  }

  function RecordPrepared(st: FileState, rotationId: string, keyId: string, nonce: string, expiresAt: int)
    : Option<FileState>
  {
    if st.pending.None? || st.pending.value.rotationId != rotationId then None
    else if keyId == "" then Some(st)
    else
      var i := IndexByPublic(st.keys, st.pending.value.newPublicKey);
      Some(st.(pending := Some(st.pending.value.(newKeyId := keyId, confirmNonce := nonce, expiresAt := expiresAt)),
               keys := if i < 0 then st.keys else st.keys[i := st.keys[i].(keyId := keyId)]))
  }

  function MarkConfirmed(st: FileState, graceUntil: int): Option<FileState> {
    if st.pending.None? then None
    else Some(st.(pending := Some(st.pending.value.(confirmed := true, graceUntil := graceUntil))))
  }

  function Retired(k: KeyRecord, graceUntil: int, oldId: string): KeyRecord {
    k.(status := Grace, graceUntil := graceUntil, keyId := if k.keyId == "" then oldId else k.keyId)
  }

  function Activate(st: FileState): Option<FileState> {
    if st.pending.None? || !st.pending.value.confirmed then None
    else
      var pending := st.pending.value;
      var c := CurrentIndex(st);
      var newIdx := IndexByPublic(st.keys, pending.newPublicKey);
      if newIdx < 0 then None
      else
        var oldIdx := IndexByPublic(st.keys, if c < 0 then NoKey else st.keys[c].publicKey);
        var keys1 := if oldIdx < 0 then st.keys
                     else st.keys[oldIdx := Retired(st.keys[oldIdx], pending.graceUntil, st.currentKeyId)];
        var keys2 := keys1[newIdx := keys1[newIdx].(status := Active)];
        Some(st.(keys := keys2, currentKeyId := keys2[newIdx].keyId, pending := None))
  }

  /** The keys `ExpireGrace` keeps. */
  function Kept(keys: seq<KeyRecord>, now: int): (r: seq<KeyRecord>) {
    if keys == [] then []
    else
      var last := keys[|keys| - 1];
      Kept(keys[..|keys| - 1], now) + if GraceOver(last, now) then [] else [last]
  }

  datatype Cleanup = Unchanged | Refused | Changed(next: FileState)

  function ExpireGrace(st: FileState, now: int): Cleanup {
    var kept := Kept(st.keys, now);
    if |kept| == |st.keys| then Unchanged
    else if kept == [] then Refused
    else Changed(st.(keys := kept))
  }

  function DiscardPending(st: FileState): Cleanup {
    if st.pending.None? || st.pending.value.confirmed then Unchanged
    else
      var i := IndexByPublic(st.keys, st.pending.value.newPublicKey);
      if i >= 0 && st.currentKeyId != "" && st.keys[i].keyId == st.currentKeyId then Refused
      else
        Changed(st.(keys := if i < 0 then st.keys else st.keys[..i] + st.keys[i + 1..], pending := None))
  }

  // ---------- the store: memory plus the identity file ----------

  /** Copy, persist, publish: memory and file after a change to `next`, if there is one. */
  function Publish(mem: FileState, disk: FileState, next: Option<FileState>, outcome: WriteOutcome): (FileState, FileState) {
    match next
    case None => (mem, disk)
    case Some(n) => (if outcome.Written? then n else mem, FileAfter(disk, n, outcome))
  }

  /** What a cleanup publishes, if anything. */
  function CleanupTarget(c: Cleanup): Option<FileState> {
    if c.Changed? then Some(c.next) else None
  }

  /** `keyIndexByPublic`. */
  method KeyIndexByPublic(keys: seq<KeyRecord>, pub: PublicKey) returns (i: int)
    ensures i == IndexByPublic(keys, pub)
  {
    for j := 0 to |keys|
      invariant forall m | 0 <= m < j :: keys[m].publicKey != pub
    {
      if keys[j].publicKey == pub { return j; }
    }
    return -1;
  }

  /** `currentKeyOf`. */
  method CurrentKeyOf(st: FileState) returns (i: int)
    ensures i == CurrentIndex(st)
    ensures -1 <= i < |st.keys| && (i < 0 <==> st.keys == [])
    ensures var byId := st.currentKeyId != "" && exists k :: k in st.keys && k.keyId == st.currentKeyId;
            var active := exists k :: k in st.keys && k.status == Active;
            && (byId ==> st.keys[i].keyId == st.currentKeyId && forall j | 0 <= j < i :: st.keys[j].keyId != st.currentKeyId)
            && (!byId && active ==> st.keys[i].status == Active && forall j | 0 <= j < i :: st.keys[j].status != Active)
            && (!byId && !active ==> i <= 0)
  {
    if st.currentKeyId != "" {
      for j := 0 to |st.keys|
        invariant forall m | 0 <= m < j :: st.keys[m].keyId != st.currentKeyId
      {
        if st.keys[j].keyId == st.currentKeyId { return j; }
      }
    }
    for j := 0 to |st.keys|
      invariant forall m | 0 <= m < j :: st.keys[m].status != Active
    {
      if st.keys[j].status == Active { return j; }
    }
    return if |st.keys| > 0 then 0 else -1;
  }

  /** The edits of `ActivateRotatedKey` on its copy of a confirmed state; `None` if the pending key is missing. */
  method SwitchKeys(st: FileState) returns (switched: Option<FileState>)
    requires st.pending.Some? && st.pending.value.confirmed
    ensures switched == Activate(st)
  {
    var pending := st.pending.value;
    var oldPublic := NoKey;
    var current := CurrentKeyOf(st);
    if current >= 0 { oldPublic := st.keys[current].publicKey; }
    var newIdx := KeyIndexByPublic(st.keys, pending.newPublicKey);
    if newIdx < 0 { return None; }
    var keys := st.keys;
    var oldIdx := KeyIndexByPublic(keys, oldPublic);
    if oldIdx >= 0 {
      keys := keys[oldIdx := keys[oldIdx].(status := Grace)];
      keys := keys[oldIdx := keys[oldIdx].(graceUntil := pending.graceUntil)];
      if keys[oldIdx].keyId == "" { keys := keys[oldIdx := keys[oldIdx].(keyId := st.currentKeyId)]; }
      assert keys == st.keys[oldIdx := Retired(st.keys[oldIdx], pending.graceUntil, st.currentKeyId)];
    }
    keys := keys[newIdx := keys[newIdx].(status := Active)];
    return Some(st.(keys := keys, currentKeyId := keys[newIdx].keyId, pending := None));
  }

  /** The checks and edits of `DiscardPendingRotation` on its copy. */
  method DropPending(st: FileState) returns (c: Cleanup)
    ensures c == DiscardPending(st)
  {
    if st.pending.None? || st.pending.value.confirmed { return Unchanged; }
    var next := st;
    var i := KeyIndexByPublic(next.keys, next.pending.value.newPublicKey);
    if i >= 0 {
      if next.currentKeyId != "" && next.keys[i].keyId == next.currentKeyId { return Refused; }
      next := next.(keys := next.keys[..i] + next.keys[i + 1..]);
    }
    next := next.(pending := None);
    return Changed(next);
  }

  class Store {
    var st: FileState
    var disk: FileState

    /** `Open` on an existing file, or after the first successful commit. */
    constructor (file: FileState)
      ensures st == file && disk == file
    {
      st, disk := file, file;
    }

    /** `commitLocked`: memory changes only when the write reported success. */
    method Commit(next: FileState, outcome: WriteOutcome) returns (ok: bool)
      modifies this
      ensures ok == outcome.Written?
      ensures (st, disk) == Publish(old(st), old(disk), Some(next), outcome)
      ensures st == if outcome == Written then next else old(st)
      ensures disk == if outcome == FailedBefore then old(disk) else next
    {
      disk := FileAfter(disk, next, outcome);
      ok := outcome.Written?;
      if ok { st := next; }
    }

    /** `PrivateKeyByID`: the loop stops at the first record with the id. */
    method PrivateKeyByID(keyId: string, now: int) returns (seed: Option<Seed>)
      ensures seed == PrivateKeyById(st, keyId, now)
    {
      for i := 0 to |st.keys|
        invariant forall j | 0 <= j < i :: st.keys[j].keyId != keyId
      {
        var key := st.keys[i];
        if key.keyId != keyId { continue; }
        match key.status {
          case Active =>
          case Grace => if key.graceUntil > 0 && now >= key.graceUntil { return None; }
          case _ => return None;
        }
        return Some(key.privateKey);
      }
      return None;
    }

    /** `HasSigningKey`: the loop goes on past records that are neither ACTIVE nor GRACE. */
    method CanSign(keyId: string, now: int) returns (can: bool)
      ensures can == HasSigningKey(st, keyId, now)
    {
      if st.pending.Some? && st.pending.value.newKeyId == keyId { return true; }
      for i := 0 to |st.keys|
        invariant forall j | 0 <= j < i :: !(st.keys[j].keyId == keyId && (st.keys[j].status == Active || st.keys[j].status == Grace))
      {
        var key := st.keys[i];
        if key.keyId != keyId { continue; }
        match key.status {
          case Active => return true;
          case Grace => return !(key.graceUntil > 0 && now >= key.graceUntil);
          case _ =>
        }
      }
      return false;
    }

    /** The current key takes the assigned id; the store stays valid exactly if no other key had it. */
    method ApplyEnrollment(nodeId: string, keyId: string, outcome: WriteOutcome) returns (ok: bool)
      modifies this
      ensures (st, disk) == Publish(old(st), old(disk), Enroll(old(st), nodeId, keyId), outcome)
      ensures ok <==> nodeId != "" && keyId != "" && outcome.Written?
      ensures ok && Valid(old(st)) ==>
                && st.nodeId == nodeId && st.currentKeyId == keyId && st.pending == old(st.pending)
                && (Valid(st) <==> IdFreeExcept(old(st.keys), keyId, CurrentIndex(old(st))))
    {
      if nodeId == "" || keyId == "" { return false; }
      var next := st;
      next := next.(nodeId := nodeId);
      next := next.(currentKeyId := keyId);
      var current := CurrentKeyOf(next);
      if current >= 0 {
        var i := KeyIndexByPublic(next.keys, next.keys[current].publicKey);
        next := next.(keys := next.keys[i := next.keys[i].(keyId := keyId)]);
      }
      if Valid(st) { EnrollKeepsIff(st, nodeId, keyId); }
      ok := Commit(next, outcome);
    }

    /** An existing pending rotation is returned unchanged, so a retry reuses its key. */
    method BeginRotation(rotationId: string, seed: Seed, outcome: WriteOutcome) returns (r: Option<PendingRotation>)
      modifies this
      ensures old(st).pending.Some? ==> r == old(st).pending && st == old(st) && disk == old(disk)
      ensures old(st).pending.None? ==>
                && (st, disk) == Publish(old(st), old(disk), Some(Begin(old(st), rotationId, seed)), outcome)
                && r == st.pending
    {
      if st.pending.Some? { return st.pending; }
      var pending := PendingRotation(rotationId, "", KeyOf(seed), seed, "", 0, false, 0);
      var next := st;
      next := next.(keys := next.keys + [KeyRecord("", pending.newPublicKey, pending.newKey, Pending, 0)]);
      next := next.(pending := Some(pending));
      var ok := Commit(next, outcome);
      return if ok then Some(pending) else None;
    }

    /** Only the pending rotation and the PENDING key take the id. */
    method RecordRotationPrepared(rotationId: string, keyId: string, nonce: string, expiresAt: int,
                                  outcome: WriteOutcome) returns (ok: bool)
      modifies this
      ensures (st, disk) == Publish(old(st), old(disk), RecordPrepared(old(st), rotationId, keyId, nonce, expiresAt), outcome)
      ensures ok <==> old(st).pending.Some? && old(st).pending.value.rotationId == rotationId && outcome.Written?
      ensures ok && keyId == "" ==> st == old(st)
      ensures ok && keyId != "" && Valid(old(st)) ==> OnlyPendingLabelled(old(st), st, keyId, nonce, expiresAt)
    {
      var next := st;
      if next.pending.None? || next.pending.value.rotationId != rotationId { return false; }
      if keyId != "" {
        var pending := next.pending.value;
        pending := pending.(newKeyId := keyId);
        pending := pending.(confirmNonce := nonce);
        pending := pending.(expiresAt := expiresAt);
        next := next.(pending := Some(pending));
        var i := KeyIndexByPublic(next.keys, pending.newPublicKey);
        if i >= 0 { next := next.(keys := next.keys[i := next.keys[i].(keyId := keyId)]); }
        if Valid(st) { RecordKeepsIff(st, rotationId, keyId, nonce, expiresAt); }
      }
      ok := Commit(next, outcome);
    }

    /** The confirmation is recorded; keys and current key stay. */
    method MarkRotationConfirmed(graceUntil: int, outcome: WriteOutcome) returns (ok: bool)
      modifies this
      ensures (st, disk) == Publish(old(st), old(disk), MarkConfirmed(old(st), graceUntil), outcome)
      ensures ok <==> old(st).pending.Some? && outcome.Written?
      ensures ok ==> st.pending.Some? && st.pending.value.confirmed && st.pending.value.graceUntil == graceUntil
      ensures st.keys == old(st.keys) && st.currentKeyId == old(st.currentKeyId)
      ensures Valid(old(st)) ==> Valid(st)
    {
      if st.pending.None? { return false; }
      if Valid(st) { ConfirmKeeps(st, graceUntil); }
      var pending := st.pending.value;
      pending := pending.(confirmed := true);
      pending := pending.(graceUntil := graceUntil);
      ok := Commit(st.(pending := Some(pending)), outcome);
    }

    /** In a valid store a confirmed rotation always switches, once written: the pending key is the current and
        only ACTIVE one, the old one keeps its seed under the grace deadline. */
    method ActivateRotatedKey(outcome: WriteOutcome) returns (ok: bool)
      modifies this
      ensures (st, disk) == Publish(old(st), old(disk), Activate(old(st)), outcome)
      ensures ok == (Activate(old(st)).Some? && outcome.Written?)
      ensures Valid(old(st)) ==> (ok <==> old(st).pending.Some? && old(st).pending.value.confirmed && outcome.Written?)
      ensures Valid(old(st)) && ok ==>
                && Valid(st) && st.pending.None? && st.currentKeyId == old(st).pending.value.newKeyId
                && Switched(old(st), st)
    {
      if st.pending.None? || !st.pending.value.confirmed { return false; }
      var next := SwitchKeys(st);
      if next.None? { return false; }
      ok := Commit(next.value, outcome);
      if Valid(old(st)) { ActivateSwitches(old(st)); }
    }

    /** The filter loop of `ExpireGrace`.  `refused` is its "refusing to remove all keys" error. */
    method ExpireGraceKeys(now: int, outcome: WriteOutcome) returns (changed: bool, refused: bool)
      modifies this
      ensures refused == ExpireGrace(old(st), now).Refused?
      ensures changed == (ExpireGrace(old(st), now).Changed? && outcome.Written?)
      ensures (st, disk) == Publish(old(st), old(disk), CleanupTarget(ExpireGrace(old(st), now)), outcome)
    {
      var kept: seq<KeyRecord> := [];
      changed, refused := false, false;
      for i := 0 to |st.keys|
        invariant kept == Kept(st.keys[..i], now)
        invariant changed == (|kept| != i) && |kept| <= i
      {
        assert st.keys[..i + 1][..i] == st.keys[..i];
        if GraceOver(st.keys[i], now) { changed := true; } else { kept := kept + [st.keys[i]]; }
      }
      assert st.keys[..|st.keys|] == st.keys;
      if !changed { return; }
      if |kept| == 0 { return false, true; }
      changed := Commit(st.(keys := kept), outcome);
    }

    /** An unconfirmed rotation goes together with exactly its key; in a valid store it is never refused. */
    method DiscardPendingRotation(outcome: WriteOutcome) returns (changed: bool, refused: bool)
      modifies this
      ensures (st, disk) == Publish(old(st), old(disk), CleanupTarget(DiscardPending(old(st))), outcome)
      ensures refused == DiscardPending(old(st)).Refused? && changed == DiscardPending(old(st)).Changed?
      ensures Valid(old(st)) ==> !refused && Valid(st) && st.currentKeyId == old(st.currentKeyId)
      ensures Valid(old(st)) && changed && outcome.Written? ==>
                && st.pending.None?
                && forall k :: k in st.keys <==> k in old(st.keys) && k.publicKey != old(st).pending.value.newPublicKey
    {
      if Valid(st) { DiscardDropsPending(st); }
      var c := DropPending(st);
      if c.Refused? { return false, true; }
      if c.Unchanged? { return false, false; }
      var ok := Commit(c.next, outcome);
      return true, false;
    }
  }

  // ---------- the invariant of every state the store produces ----------

  /** Two keys differ in key material and, where the first has an id, in id. */
  ghost predicate Apart(x: KeyRecord, y: KeyRecord) {
    x.publicKey != y.publicKey && (x.keyId != "" ==> x.keyId != y.keyId)
  }

  ghost predicate PairwiseApart(keys: seq<KeyRecord>) {
    forall i, j {:trigger Apart(keys[i], keys[j])} | 0 <= i < |keys| && 0 <= j < |keys| && i != j ::
      Apart(keys[i], keys[j])
  }

  /** `a` is the only ACTIVE key and carries the current id; `p` is the only PENDING
      key and agrees with the pending rotation (-1 exactly when there is none). */
  ghost predicate ValidAt(st: FileState, a: int, p: int) {
    && 0 <= a < |st.keys| && -1 <= p < |st.keys|
    && st.keys[a].keyId == st.currentKeyId
    && PairwiseApart(st.keys)
    && (forall i | 0 <= i < |st.keys| :: st.keys[i].publicKey == KeyOf(st.keys[i].privateKey))
    && (forall i | 0 <= i < |st.keys| :: (st.keys[i].status == Active <==> i == a))
    && (forall i | 0 <= i < |st.keys| :: (st.keys[i].status == Pending <==> i == p))
    && (forall i | 0 <= i < |st.keys| :: st.keys[i].status != Revoked)
    && (p < 0 <==> st.pending.None?)
    && (p >= 0 ==>
          && st.keys[p].publicKey == st.pending.value.newPublicKey
          && st.keys[p].privateKey == st.pending.value.newKey
          && st.keys[p].keyId == st.pending.value.newKeyId)
  }

  ghost predicate Valid(st: FileState) {
    exists a, p :: ValidAt(st, a, p)
  }

  lemma Witness(st: FileState) returns (a: int, p: int)
    requires Valid(st)
    ensures ValidAt(st, a, p)
    ensures CurrentIndex(st) == a
    ensures st.pending.Some? ==> IndexByPublic(st.keys, st.pending.value.newPublicKey) == p
    ensures IndexByPublic(st.keys, st.keys[a].publicKey) == a
  {
    a, p :| ValidAt(st, a, p);
    CurrentIs(st, a, p);
  }

  lemma CurrentIs(st: FileState, a: int, p: int)
    requires ValidAt(st, a, p)
    ensures CurrentIndex(st) == a
    ensures st.pending.Some? ==> IndexByPublic(st.keys, st.pending.value.newPublicKey) == p
    ensures IndexByPublic(st.keys, st.keys[a].publicKey) == a
  {
    var byId := FirstIndex(st.keys, (k: KeyRecord) => k.keyId == st.currentKeyId);
    assert byId != a && byId >= 0 ==> Apart(st.keys[a], st.keys[byId]);
    var byKey := IndexByPublic(st.keys, st.keys[a].publicKey);
    assert byKey != a ==> Apart(st.keys[a], st.keys[byKey]);
    if p >= 0 {
      var byPending := IndexByPublic(st.keys, st.keys[p].publicKey);
      assert byPending != p ==> Apart(st.keys[p], st.keys[byPending]);
    }
  }

  lemma FreshValid(seed: Seed)
    ensures Valid(Fresh(seed))
    ensures Fresh(seed) == FileState("", "", [KeyRecord("", KeyOf(seed), seed, Active, 0)], None)
  {
    assert ValidAt(Fresh(seed), 0, -1);
  }

  /** The id belongs to no key other than the one at `i`. */
  ghost predicate IdFreeExcept(keys: seq<KeyRecord>, keyId: string, i: int) {
    forall j | 0 <= j < |keys| && j != i :: keys[j].keyId != keyId
  }

  lemma Relabelled(keys: seq<KeyRecord>, m: nat, keyId: string)
    requires m < |keys| && PairwiseApart(keys) && IdFreeExcept(keys, keyId, m)
    ensures PairwiseApart(keys[m := keys[m].(keyId := keyId)])
  {
    var next := keys[m := keys[m].(keyId := keyId)];
    forall i, j | 0 <= i < |next| && 0 <= j < |next| && i != j ensures Apart(next[i], next[j]) {
      assert Apart(keys[i], keys[j]);
    }
  }

  lemma BeginKeeps(st: FileState, rotationId: string, seed: Seed)
    requires Valid(st) && st.pending.None?
    requires forall k | k in st.keys :: k.publicKey != KeyOf(seed)
    ensures Valid(Begin(st, rotationId, seed))
    ensures Begin(st, rotationId, seed) ==
              FileState(st.nodeId, st.currentKeyId, st.keys + [KeyRecord("", KeyOf(seed), seed, Pending, 0)],
                        Some(PendingRotation(rotationId, "", KeyOf(seed), seed, "", 0, false, 0)))
  {
    var a, p := Witness(st);
    var next := Begin(st, rotationId, seed);
    forall i, j | 0 <= i < |next.keys| && 0 <= j < |next.keys| && i != j ensures Apart(next.keys[i], next.keys[j]) {
      assert i < |st.keys| ==> next.keys[i] == st.keys[i] && st.keys[i] in st.keys;
      assert j < |st.keys| ==> next.keys[j] == st.keys[j] && st.keys[j] in st.keys;
      if i < |st.keys| && j < |st.keys| { assert Apart(st.keys[i], st.keys[j]); }
    }
    assert ValidAt(next, a, |st.keys|);
  }

  /** The pending rotation and the PENDING key take the id; everything else stays. */
  ghost predicate OnlyPendingLabelled(st: FileState, next: FileState, keyId: string, nonce: string, expiresAt: int)
    requires st.pending.Some?
  {
    && next.nodeId == st.nodeId && next.currentKeyId == st.currentKeyId && |next.keys| == |st.keys|
    && (forall i | 0 <= i < |st.keys| ::
          if st.keys[i].status == Pending
          then next.keys[i].keyId == keyId && next.keys[i].(keyId := "") == st.keys[i].(keyId := "")
          else next.keys[i] == st.keys[i])
    && next.pending.Some? && next.pending.value.newKeyId == keyId && next.pending.value.confirmNonce == nonce
    && next.pending.value.expiresAt == expiresAt && next.pending.value.rotationId == st.pending.value.rotationId
    && next.pending.value.newKey == st.pending.value.newKey && next.pending.value.newPublicKey == st.pending.value.newPublicKey
    && next.pending.value.confirmed == st.pending.value.confirmed && next.pending.value.graceUntil == st.pending.value.graceUntil
  }

  /** `prepare` does not compare the returned id with existing ones; recording it
      keeps the invariant exactly when no other key already has it. */
  lemma RecordKeepsIff(st: FileState, rotationId: string, keyId: string, nonce: string, expiresAt: int)
    requires Valid(st) && st.pending.Some? && st.pending.value.rotationId == rotationId && keyId != ""
    ensures var next := RecordPrepared(st, rotationId, keyId, nonce, expiresAt);
            next.Some? && (Valid(next.value) <==>
              IdFreeExcept(st.keys, keyId, IndexByPublic(st.keys, st.pending.value.newPublicKey)))
    ensures OnlyPendingLabelled(st, RecordPrepared(st, rotationId, keyId, nonce, expiresAt).value, keyId, nonce, expiresAt)
  {
    var a, p := Witness(st);
    var next := RecordPrepared(st, rotationId, keyId, nonce, expiresAt).value;
    assert |next.keys| == |st.keys| && next.keys[p].keyId == keyId;
    if IdFreeExcept(st.keys, keyId, p) {
      Relabelled(st.keys, p, keyId);
      assert ValidAt(next, a, p);
    } else {
      var j :| 0 <= j < |st.keys| && j != p && st.keys[j].keyId == keyId;
      assert !Apart(next.keys[j], next.keys[p]);
      assert !PairwiseApart(next.keys);
    }
  }

  lemma ConfirmKeeps(st: FileState, graceUntil: int)
    requires Valid(st) && st.pending.Some?
    ensures Valid(MarkConfirmed(st, graceUntil).value)
    ensures MarkConfirmed(st, graceUntil).value ==
              FileState(st.nodeId, st.currentKeyId, st.keys,
                        Some(st.pending.value.(confirmed := true, graceUntil := graceUntil)))
  {
    var a, p := Witness(st);
    assert ValidAt(MarkConfirmed(st, graceUntil).value, a, p);
  }

  /** Activation always succeeds on a confirmed rotation; the new key becomes current and
      the old one keeps its id and seed under the grace deadline. */
  lemma ActivateKeeps(st: FileState) returns (a: int, p: int)
    requires Valid(st) && st.pending.Some? && st.pending.value.confirmed
    ensures ValidAt(st, a, p) && p >= 0 && a != p
    ensures Activate(st).Some?
    ensures var next := Activate(st).value;
            && Valid(next) && next.pending.None? && next.nodeId == st.nodeId
            && next.currentKeyId == st.pending.value.newKeyId
            && next.keys == st.keys[a := Retired(st.keys[a], st.pending.value.graceUntil, st.currentKeyId)]
                                   [p := st.keys[p].(status := Active)]
  {
    a, p := Witness(st);
    var next := Activate(st).value;
    forall i, j | 0 <= i < |next.keys| && 0 <= j < |next.keys| && i != j ensures Apart(next.keys[i], next.keys[j]) {
      assert Apart(st.keys[i], st.keys[j]);
    }
    assert ValidAt(next, p, -1);
  }

  /** The ACTIVE key of `st` is under grace, its pending key ACTIVE, every other key as it was. */
  ghost predicate Switched(st: FileState, next: FileState)
    requires st.pending.Some?
  {
    && |next.keys| == |st.keys|
    && forall i | 0 <= i < |st.keys| ::
         next.keys[i] == match st.keys[i].status
                         case Active => st.keys[i].(status := Grace, graceUntil := st.pending.value.graceUntil)
                         case Pending => st.keys[i].(status := Active)
                         case _ => st.keys[i]
  }

  lemma ActivateSwitches(st: FileState)
    requires Valid(st) && st.pending.Some? && st.pending.value.confirmed
    ensures Activate(st).Some? && Valid(Activate(st).value) && Activate(st).value.pending.None?
    ensures Activate(st).value.currentKeyId == st.pending.value.newKeyId
    ensures Switched(st, Activate(st).value)
  {
    var a, p := ActivateKeeps(st);
    assert Retired(st.keys[a], st.pending.value.graceUntil, st.currentKeyId).keyId == st.keys[a].keyId;
  }

  lemma {:induction false} KeptMembers(keys: seq<KeyRecord>, now: int)
    ensures forall k :: k in Kept(keys, now) <==> k in keys && !GraceOver(k, now)
    ensures |Kept(keys, now)| <= |keys|
  {
    if keys != [] {
      var n := |keys| - 1;
      KeptMembers(keys[..n], now);
      assert forall k :: k in keys <==> k in keys[..n] || k == keys[n] by { assert keys == keys[..n] + [keys[n]]; }
    }
  }

  lemma {:induction false} KeptApart(keys: seq<KeyRecord>, now: int)
    requires PairwiseApart(keys)
    ensures PairwiseApart(Kept(keys, now))
  {
    if keys != [] {
      var n := |keys| - 1;
      forall i, j | 0 <= i < n && 0 <= j < n && i != j ensures Apart(keys[..n][i], keys[..n][j]) {
        assert Apart(keys[i], keys[j]);
      }
      KeptApart(keys[..n], now);
      KeptMembers(keys[..n], now);
      var kept := Kept(keys[..n], now);
      forall i | 0 <= i < |kept| ensures Apart(kept[i], keys[n]) && Apart(keys[n], kept[i]) {
        assert kept[i] in keys[..n];
        var m :| 0 <= m < n && keys[m] == kept[i];
        assert Apart(keys[m], keys[n]) && Apart(keys[n], keys[m]);
      }
      forall i, j | 0 <= i < |kept| && 0 <= j < |kept| && i != j ensures Apart(kept[i], kept[j]) {}
    }
  }

  /** Cleaning up never meets the "refusing to remove all keys" guard. */
  lemma ExpireKeeps(st: FileState, now: int)
    requires Valid(st)
    ensures !ExpireGrace(st, now).Refused?
    ensures ExpireGrace(st, now).Changed? ==> Valid(ExpireGrace(st, now).next)
  {
    var a, p := Witness(st);
    KeptMembers(st.keys, now);
    KeptApart(st.keys, now);
    var kept := Kept(st.keys, now);
    assert st.keys[a] in kept;
    var a' :| 0 <= a' < |kept| && kept[a'] == st.keys[a];
    var p' := -1;
    if p >= 0 {
      assert st.keys[p] in kept;
      p' :| 0 <= p' < |kept| && kept[p'] == st.keys[p];
    }
    forall i | 0 <= i < |kept|
      ensures kept[i].publicKey == KeyOf(kept[i].privateKey) && kept[i].status != Revoked
      ensures kept[i].status == Active <==> i == a'
      ensures kept[i].status == Pending <==> i == p'
    {
      assert kept[i] in st.keys;
      var m :| 0 <= m < |st.keys| && st.keys[m] == kept[i];
      assert i != a' ==> Apart(kept[i], kept[a']);
      assert p' >= 0 && i != p' ==> Apart(kept[i], kept[p']);
    }
    assert ValidAt(st.(keys := kept), a', p');
  }

  lemma {:induction false} KeptAll(keys: seq<KeyRecord>, now: int)
    ensures |Kept(keys, now)| == |keys| <==> forall k | k in keys :: !GraceOver(k, now)
  {
    if keys != [] {
      var n := |keys| - 1;
      KeptAll(keys[..n], now);
      KeptMembers(keys[..n], now);
      assert keys == keys[..n] + [keys[n]];
    }
  }

  /** Cleanup acts exactly if some rotated-out key is past its deadline, and then exactly those keys go. */
  lemma CleanupMeans(st: FileState, now: int)
    requires Valid(st)
    ensures ExpireGrace(st, now).Changed? <==>
              exists k :: k in st.keys && k.status == Grace && 0 < k.graceUntil <= now
    ensures ExpireGrace(st, now).Changed? ==>
              var next := ExpireGrace(st, now).next;
              && next == st.(keys := next.keys)
              && forall k :: k in next.keys <==> k in st.keys && !(k.status == Grace && 0 < k.graceUntil <= now)
  {
    ExpireKeeps(st, now);
    KeptMembers(st.keys, now);
    KeptAll(st.keys, now);
    if k :| k in st.keys && k.status == Grace && 0 < k.graceUntil <= now { assert GraceOver(k, now); }
    if ExpireGrace(st, now).Changed? {
      var k :| k in st.keys && GraceOver(k, now);
      assert k.status == Grace && 0 < k.graceUntil <= now;
    }
  }

  /** Discarding never meets the "refusing to discard the current key" guard, and never drops a
      confirmed rotation, whose key the server may already have activated. */
  lemma DiscardKeeps(st: FileState)
    requires Valid(st)
    ensures !DiscardPending(st).Refused?
    ensures DiscardPending(st).Changed? <==> st.pending.Some? && !st.pending.value.confirmed
    ensures DiscardPending(st).Changed? ==>
              var next := DiscardPending(st).next;
              Valid(next) && next.pending.None? && next.currentKeyId == st.currentKeyId && next.nodeId == st.nodeId
  {
    var a, p := Witness(st);
    assert p >= 0 ==> Apart(st.keys[a], st.keys[p]);
    if DiscardPending(st).Changed? {
      var next := DiscardPending(st).next;
      WithoutPending(st, a, p, next);
    }
  }

  lemma WithoutPending(st: FileState, a: int, p: int, next: FileState)
    requires ValidAt(st, a, p) && p >= 0
    requires next == st.(keys := st.keys[..p] + st.keys[p + 1..], pending := None)
    ensures Valid(next)
  {
    assert forall i | 0 <= i < p :: next.keys[i] == st.keys[i];
    assert forall i | p <= i < |next.keys| :: next.keys[i] == st.keys[i + 1];
    assert PairwiseApart(next.keys) by {
      forall i, j | 0 <= i < |next.keys| && 0 <= j < |next.keys| && i != j ensures Apart(next.keys[i], next.keys[j]) {
        assert Apart(st.keys[if i < p then i else i + 1], st.keys[if j < p then j else j + 1]);
      }
    }
    assert ValidAt(next, if a < p then a else a - 1, -1);
  }

  lemma DiscardShape(st: FileState) returns (a: int, p: int)
    requires Valid(st) && DiscardPending(st).Changed?
    ensures ValidAt(st, a, p) && 0 <= p < |st.keys| && CurrentIndex(st) == a
    ensures DiscardPending(st).next.keys == st.keys[..p] + st.keys[p + 1..]
  {
    a, p := Witness(st);
  }

  lemma WithoutMembers(keys: seq<KeyRecord>, p: nat, k: KeyRecord)
    requires p < |keys| && forall m | 0 <= m < |keys| && m != p :: keys[m].publicKey != keys[p].publicKey
    ensures k in keys[..p] + keys[p + 1..] <==> k in keys && k.publicKey != keys[p].publicKey
  {
    if k in keys && k.publicKey != keys[p].publicKey {
      var m :| 0 <= m < |keys| && keys[m] == k;
      assert if m < p then keys[..p][m] == k else keys[p + 1..][m - p - 1] == k;
    }
  }

  /** Only the pending key goes. */
  lemma DiscardMembers(st: FileState, k: KeyRecord)
    requires Valid(st) && DiscardPending(st).Changed?
    ensures k in DiscardPending(st).next.keys <==> k in st.keys && k.publicKey != st.pending.value.newPublicKey
  {
    var a, p := DiscardShape(st);
    forall m | 0 <= m < |st.keys| && m != p ensures st.keys[m].publicKey != st.keys[p].publicKey {
      assert Apart(st.keys[m], st.keys[p]);
    }
    WithoutMembers(st.keys, p, k);
  }

  lemma DiscardDropsPending(st: FileState)
    requires Valid(st)
    ensures !DiscardPending(st).Refused?
    ensures DiscardPending(st).Changed? ==>
              var next := DiscardPending(st).next;
              && Valid(next) && next.pending.None? && next.currentKeyId == st.currentKeyId && st.pending.Some?
              && forall k :: k in next.keys <==> k in st.keys && k.publicKey != st.pending.value.newPublicKey
  {
    DiscardKeeps(st);
    if DiscardPending(st).Changed? {
      forall k ensures k in DiscardPending(st).next.keys <==> k in st.keys && k.publicKey != st.pending.value.newPublicKey {
        DiscardMembers(st, k);
      }
    }
  }

  /** Enrollment keeps the invariant exactly when no other key has the assigned id. */
  lemma EnrollKeepsIff(st: FileState, nodeId: string, keyId: string)
    requires Valid(st) && nodeId != "" && keyId != ""
    ensures Enroll(st, nodeId, keyId).Some?
    ensures Enroll(st, nodeId, keyId).value.nodeId == nodeId && Enroll(st, nodeId, keyId).value.currentKeyId == keyId
    ensures Enroll(st, nodeId, keyId).value.pending == st.pending
    ensures IdFreeExcept(st.keys, keyId, CurrentIndex(st)) ==>
              forall i | 0 <= i < |st.keys| ::
                i < |Enroll(st, nodeId, keyId).value.keys| &&
                Enroll(st, nodeId, keyId).value.keys[i] == if st.keys[i].status == Active then st.keys[i].(keyId := keyId) else st.keys[i]
    ensures Valid(Enroll(st, nodeId, keyId).value) <==> IdFreeExcept(st.keys, keyId, CurrentIndex(st))
  {
    var a, p := Witness(st);
    var next := Enroll(st, nodeId, keyId).value;
    if IdFreeExcept(st.keys, keyId, a) {
      EnrollFresh(st, a, p, nodeId, keyId);
    } else if Valid(next) {
      EnrollClash(st, a, p, nodeId, keyId);
    }
  }

  lemma EnrollFresh(st: FileState, a: int, p: int, nodeId: string, keyId: string)
    requires ValidAt(st, a, p) && nodeId != "" && keyId != "" && IdFreeExcept(st.keys, keyId, a)
    ensures Valid(Enroll(st, nodeId, keyId).value)
    ensures Enroll(st, nodeId, keyId).value.keys == st.keys[a := st.keys[a].(keyId := keyId)]
  {
    CurrentIs(st, a, p);
    Relabelled(st.keys, a, keyId);
    assert CurrentIndex(st.(nodeId := nodeId, currentKeyId := keyId)) == a;
    assert ValidAt(Enroll(st, nodeId, keyId).value, a, p);
  }

  lemma EnrollClash(st: FileState, a: int, p: int, nodeId: string, keyId: string)
    requires ValidAt(st, a, p) && nodeId != "" && keyId != "" && !IdFreeExcept(st.keys, keyId, a)
    ensures !Valid(Enroll(st, nodeId, keyId).value)
  {
    var next := Enroll(st, nodeId, keyId).value;
    var i :| 0 <= i < |st.keys| && i != a && st.keys[i].keyId == keyId;
    assert |next.keys| == |st.keys| && next.keys[i].keyId == keyId;
    assert next.keys[a].status == Active && next.keys[i].status != Active;
    forall a', p' ensures !ValidAt(next, a', p') {
      assert ValidAt(next, a', p') ==> a' == a && !Apart(next.keys[a], next.keys[i]);
    }
  }

  // ---------- whole runs of the store ----------

  datatype StoreStep =
    | DoEnroll(nodeId: string, keyId: string)
    | DoBegin(rotationId: string, seed: Seed)
    | DoRecord(recordedRotation: string, newKeyId: string, nonce: string, expiresAt: int)
    | DoConfirm(graceUntil: int)
    | DoActivate
    | DoExpire(now: int)
    | DoDiscard

  function Apply(st: FileState, step: StoreStep): FileState {
    match step
    case DoEnroll(n, k) => (match Enroll(st, n, k) case None => st case Some(s) => s)
    case DoBegin(r, seed) => if st.pending.Some? then st else Begin(st, r, seed)
    case DoRecord(r, k, n, e) => (match RecordPrepared(st, r, k, n, e) case None => st case Some(s) => s)
    case DoConfirm(g) => (match MarkConfirmed(st, g) case None => st case Some(s) => s)
    case DoActivate => (match Activate(st) case None => st case Some(s) => s)
    case DoExpire(now) => (match ExpireGrace(st, now) case Changed(s) => s case _ => st)
    case DoDiscard => (match DiscardPending(st) case Changed(s) => s case _ => st)
  }

  /** What the environment owes the store: generated keys and assigned ids are new. */
  ghost predicate FreshInput(st: FileState, step: StoreStep) {
    match step
    case DoEnroll(_, k) => IdFreeExcept(st.keys, k, CurrentIndex(st))
    case DoBegin(_, seed) => forall k | k in st.keys :: k.publicKey != KeyOf(seed)
    case DoRecord(r, k, _, _) =>
      st.pending.Some? ==> IdFreeExcept(st.keys, k, IndexByPublic(st.keys, st.pending.value.newPublicKey))
    case _ => true
  }

  ghost predicate StoreRun(run: seq<FileState>, steps: seq<StoreStep>) {
    && |run| == |steps| + 1
    && (exists seed :: run[0] == Fresh(seed))
    && forall i | 0 <= i < |steps| :: FreshInput(run[i], steps[i]) && run[i + 1] == Apply(run[i], steps[i])
  }

  lemma StepKeeps(st: FileState, step: StoreStep)
    requires Valid(st) && FreshInput(st, step)
    ensures Valid(Apply(st, step))
  {
    match step
    case DoEnroll(n, k) => if n != "" && k != "" { EnrollKeepsIff(st, n, k); }
    case DoBegin(r, seed) => if st.pending.None? { BeginKeeps(st, r, seed); }
    case DoRecord(r, k, n, e) =>
      if st.pending.Some? && st.pending.value.rotationId == r && k != "" { RecordKeepsIff(st, r, k, n, e); }
    case DoConfirm(g) => if st.pending.Some? { ConfirmKeeps(st, g); }
    case DoActivate => if st.pending.Some? && st.pending.value.confirmed { var _, _ := ActivateKeeps(st); }
    case DoExpire(now) => ExpireKeeps(st, now);
    case DoDiscard => DiscardKeeps(st);
  }

  /** In every reachable state there is exactly one ACTIVE key and it is the current one, the
      PENDING record mirrors the pending rotation, and neither refusal guard can fire. */
  lemma {:induction false} StoreRunSafe(run: seq<FileState>, steps: seq<StoreStep>, now: int)
    requires StoreRun(run, steps)
    ensures forall i | 0 <= i < |run| :: Valid(run[i])
    ensures forall i | 0 <= i < |run| :: !ExpireGrace(run[i], now).Refused? && !DiscardPending(run[i]).Refused?
  {
    if steps == [] {
      var seed :| run[0] == Fresh(seed);
      FreshValid(seed);
    } else {
      var n := |steps| - 1;
      assert forall i | 0 <= i < n :: steps[..n][i] == steps[i] && run[..n + 1][i] == run[i];
      StoreRunSafe(run[..n + 1], steps[..n], now);
      assert run[..n + 1][n] == run[n];
      StepKeeps(run[n], steps[n]);
    }
    forall i | 0 <= i < |run|
      ensures Valid(run[i]) && !ExpireGrace(run[i], now).Refused? && !DiscardPending(run[i]).Refused?
    {
      assert steps != [] && i < |run| - 1 ==> run[i] == run[..|steps|][i];
      ExpireKeeps(run[i], now);
      DiscardKeeps(run[i]);
    }
  }

  // ---------- grace cleanup is invisible ----------

  ghost predicate UniqueId(keys: seq<KeyRecord>, keyId: string) {
    forall i, j | 0 <= i < j < |keys| :: !(keys[i].keyId == keyId && keys[j].keyId == keyId)
  }

  /** Every rotated-out key and the current key carry an id: true once enrolled. */
  ghost predicate Identified(st: FileState) {
    st.currentKeyId != "" && forall k | k in st.keys && k.status == Grace :: k.keyId != ""
  }

  lemma LookupIsMembership(st: FileState, keyId: string, now: int)
    requires UniqueId(st.keys, keyId)
    ensures forall seed :: PrivateKeyById(st, keyId, now) == Some(seed) <==>
              exists k :: k in st.keys && k.keyId == keyId && Usable(k, now) && k.privateKey == seed
    ensures HasUsable(st.keys, keyId, now) <==>
              exists k :: k in st.keys && k.keyId == keyId && Usable(k, now)
  {
    var i := FirstIndex(st.keys, (k: KeyRecord) => k.keyId == keyId);
    assert forall k | k in st.keys && k.keyId == keyId :: i >= 0 && k == st.keys[i];
    if i >= 0 { assert st.keys[i] in st.keys; }
    var j := FirstIndex(st.keys, (k: KeyRecord) => k.keyId == keyId && (k.status == Active || k.status == Grace));
    if j >= 0 { assert st.keys[j] in st.keys; }
  }

  lemma IdIsUnique(st: FileState, keyId: string)
    requires Valid(st) && (keyId != "" || Identified(st))
    ensures UniqueId(st.keys, keyId)
  {
    var a, p := Witness(st);
    forall i, j | 0 <= i < j < |st.keys| ensures !(st.keys[i].keyId == keyId && st.keys[j].keyId == keyId) {
      assert Apart(st.keys[i], st.keys[j]);
      assert st.keys[i] in st.keys && st.keys[j] in st.keys;
    }
  }

  /** The records a lookup of `keyId` looks at: `HasSigningKey` skips those that are neither ACTIVE nor GRACE. */
  predicate Bears(k: KeyRecord, keyId: string, signingOnly: bool) {
    k.keyId == keyId && (signingOnly ==> k.status == Active || k.status == Grace)
  }

  /** The first record a lookup of `keyId` meets; with a time, the first that is not past its grace then. */
  function FirstBearer(keys: seq<KeyRecord>, keyId: string, signingOnly: bool, at: Option<int>): Option<KeyRecord> {
    if keys == [] then None
    else
      var last := keys[|keys| - 1];
      var earlier := FirstBearer(keys[..|keys| - 1], keyId, signingOnly, at);
      if earlier.Some? then earlier
      else if Bears(last, keyId, signingOnly) && (at.Some? ==> !GraceOver(last, at.value)) then Some(last)
      else None
  }

  /** Cleanup at `now` exposes another key: the first record the lookup meets is past its grace, and the first
      one that survives can sign. */
  predicate Exposes(keys: seq<KeyRecord>, keyId: string, signingOnly: bool, now: int) {
    var first := FirstBearer(keys, keyId, signingOnly, None);
    var survivor := FirstBearer(keys, keyId, signingOnly, Some(now));
    first.Some? && GraceOver(first.value, now) && survivor.Some? && Usable(survivor.value, now)
  }

  /** The first bearer left by the cleanup is the first one that is not past its grace. */
  lemma {:induction false} FirstSurvivor(keys: seq<KeyRecord>, keyId: string, signingOnly: bool, now: int)
    ensures FirstBearer(Kept(keys, now), keyId, signingOnly, None) == FirstBearer(keys, keyId, signingOnly, Some(now))
  {
    if keys != [] {
      var front, last := keys[..|keys| - 1], keys[|keys| - 1];
      FirstSurvivor(front, keyId, signingOnly, now);
      if !GraceOver(last, now) {
        var kept := Kept(front, now) + [last];
        assert kept[..|kept| - 1] == Kept(front, now);
      } else {
        assert Kept(keys, now) == Kept(front, now);
      }
    }
  }

  lemma {:induction false} FirstBearerAt(keys: seq<KeyRecord>, keyId: string, signingOnly: bool, i: int)
    requires -1 <= i < |keys| && (i >= 0 ==> Bears(keys[i], keyId, signingOnly))
    requires forall j | 0 <= j < (if i < 0 then |keys| else i) :: !Bears(keys[j], keyId, signingOnly)
    ensures FirstBearer(keys, keyId, signingOnly, None) == if i < 0 then None else Some(keys[i])
  {
    if keys != [] {
      FirstBearerAt(keys[..|keys| - 1], keyId, signingOnly, if i == |keys| - 1 then -1 else i);
    }
  }

  lemma {:induction false} SurvivorOfFirst(keys: seq<KeyRecord>, keyId: string, signingOnly: bool, now: int)
    ensures var first := FirstBearer(keys, keyId, signingOnly, None);
            var survivor := FirstBearer(keys, keyId, signingOnly, Some(now));
            && (survivor.Some? ==> first.Some? && Bears(survivor.value, keyId, signingOnly) && survivor.value in keys)
            && (first.Some? ==> Bears(first.value, keyId, signingOnly) && first.value in keys)
            && (first.Some? && !GraceOver(first.value, now) ==> survivor == first)
            && (survivor.Some? ==> !GraceOver(survivor.value, now))
  {
    if keys != [] { SurvivorOfFirst(keys[..|keys| - 1], keyId, signingOnly, now); }
  }

  /** What a lookup answers, in terms of the first bearer. */
  lemma LookupsByBearer(st: FileState, keyId: string, t: int)
    ensures var k := FirstBearer(st.keys, keyId, false, None);
            PrivateKeyById(st, keyId, t) == if k.Some? && Usable(k.value, t) then Some(k.value.privateKey) else None
    ensures var k := FirstBearer(st.keys, keyId, true, None);
            HasUsable(st.keys, keyId, t) == (k.Some? && Usable(k.value, t))
  {
    FirstBearerAt(st.keys, keyId, false, FirstIndex(st.keys, (k: KeyRecord) => k.keyId == keyId));
    FirstBearerAt(st.keys, keyId, true,
                  FirstIndex(st.keys, (k: KeyRecord) => k.keyId == keyId && (k.status == Active || k.status == Grace)));
  }

  /** Without exposure a lookup at any time from `now` on finds the same usable record before and after. */
  lemma UnexposedIff(keys: seq<KeyRecord>, keyId: string, signingOnly: bool, now: int, t: int)
    requires now <= t
    ensures var before, after := FirstBearer(keys, keyId, signingOnly, None), FirstBearer(Kept(keys, now), keyId, signingOnly, None);
            && (!Exposes(keys, keyId, signingOnly, now) ==>
                  (before.Some? && Usable(before.value, t) <==> after.Some? && Usable(after.value, t)) &&
                  (before.Some? && Usable(before.value, t) ==> before == after))
            && (Exposes(keys, keyId, signingOnly, now) ==>
                  before.Some? && !Usable(before.value, now) && after.Some? && Usable(after.value, now))
  {
    FirstSurvivor(keys, keyId, signingOnly, now);
    SurvivorOfFirst(keys, keyId, signingOnly, now);
  }

  /** When cleanup is invisible, for every state and id: from `now` on both lookups answer as before if and
      only if removing the expired keys exposes no other key under that id. */
  lemma GraceCleanupInvisibleIff(st: FileState, now: int, keyId: string)
    requires ExpireGrace(st, now).Changed?
    ensures var next := ExpireGrace(st, now).next;
            && ((forall t | now <= t :: PrivateKeyById(next, keyId, t) == PrivateKeyById(st, keyId, t)) <==>
                  !Exposes(st.keys, keyId, false, now))
            && ((forall t | now <= t :: HasSigningKey(next, keyId, t) == HasSigningKey(st, keyId, t)) <==>
                  (st.pending.Some? && st.pending.value.newKeyId == keyId) || !Exposes(st.keys, keyId, true, now))
  {
    var next := ExpireGrace(st, now).next;
    forall t | now <= t
      ensures !Exposes(st.keys, keyId, false, now) ==> PrivateKeyById(next, keyId, t) == PrivateKeyById(st, keyId, t)
      ensures !Exposes(st.keys, keyId, true, now) ==> HasSigningKey(next, keyId, t) == HasSigningKey(st, keyId, t)
    {
      CleanupAt(st, next, now, keyId, t);
    }
    CleanupAt(st, next, now, keyId, now);
    assert Exposes(st.keys, keyId, false, now) ==> PrivateKeyById(next, keyId, now) != PrivateKeyById(st, keyId, now);
    assert HasUsable(next.keys, keyId, now) != HasUsable(st.keys, keyId, now) ==>
             (HasSigningKey(next, keyId, now) == HasSigningKey(st, keyId, now) <==>
                st.pending.Some? && st.pending.value.newKeyId == keyId);
  }

  lemma CleanupAt(st: FileState, next: FileState, now: int, keyId: string, t: int)
    requires next == st.(keys := Kept(st.keys, now)) && now <= t
    ensures !Exposes(st.keys, keyId, false, now) ==> PrivateKeyById(next, keyId, t) == PrivateKeyById(st, keyId, t)
    ensures !Exposes(st.keys, keyId, true, now) ==> HasUsable(next.keys, keyId, t) == HasUsable(st.keys, keyId, t)
    ensures t == now && Exposes(st.keys, keyId, false, now) ==> PrivateKeyById(next, keyId, t) != PrivateKeyById(st, keyId, t)
    ensures t == now && Exposes(st.keys, keyId, true, now) ==> HasUsable(next.keys, keyId, t) != HasUsable(st.keys, keyId, t)
  {
    LookupsByBearer(st, keyId, t);
    LookupsByBearer(next, keyId, t);
    UnexposedIff(st.keys, keyId, false, now, t);
    UnexposedIff(st.keys, keyId, true, now, t);
  }

  /** In every state of the store, cleanup is invisible for every non-empty id, and for "" too once every
      key has an id. */
  lemma GraceCleanupInvisible(st: FileState, now: int, keyId: string, t: int)
    requires Valid(st) && now <= t
    requires keyId != "" || Identified(st)
    requires ExpireGrace(st, now).Changed?
    ensures var next := ExpireGrace(st, now).next;
            && PrivateKeyById(next, keyId, t) == PrivateKeyById(st, keyId, t)
            && HasSigningKey(next, keyId, t) == HasSigningKey(st, keyId, t)
  {
    IdIsUnique(st, keyId);
    SurvivorOfFirst(st.keys, keyId, false, now);
    SurvivorOfFirst(st.keys, keyId, true, now);
    assert forall x, y | x in st.keys && y in st.keys && x.keyId == keyId && y.keyId == keyId :: x == y;
    GraceCleanupInvisibleIff(st, now, keyId);
  }

  /** Before enrollment it can be visible: a rotation begun, confirmed and activated without ids leaves two
      keys under "", and removing the expired one lets a lookup of "" fall through to the other. */
  lemma GraceCleanupVisibleWithoutIds() returns (run: seq<FileState>, steps: seq<StoreStep>)
    ensures StoreRun(run, steps) && |steps| == 3
    ensures var st := run[3];
            && ExpireGrace(st, 7).Changed? && Exposes(st.keys, "", false, 7)
            && PrivateKeyById(st, "", 7) == None
            && PrivateKeyById(ExpireGrace(st, 7).next, "", 7) == Some(1)
  {
    var s0, s1, s2, s3 := RotatedBeforeEnrollment();
    run, steps := [s0, s1, s2, s3], [DoBegin("r", 1), DoConfirm(5), DoActivate];
    assert run[0] == Fresh(0);
    CleanupExposesSecond(s3, s3.keys[0], s3.keys[1], 7);
  }

  lemma CleanupExposesSecond(st: FileState, expired: KeyRecord, live: KeyRecord, now: int)
    requires st.keys == [expired, live] && expired.keyId == live.keyId == ""
    requires GraceOver(expired, now) && live.status == Active
    ensures ExpireGrace(st, now).Changed? && Exposes(st.keys, "", false, now)
    ensures PrivateKeyById(st, "", now) == None
    ensures PrivateKeyById(ExpireGrace(st, now).next, "", now) == Some(live.privateKey)
  {
    assert st.keys[..1] == [expired] && [expired][..0] == [];
    assert Kept([], now) == [] && Kept([expired], now) == [];
    assert Kept(st.keys, now) == [live];
    FirstBearerAt(st.keys, "", false, 0);
    FirstBearerAt([live], "", false, 0);
    FirstSurvivor(st.keys, "", false, now);
    LookupsByBearer(st, "", now);
    LookupsByBearer(ExpireGrace(st, now).next, "", now);
  }

  lemma RotatedBeforeEnrollment() returns (s0: FileState, s1: FileState, s2: FileState, s3: FileState)
    ensures s0 == Fresh(0) && FreshInput(s0, DoBegin("r", 1)) && s1 == Apply(s0, DoBegin("r", 1))
    ensures s2 == Apply(s1, DoConfirm(5)) && s3 == Apply(s2, DoActivate)
    ensures s3.keys == [KeyRecord("", KeyOf(0), 0, Grace, 5), KeyRecord("", KeyOf(1), 1, Active, 0)]
  {
    s0 := Fresh(0);
    s1 := Begin(s0, "r", 1);
    s2 := MarkConfirmed(s1, 5).value;
    FreshValid(0);
    BeginKeeps(s0, "r", 1);
    ConfirmKeeps(s1, 5);
    assert s2.keys == [KeyRecord("", KeyOf(0), 0, Active, 0), KeyRecord("", KeyOf(1), 1, Pending, 0)];
    var a, p := ActivateKeeps(s2);
    assert s2.keys[0].status == Active && s2.keys[1].status == Pending;
    s3 := Activate(s2).value;
  }

  // ---------- who signs ----------

  /** In every state, valid or not, the first record with the id decides `PrivateKeyByID`. */
  lemma FirstKeyDecides(st: FileState, i: nat, t: int)
    requires i < |st.keys| && forall j | 0 <= j < i :: st.keys[j].keyId != st.keys[i].keyId
    ensures var k := st.keys[i];
            PrivateKeyById(st, k.keyId, t) ==
              if k.status == Active || (k.status == Grace && (k.graceUntil <= 0 || t < k.graceUntil)) then Some(k.privateKey) else None
  {
    assert FirstIndex(st.keys, (k: KeyRecord) => k.keyId == st.keys[i].keyId) == i;
  }

  /** With a unique id the lookups answer for its key: an ACTIVE one always, a GRACE one until its deadline if it has one. */
  lemma KeySignsWhen(st: FileState, i: nat, t: int)
    requires i < |st.keys| && UniqueId(st.keys, st.keys[i].keyId)
    ensures var k := st.keys[i];
            var signs := k.status == Active || (k.status == Grace && (k.graceUntil <= 0 || t < k.graceUntil));
            && PrivateKeyById(st, k.keyId, t) == (if signs then Some(k.privateKey) else None)
            && (HasSigningKey(st, k.keyId, t) <==> signs || (st.pending.Some? && st.pending.value.newKeyId == k.keyId))
  {
    LookupAt(st, i, t);
    LookupIsMembership(st, st.keys[i].keyId, t);
    assert st.keys[i] in st.keys;
    assert forall k | k in st.keys && k.keyId == st.keys[i].keyId :: k == st.keys[i];
  }

  /** A pending key is known as one this node can sign with, but the ordinary lookup never hands it out. */
  lemma PendingKeyNeverSigns(st: FileState, t: int)
    requires Valid(st) && st.pending.Some? && st.pending.value.newKeyId != ""
    ensures PrivateKeyById(st, st.pending.value.newKeyId, t) == None && HasSigningKey(st, st.pending.value.newKeyId, t)
  {
    var a, p := Witness(st);
    IdIsUnique(st, st.pending.value.newKeyId);
    KeySignsWhen(st, p, t);
  }

  // ---------- a rotated-out key ----------

  /** A GRACE key with an id signs exactly until its deadline; one without a deadline always does. */
  lemma GraceKeyUsableExactlyUntilDeadline(st: FileState, k: KeyRecord, t: int)
    requires Valid(st) && k in st.keys && k.status == Grace && k.keyId != ""
    ensures PrivateKeyById(st, k.keyId, t) == if k.graceUntil <= 0 || t < k.graceUntil then Some(k.privateKey) else None
    ensures HasSigningKey(st, k.keyId, t) <==> k.graceUntil <= 0 || t < k.graceUntil
  {
    var a, p := Witness(st);
    var i :| 0 <= i < |st.keys| && st.keys[i] == k;
    assert p >= 0 ==> Apart(st.keys[i], st.keys[p]);
    IdIsUnique(st, k.keyId);
    LookupAt(st, i, t);
    LookupIsMembership(st, k.keyId, t);
    assert forall x | x in st.keys && x.keyId == k.keyId :: x == k;
  }

  /** A key rotated out by a confirmation signs exactly until the grace deadline of that confirmation. */
  lemma RotatedOutKeyUsableExactlyUntilGrace(st: FileState, graceUntil: int, t: int)
    requires Valid(st) && st.currentKeyId != "" && st.pending.Some? && graceUntil > 0
    ensures Activate(MarkConfirmed(st, graceUntil).value).Some?
    ensures var next := Activate(MarkConfirmed(st, graceUntil).value).value;
            && st.keys[CurrentIndex(st)].(status := Grace, graceUntil := graceUntil) in next.keys
            && PrivateKeyById(next, st.currentKeyId, t) ==
                 (if t < graceUntil then Some(st.keys[CurrentIndex(st)].privateKey) else None)
            && (HasSigningKey(next, st.currentKeyId, t) <==> t < graceUntil)
  {
    ConfirmKeeps(st, graceUntil);
    var confirmed := MarkConfirmed(st, graceUntil).value;
    var a, p := ActivateKeeps(confirmed);
    CurrentIs(confirmed, a, p);
    assert ValidAt(st, a, p);
    CurrentIs(st, a, p);
    var next := Activate(confirmed).value;
    assert next.keys[a] == st.keys[a].(status := Grace, graceUntil := graceUntil);
    GraceKeyUsableExactlyUntilDeadline(next, next.keys[a], t);
  }

  /** No step but a cleanup past its deadline touches a GRACE key. */
  lemma GraceKeyKept(st: FileState, step: StoreStep, k: KeyRecord)
    requires Valid(st) && FreshInput(st, step) && k in st.keys && k.status == Grace
    requires step.DoExpire? ==> !GraceOver(k, step.now)
    ensures k in Apply(st, step).keys
  {
    var i :| 0 <= i < |st.keys| && st.keys[i] == k;
    match step
    case DoEnroll(n, id) => if n != "" && id != "" { GraceKeyKeptByEnroll(st, n, id, i); }
    case DoBegin(_, _) => assert Apply(st, step).keys[i] == k;
    case DoRecord(r, id, n, e) => GraceKeyKeptByRecord(st, r, id, n, e, i);
    case DoConfirm(_) =>
    case DoActivate => GraceKeyKeptByActivate(st, i);
    case DoExpire(now) => KeptMembers(st.keys, now);
    case DoDiscard => GraceKeyKeptByDiscard(st, i);
  }

  lemma GraceKeyKeptByEnroll(st: FileState, nodeId: string, keyId: string, i: nat)
    requires Valid(st) && nodeId != "" && keyId != "" && IdFreeExcept(st.keys, keyId, CurrentIndex(st))
    requires i < |st.keys| && st.keys[i].status == Grace
    ensures st.keys[i] in Apply(st, DoEnroll(nodeId, keyId)).keys
  {
    var a, p := Witness(st);
    EnrollFresh(st, a, p, nodeId, keyId);
    assert Enroll(st, nodeId, keyId).value.keys[i] == st.keys[i];
  }

  lemma GraceKeyKeptByRecord(st: FileState, rotationId: string, keyId: string, nonce: string, expiresAt: int, i: nat)
    requires Valid(st) && i < |st.keys| && st.keys[i].status == Grace
    ensures st.keys[i] in Apply(st, DoRecord(rotationId, keyId, nonce, expiresAt)).keys
  {
    var a, p := Witness(st);
    assert Apply(st, DoRecord(rotationId, keyId, nonce, expiresAt)).keys[i] == st.keys[i];
  }

  lemma GraceKeyKeptByActivate(st: FileState, i: nat)
    requires Valid(st) && i < |st.keys| && st.keys[i].status == Grace
    ensures st.keys[i] in Apply(st, DoActivate).keys
  {
    if st.pending.Some? && st.pending.value.confirmed {
      var a, p := ActivateKeeps(st);
      assert Apply(st, DoActivate).keys[i] == st.keys[i];
    }
  }

  lemma GraceKeyKeptByDiscard(st: FileState, i: nat)
    requires Valid(st) && i < |st.keys| && st.keys[i].status == Grace
    ensures st.keys[i] in Apply(st, DoDiscard).keys
  {
    if DiscardPending(st).Changed? {
      var a, p := Witness(st);
      assert Apart(st.keys[i], st.keys[p]);
      DiscardMembers(st, st.keys[i]);
    }
  }

  /** Over every run, a key once rotated out goes on signing until its deadline, and no longer. */
  lemma {:induction false} RotatedOutKeyThroughRun(run: seq<FileState>, steps: seq<StoreStep>, i: nat, j: nat, k: KeyRecord, t: int)
    requires StoreRun(run, steps) && i <= j < |run|
    requires k in run[i].keys && k.status == Grace && k.keyId != "" && k.graceUntil > 0
    requires forall m | i <= m < j && steps[m].DoExpire? :: steps[m].now <= t
    ensures t < k.graceUntil ==> PrivateKeyById(run[j], k.keyId, t) == Some(k.privateKey) && HasSigningKey(run[j], k.keyId, t)
    ensures t >= k.graceUntil && k in run[j].keys ==> PrivateKeyById(run[j], k.keyId, t) == None && !HasSigningKey(run[j], k.keyId, t)
  {
    StoreRunSafe(run, steps, 0);
    if t < k.graceUntil { GraceKeyStays(run, steps, i, j, k, t); }
    if k in run[j].keys { GraceKeyUsableExactlyUntilDeadline(run[j], k, t); }
  }

  lemma {:induction false} GraceKeyStays(run: seq<FileState>, steps: seq<StoreStep>, i: nat, j: nat, k: KeyRecord, t: int)
    requires StoreRun(run, steps) && i <= j < |run| && forall m | 0 <= m < |run| :: Valid(run[m])
    requires k in run[i].keys && k.status == Grace && t < k.graceUntil
    requires forall m | i <= m < j && steps[m].DoExpire? :: steps[m].now <= t
    ensures k in run[j].keys
  {
    if i < j {
      GraceKeyStays(run, steps, i, j - 1, k, t);
      GraceKeyKept(run[j - 1], steps[j - 1], k);
    }
  }

  lemma LookupAt(st: FileState, i: nat, t: int)
    requires i < |st.keys| && UniqueId(st.keys, st.keys[i].keyId)
    ensures PrivateKeyById(st, st.keys[i].keyId, t) == if Usable(st.keys[i], t) then Some(st.keys[i].privateKey) else None
  {
    assert FirstIndex(st.keys, (k: KeyRecord) => k.keyId == st.keys[i].keyId) == i;
  }
}
