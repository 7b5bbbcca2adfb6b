/** Two-phase key rotation against a server, over lost and repeated messages, failed
    writes and crashes: `internal/hnieoj/rotation/rotation.go` with the authentication
    candidates of `internal/hnieoj/wss/run.go`.

    The world is the node's memory and identity file, the server's rotation table, and
    every request and reply ever sent.  A request may be handled late, twice or never, and
    so may a reply.  The server is a partner with three duties: key ids are new and
    non-empty, preparing is idempotent per rotation id, and a rotation leaves PENDING once. */
module Rotation {
  import opened Basics
  import opened Identity

  datatype Status = InProgress | Activated | Expired

  datatype ServerRotation = ServerRotation(keyId: string, pub: PublicKey, status: Status)

  datatype Server = Server(
    rotations: map<string, ServerRotation>, activeKeyId: string, activePub: PublicKey, usedIds: set<string>)

  datatype PrepareReply = PrepareReply(rotationId: string, keyId: string, nonce: string, expiresAt: int)

  /** A confirm or query reply.  Empty strings and `NoKey` stand for absent fields; `padded`
      says that white space surrounds the status, which the validation strips and the
      later comparison does not. */
  datatype StatusReply = StatusReply(
    rotationId: string, keyId: string, status: Option<Status>, padded: bool, pub: PublicKey,
    nonce: string, expiresAt: int, graceUntil: int)

  /** Everything outside the node, and the tokens already generated. */
  datatype Env = Env(
    server: Server, sent: map<string, PublicKey>, confirms: set<string>,
    seeds: set<Seed>, rotationIds: set<string>)

  datatype World = World(
    mem: FileState, disk: FileState, env: Env,
    prepareReplies: set<PrepareReply>, statusReplies: set<StatusReply>)

  // ---------- client-side decisions ----------

  /** `validateRotationResponse`. */
  predicate ValidReply(p: PendingRotation, r: StatusReply) {
    && r.status.Some?
    && r.rotationId != "" && r.rotationId == p.rotationId
    && (r.keyId != "" && p.newKeyId != "" ==> r.keyId == p.newKeyId)
    && (r.pub != NoKey ==> r.pub == p.newPublicKey)
    && (r.nonce != "" && p.confirmNonce != "" ==> r.nonce == p.confirmNonce)
    && (r.expiresAt > 0 && p.expiresAt > 0 ==> r.expiresAt == p.expiresAt)
    && (r.status.value == Activated ==>
          p.newKeyId != "" && r.keyId == p.newKeyId && r.pub != NoKey && r.pub == p.newPublicKey)
  }

  predicate SaysActive(r: StatusReply) { r.status == Some(Activated) && !r.padded }
  predicate SaysExpired(r: StatusReply) { r.status == Some(Expired) && !r.padded }

  predicate UsablePrepareReply(r: PrepareReply) {
    r.rotationId != "" && r.keyId != "" && r.nonce != ""
  }

  /** The file state a confirm or query reply asks for, if any. */
  function Verdict(st: FileState, r: StatusReply): Option<FileState> {
    if st.pending.None? || !ValidReply(st.pending.value, r) then None
    else if SaysActive(r) then
      (if r.graceUntil <= 0 then None else MarkConfirmed(st, r.graceUntil))
    else if SaysExpired(r) then
      (match DiscardPending(st) case Changed(next) => Some(next) case _ => None)
    else None
  }

  datatype Candidate = Candidate(keyId: string, pending: bool)

  /** `authCandidates`. */
  function AuthCandidates(st: FileState): (cs: seq<Candidate>)
    ensures 1 <= |cs| <= 2 && (|cs| == 2 ==> cs[0].keyId != cs[1].keyId)
    ensures forall id :: Candidate(id, true) in cs <==>
              st.pending.Some? && id == st.pending.value.newKeyId && id != "" && id != st.currentKeyId
    ensures forall id | id != "" :: Candidate(id, false) in cs <==> id == st.currentKeyId
    ensures st.currentKeyId != "" ==> cs[0] == Candidate(st.currentKeyId, false)
    ensures Candidate("", false) in cs ==> cs == [Candidate("", false)]
  {
    var current := if st.currentKeyId != "" then [Candidate(st.currentKeyId, false)] else [];
    var pending := if st.pending.Some? && st.pending.value.newKeyId != "" && st.pending.value.newKeyId != st.currentKeyId
                   then [Candidate(st.pending.value.newKeyId, true)] else [];
    if current + pending == [] then [Candidate("", false)] else current + pending
  }

  /** The private key `respondWithKey` signs with for a candidate. */
  function CandidateKey(st: FileState, c: Candidate, now: int): Option<Seed> {
    if c.pending then (if st.pending.Some? then Some(st.pending.value.newKey) else None)
    else PrivateKeyById(st, c.keyId, now)
  }

  // ---------- steps ----------

  datatype Step =
    | BeginStep(rotationId: string, seed: Seed, outcome: WriteOutcome)
    | SendPrepare
    | ReceivePrepared(prepared: PrepareReply, outcome: WriteOutcome)
    | SendConfirm
    | ReceiveStatus(reply: StatusReply, outcome: WriteOutcome)
    | ActivateStep(outcome: WriteOutcome)
    | ExpireGraceStep(now: int, outcome: WriteOutcome)
    | CrashAndReload
    | ServerPrepare(rotationId: string, keyId: string)
    | ServerConfirm(rotationId: string)
    | ServerExpire(rotationId: string)
    | ServerAnswerPrepare(prepared: PrepareReply)
    | ServerAnswerStatus(reply: StatusReply)

  predicate ServerSide(step: Step) {
    step.ServerPrepare? || step.ServerConfirm? || step.ServerExpire? ||
    step.ServerAnswerPrepare? || step.ServerAnswerStatus?
  }

  predicate InState(sv: Server, rotationId: string, status: Status) {
    rotationId in sv.rotations && sv.rotations[rotationId].status == status
  }

  predicate TruthfulPrepare(sv: Server, r: PrepareReply) {
    r.rotationId in sv.rotations && r.keyId == sv.rotations[r.rotationId].keyId
  }

  /** What a status reply may be relied on for: an end state is true of the rotation whose key id and public
      key it names (an EXPIRED reply may leave them out).  Replies that mix up rotations promise nothing. */
  predicate TruthfulStatus(sv: Server, r: StatusReply) {
    r.rotationId in sv.rotations ==>
      var rot := sv.rotations[r.rotationId];
      && (r.status == Some(Activated) && r.keyId == rot.keyId && r.pub == rot.pub ==> rot.status == Activated)
      && (r.status == Some(Expired) && (r.keyId == "" || r.keyId == rot.keyId) && (r.pub == NoKey || r.pub == rot.pub) ==>
            rot.status == Expired)
  }

  predicate Enabled(w: World, step: Step) {
    match step
    case BeginStep(r, seed, _) => w.mem.pending.None? && r != "" && r !in w.env.rotationIds && seed !in w.env.seeds
    case SendPrepare => w.mem.pending.Some?
    case ReceivePrepared(r, _) => r in w.prepareReplies && UsablePrepareReply(r)
    case SendConfirm => w.mem.pending.Some? && w.mem.pending.value.newKeyId != ""
    // only a rotation with a recorded key id is confirmed or queried
    case ReceiveStatus(r, _) => r in w.statusReplies && (w.mem.pending.Some? ==> w.mem.pending.value.newKeyId != "")
    case ActivateStep(_) => true
    case ExpireGraceStep(_, _) => true
    case CrashAndReload => true
    case ServerPrepare(r, k) => r in w.env.sent && r !in w.env.server.rotations && k != "" && k !in w.env.server.usedIds
    case ServerConfirm(r) => r in w.env.confirms && InState(w.env.server, r, InProgress)
    case ServerExpire(r) => InState(w.env.server, r, InProgress)
    case ServerAnswerPrepare(r) => TruthfulPrepare(w.env.server, r)
    case ServerAnswerStatus(r) => r.rotationId in w.env.server.rotations && TruthfulStatus(w.env.server, r)
  }

  function Commit(w: World, next: Option<FileState>, outcome: WriteOutcome): World {
    var (mem, disk) := Publish(w.mem, w.disk, next, outcome);
    w.(mem := mem, disk := disk)
  }

  function SetStatus(sv: Server, rotationId: string, status: Status): Server
    requires rotationId in sv.rotations
  {
    sv.(rotations := sv.rotations[rotationId := sv.rotations[rotationId].(status := status)])
  }

  function OnServer(w: World, sv: Server): World {
    w.(env := w.env.(server := sv))
  }

  function Generated(e: Env, rotationId: string, seed: Seed): Env {
    e.(seeds := e.seeds + {seed}, rotationIds := e.rotationIds + {rotationId})
  }

  function Next(w: World, step: Step): World
    requires Enabled(w, step)
  {
    match step
    case BeginStep(r, seed, o) =>
      Commit(w, Some(Begin(w.mem, r, seed)), o).(env := Generated(w.env, r, seed))
    case SendPrepare => w.(env := w.env.(sent := w.env.sent[w.mem.pending.value.rotationId := w.mem.pending.value.newPublicKey]))
    case ReceivePrepared(r, o) => Commit(w, RecordPrepared(w.mem, r.rotationId, r.keyId, r.nonce, r.expiresAt), o)
    case SendConfirm => w.(env := w.env.(confirms := w.env.confirms + {w.mem.pending.value.rotationId}))
    case ReceiveStatus(r, o) => Commit(w, Verdict(w.mem, r), o)
    case ActivateStep(o) => Commit(w, Activate(w.mem), o)
    case ExpireGraceStep(now, o) => Commit(w, CleanupTarget(ExpireGrace(w.mem, now)), o)
    case CrashAndReload => w.(mem := w.disk)
    case ServerPrepare(r, k) =>
      OnServer(w, w.env.server.(rotations := w.env.server.rotations[r := ServerRotation(k, w.env.sent[r], InProgress)],
                                usedIds := w.env.server.usedIds + {k}))
    case ServerConfirm(r) =>
      OnServer(w, SetStatus(w.env.server, r, Activated).(activeKeyId := w.env.server.rotations[r].keyId,
                                                         activePub := w.env.server.rotations[r].pub))
    case ServerExpire(r) => OnServer(w, SetStatus(w.env.server, r, Expired))
    case ServerAnswerPrepare(r) => w.(prepareReplies := w.prepareReplies + {r})
    case ServerAnswerStatus(r) => w.(statusReplies := w.statusReplies + {r})
  }

  // ---------- the invariant ----------

  ghost predicate Settled(sv: Server, rotationId: string) {
    rotationId in sv.rotations && sv.rotations[rotationId].status != InProgress
  }

  ghost predicate ServerOk(e: Env) {
    var sv := e.server;
    && sv.activeKeyId != "" && sv.activeKeyId in sv.usedIds
    && (forall r | r in sv.rotations ::
          && r in e.sent && sv.rotations[r].pub == e.sent[r]
          && sv.rotations[r].keyId != "" && sv.rotations[r].keyId in sv.usedIds
          && (sv.rotations[r].keyId == sv.activeKeyId ==> sv.rotations[r].status == Activated))
    && (forall r, q | r in sv.rotations && q in sv.rotations && r != q :: sv.rotations[r].keyId != sv.rotations[q].keyId)
    && e.sent.Keys <= e.rotationIds
    && e.confirms <= sv.rotations.Keys
  }

  ghost predicate RepliesOk(w: World) {
    && (forall r | r in w.prepareReplies :: TruthfulPrepare(w.env.server, r))
    && (forall r | r in w.statusReplies :: r.rotationId in w.env.server.rotations && TruthfulStatus(w.env.server, r))
  }

  /** The server's active key is the current key, or the pending key with its id recorded. */
  ghost predicate Knows(s: FileState, sv: Server) {
    || (s.currentKeyId == sv.activeKeyId && 0 <= CurrentIndex(s) && s.keys[CurrentIndex(s)].publicKey == sv.activePub)
    || (s.pending.Some? && s.pending.value.newKeyId == sv.activeKeyId && s.pending.value.newPublicKey == sv.activePub)
  }

  ghost predicate KnownMaterial(s: FileState, e: Env) {
    forall k | k in s.keys :: (k.keyId == "" || k.keyId in e.server.usedIds) && k.privateKey in e.seeds
  }

  /** A rotation the server could still activate is the one this state has pending. */
  ghost predicate HoldsOpenRotations(s: FileState, e: Env) {
    && (forall r | r in e.sent ::
          Settled(e.server, r) ||
          (s.pending.Some? && s.pending.value.rotationId == r && s.pending.value.newPublicKey == e.sent[r]))
    && (forall r | r in e.confirms ::
          Settled(e.server, r) ||
          (s.pending.Some? && s.pending.value.rotationId == r &&
           r in e.server.rotations && s.pending.value.newKeyId == e.server.rotations[r].keyId))
  }

  /** A pending rotation agrees with what the server knows about it. */
  ghost predicate PendingAgrees(s: FileState, e: Env) {
    s.pending.Some? ==>
      var p := s.pending.value;
      && p.rotationId != "" && p.rotationId in e.rotationIds
      && (p.rotationId in e.sent ==> e.sent[p.rotationId] == p.newPublicKey)
      && (p.newKeyId != "" ==> p.rotationId in e.server.rotations && e.server.rotations[p.rotationId].keyId == p.newKeyId)
      && (p.confirmed ==> p.newKeyId != "" && InState(e.server, p.rotationId, Activated))
      && (p.rotationId in e.server.rotations ==>
            var r := e.server.rotations[p.rotationId];
            && (r.status == Activated ==> e.server.activeKeyId == r.keyId && e.server.activePub == r.pub)
            && (forall k | k in s.keys && k.keyId == r.keyId :: k.publicKey == p.newPublicKey))
  }

  /** Every key out of service, now or on activation, has a deadline. */
  ghost predicate GraceBounded(s: FileState) {
    && (forall k | k in s.keys && k.status == Grace :: k.graceUntil > 0)
    && (s.pending.Some? && s.pending.value.confirmed ==> s.pending.value.graceUntil > 0)
  }

  ghost predicate StateOk(s: FileState, e: Env) {
    && Valid(s) && Identified(s) && GraceBounded(s)
    && KnownMaterial(s, e) && HoldsOpenRotations(s, e) && PendingAgrees(s, e)
    && Knows(s, e.server)
  }

  /** The file is never behind: what memory has pending, the file has too, or the server is done with it. */
  ghost predicate DiskCovers(w: World) {
    w.mem.pending.Some? ==>
      var m := w.mem.pending.value;
      Settled(w.env.server, m.rotationId) ||
      (w.disk.pending.Some? &&
       var d := w.disk.pending.value;
       && d.rotationId == m.rotationId && d.newPublicKey == m.newPublicKey
       && (m.newKeyId != "" ==> d.newKeyId == m.newKeyId))
  }

  ghost predicate Inv(w: World) {
    ServerOk(w.env) && RepliesOk(w) && StateOk(w.mem, w.env) && StateOk(w.disk, w.env) && DiskCovers(w)
  }

  /** An enrolled node with no rotation under way, whose current key the server accepts. */
  ghost predicate Init(w: World) {
    && Valid(w.mem) && Identified(w.mem) && GraceBounded(w.mem) && w.mem.pending.None? && w.disk == w.mem
    && KnownMaterial(w.mem, w.env)
    && w.env.server.rotations == map[] && w.env.sent == map[] && w.env.confirms == {}
    && w.prepareReplies == {} && w.statusReplies == {}
    && w.env.server.activeKeyId == w.mem.currentKeyId && w.env.server.activeKeyId in w.env.server.usedIds
    && 0 <= CurrentIndex(w.mem) && w.mem.keys[CurrentIndex(w.mem)].publicKey == w.env.server.activePub
  }

  lemma InitInv(w: World)
    requires Init(w)
    ensures Inv(w)
  {
  }

  // ---------- client transitions keep StateOk ----------

  /** The five clauses of StateOk for a successor whose current key is the old current key. */
  lemma SameCurrent(s: FileState, next: FileState, e: Env, k: KeyRecord)
    requires Valid(s) && Valid(next) && Knows(s, e.server)
    requires next.currentKeyId == s.currentKeyId
    requires k == s.keys[CurrentIndex(s)] && k in next.keys && k.status == Active
    requires s.pending.Some? && s.pending.value.newKeyId == e.server.activeKeyId &&
             s.pending.value.newPublicKey == e.server.activePub ==>
               next.pending.Some? && next.pending.value.newKeyId == e.server.activeKeyId &&
               next.pending.value.newPublicKey == e.server.activePub
    ensures Knows(next, e.server)
  {
    var a, p := Witness(next);
    var m :| 0 <= m < |next.keys| && next.keys[m] == k;
    assert m == a;
  }

  lemma CurrentKey(s: FileState) returns (k: KeyRecord)
    requires Valid(s)
    ensures 0 <= CurrentIndex(s) && k == s.keys[CurrentIndex(s)]
    ensures k in s.keys && k.status == Active && k.keyId == s.currentKeyId
  {
    var a, p := Witness(s);
    k := s.keys[a];
  }

  lemma BeginOk(s: FileState, e: Env, r: string, seed: Seed)
    requires StateOk(s, e) && s.pending.None? && r != "" && r !in e.rotationIds && seed !in e.seeds
    requires ServerOk(e)
    ensures StateOk(Begin(s, r, seed), Generated(e, r, seed))
  {
    var a, p := Witness(s);
    forall k | k in s.keys ensures k.publicKey != KeyOf(seed) {
      var i :| 0 <= i < |s.keys| && s.keys[i] == k;
    }
    BeginKeeps(s, r, seed);
    var k := CurrentKey(s);
    SameCurrent(s, Begin(s, r, seed), e, k);
  }

  /** Recording the id changes the pending record and nothing else. */
  lemma PreparedKeys(s: FileState, r: PrepareReply)
    requires Valid(s) && s.pending.Some? && s.pending.value.rotationId == r.rotationId && r.keyId != ""
    ensures var next := RecordPrepared(s, r.rotationId, r.keyId, r.nonce, r.expiresAt).value;
            forall k | k in next.keys ::
              k in s.keys || (k.keyId == r.keyId && k.publicKey == s.pending.value.newPublicKey && k.status == Pending &&
                              exists o :: o in s.keys && o.privateKey == k.privateKey)
    ensures forall k | k in s.keys && k.status != Pending ::
              k in RecordPrepared(s, r.rotationId, r.keyId, r.nonce, r.expiresAt).value.keys
  {
    var a, p := Witness(s);
    var next := RecordPrepared(s, r.rotationId, r.keyId, r.nonce, r.expiresAt).value;
    forall k | k in next.keys
      ensures k in s.keys || (k.keyId == r.keyId && k.publicKey == s.pending.value.newPublicKey && k.status == Pending &&
                              exists o :: o in s.keys && o.privateKey == k.privateKey)
    {
      var i :| 0 <= i < |next.keys| && next.keys[i] == k;
      assert s.keys[i] in s.keys && s.keys[i].privateKey == k.privateKey;
    }
    forall k | k in s.keys && k.status != Pending ensures k in next.keys {
      var i :| 0 <= i < |s.keys| && s.keys[i] == k;
      assert next.keys[i] == k;
    }
  }

  lemma PreparedFresh(s: FileState, e: Env, r: PrepareReply)
    requires StateOk(s, e) && TruthfulPrepare(e.server, r) && r.keyId != ""
    requires s.pending.Some? && s.pending.value.rotationId == r.rotationId
    ensures IdFreeExcept(s.keys, r.keyId, IndexByPublic(s.keys, s.pending.value.newPublicKey))
  {
    var a, p := Witness(s);
    forall j | 0 <= j < |s.keys| && j != p ensures s.keys[j].keyId != r.keyId {
      assert s.keys[j] in s.keys && Apart(s.keys[j], s.keys[p]);
    }
  }

  lemma PreparedOk(s: FileState, e: Env, r: PrepareReply)
    requires StateOk(s, e) && ServerOk(e) && TruthfulPrepare(e.server, r) && UsablePrepareReply(r)
    requires s.pending.Some? && s.pending.value.rotationId == r.rotationId
    ensures StateOk(RecordPrepared(s, r.rotationId, r.keyId, r.nonce, r.expiresAt).value, e)
  {
    var next := RecordPrepared(s, r.rotationId, r.keyId, r.nonce, r.expiresAt).value;
    PreparedFresh(s, e, r);
    RecordKeepsIff(s, r.rotationId, r.keyId, r.nonce, r.expiresAt);
    PreparedKeys(s, r);
    var k := CurrentKey(s);
    SameCurrent(s, next, e, k);
    assert KnownMaterial(next, e);
    assert Identified(next);
    assert PendingAgrees(next, e);
  }

  lemma ConfirmedOk(s: FileState, e: Env, g: int)
    requires StateOk(s, e) && s.pending.Some? && s.pending.value.newKeyId != "" && g > 0
    requires InState(e.server, s.pending.value.rotationId, Activated)
    ensures StateOk(MarkConfirmed(s, g).value, e)
  {
    ConfirmKeeps(s, g);
    var k := CurrentKey(s);
    SameCurrent(s, MarkConfirmed(s, g).value, e, k);
  }

  lemma ActivatedKeys(s: FileState, k: KeyRecord)
    requires Valid(s) && s.pending.Some? && s.pending.value.confirmed && Activate(s).Some?
    requires k in Activate(s).value.keys
    ensures exists o :: o in s.keys && o.privateKey == k.privateKey &&
                        (k.keyId == o.keyId || k.keyId == s.currentKeyId) &&
                        (k.status == Grace ==> o.status == Grace || o.status == Active) &&
                        (k.status == Grace ==> k.graceUntil == if o.status == Grace then o.graceUntil else s.pending.value.graceUntil)
  {
    var a, p := ActivateKeeps(s);
    var next := Activate(s).value;
    var i :| 0 <= i < |next.keys| && next.keys[i] == k;
    assert s.keys[i] in s.keys;
  }

  lemma ActivatedOk(s: FileState, e: Env)
    requires StateOk(s, e) && ServerOk(e) && s.pending.Some? && s.pending.value.confirmed
    ensures Activate(s).Some? && StateOk(Activate(s).value, e)
  {
    var a, p := ActivateKeeps(s);
    var next := Activate(s).value;
    forall k | k in next.keys
      ensures (k.keyId == "" || k.keyId in e.server.usedIds) && k.privateKey in e.seeds
      ensures k.status == Grace ==> k.keyId != "" && k.graceUntil > 0
    {
      ActivatedKeys(s, k);
      var c := CurrentKey(s);
    }
    assert next.keys[p].status == Active && next.keys[p].publicKey == e.server.activePub;
    var a', p' := Witness(next);
    assert a' == p;
  }

  lemma CleanedOk(s: FileState, e: Env, now: int)
    requires StateOk(s, e) && ExpireGrace(s, now).Changed?
    ensures StateOk(ExpireGrace(s, now).next, e)
  {
    ExpireKeeps(s, now);
    KeptMembers(s.keys, now);
    var k := CurrentKey(s);
    SameCurrent(s, ExpireGrace(s, now).next, e, k);
  }

  lemma DiscardedOk(s: FileState, e: Env)
    requires StateOk(s, e) && ServerOk(e) && s.pending.Some? && InState(e.server, s.pending.value.rotationId, Expired)
    requires DiscardPending(s).Changed?
    ensures StateOk(DiscardPending(s).next, e)
  {
    DiscardKeeps(s);
    var next := DiscardPending(s).next;
    forall k | k in next.keys ensures k in s.keys { DiscardMembers(s, k); }
    var k := CurrentKey(s);
    DiscardMembers(s, k);
    var a, p := Witness(s);
    assert Apart(s.keys[a], s.keys[p]);
    assert s.pending.value.newKeyId != e.server.activeKeyId;
    SameCurrent(s, next, e, k);
  }

  /** Publishing a good state, however the write ends, keeps the invariant. */
  lemma CommitInv(w: World, next: FileState, o: WriteOutcome)
    requires Inv(w) && StateOk(next, w.env)
    requires w.mem.pending.Some? ==>
               var m := w.mem.pending.value;
               Settled(w.env.server, m.rotationId) ||
               (next.pending.Some? && next.pending.value.rotationId == m.rotationId &&
                next.pending.value.newPublicKey == m.newPublicKey &&
                (m.newKeyId != "" ==> next.pending.value.newKeyId == m.newKeyId))
    ensures Inv(Commit(w, Some(next), o))
  {
  }

  // ---------- server and message steps keep StateOk ----------

  lemma GeneratedOk(e: Env, r: string, seed: Seed, s: FileState)
    requires StateOk(s, e)
    ensures StateOk(s, Generated(e, r, seed))
  {
  }

  lemma SendPrepareOk(w: World, s: FileState)
    requires Inv(w) && Enabled(w, SendPrepare) && (s == w.mem || s == w.disk)
    ensures StateOk(s, Next(w, SendPrepare).env)
  {
  }

  lemma SendConfirmOk(w: World, s: FileState)
    requires Inv(w) && Enabled(w, SendConfirm) && (s == w.mem || s == w.disk)
    ensures StateOk(s, Next(w, SendConfirm).env)
  {
  }

  lemma ServerPrepareOk(w: World, r: string, k: string, s: FileState)
    requires ServerOk(w.env) && Enabled(w, ServerPrepare(r, k)) && StateOk(s, w.env)
    ensures StateOk(s, Next(w, ServerPrepare(r, k)).env)
  {
  }

  lemma ServerConfirmOk(w: World, r: string, s: FileState)
    requires ServerOk(w.env) && Enabled(w, ServerConfirm(r)) && StateOk(s, w.env)
    ensures StateOk(s, Next(w, ServerConfirm(r)).env)
  {
  }

  lemma ServerExpireOk(w: World, r: string, s: FileState)
    requires ServerOk(w.env) && Enabled(w, ServerExpire(r)) && StateOk(s, w.env)
    ensures StateOk(s, Next(w, ServerExpire(r)).env)
  {
  }

  lemma ServerOkAfterTable(e: Env, e': Env, r: string)
    requires ServerOk(e) && r in e.sent && r in e'.server.rotations
    requires e' == e.(server := e'.server)
    requires e'.server.rotations == e.server.rotations[r := e'.server.rotations[r]]
    requires e'.server.rotations[r].pub == e.sent[r]
    requires r in e.server.rotations ==>
               e.server.rotations[r].status == InProgress && e'.server.rotations[r].keyId == e.server.rotations[r].keyId
    requires r !in e.server.rotations ==>
               e'.server.rotations[r].keyId !in e.server.usedIds && e'.server.rotations[r].keyId != ""
    requires e'.server.usedIds == e.server.usedIds + {e'.server.rotations[r].keyId}
    requires (e'.server.activeKeyId == e.server.activeKeyId) ||
             (e'.server.activeKeyId == e'.server.rotations[r].keyId && e'.server.rotations[r].status == Activated)
    ensures ServerOk(e')
  {
  }

  /** Rotations on the server keep their id, and once settled never move again. */
  ghost predicate Later(sv: Server, sv': Server) {
    forall r | r in sv.rotations ::
      && r in sv'.rotations && sv'.rotations[r].keyId == sv.rotations[r].keyId && sv'.rotations[r].pub == sv.rotations[r].pub
      && (sv.rotations[r].status != InProgress ==> sv'.rotations[r].status == sv.rotations[r].status)
  }

  /** What happens outside the node leaves its memory and file alone. */
  lemma OutsideInv(w: World, env: Env)
    requires DiskCovers(w) && RepliesOk(w) && Later(w.env.server, env.server)
    requires StateOk(w.mem, env) && StateOk(w.disk, env) && ServerOk(env)
    ensures Inv(w.(env := env))
  {
  }

  lemma SendOk(w: World)
    requires ServerOk(w.env) && PendingAgrees(w.mem, w.env)
    ensures Enabled(w, SendPrepare) ==> ServerOk(Next(w, SendPrepare).env)
    ensures Enabled(w, SendConfirm) ==> ServerOk(Next(w, SendConfirm).env)
  {
  }

  lemma TableStepServerOk(w: World, step: Step)
    requires ServerOk(w.env) && Enabled(w, step)
    requires step.ServerPrepare? || step.ServerConfirm? || step.ServerExpire?
    ensures ServerOk(Next(w, step).env)
  {
    ServerOkAfterTable(w.env, Next(w, step).env, step.rotationId);
  }

  lemma TableStepStateOk(w: World, step: Step, s: FileState)
    requires ServerOk(w.env) && StateOk(s, w.env) && Enabled(w, step)
    requires step.ServerPrepare? || step.ServerConfirm? || step.ServerExpire?
    ensures StateOk(s, Next(w, step).env)
  {
    match step
    case ServerPrepare(r, k) => ServerPrepareOk(w, r, k, s);
    case ServerConfirm(r) => ServerConfirmOk(w, r, s);
    case ServerExpire(r) => ServerExpireOk(w, r, s);
  }

  lemma TableStepLater(w: World, step: Step)
    requires Enabled(w, step)
    requires step.ServerPrepare? || step.ServerConfirm? || step.ServerExpire?
    ensures Later(w.env.server, Next(w, step).env.server)
    ensures Next(w, step) == w.(env := Next(w, step).env)
  {
  }

  lemma AnswerInv(w: World, step: Step)
    requires Inv(w) && Enabled(w, step) && (step.ServerAnswerPrepare? || step.ServerAnswerStatus?)
    ensures Inv(Next(w, step))
  {
    var w' := Next(w, step);
    assert RepliesOk(w') && DiskCovers(w');
    assert w'.mem == w.mem && w'.disk == w.disk && w'.env == w.env;
  }

  lemma ServerStepInv(w: World, step: Step)
    requires Inv(w) && Enabled(w, step) && ServerSide(step)
    ensures Inv(Next(w, step))
  {
    if step.ServerAnswerPrepare? || step.ServerAnswerStatus? {
      AnswerInv(w, step);
    } else {
      TableStepServerOk(w, step);
      TableStepStateOk(w, step, w.mem);
      TableStepStateOk(w, step, w.disk);
      TableStepLater(w, step);
      OutsideInv(w, Next(w, step).env);
    }
  }

  lemma ActivateInv(w: World, o: WriteOutcome)
    requires Inv(w)
    ensures Inv(Next(w, ActivateStep(o)))
  {
    if w.mem.pending.Some? && w.mem.pending.value.confirmed {
      ActivatedOk(w.mem, w.env);
      CommitInv(w, Activate(w.mem).value, o);
    }
  }

  lemma PreparedInv(w: World, r: PrepareReply, o: WriteOutcome)
    requires Inv(w) && Enabled(w, ReceivePrepared(r, o))
    ensures Inv(Next(w, ReceivePrepared(r, o)))
  {
    if w.mem.pending.Some? && w.mem.pending.value.rotationId == r.rotationId {
      PreparedOk(w.mem, w.env, r);
      CommitInv(w, RecordPrepared(w.mem, r.rotationId, r.keyId, r.nonce, r.expiresAt).value, o);
    }
  }

  lemma BeginInv(w: World, r: string, seed: Seed, o: WriteOutcome)
    requires Inv(w) && Enabled(w, BeginStep(r, seed, o))
    ensures Inv(Next(w, BeginStep(r, seed, o)))
  {
    BeginOk(w.mem, w.env, r, seed);
    GeneratedOk(w.env, r, seed, w.mem);
    GeneratedOk(w.env, r, seed, w.disk);
    var w1 := w.(env := Generated(w.env, r, seed));
    assert Inv(w1);
    CommitInv(w1, Begin(w.mem, r, seed), o);
  }

  lemma ExpireGraceInv(w: World, now: int, o: WriteOutcome)
    requires Inv(w)
    ensures Inv(Next(w, ExpireGraceStep(now, o)))
  {
    var w' := Next(w, ExpireGraceStep(now, o));
    if ExpireGrace(w.mem, now).Changed? {
      var next := ExpireGrace(w.mem, now).next;
      assert w' == Commit(w, Some(next), o);
      CleanedOk(w.mem, w.env, now);
      CommitInv(w, next, o);
    } else {
      assert w' == w;
    }
  }

  lemma SendInv(w: World, step: Step)
    requires Inv(w) && Enabled(w, step) && (step.SendPrepare? || step.SendConfirm?)
    ensures Inv(Next(w, step))
  {
    if step.SendPrepare? {
      SendPrepareOk(w, w.mem);
      SendPrepareOk(w, w.disk);
    } else {
      SendConfirmOk(w, w.mem);
      SendConfirmOk(w, w.disk);
    }
    SendOk(w);
    OutsideInv(w, Next(w, step).env);
  }

  lemma StepInv(w: World, step: Step)
    requires Inv(w) && Enabled(w, step)
    ensures Inv(Next(w, step))
  {
    match step
    case BeginStep(r, seed, o) => BeginInv(w, r, seed, o);
    case SendPrepare => SendInv(w, step);
    case ReceivePrepared(r, o) => PreparedInv(w, r, o);
    case SendConfirm => SendInv(w, step);
    case ReceiveStatus(r, o) => ReceiveStatusInv(w, r, o);
    case ActivateStep(o) => ActivateInv(w, o);
    case ExpireGraceStep(now, o) => ExpireGraceInv(w, now, o);
    case CrashAndReload =>
    case _ => ServerStepInv(w, step);
  }

  lemma ReceiveActiveInv(w: World, r: StatusReply, o: WriteOutcome)
    requires Inv(w) && Enabled(w, ReceiveStatus(r, o)) && SaysActive(r) && Verdict(w.mem, r).Some?
    ensures Inv(Commit(w, Verdict(w.mem, r), o))
  {
    assert TruthfulStatus(w.env.server, r);
    ConfirmedOk(w.mem, w.env, r.graceUntil);
    CommitInv(w, Verdict(w.mem, r).value, o);
  }

  lemma ReceiveExpiredInv(w: World, r: StatusReply, o: WriteOutcome)
    requires Inv(w) && Enabled(w, ReceiveStatus(r, o)) && SaysExpired(r) && Verdict(w.mem, r).Some?
    ensures Inv(Commit(w, Verdict(w.mem, r), o))
  {
    assert TruthfulStatus(w.env.server, r);
    DiscardedOk(w.mem, w.env);
    CommitInv(w, Verdict(w.mem, r).value, o);
  }

  lemma ReceiveStatusInv(w: World, r: StatusReply, o: WriteOutcome)
    requires Inv(w) && Enabled(w, ReceiveStatus(r, o))
    ensures Inv(Next(w, ReceiveStatus(r, o)))
  {
    if Verdict(w.mem, r).Some? {
      if SaysActive(r) { ReceiveActiveInv(w, r, o); } else { ReceiveExpiredInv(w, r, o); }
    }
  }

  // ---------- whole runs ----------

  /** The world after a run of steps, if every step is enabled when taken. */
  function After(w: World, steps: seq<Step>): Option<World> {
    if steps == [] then Some(w)
    else
      var n := |steps| - 1;
      match After(w, steps[..n])
      case None => None
      case Some(v) => if Enabled(v, steps[n]) then Some(Next(v, steps[n])) else None
  }

  lemma {:induction false} RunInv(w: World, steps: seq<Step>)
    requires Init(w) && After(w, steps).Some?
    ensures Inv(After(w, steps).value)
  {
    if steps == [] {
      InitInv(w);
    } else {
      var n := |steps| - 1;
      RunInv(w, steps[..n]);
      StepInv(After(w, steps[..n]).value, steps[n]);
    }
  }

  /** Among the candidates a state offers, one is the server's active key, its private key is
      held at every time, and it is the key the server has on record; and an AUTH_OK naming that
      key passes the local check. */
  ghost predicate CanAuthenticate(s: FileState, sv: Server, now: int) {
    HasSigningKey(s, sv.activeKeyId, now) &&
    exists c :: c in AuthCandidates(s) && c.keyId == sv.activeKeyId &&
      var key := CandidateKey(s, c, now);
      key.Some? && KeyOf(key.value) == sv.activePub
  }

  lemma KnownIsUsable(s: FileState, sv: Server, now: int)
    requires Valid(s) && Identified(s) && Knows(s, sv) && sv.activeKeyId != ""
    ensures CanAuthenticate(s, sv, now)
  {
    var a, p := Witness(s);
    if s.currentKeyId == sv.activeKeyId && s.keys[a].publicKey == sv.activePub {
      IdIsUnique(s, s.currentKeyId);
      LookupIsMembership(s, s.currentKeyId, now);
      assert s.keys[a] in s.keys;
      assert Candidate(s.currentKeyId, false) in AuthCandidates(s);
    } else {
      assert Apart(s.keys[a], s.keys[p]);
      assert Candidate(sv.activeKeyId, true) in AuthCandidates(s);
    }
  }

  /** Never locked out: after any run, from memory and equally from the identity file. */
  lemma NeverLockedOut(w: World, steps: seq<Step>, now: int)
    requires Init(w) && After(w, steps).Some?
    ensures var v := After(w, steps).value;
            CanAuthenticate(v.mem, v.env.server, now) && CanAuthenticate(v.disk, v.env.server, now)
  {
    RunInv(w, steps);
    var v := After(w, steps).value;
    KnownIsUsable(v.mem, v.env.server, now);
    KnownIsUsable(v.disk, v.env.server, now);
  }

  /** No key stays usable for ever once rotated out: in every reachable state, in memory and in the file, each
      GRACE key has a positive deadline, and signs exactly until then. */
  lemma GraceAlwaysEnds(w: World, steps: seq<Step>, k: KeyRecord, t: int)
    requires Init(w) && After(w, steps).Some? && k.status == Grace
    ensures var v := After(w, steps).value;
            forall s | (s == v.mem || s == v.disk) && k in s.keys ::
              && k.graceUntil > 0
              && PrivateKeyById(s, k.keyId, t) == (if t < k.graceUntil then Some(k.privateKey) else None)
              && (HasSigningKey(s, k.keyId, t) <==> t < k.graceUntil)
  {
    RunInv(w, steps);
    var v := After(w, steps).value;
    forall s | (s == v.mem || s == v.disk) && k in s.keys
      ensures k.graceUntil > 0
      ensures PrivateKeyById(s, k.keyId, t) == if t < k.graceUntil then Some(k.privateKey) else None
      ensures HasSigningKey(s, k.keyId, t) <==> t < k.graceUntil
    {
      GraceKeyUsableExactlyUntilDeadline(s, k, t);
    }
  }

  // ---------- the rotation manager ----------

  /** What comes back from one signed HTTPS exchange: an error of transport or status, a body that cannot be
      decoded, or a reply.  `during` is what the server does meanwhile. */
  datatype Answer<R> = Lost | Garbled | Got(reply: R)
  datatype Exchange<R> = Exchange(during: seq<Step>, answer: Answer<R>)

  /** Everything the environment decides during one round of the manager. */
  datatype Script = Script(
    prepare: Exchange<PrepareReply>, confirm: Exchange<StatusReply>, query: Exchange<StatusReply>,
    begin: WriteOutcome, record: WriteOutcome, verdict: WriteOutcome, activate: WriteOutcome)

  /** How a call ends: with an error, without one but the rotation still open on the server, or with no
      rotation pending any more. */
  datatype Ending = Failure | StillOpen | Done

  /** Only replies the server has sent can be got. */
  function Heard<R(==)>(answer: Answer<R>, sent: set<R>): Answer<R> {
    if answer.Got? && answer.reply !in sent then Lost else answer
  }

  /** The world after the server's own activity while a request is outstanding. */
  function Served(w: World, during: seq<Step>): (w': World)
    ensures w'.mem == w.mem && w'.disk == w.disk && w'.env.sent == w.env.sent && w'.env.rotationIds == w.env.rotationIds
  {
    if during == [] then w
    else
      var n := |during| - 1;
      var v := Served(w, during[..n]);
      if ServerSide(during[n]) && Enabled(v, during[n]) then Next(v, during[n]) else v
  }

  predicate Concludes(p: PendingRotation, r: StatusReply) {
    ValidReply(p, r) && (SaysActive(r) || SaysExpired(r))
  }

  /** `activate` on a confirmed rotation. */
  function SwitchRun(w: World, x: Script): (World, Ending) {
    (Next(w, ActivateStep(x.activate)), if x.activate.Written? then Done else Failure)
  }

  /** The shared tail of `confirmOnce` and `query` for a validated ACTIVE or EXPIRED reply. */
  function ConcludeRun(w: World, r: StatusReply, x: Script): (World, Ending)
    requires Enabled(w, ReceiveStatus(r, x.verdict))
  {
    if SaysActive(r) && r.graceUntil <= 0 then (w, Failure)
    else
      var v := Next(w, ReceiveStatus(r, x.verdict));
      if !x.verdict.Written? then (v, Failure)
      else if SaysExpired(r) then (v, Done)
      else SwitchRun(v, x)
  }

  /** A rotation that may be confirmed or queried. */
  predicate Asked(w: World) { w.mem.pending.Some? ==> w.mem.pending.value.newKeyId != "" }

  function ConfirmRun(w: World, recovering: bool, x: Script): (World, Ending)
    requires Asked(w)
    decreases if recovering then 0 else 2
  {
    if w.mem.pending.None? then (w, Done)
    else
      var v := Served(Next(w, SendConfirm), x.confirm.during);
      match Heard(x.confirm.answer, v.statusReplies)
      case Lost => if recovering then (v, Failure) else QueryRun(v, true, x)
      case Garbled => (v, Failure)
      case Got(r) => if Concludes(v.mem.pending.value, r) then ConcludeRun(v, r, x) else (v, Failure)
  }

  function QueryRun(w: World, recovering: bool, x: Script): (World, Ending)
    requires Asked(w)
    decreases 1
  {
    if w.mem.pending.None? then (w, Done)
    else
      var v := Served(w, x.query.during);
      match Heard(x.query.answer, v.statusReplies)
      case Got(r) =>
        if !ValidReply(v.mem.pending.value, r) then (v, Failure)
        else if SaysActive(r) || SaysExpired(r) then ConcludeRun(v, r, x)
        else if recovering then (v, StillOpen)
        else ConfirmRun(v, true, x)
      case _ => (v, Failure)
  }

  function PrepareRun(w: World, x: Script): (World, Ending)
    requires w.mem.pending.Some?
  {
    var v := Served(Next(w, SendPrepare), x.prepare.during);
    match Heard(x.prepare.answer, v.prepareReplies)
    case Got(r) =>
      if !UsablePrepareReply(r) || v.mem.pending.value.rotationId != r.rotationId then (v, Failure)
      else
        var u := Next(v, ReceivePrepared(r, x.record));
        if !x.record.Written? then (u, Failure) else ConfirmRun(u, false, x)
    case _ => (v, Failure)
  }

  function RecoverRun(w: World, x: Script): (World, Ending) {
    if w.mem.pending.None? then (w, Done)
    else if w.mem.pending.value.confirmed then SwitchRun(w, x)
    else if w.mem.pending.value.newKeyId == "" then PrepareRun(w, x)
    else ConfirmRun(w, false, x)
  }

  function RotateRun(w: World, rotationId: string, seed: Seed, x: Script): (World, Ending)
    requires rotationId != "" && rotationId !in w.env.rotationIds && seed !in w.env.seeds
  {
    if w.mem.pending.Some? then RecoverRun(w, x)
    else
      var v := Next(w, BeginStep(rotationId, seed, x.begin));
      if !x.begin.Written? then (v, Failure) else PrepareRun(v, x)
  }

  ghost predicate Reachable(start: World, w: World) {
    exists steps :: After(start, steps) == Some(w)
  }

  /** A pending rotation is never given up before the server has settled it. */
  ghost predicate KeptOrSettled(w: World, w': World) {
    w.mem.pending.Some? ==>
      || (w'.mem.pending.Some? && w'.mem.pending.value.rotationId == w.mem.pending.value.rotationId)
      || Settled(w'.env.server, w.mem.pending.value.rotationId)
  }

  /** What a call promises whatever the environment does: every step it took is one of the world, no rotation is given up early, and an
      ending that tells the truth.  Done means that the server's active key is the current one. */
  ghost predicate Promised(start: World, w: World, w': World, e: Ending) {
    && Reachable(start, w') && Later(w.env.server, w'.env.server) && KeptOrSettled(w, w')
    && (e.Done? ==> w'.mem.pending.None? && w'.mem.currentKeyId == w'.env.server.activeKeyId)
    && (e.StillOpen? ==> w'.mem.pending.Some? && w'.mem.pending.value.newKeyId != "" && !w'.mem.pending.value.confirmed)
  }

  lemma NextLater(start: World, w: World, step: Step)
    requires Init(start) && Reachable(start, w) && Enabled(w, step)
    ensures Reachable(start, Next(w, step)) && Later(w.env.server, Next(w, step).env.server)
  {
    var steps :| After(start, steps) == Some(w);
    assert (steps + [step])[..|steps|] == steps;
    assert After(start, steps + [step]) == Some(Next(w, step));
    ServerOnlyGoesOn(w, step);
  }

  lemma ServerOnlyGoesOn(w: World, step: Step)
    requires Enabled(w, step)
    ensures Later(w.env.server, Next(w, step).env.server)
  {
  }

  lemma ReachableInv(start: World, w: World)
    requires Init(start) && Reachable(start, w)
    ensures Inv(w)
  {
    var steps :| After(start, steps) == Some(w);
    RunInv(start, steps);
  }

  /** With no rotation pending the current key is the one the server accepts. */
  lemma IdleIsInStep(start: World, w: World)
    requires Init(start) && Reachable(start, w) && w.mem.pending.None?
    ensures w.mem.currentKeyId == w.env.server.activeKeyId
  {
    ReachableInv(start, w);
  }

  lemma {:induction false} ServedOk(start: World, w: World, during: seq<Step>)
    requires Init(start) && Reachable(start, w)
    ensures Reachable(start, Served(w, during)) && Later(w.env.server, Served(w, during).env.server)
  {
    if during != [] {
      var n := |during| - 1;
      ServedOk(start, w, during[..n]);
      var v := Served(w, during[..n]);
      if ServerSide(during[n]) && Enabled(v, during[n]) { NextLater(start, v, during[n]); }
    }
  }

  /** Promises compose as long as the first part has not settled anything locally. */
  lemma PromisedOn(start: World, w: World, v: World, w': World, e: Ending)
    requires Later(w.env.server, v.env.server) && Promised(start, v, w', e)
    requires w.mem.pending.Some? ==> v.mem.pending.Some? && v.mem.pending.value.rotationId == w.mem.pending.value.rotationId
    ensures Promised(start, w, w', e)
  {
  }

  lemma ConfirmedIsSettled(start: World, w: World)
    requires Init(start) && Reachable(start, w) && w.mem.pending.Some? && w.mem.pending.value.confirmed
    ensures Settled(w.env.server, w.mem.pending.value.rotationId)
    ensures Activate(w.mem).Some? && Activate(w.mem).value.pending.None?
  {
    ReachableInv(start, w);
    var _, _ := ActivateKeeps(w.mem);
  }

  lemma VerdictIsSettled(start: World, w: World, r: StatusReply)
    requires Init(start) && Reachable(start, w) && w.mem.pending.Some? && !w.mem.pending.value.confirmed && w.mem.pending.value.newKeyId != ""
    requires r in w.statusReplies && ValidReply(w.mem.pending.value, r)
    ensures SaysActive(r) && r.graceUntil > 0 ==> Verdict(w.mem, r) == MarkConfirmed(w.mem, r.graceUntil)
    ensures SaysExpired(r) ==>
              && Verdict(w.mem, r).Some? && Verdict(w.mem, r).value.pending.None?
              && Settled(w.env.server, w.mem.pending.value.rotationId)
  {
    ReplyIsTruthful(start, w, r);
    DiscardKeeps(w.mem);
  }

  lemma ReplyIsTruthful(start: World, w: World, r: StatusReply)
    requires Init(start) && Reachable(start, w) && r in w.statusReplies
    ensures Valid(w.mem) && TruthfulStatus(w.env.server, r) && r.rotationId in w.env.server.rotations
    ensures w.mem.pending.Some? && w.mem.pending.value.newKeyId != "" && w.mem.pending.value.rotationId == r.rotationId ==>
              w.env.server.rotations[r.rotationId].keyId == w.mem.pending.value.newKeyId
    ensures w.mem.pending.Some? && w.mem.pending.value.newKeyId != "" && w.mem.pending.value.rotationId == r.rotationId ==>
              w.env.server.rotations[r.rotationId].pub == w.mem.pending.value.newPublicKey
  {
    ReachableInv(start, w);
  }

  lemma SwitchOk(start: World, w: World, x: Script)
    requires Init(start) && Reachable(start, w) && w.mem.pending.Some? && w.mem.pending.value.confirmed
    ensures Promised(start, w, SwitchRun(w, x).0, SwitchRun(w, x).1)
  {
    NextLater(start, w, ActivateStep(x.activate));
    ConfirmedIsSettled(start, w);
    if x.activate.Written? { IdleIsInStep(start, Next(w, ActivateStep(x.activate))); }
  }

  lemma ConcludeOk(start: World, w: World, r: StatusReply, x: Script)
    requires Init(start) && Reachable(start, w) && w.mem.pending.Some? && !w.mem.pending.value.confirmed && w.mem.pending.value.newKeyId != ""
    requires r in w.statusReplies && Concludes(w.mem.pending.value, r)
    ensures Promised(start, w, ConcludeRun(w, r, x).0, ConcludeRun(w, r, x).1)
  {
    if !(SaysActive(r) && r.graceUntil <= 0) {
      var v := Next(w, ReceiveStatus(r, x.verdict));
      NextLater(start, w, ReceiveStatus(r, x.verdict));
      VerdictIsSettled(start, w, r);
      if x.verdict.Written? {
        assert v.mem == Verdict(w.mem, r).value;
        if SaysActive(r) {
          SwitchOk(start, v, x);
          PromisedOn(start, w, v, SwitchRun(v, x).0, SwitchRun(v, x).1);
        } else {
          IdleIsInStep(start, v);
        }
      }
    }
  }

  /** Asking the server leaves the node alone. */
  lemma AskOk(start: World, w: World, step: Step, during: seq<Step>)
    requires Init(start) && Reachable(start, w) && Enabled(w, step) && (step.SendPrepare? || step.SendConfirm?)
    ensures var v := Served(Next(w, step), during);
            Reachable(start, v) && Later(w.env.server, v.env.server) && v.mem == w.mem
  {
    NextLater(start, w, step);
    ServedOk(start, Next(w, step), during);
  }

  lemma ConfirmOk(start: World, w: World, recovering: bool, x: Script)
    requires Init(start) && Reachable(start, w) && Asked(w) && (w.mem.pending.Some? ==> !w.mem.pending.value.confirmed)
    ensures Promised(start, w, ConfirmRun(w, recovering, x).0, ConfirmRun(w, recovering, x).1)
    decreases if recovering then 0 else 2
  {
    if w.mem.pending.None? {
      IdleIsInStep(start, w);
    } else {
      AskOk(start, w, SendConfirm, x.confirm.during);
      var v := Served(Next(w, SendConfirm), x.confirm.during);
      match Heard(x.confirm.answer, v.statusReplies)
      case Lost =>
        if !recovering {
          QueryOk(start, v, true, x);
          PromisedOn(start, w, v, QueryRun(v, true, x).0, QueryRun(v, true, x).1);
        }
      case Garbled =>
      case Got(r) =>
        if Concludes(v.mem.pending.value, r) {
          ConcludeOk(start, v, r, x);
          PromisedOn(start, w, v, ConcludeRun(v, r, x).0, ConcludeRun(v, r, x).1);
        }
    }
  }

  lemma QueryOk(start: World, w: World, recovering: bool, x: Script)
    requires Init(start) && Reachable(start, w) && Asked(w) && (w.mem.pending.Some? ==> !w.mem.pending.value.confirmed)
    ensures Promised(start, w, QueryRun(w, recovering, x).0, QueryRun(w, recovering, x).1)
    decreases 1
  {
    if w.mem.pending.None? {
      IdleIsInStep(start, w);
    } else {
      ServedOk(start, w, x.query.during);
      var v := Served(w, x.query.during);
      match Heard(x.query.answer, v.statusReplies)
      case Got(r) =>
        if Concludes(v.mem.pending.value, r) {
          ConcludeOk(start, v, r, x);
          PromisedOn(start, w, v, ConcludeRun(v, r, x).0, ConcludeRun(v, r, x).1);
        } else if ValidReply(v.mem.pending.value, r) && !recovering {
          ConfirmOk(start, v, true, x);
          PromisedOn(start, w, v, ConfirmRun(v, true, x).0, ConfirmRun(v, true, x).1);
        }
      case _ =>
    }
  }

  lemma PrepareOk(start: World, w: World, x: Script)
    requires Init(start) && Reachable(start, w) && w.mem.pending.Some? && !w.mem.pending.value.confirmed
    ensures Promised(start, w, PrepareRun(w, x).0, PrepareRun(w, x).1)
  {
    AskOk(start, w, SendPrepare, x.prepare.during);
    var v := Served(Next(w, SendPrepare), x.prepare.during);
    match Heard(x.prepare.answer, v.prepareReplies)
    case Got(r) =>
      if UsablePrepareReply(r) && v.mem.pending.value.rotationId == r.rotationId {
        var u := Next(v, ReceivePrepared(r, x.record));
        NextLater(start, v, ReceivePrepared(r, x.record));
        if x.record.Written? {
          ConfirmOk(start, u, false, x);
          PromisedOn(start, w, u, ConfirmRun(u, false, x).0, ConfirmRun(u, false, x).1);
        }
      }
    case _ =>
  }

  /** Recovering from any state left behind keeps every promise. */
  lemma RecoverOk(start: World, w: World, x: Script)
    requires Init(start) && Reachable(start, w)
    ensures Promised(start, w, RecoverRun(w, x).0, RecoverRun(w, x).1)
  {
    if w.mem.pending.None? {
      IdleIsInStep(start, w);
    } else {
      if w.mem.pending.value.confirmed {
        SwitchOk(start, w, x);
      } else if w.mem.pending.value.newKeyId == "" {
        PrepareOk(start, w, x);
      } else {
        ConfirmOk(start, w, false, x);
      }
    }
  }

  lemma RotateOk(start: World, w: World, rotationId: string, seed: Seed, x: Script)
    requires Init(start) && Reachable(start, w) && rotationId != "" && rotationId !in w.env.rotationIds && seed !in w.env.seeds
    ensures Promised(start, w, RotateRun(w, rotationId, seed, x).0, RotateRun(w, rotationId, seed, x).1)
  {
    if w.mem.pending.Some? {
      RecoverOk(start, w, x);
    } else {
      var v := Next(w, BeginStep(rotationId, seed, x.begin));
      NextLater(start, w, BeginStep(rotationId, seed, x.begin));
      if x.begin.Written? {
        PrepareOk(start, v, x);
        PromisedOn(start, w, v, PrepareRun(v, x).0, PrepareRun(v, x).1);
      }
    }
  }

  // ---------- rounds that complete ----------

  /** How a server goes along with a rotation: the id and nonce it assigns, the deadlines it sets, whether its answer to the
      confirm gets lost so that the node has to ask, and whether it repeats nonce and deadline in its status. */
  datatype Terms = Terms(keyId: string, nonce: string, expiresAt: int, graceUntil: int, lost: bool, echo: bool)

  function ActiveReply(rotationId: string, pub: PublicKey, t: Terms): StatusReply {
    StatusReply(rotationId, t.keyId, Some(Activated), false, pub, if t.echo then t.nonce else "",
                if t.echo then t.expiresAt else 0, t.graceUntil)
  }

  /** The server prepares and confirms, unless it already has; all writes succeed. */
  function Cooperation(rotationId: string, pub: PublicKey, t: Terms): Script {
    var prepared := PrepareReply(rotationId, t.keyId, t.nonce, t.expiresAt);
    var active := ActiveReply(rotationId, pub, t);
    Script(Exchange([ServerPrepare(rotationId, t.keyId), ServerAnswerPrepare(prepared)], Got(prepared)),
           Exchange([ServerConfirm(rotationId), ServerAnswerStatus(active)], if t.lost then Lost else Got(active)),
           Exchange([], Got(active)),
           Written, Written, Written, Written)
  }

  /** The server can go along on these terms: the rotation is new to it or not expired, under the id it has there. */
  ghost predicate GoesAlong(sv: Server, p: PendingRotation, t: Terms) {
    && t.keyId != "" && t.nonce != "" && t.graceUntil > 0
    && (if p.rotationId in sv.rotations then sv.rotations[p.rotationId].keyId == t.keyId && sv.rotations[p.rotationId].status != Expired
        else p.newKeyId == "" && t.keyId !in sv.usedIds)
    && (p.newKeyId != "" ==> p.newKeyId == t.keyId && (t.echo ==> t.nonce == p.confirmNonce && t.expiresAt == p.expiresAt))
  }

  /** The rotation is over: the new key is current here and active there. */
  ghost predicate Completed(w: World, e: Ending, keyId: string) {
    e == Done && w.mem.pending == None && w.mem.currentKeyId == keyId && w.env.server.activeKeyId == keyId
  }

  lemma ServedTwo(w: World, a: Step, b: Step)
    requires ServerSide(a) && ServerSide(b)
    ensures Enabled(w, a) && Enabled(Next(w, a), b) ==> Served(w, [a, b]) == Next(Next(w, a), b)
    ensures !Enabled(w, a) && Enabled(w, b) ==> Served(w, [a, b]) == Next(w, b)
  {
    assert [a, b][..1] == [a] && [a][..0] == [];
    assert Served(w, []) == w;
    assert Served(w, [a]) == if Enabled(w, a) then Next(w, a) else w;
  }

  /** The confirming half: the prepared key becomes current, even if the server's answer got lost. */
  lemma CooperativeConfirm(w: World, p: PendingRotation, t: Terms)
    requires w.mem.pending == Some(p) && !p.confirmed && p.newKeyId != "" && p.rotationId != "" && p.newPublicKey != NoKey
    requires p.rotationId in w.env.server.rotations && GoesAlong(w.env.server, p, t) && Switches(w.mem, t.graceUntil)
    requires InState(w.env.server, p.rotationId, Activated) ==> w.env.server.activeKeyId == t.keyId
    ensures var (w', e) := ConfirmRun(w, false, Cooperation(p.rotationId, p.newPublicKey, t));
            Completed(w', e, t.keyId)
  {
    var x := Cooperation(p.rotationId, p.newPublicKey, t);
    var r := ActiveReply(p.rotationId, p.newPublicKey, t);
    var v := ServerConfirms(w, r, x.confirm.during);
    assert Concludes(p, r) && Served(v, []) == v;
    CooperativeConclude(v, r, x);
    assert ConfirmRun(w, false, x) == ConcludeRun(v, r, x);
  }

  lemma ServerConfirms(w: World, r: StatusReply, during: seq<Step>) returns (v: World)
    requires w.mem.pending.Some? && w.mem.pending.value.rotationId == r.rotationId && w.mem.pending.value.newKeyId != ""
    requires r.rotationId in w.env.server.rotations && w.env.server.rotations[r.rotationId].status != Expired
    requires InState(w.env.server, r.rotationId, Activated) ==>
               w.env.server.activeKeyId == w.env.server.rotations[r.rotationId].keyId
    requires r.status == Some(Activated) && during == [ServerConfirm(r.rotationId), ServerAnswerStatus(r)]
    ensures v == Served(Next(w, SendConfirm), during) && v.mem == w.mem && r in v.statusReplies
    ensures v.env.server.activeKeyId == w.env.server.rotations[r.rotationId].keyId
  {
    var u := Next(w, SendConfirm);
    ServedTwo(u, ServerConfirm(r.rotationId), ServerAnswerStatus(r));
    v := Served(u, during);
  }

  ghost predicate Switches(st: FileState, graceUntil: int)
    requires st.pending.Some?
  {
    var next := Activate(MarkConfirmed(st, graceUntil).value);
    next.Some? && next.value.pending.None? && next.value.currentKeyId == st.pending.value.newKeyId
  }

  lemma ValidSwitches(st: FileState, graceUntil: int)
    requires Valid(st) && st.pending.Some?
    ensures Switches(st, graceUntil)
  {
    ConfirmKeeps(st, graceUntil);
    ActivateSwitches(MarkConfirmed(st, graceUntil).value);
  }

  lemma CooperativeConclude(w: World, r: StatusReply, x: Script)
    requires w.mem.pending.Some? && w.mem.pending.value.newKeyId != ""
    requires r in w.statusReplies && Concludes(w.mem.pending.value, r) && SaysActive(r) && r.graceUntil > 0
    requires x.verdict.Written? && x.activate.Written? && Switches(w.mem, r.graceUntil)
    ensures var (w', e) := ConcludeRun(w, r, x);
            e.Done? && w'.env == w.env && w'.mem.pending.None? && w'.mem.currentKeyId == w.mem.pending.value.newKeyId
  {
    var v := Next(w, ReceiveStatus(r, x.verdict));
    assert v.mem == MarkConfirmed(w.mem, r.graceUntil).value;
    assert ConcludeRun(w, r, x) == SwitchRun(v, x);
  }

  lemma ReachableFacts(start: World, w: World)
    requires Init(start) && Reachable(start, w)
    ensures Valid(w.mem) && forall r | r in w.env.server.rotations :: r in w.env.rotationIds
    ensures w.mem.pending.Some? ==>
              var p := w.mem.pending.value;
              && p.rotationId != "" && p.newPublicKey != NoKey
              && (InState(w.env.server, p.rotationId, Activated) ==>
                    w.env.server.activeKeyId == w.env.server.rotations[p.rotationId].keyId)
              && (p.newKeyId != "" ==> p.rotationId in w.env.server.rotations)
  {
    ReachableInv(start, w);
  }

  /** A round completes: from every reachable state without a pending rotation, when the server goes along and
      the writes succeed, the new key ends up current here and active there, even if the answer to
      the confirm gets lost. */
  lemma CooperativeRoundCompletes(start: World, w: World, rotationId: string, seed: Seed, t: Terms)
    requires Init(start) && Reachable(start, w) && w.mem.pending.None?
    requires rotationId != "" && rotationId !in w.env.rotationIds && seed !in w.env.seeds
    requires t.keyId != "" && t.keyId !in w.env.server.usedIds && t.nonce != "" && t.graceUntil > 0
    ensures var (w', e) := RotateRun(w, rotationId, seed, Cooperation(rotationId, KeyOf(seed), t));
            Completed(w', e, t.keyId)
  {
    var x := Cooperation(rotationId, KeyOf(seed), t);
    var v := Next(w, BeginStep(rotationId, seed, Written));
    NextLater(start, w, BeginStep(rotationId, seed, Written));
    ReachableFacts(start, w);
    CooperativePrepare(start, v, NewPending(rotationId, seed), t);
    assert RotateRun(w, rotationId, seed, x) == PrepareRun(v, x);
  }

  lemma CooperativePrepare(start: World, w: World, p: PendingRotation, t: Terms)
    requires Init(start) && Reachable(start, w) && w.mem.pending == Some(p) && p.newKeyId == "" && !p.confirmed
    requires GoesAlong(w.env.server, p, t)
    ensures var (w', e) := PrepareRun(w, Cooperation(p.rotationId, p.newPublicKey, t));
            Completed(w', e, t.keyId)
  {
    var x := Cooperation(p.rotationId, p.newPublicKey, t);
    var r := PrepareReply(p.rotationId, t.keyId, t.nonce, t.expiresAt);
    ReachableFacts(start, w);
    var v, z := ServerPrepares(w, x, r, p);
    AskOk(start, w, SendPrepare, x.prepare.during);
    NextLater(start, v, ReceivePrepared(r, Written));
    ReachableFacts(start, z);
    ValidSwitches(z.mem, t.graceUntil);
    CooperativeConfirm(z, z.mem.pending.value, t);
  }

  lemma ServerPrepares(w: World, x: Script, r: PrepareReply, p: PendingRotation) returns (v: World, z: World)
    requires w.mem.pending == Some(p) && p.rotationId == r.rotationId && UsablePrepareReply(r)
    requires if r.rotationId in w.env.server.rotations then w.env.server.rotations[r.rotationId].keyId == r.keyId
             else r.keyId !in w.env.server.usedIds
    requires x.prepare == Exchange([ServerPrepare(r.rotationId, r.keyId), ServerAnswerPrepare(r)], Got(r)) && x.record.Written?
    ensures v == Served(Next(w, SendPrepare), x.prepare.during)
    ensures Enabled(v, ReceivePrepared(r, Written)) && z == Next(v, ReceivePrepared(r, Written))
    ensures z.mem.pending == Some(p.(newKeyId := r.keyId, confirmNonce := r.nonce, expiresAt := r.expiresAt))
    ensures r.rotationId in z.env.server.rotations && z.env.server.rotations[r.rotationId].keyId == r.keyId
    ensures z.env.server.rotations[r.rotationId].status ==
              if r.rotationId in w.env.server.rotations then w.env.server.rotations[r.rotationId].status else InProgress
    ensures PrepareRun(w, x) == ConfirmRun(z, false, x)
  {
    var u := Next(w, SendPrepare);
    ServedTwo(u, ServerPrepare(r.rotationId, r.keyId), ServerAnswerPrepare(r));
    v := Served(u, x.prepare.during);
    z := Next(v, ReceivePrepared(r, Written));
  }

  // ---------- recovery ----------

  /** Recovering a rotation that was confirmed before a crash: one successful write makes its key current. */
  lemma RecoverConfirmed(start: World, w: World, x: Script)
    requires Init(start) && Reachable(start, w) && w.mem.pending.Some? && w.mem.pending.value.confirmed && x.activate.Written?
    ensures var (w', e) := RecoverRun(w, x);
            e == Done && w'.mem.pending == None && w'.mem.currentKeyId == w.mem.pending.value.newKeyId && w'.env == w.env
  {
    ReachableFacts(start, w);
    ActivateSwitches(w.mem);
  }

  /** Recovering any other rotation, with its id recorded or not: it completes with a server that goes along. */
  lemma RecoverCompletes(start: World, w: World, t: Terms)
    requires Init(start) && Reachable(start, w) && w.mem.pending.Some? && !w.mem.pending.value.confirmed
    requires GoesAlong(w.env.server, w.mem.pending.value, t)
    ensures var p := w.mem.pending.value;
            var (w', e) := RecoverRun(w, Cooperation(p.rotationId, p.newPublicKey, t));
            Completed(w', e, t.keyId)
  {
    var p := w.mem.pending.value;
    if p.newKeyId == "" {
      CooperativePrepare(start, w, p, t);
    } else {
      ReachableFacts(start, w);
      ValidSwitches(w.mem, t.graceUntil);
      CooperativeConfirm(w, p, t);
    }
  }

  lemma ConcludeSendsNoPrepare(w: World, r: StatusReply, x: Script)
    requires Enabled(w, ReceiveStatus(r, x.verdict))
    ensures ConcludeRun(w, r, x).0.env == w.env
  {
  }

  lemma ConfirmSendsNoPrepare(w: World, recovering: bool, x: Script)
    requires Asked(w)
    ensures ConfirmRun(w, recovering, x).0.env.sent == w.env.sent
    decreases if recovering then 0 else 2
  {
    if w.mem.pending.Some? {
      var v := Served(Next(w, SendConfirm), x.confirm.during);
      match Heard(x.confirm.answer, v.statusReplies)
      case Lost => if !recovering { QuerySendsNoPrepare(v, true, x); }
      case Garbled =>
      case Got(r) => if Concludes(v.mem.pending.value, r) { ConcludeSendsNoPrepare(v, r, x); }
    }
  }

  lemma QuerySendsNoPrepare(w: World, recovering: bool, x: Script)
    requires Asked(w)
    ensures QueryRun(w, recovering, x).0.env.sent == w.env.sent
    decreases 1
  {
    if w.mem.pending.Some? {
      var v := Served(w, x.query.during);
      match Heard(x.query.answer, v.statusReplies)
      case Got(r) =>
        if Concludes(v.mem.pending.value, r) {
          ConcludeSendsNoPrepare(v, r, x);
        } else if ValidReply(v.mem.pending.value, r) && !recovering {
          ConfirmSendsNoPrepare(v, true, x);
        }
      case _ =>
    }
  }

  lemma PrepareSendsOne(w: World, x: Script)
    requires w.mem.pending.Some?
    ensures var p := w.mem.pending.value;
            PrepareRun(w, x).0.env.sent == w.env.sent[p.rotationId := p.newPublicKey]
  {
    var v := Served(Next(w, SendPrepare), x.prepare.during);
    match Heard(x.prepare.answer, v.prepareReplies)
    case Got(r) =>
      if UsablePrepareReply(r) && v.mem.pending.value.rotationId == r.rotationId && x.record.Written? {
        ConfirmSendsNoPrepare(Next(v, ReceivePrepared(r, x.record)), false, x);
      }
    case _ =>
  }

  /** Recovery prepares again exactly if no id is recorded, and always for the same rotation and key. */
  lemma RecoverPreparesIff(w: World, x: Script)
    requires w.mem.pending.Some?
    ensures var p := w.mem.pending.value;
            RecoverRun(w, x).0.env.sent ==
              if !p.confirmed && p.newKeyId == "" then w.env.sent[p.rotationId := p.newPublicKey] else w.env.sent
  {
    if !w.mem.pending.value.confirmed {
      if w.mem.pending.value.newKeyId == "" { PrepareSendsOne(w, x); } else { ConfirmSendsNoPrepare(w, false, x); }
    }
  }

  /** An answer that belongs to another rotation, or says neither ACTIVE nor EXPIRED in so many letters, changes nothing. */
  lemma ConfirmRejected(w: World, x: Script, r: StatusReply)
    requires w.mem.pending.Some? && w.mem.pending.value.newKeyId != "" && x.confirm.answer == Got(r)
    requires r in Served(Next(w, SendConfirm), x.confirm.during).statusReplies
    requires !ValidReply(w.mem.pending.value, r) || r.status == Some(InProgress) || r.padded
    ensures var (w', e) := ConfirmRun(w, false, x);
            e == Failure && w'.mem == w.mem && w'.disk == w.disk
  {
  }

  /** An EXPIRED answer drops the rotation and keeps the current key. */
  lemma ConfirmExpired(start: World, w: World, x: Script, r: StatusReply)
    requires Init(start) && Reachable(start, w) && w.mem.pending.Some? && w.mem.pending.value.newKeyId != ""
    requires !w.mem.pending.value.confirmed && x.confirm.answer == Got(r) && x.verdict.Written?
    requires r in Served(Next(w, SendConfirm), x.confirm.during).statusReplies
    requires ValidReply(w.mem.pending.value, r) && r.status == Some(Expired) && !r.padded
    ensures var (w', e) := ConfirmRun(w, false, x);
            e == Done && w'.mem.pending == None && w'.mem.currentKeyId == w.mem.currentKeyId
  {
    var v := Served(Next(w, SendConfirm), x.confirm.during);
    ReachableFacts(start, w);
    VerdictMeans(v.mem, r);
    assert ConfirmRun(w, false, x) == ConcludeRun(v, r, x);
    assert ConcludeRun(v, r, x) == (Next(v, ReceiveStatus(r, x.verdict)), Done);
  }

  /** An answer that cannot be read changes nothing; one that got lost is settled by asking, and a rotation the server then
      reports open stays open. */
  lemma ConfirmUnanswered(w: World, x: Script)
    requires w.mem.pending.Some? && w.mem.pending.value.newKeyId != ""
    ensures var p := w.mem.pending.value;
            var v := Served(Next(w, SendConfirm), x.confirm.during);
            var (w', e) := ConfirmRun(w, false, x);
            && (x.confirm.answer.Garbled? ==> e == Failure && w'.mem == w.mem && w'.disk == w.disk)
            && (x.confirm.answer.Lost? && !x.query.answer.Got? ==> e == Failure && w'.mem == w.mem && w'.disk == w.disk)
            && (x.confirm.answer.Lost? && x.query.answer.Got? ==>
                  var q := x.query.answer.reply;
                  q in Served(v, x.query.during).statusReplies && ValidReply(p, q) && q.status == Some(InProgress) ==>
                    e == StillOpen && w'.mem == w.mem && w'.disk == w.disk)
  {
  }

  /** A prepare without a usable answer for this rotation records nothing. */
  lemma PrepareRefused(w: World, x: Script)
    requires w.mem.pending.Some?
    requires x.prepare.answer.Got? ==>
               var r := x.prepare.answer.reply;
               r.rotationId == "" || r.keyId == "" || r.nonce == "" || r.rotationId != w.mem.pending.value.rotationId
    ensures var (w', e) := PrepareRun(w, x);
            e == Failure && w'.mem == w.mem && w'.disk == w.disk
  {
  }

  lemma RecoverFacts(start: World, w: World, x: Script)
    requires Init(start) && Reachable(start, w)
    ensures w.mem.pending.Some? && w.mem.pending.value.confirmed && x.activate.Written? ==>
              var (w', e) := RecoverRun(w, x);
              e == Done && w'.mem.pending == None && w'.mem.currentKeyId == w.mem.pending.value.newKeyId
    ensures w.mem.pending.Some? && !w.mem.pending.value.confirmed ==>
              var p := w.mem.pending.value;
              forall t: Terms | GoesAlong(w.env.server, p, t) && x == Cooperation(p.rotationId, p.newPublicKey, t) ::
                Completed(RecoverRun(w, x).0, RecoverRun(w, x).1, t.keyId)
    ensures w.mem.pending.Some? ==>
              var p := w.mem.pending.value;
              RecoverRun(w, x).0.env.sent ==
                if !p.confirmed && p.newKeyId == "" then w.env.sent[p.rotationId := p.newPublicKey] else w.env.sent
  {
    if w.mem.pending.Some? {
      var p := w.mem.pending.value;
      RecoverPreparesIff(w, x);
      if p.confirmed {
        if x.activate.Written? { RecoverConfirmed(start, w, x); }
      } else {
        forall t: Terms | GoesAlong(w.env.server, p, t) && x == Cooperation(p.rotationId, p.newPublicKey, t)
          ensures Completed(RecoverRun(w, x).0, RecoverRun(w, x).1, t.keyId)
        {
          RecoverCompletes(start, w, t);
        }
      }
    }
  }

  lemma RotateFacts(start: World, w: World, rotationId: string, seed: Seed, x: Script)
    requires Init(start) && Reachable(start, w) && w.mem.pending.None?
    requires rotationId != "" && rotationId !in w.env.rotationIds && seed !in w.env.seeds
    ensures forall t: Terms | t.keyId != "" && t.keyId !in w.env.server.usedIds && t.nonce != "" && t.graceUntil > 0 &&
                       x == Cooperation(rotationId, KeyOf(seed), t) ::
              Completed(RotateRun(w, rotationId, seed, x).0, RotateRun(w, rotationId, seed, x).1, t.keyId)
  {
    forall t: Terms | t.keyId != "" && t.keyId !in w.env.server.usedIds && t.nonce != "" && t.graceUntil > 0 &&
               x == Cooperation(rotationId, KeyOf(seed), t)
      ensures Completed(RotateRun(w, rotationId, seed, x).0, RotateRun(w, rotationId, seed, x).1, t.keyId)
    {
      CooperativeRoundCompletes(start, w, rotationId, seed, t);
    }
  }

  // ---------- which replies count ----------

  /** A status reply is turned down exactly for one of these: no known status, another rotation, another key id, public
      key, nonce or deadline than recorded, or an ACTIVE that does not name the recorded key in full. */
  lemma RejectedIff(p: PendingRotation, r: StatusReply)
    ensures !ValidReply(p, r) <==>
              || r.status == None || r.rotationId == "" || r.rotationId != p.rotationId
              || (r.keyId != "" && p.newKeyId != "" && r.keyId != p.newKeyId)
              || (r.pub != NoKey && r.pub != p.newPublicKey)
              || (r.nonce != "" && p.confirmNonce != "" && r.nonce != p.confirmNonce)
              || (r.expiresAt > 0 && p.expiresAt > 0 && r.expiresAt != p.expiresAt)
              || (r.status == Some(Activated) && (p.newKeyId == "" || r.keyId != p.newKeyId || r.pub == NoKey))
  {
  }

  /** What an accepted reply asks for: an unpadded ACTIVE with a grace deadline confirms, an unpadded EXPIRED discards an
      unconfirmed rotation, anything else changes nothing. */
  lemma VerdictMeans(st: FileState, r: StatusReply)
    requires Valid(st) && st.pending.Some? && ValidReply(st.pending.value, r)
    ensures var p := st.pending.value;
            if r.padded then Verdict(st, r) == None
            else match r.status.value
                 case InProgress => Verdict(st, r) == None
                 case Activated =>
                   Verdict(st, r) == if r.graceUntil > 0
                                     then Some(st.(pending := Some(p.(confirmed := true, graceUntil := r.graceUntil)))) else None
                 case Expired =>
                   && (Verdict(st, r).Some? <==> !p.confirmed)
                   && (Verdict(st, r).Some? ==>
                         Verdict(st, r).value.pending == None && Verdict(st, r).value.currentKeyId == st.currentKeyId)
  {
    DiscardKeeps(st);
  }

  /** The manager's control flow over the world it is part of. */
  class Manager {
    var w: World
    ghost const start: World

    ghost predicate Valid()
      reads this
    {
      Init(start) && Reachable(start, w)
    }

    constructor (w: World)
      requires Init(w)
      ensures Valid() && this.w == w
    {
      this.w, start := w, w;
      new;
      assert After(w, []) == Some(w);
    }

    method Take(step: Step)
      requires Enabled(w, step)
      modifies this
      ensures w == Next(old(w), step)
    {
      w := Next(w, step);
    }

    /** The server's own activity while a request is outstanding. */
    method Serve(during: seq<Step>)
      modifies this
      ensures w == Served(old(w), during)
    {
      for i := 0 to |during|
        invariant w == Served(old(w), during[..i])
      {
        assert during[..i + 1][..i] == during[..i];
        if ServerSide(during[i]) && Enabled(w, during[i]) { Take(during[i]); }
      }
      assert during[..|during|] == during;
    }

    /** `activate`. */
    method SwitchKey(x: Script) returns (e: Ending)
      modifies this
      ensures (w, e) == SwitchRun(old(w), x)
      ensures e.Done? <==> x.activate.Written?
    {
      Take(ActivateStep(x.activate));
      e := if x.activate.Written? then Done else Failure;
    }

    method Conclude(r: StatusReply, x: Script) returns (e: Ending)
      requires Enabled(w, ReceiveStatus(r, x.verdict))
      modifies this
      ensures (w, e) == ConcludeRun(old(w), r, x)
      ensures SaysActive(r) || SaysExpired(r) ==>
                (e.Done? <==> x.verdict.Written? && (SaysExpired(r) || (r.graceUntil > 0 && x.activate.Written?)))
    {
      if SaysActive(r) && r.graceUntil <= 0 { return Failure; }
      Take(ReceiveStatus(r, x.verdict));
      if !x.verdict.Written? { return Failure; }
      if SaysExpired(r) { return Done; }
      e := SwitchKey(x);
    }

    method ConfirmOnce(recovering: bool, x: Script) returns (e: Ending)
      requires Asked(w)
      modifies this
      ensures (w, e) == ConfirmRun(old(w), recovering, x)
      decreases if recovering then 0 else 2
    {
      if w.mem.pending.None? { return Done; }
      Take(SendConfirm);
      Serve(x.confirm.during);
      var answer := Heard(x.confirm.answer, w.statusReplies);
      if answer.Lost? {
        if recovering { return Failure; }
        e := Query(true, x);
        return;
      }
      if answer.Garbled? { return Failure; }
      if !Concludes(w.mem.pending.value, answer.reply) { return Failure; }
      e := Conclude(answer.reply, x);
    }

    method Query(recovering: bool, x: Script) returns (e: Ending)
      requires Asked(w)
      modifies this
      ensures (w, e) == QueryRun(old(w), recovering, x)
      decreases 1
    {
      if w.mem.pending.None? { return Done; }
      Serve(x.query.during);
      var answer := Heard(x.query.answer, w.statusReplies);
      if !answer.Got? { return Failure; }
      if !ValidReply(w.mem.pending.value, answer.reply) { return Failure; }
      if SaysActive(answer.reply) || SaysExpired(answer.reply) {
        e := Conclude(answer.reply, x);
      } else if recovering {
        e := StillOpen;
      } else {
        e := ConfirmOnce(true, x);
      }
    }

    method Prepare(x: Script) returns (e: Ending)
      requires w.mem.pending.Some?
      modifies this
      ensures (w, e) == PrepareRun(old(w), x)
    {
      Take(SendPrepare);
      Serve(x.prepare.during);
      var answer := Heard(x.prepare.answer, w.prepareReplies);
      if !answer.Got? || !UsablePrepareReply(answer.reply) { return Failure; }
      var known := w.mem.pending.value.rotationId == answer.reply.rotationId;
      if !known { return Failure; }
      Take(ReceivePrepared(answer.reply, x.record));
      if !x.record.Written? { return Failure; }
      e := ConfirmOnce(false, x);
    }

    /** `Recover`: finishing whatever an earlier run left. */
    method Recover(x: Script) returns (e: Ending)
      requires Valid()
      modifies this
      ensures (w, e) == RecoverRun(old(w), x)
      ensures Valid() && Promised(start, old(w), w, e)
      ensures old(w).mem.pending.None? ==> e == Done && w == old(w)
      ensures old(w).mem.pending.Some? && old(w).mem.pending.value.confirmed && x.activate.Written? ==>
                e == Done && w.mem.pending == None && w.mem.currentKeyId == old(w).mem.pending.value.newKeyId
      ensures old(w).mem.pending.Some? && !old(w).mem.pending.value.confirmed ==>
                var p := old(w).mem.pending.value;
                forall t: Terms | GoesAlong(old(w).env.server, p, t) && x == Cooperation(p.rotationId, p.newPublicKey, t) ::
                  Completed(w, e, t.keyId)
      ensures old(w).mem.pending.Some? ==>
                var p := old(w).mem.pending.value;
                w.env.sent == if !p.confirmed && p.newKeyId == "" then old(w).env.sent[p.rotationId := p.newPublicKey] else old(w).env.sent
    {
      RecoverOk(start, w, x);
      RecoverFacts(start, w, x);
      if w.mem.pending.None? { return Done; }
      if w.mem.pending.value.confirmed {
        e := SwitchKey(x);
      } else if w.mem.pending.value.newKeyId == "" {
        e := Prepare(x);
      } else {
        e := ConfirmOnce(false, x);
      }
    }

    method RotateOnce(rotationId: string, seed: Seed, x: Script) returns (e: Ending)
      requires Valid()
      requires rotationId != "" && rotationId !in w.env.rotationIds && seed !in w.env.seeds
      modifies this
      ensures (w, e) == RotateRun(old(w), rotationId, seed, x)
      ensures Valid() && Promised(start, old(w), w, e)
      ensures old(w).mem.pending.Some? ==> (w, e) == RecoverRun(old(w), x)
      ensures old(w).mem.pending.Some? && old(w).mem.pending.value.confirmed && x.activate.Written? ==>
                e == Done && w.mem.pending == None && w.mem.currentKeyId == old(w).mem.pending.value.newKeyId
      ensures old(w).mem.pending.None? ==>
                forall t: Terms | t.keyId != "" && t.keyId !in old(w).env.server.usedIds && t.nonce != "" && t.graceUntil > 0 &&
                           x == Cooperation(rotationId, KeyOf(seed), t) ::
                  Completed(w, e, t.keyId)
      ensures old(w).mem.pending.Some? && !old(w).mem.pending.value.confirmed ==>
                var p := old(w).mem.pending.value;
                forall t: Terms | GoesAlong(old(w).env.server, p, t) && x == Cooperation(p.rotationId, p.newPublicKey, t) ::
                  Completed(w, e, t.keyId)
    {
      RotateOk(start, w, rotationId, seed, x);
      if w.mem.pending.None? { RotateFacts(start, w, rotationId, seed, x); }
      if w.mem.pending.Some? {
        e := Recover(x);
        return;
      }
      Take(BeginStep(rotationId, seed, x.begin));
      if !x.begin.Written? { return Failure; }
      e := Prepare(x);
    }
  }
}
