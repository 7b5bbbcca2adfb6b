/** Lease renewal of a running task: `renewLoop`, `renewWithRetry` and `leaseState` in
    `internal/hnieoj/worker/worker.go`, and `Renew` in `internal/hnieoj/wss/lease.go`.
    Times are milliseconds; what the clock shows, what the server answers and what other
    threads do to the lease are given round by round. */
module Lease {
  import opened Basics
  import opened Tasks

  /** `leaseState`: the deadline moves both ways, the lost flag only goes up. */
  class LeaseState {
    var until: int
    var lost: bool

    constructor (leaseUntil: int)
      ensures until == leaseUntil && !lost
    {
      until, lost := leaseUntil, false;
    }

    method Update(leaseUntil: int)
      modifies this`until
      ensures until == leaseUntil
    {
      until := leaseUntil;
    }

    method MarkLost()
      modifies this`lost
      ensures lost
    {
      lost := true;
    }
  }

  /** The outcome of one LEASE_RENEW request as the session sees it. */
  datatype Wire = Unreachable | PermanentError | OtherType | Answer(who: Triple, leaseUntil: int)

  datatype Renewal = Renewed(leaseUntil: int) | Denied | Failed

  function Judge(who: Triple, wire: Wire): Renewal {
    match wire
    case PermanentError => Denied
    case Answer(w, u) => if w == who && u > 0 then Renewed(u) else Failed
    case _ => Failed
  }

  /** `Renew`: a valid answer moves the registry lease and, through the observer, the executor's deadline
      before the caller has looked at the clock. */
  method Renew(registry: RegistryObject, lease: LeaseState, who: Triple, epoch: int, wire: Wire) returns (r: Renewal)
    modifies registry`entries, lease`until
    ensures r == Judge(who, wire)
    ensures (r.Renewed? <==> wire.Answer? && wire.who == who && wire.leaseUntil > 0) && (r.Denied? <==> wire.PermanentError?)
    ensures r.Renewed? ==> r.leaseUntil == wire.leaseUntil
    ensures r.Renewed? ==> Only(old(registry.entries), registry.entries, TaskKey(who),
                                (e: Entry) => e.(lease := wire.leaseUntil, epoch := epoch))
    ensures r.Renewed? ==> registry.Value() == Resume(old(registry.Value()), TaskKey(who), r.leaseUntil, epoch)
    ensures !r.Renewed? ==> registry.Value() == old(registry.Value())
    ensures lease.until == if r.Renewed? && TaskKey(who) in old(registry.entries) then r.leaseUntil else old(lease.until)
  {
    if wire.Unreachable? || wire.OtherType? { return Failed; }
    if wire.PermanentError? { return Denied; }
    if wire.who != who { return Failed; }
    if wire.leaseUntil <= 0 { return Failed; }
    var observed := registry.ResumeAttempt(who, wire.leaseUntil, epoch);
    if observed { lease.Update(wire.leaseUntil); }
    return Renewed(wire.leaseUntil);
  }

  /** One pass of the retry loop: the clock when the deadline is read, the answer, what another thread sets
      the lease to meanwhile, the clock when the answer is in, and whether the task ends. */
  datatype Round = Round(
    endedBefore: bool, start: int, wire: Wire, moved: Option<int>, replied: int, endedAsleep: bool)

  /** The deadline in force when round `i` sends its request. */
  function DeadlineAt(until: int, rounds: seq<Round>, i: nat): int
    requires i <= |rounds|
  {
    if i == 0 then until
    else match rounds[i - 1].moved case Some(u) => u case None => DeadlineAt(until, rounds, i - 1)
  }

  /** What one pass of the retry loop comes to: no request sent, renewed, given up after the request, or retried. */
  datatype Pass = NotSent | Won | Quit | Again

  function Moved(deadline: int, round: Round): int {
    match round.moved case Some(u) => u case None => deadline
  }

  /** The request goes out only on a running task with time left. */
  predicate Sends(deadline: int, round: Round) {
    !round.endedBefore && 0 < deadline && round.start < deadline
  }

  /** `deadline` is the one read when the request is sent; `Moved` the one in force when a failure is looked at. */
  function PassOf(who: Triple, deadline: int, round: Round): Pass {
    if !Sends(deadline, round) then NotSent
    else match Judge(who, round.wire)
         case Renewed(_) => if round.replied < deadline then Won else Quit
         case Denied => Quit
         case Failed =>
           var left := Moved(deadline, round);
           if 0 < left && round.replied < left && !round.endedAsleep then Again else Quit
  }

  /** The lease until the server grants in a valid answer for this attempt. */
  ghost predicate Grants(who: Triple, wire: Wire) {
    wire.Answer? && wire.who == who && wire.leaseUntil > 0
  }

  /** Each pass by what happens: a request goes out on a running task with time left; a grant that is in before the
      deadline it was sent under wins, whatever it grants; a later one and a denial quit; any other failure
      is tried again exactly while the deadline then in force leaves time and the task runs. */
  lemma PassMeans(who: Triple, deadline: int, round: Round)
    ensures var p := PassOf(who, deadline, round);
            var sent := !round.endedBefore && 0 < deadline && round.start < deadline;
            var inForce := if round.moved.Some? then round.moved.value else deadline;
            var timeLeft := 0 < inForce && round.replied < inForce && !round.endedAsleep;
            && (p == NotSent <==> !sent)
            && (p == Won <==> sent && Grants(who, round.wire) && round.replied < deadline)
            && (p == Again <==> sent && !Grants(who, round.wire) && !round.wire.PermanentError? && timeLeft)
            && (p == Quit <==> sent && (if Grants(who, round.wire) then round.replied >= deadline
                                        else round.wire.PermanentError? || !timeLeft))
  {
  }

  method TryOnce(registry: RegistryObject, lease: LeaseState, who: Triple, epoch: int, round: Round) returns (p: Pass)
    modifies registry`entries, lease`until
    ensures p == PassOf(who, old(lease.until), round)
    ensures p.Won? <==>
              && !round.endedBefore && 0 < old(lease.until) && round.start < old(lease.until)
              && Grants(who, round.wire) && round.replied < old(lease.until)
    ensures p.Won? ==> lease.until == round.wire.leaseUntil
    ensures p.Won? && TaskKey(who) in old(registry.entries) ==>
              TaskKey(who) in registry.entries && registry.entries[TaskKey(who)] == old(registry.entries)[TaskKey(who)].(lease := round.wire.leaseUntil, epoch := epoch)
    ensures registry.entries.Keys == old(registry.entries).Keys
    ensures p.Again? ==> lease.until == Moved(old(lease.until), round)
    ensures p.NotSent? ==> lease.until == old(lease.until) && registry.entries == old(registry.entries)
    ensures p.Won? || (p.Quit? && Judge(who, round.wire).Renewed? && TaskKey(who) in registry.entries) ==>
              lease.until == Judge(who, round.wire).leaseUntil
  {
    if round.endedBefore { return NotSent; }
    var deadline := lease.until;
    if deadline <= 0 || round.start >= deadline { return NotSent; }
    if round.moved.Some? { lease.Update(round.moved.value); }
    var r := Renew(registry, lease, who, epoch, round.wire);
    if r.Renewed? {
      if round.replied >= deadline { return Quit; }
      lease.Update(r.leaseUntil);
      var _ := registry.UpdateLeaseOf(who, r.leaseUntil);
      return Won;
    }
    if r.Denied? { return Quit; }
    if lease.until <= 0 || lease.until - round.replied <= 0 { return Quit; }
    if round.endedAsleep { return Quit; }
    return Again;
  }

  datatype Verdict = Success | GivenUp | Ongoing

  function PassAt(who: Triple, until: int, rounds: seq<Round>, i: nat): Pass
    requires i < |rounds|
  {
    PassOf(who, DeadlineAt(until, rounds, i), rounds[i])
  }

  /** How the retry loop ends, given the rounds; `Ongoing` if they run out first. */
  function VerdictOf(who: Triple, until: int, rounds: seq<Round>): Verdict
    decreases |rounds|
  {
    if rounds == [] then Ongoing
    else match PassOf(who, until, rounds[0])
         case Won => Success
         case Again => VerdictOf(who, Moved(until, rounds[0]), rounds[1..])
         case _ => GivenUp
  }

  /** The deadline a successful renewal leaves behind. */
  function LeaseWon(who: Triple, until: int, rounds: seq<Round>): int
    requires VerdictOf(who, until, rounds).Success?
    decreases |rounds|
  {
    match PassOf(who, until, rounds[0])
    case Won => Judge(who, rounds[0].wire).leaseUntil
    case Again => LeaseWon(who, Moved(until, rounds[0]), rounds[1..])
  }

  /** Round `j` is the first that is not retried, and it ends as `p`. */
  ghost predicate EndsAt(who: Triple, until: int, rounds: seq<Round>, j: nat, p: Pass) {
    j < |rounds| && PassAt(who, until, rounds, j) == p && forall i | 0 <= i < j :: PassAt(who, until, rounds, i) == Again
  }

  ghost predicate WonBy(who: Triple, until: int, rounds: seq<Round>) {
    exists j: nat :: EndsAt(who, until, rounds, j, Won)
  }

  /** Refused, answered too late, out of time, or the task gone. */
  ghost predicate FailedBy(who: Triple, until: int, rounds: seq<Round>) {
    exists j: nat :: EndsAt(who, until, rounds, j, Quit) || EndsAt(who, until, rounds, j, NotSent)
  }

  lemma {:induction false} DeadlineShifts(until: int, rounds: seq<Round>, i: nat)
    requires i < |rounds|
    ensures DeadlineAt(until, rounds, i + 1) == DeadlineAt(Moved(until, rounds[0]), rounds[1..], i)
  {
    if i > 0 {
      DeadlineShifts(until, rounds, i - 1);
      assert rounds[1..][i - 1] == rounds[i];
    }
  }

  lemma EndsLater(who: Triple, until: int, rounds: seq<Round>, j: nat, p: Pass)
    requires rounds != [] && PassOf(who, until, rounds[0]) == Again
    ensures EndsAt(who, until, rounds, j + 1, p) <==> EndsAt(who, Moved(until, rounds[0]), rounds[1..], j, p)
  {
    forall i | 0 <= i < |rounds| - 1
      ensures PassAt(who, until, rounds, i + 1) == PassAt(who, Moved(until, rounds[0]), rounds[1..], i)
    {
      DeadlineShifts(until, rounds, i);
    }
    assert PassAt(who, until, rounds, 0) == Again;
    if EndsAt(who, until, rounds, j + 1, p) {
      forall i | 0 <= i < j ensures PassAt(who, Moved(until, rounds[0]), rounds[1..], i) == Again {
        assert PassAt(who, until, rounds, i + 1) == Again;
      }
    } else if EndsAt(who, Moved(until, rounds[0]), rounds[1..], j, p) {
      forall i | 0 <= i < j + 1 ensures PassAt(who, until, rounds, i) == Again {
        if i > 0 { assert PassAt(who, Moved(until, rounds[0]), rounds[1..], i - 1) == Again; }
      }
    }
  }

  lemma EndsSomewhere(who: Triple, until: int, rounds: seq<Round>, p: Pass)
    requires rounds != [] && PassOf(who, until, rounds[0]) == Again && p != Again
    ensures (exists j: nat :: EndsAt(who, until, rounds, j, p)) <==>
            (exists j: nat :: EndsAt(who, Moved(until, rounds[0]), rounds[1..], j, p))
  {
    if j: nat :| EndsAt(who, until, rounds, j, p) {
      assert PassAt(who, until, rounds, 0) == Again;
      EndsLater(who, until, rounds, j - 1, p);
    }
    if j: nat :| EndsAt(who, Moved(until, rounds[0]), rounds[1..], j, p) {
      EndsLater(who, until, rounds, j, p);
      assert EndsAt(who, until, rounds, j + 1, p);
    }
  }

  /** A renewal succeeds if and only if its first decisive round was answered before the deadline that round was
      sent under, and is given up if and only if that round failed, came too late or was not sent. */
  lemma {:induction false} VerdictMeans(who: Triple, until: int, rounds: seq<Round>)
    ensures VerdictOf(who, until, rounds).Success? <==> WonBy(who, until, rounds)
    ensures VerdictOf(who, until, rounds).GivenUp? <==> FailedBy(who, until, rounds)
    decreases |rounds|
  {
    if rounds != [] {
      var p := PassOf(who, until, rounds[0]);
      assert PassAt(who, until, rounds, 0) == p;
      if p.Again? {
        VerdictMeans(who, Moved(until, rounds[0]), rounds[1..]);
        EndsSomewhere(who, until, rounds, Won);
        EndsSomewhere(who, until, rounds, Quit);
        EndsSomewhere(who, until, rounds, NotSent);
      } else {
        assert EndsAt(who, until, rounds, 0, p);
      }
    }
  }

  /** A renewal whose first round is granted in time succeeds, with the lease granted. */
  lemma TimelyGrantWins(who: Triple, until: int, rounds: seq<Round>)
    requires rounds != [] && !rounds[0].endedBefore && 0 < until && rounds[0].start < until
    requires Grants(who, rounds[0].wire) && rounds[0].replied < until
    ensures VerdictOf(who, until, rounds) == Success && LeaseWon(who, until, rounds) == rounds[0].wire.leaseUntil
  {
    PassMeans(who, until, rounds[0]);
  }

  /** The request of round `i` went out and failed for now, with time left. */
  ghost predicate FailsForNow(who: Triple, until: int, rounds: seq<Round>, i: nat)
    requires i < |rounds|
  {
    var d, inForce := DeadlineAt(until, rounds, i), DeadlineAt(until, rounds, i + 1);
    && !rounds[i].endedBefore && 0 < d && rounds[i].start < d
    && !Grants(who, rounds[i].wire) && !rounds[i].wire.PermanentError?
    && 0 < inForce && rounds[i].replied < inForce && !rounds[i].endedAsleep
  }

  /** So does one whose earlier rounds merely failed with time left, under the deadline then in force. */
  lemma {:induction false} RetriedGrantWins(who: Triple, until: int, rounds: seq<Round>, j: nat)
    requires j < |rounds|
    requires forall i | 0 <= i < j :: FailsForNow(who, until, rounds, i)
    requires var d := DeadlineAt(until, rounds, j);
             && !rounds[j].endedBefore && 0 < d && rounds[j].start < d
             && Grants(who, rounds[j].wire) && rounds[j].replied < d
    ensures VerdictOf(who, until, rounds) == Success && LeaseWon(who, until, rounds) == rounds[j].wire.leaseUntil
    decreases j
  {
    if j == 0 {
      TimelyGrantWins(who, until, rounds);
    } else {
      assert FailsForNow(who, until, rounds, 0) && DeadlineAt(until, rounds, 1) == Moved(until, rounds[0]);
      PassMeans(who, until, rounds[0]);
      forall i | 0 <= i < j - 1 ensures FailsForNow(who, Moved(until, rounds[0]), rounds[1..], i) {
        assert FailsForNow(who, until, rounds, i + 1);
        DeadlineShifts(until, rounds, i);
        DeadlineShifts(until, rounds, i + 1);
      }
      DeadlineShifts(until, rounds, j - 1);
      RetriedGrantWins(who, Moved(until, rounds[0]), rounds[1..], j - 1);
    }
  }

  /** `renewWithRetry`: it succeeds exactly with a round answered before the deadline that round was sent under,
      whatever has happened to the deadline since; a late answer is given up even though it has moved
      the deadline. */
  method RenewWithRetry(registry: RegistryObject, lease: LeaseState, who: Triple, epoch: int,
                        rounds: seq<Round>) returns (v: Verdict, calls: nat)
    modifies registry`entries, lease`until
    ensures v == VerdictOf(who, old(lease.until), rounds)
    ensures v.Success? ==> lease.until == LeaseWon(who, old(lease.until), rounds)
    ensures rounds != [] && !rounds[0].endedBefore && 0 < old(lease.until) && rounds[0].start < old(lease.until) &&
            Grants(who, rounds[0].wire) ==>
              (v == Success <==> rounds[0].replied < old(lease.until)) && (v == Success ==> lease.until == rounds[0].wire.leaseUntil)
    ensures calls <= |rounds| && forall i | 0 <= i < calls :: PassAt(who, old(lease.until), rounds, i) != NotSent
    ensures forall i | 0 <= i < calls - 1 :: PassAt(who, old(lease.until), rounds, i) == Again
    ensures v.GivenUp? && calls > 0 ==>
              var r := Judge(who, rounds[calls - 1].wire);
              r.Renewed? && TaskKey(who) in registry.entries ==> lease.until == r.leaseUntil
  {
    calls := 0;
    if rounds != [] {
      PassMeans(who, lease.until, rounds[0]);
      if VerdictOf(who, lease.until, rounds) == Success && Grants(who, rounds[0].wire) {
        assert PassOf(who, lease.until, rounds[0]) != Again;
      }
    }
    while calls < |rounds|
      invariant calls <= |rounds|
      invariant lease.until == DeadlineAt(old(lease.until), rounds, calls)
      invariant forall i | 0 <= i < calls :: PassAt(who, old(lease.until), rounds, i) == Again
      invariant VerdictOf(who, old(lease.until), rounds) == VerdictOf(who, lease.until, rounds[calls..])
      invariant VerdictOf(who, lease.until, rounds[calls..]).Success? ==>
                  LeaseWon(who, old(lease.until), rounds) == LeaseWon(who, lease.until, rounds[calls..])
    {
      assert rounds[calls..][1..] == rounds[calls + 1..];
      var p := TryOnce(registry, lease, who, epoch, rounds[calls]);
      assert p == PassAt(who, old(lease.until), rounds, calls);
      if p.NotSent? {
        assert calls > 0 ==> PassAt(who, old(lease.until), rounds, calls - 1) == Again;
        return GivenUp, calls;
      }
      calls := calls + 1;
      if p.Won? { return Success, calls; }
      if p.Quit? { return GivenUp, calls; }
    }
    return Ongoing, calls;
  }

  /** In every outcome each request was sent with time left on the lease. */
  lemma RequestsInTime(who: Triple, until: int, rounds: seq<Round>, calls: nat)
    requires calls <= |rounds| && forall i | 0 <= i < calls :: PassAt(who, until, rounds, i) != NotSent
    ensures forall i | 0 <= i < calls :: rounds[i].start < DeadlineAt(until, rounds, i)
  {
    forall i | 0 <= i < calls ensures rounds[i].start < DeadlineAt(until, rounds, i) {
      assert PassAt(who, until, rounds, i) != NotSent;
    }
  }

  /** The clock is monotone, sleeps last at least as long as asked, and nobody moves the lease. */
  ghost predicate Undisturbed(until: int, backoff: int, rounds: seq<Round>) {
    && (forall i | 0 <= i < |rounds| :: rounds[i].moved.None? && rounds[i].start <= rounds[i].replied)
    && (forall i | 0 <= i < |rounds| - 1 ::
          rounds[i + 1].start >= rounds[i].replied + if backoff < until - rounds[i].replied then backoff else until - rounds[i].replied)
  }

  lemma {:induction false} DeadlineFixed(until: int, rounds: seq<Round>, i: nat)
    requires i <= |rounds| && forall j | 0 <= j < |rounds| :: rounds[j].moved.None?
    ensures DeadlineAt(until, rounds, i) == until
  {
    if i > 0 { DeadlineFixed(until, rounds, i - 1); }
  }

  /** Undisturbed, request number i is sent no earlier than i backoffs after the first. */
  lemma {:induction false} RequestsSpaced(until: int, backoff: int, rounds: seq<Round>, i: nat)
    requires Undisturbed(until, backoff, rounds) && i < |rounds| && backoff > 0
    requires forall j | 0 <= j <= i :: rounds[j].start < until
    ensures rounds[i].start >= rounds[0].start + i * backoff
  {
    if i > 0 {
      RequestsSpaced(until, backoff, rounds, i - 1);
      assert rounds[i - 1 + 1].start == rounds[i].start;
    }
  }

  /** The retry bound: with no lease update and a monotone clock, `calls` requests fit in the lease only if
      (calls - 1) backoffs do, so at most ceil((deadline - now) / backoff) are sent. */
  lemma RetryBound(who: Triple, until: int, backoff: int, rounds: seq<Round>, calls: nat)
    requires Undisturbed(until, backoff, rounds) && backoff > 0 && 0 < calls <= |rounds|
    requires forall i | 0 <= i < calls :: PassAt(who, until, rounds, i) != NotSent
    ensures calls <= (until - rounds[0].start + backoff - 1) / backoff
  {
    RetrySpacing(who, until, backoff, rounds, calls);
    DivBound(calls, backoff, until - rounds[0].start);
  }

  lemma RetrySpacing(who: Triple, until: int, backoff: int, rounds: seq<Round>, calls: nat)
    requires Undisturbed(until, backoff, rounds) && backoff > 0 && 0 < calls <= |rounds|
    requires forall i | 0 <= i < calls :: PassAt(who, until, rounds, i) != NotSent
    ensures (calls - 1) * backoff < until - rounds[0].start
  {
    RequestsInTime(who, until, rounds, calls);
    forall i | 0 <= i < calls ensures rounds[i].start < until { DeadlineFixed(until, rounds, i); }
    RequestsSpaced(until, backoff, rounds, calls - 1);
  }

  lemma DivBound(n: nat, d: int, x: int)
    requires d > 0 && n > 0 && (n - 1) * d < x
    ensures n <= (x + d - 1) / d
  {
    var q := (x + d - 1) / d;
    assert q * d >= x;
  }

  // ---------- the renewal loop ----------

  /** `nextRenewDelay`. */
  function NextRenewDelay(until: int, now: int, period: int, backoff: int): int {
    var safety := if backoff > period / 2 then period / 2 else backoff;
    var delay := if until > 0 && until - now - safety < period then until - now - safety else period;
    if delay < 0 then 0 else delay
  }

  /** The loop wakes within one period, and with a lease set it leaves the safety margin before the deadline
      or wakes at once. */
  lemma WakesInTime(until: int, now: int, period: int, backoff: int)
    requires period > 0 && backoff > 0
    ensures var delay := NextRenewDelay(until, now, period, backoff);
            var margin := if backoff > period / 2 then period / 2 else backoff;
            && 0 <= delay <= period
            && (until <= 0 ==> delay == period)
            && (until > 0 && delay > 0 ==> now + delay <= until - margin)
            && (until > 0 && delay < period ==> now + delay >= until - margin)
  {
  }

  /** A loop that is woken punctually with a lease still running always gets to send its request. */
  lemma PunctualWakeSends(until: int, now: int, period: int, backoff: int, round: Round)
    requires period >= 2 && backoff > 0 && now < until && 0 < until
    requires !round.endedBefore && round.start == now + NextRenewDelay(until, now, period, backoff)
    ensures Sends(until, round)
  {
    WakesInTime(until, now, period, backoff);
  }

  /** One turn of `renewLoop`: whether the task has ended before it, the clock, what another thread sets the lease
      to during the sleep, whether the task ends during it, the renewal, and whether the task has ended after it. */
  datatype Turn = Turn(
    endedBefore: bool, now: int, moved: Option<int>, endedAsleep: bool, rounds: seq<Round>, endedAfter: bool)

  datatype Exit = TaskEnded | LeaseLost | StillRunning

  predicate Live(turn: Turn) { !turn.endedBefore && !turn.endedAsleep }

  /** The deadline when the loop has slept. */
  function Awake(until: int, turn: Turn): int {
    match turn.moved case Some(u) => u case None => until
  }

  function TurnVerdict(who: Triple, until: int, turn: Turn): Verdict {
    VerdictOf(who, Awake(until, turn), turn.rounds)
  }

  /** How a turn that finds the task running ends the loop; `None` if it goes on. */
  function TurnExit(who: Triple, until: int, turn: Turn): (e: Option<Exit>)
    ensures e.None? <==> !turn.endedAsleep && TurnVerdict(who, until, turn).Success?
  {
    if turn.endedAsleep then Some(TaskEnded)
    else match TurnVerdict(who, until, turn)
         case Ongoing => Some(StillRunning)
         case GivenUp => Some(if turn.endedAfter then TaskEnded else LeaseLost)
         case Success => None
  }

  /** How the loop ends, given everything the environment does. */
  function ExitOf(who: Triple, until: int, turns: seq<Turn>): Exit
    decreases |turns|
  {
    if turns == [] then StillRunning
    else if turns[0].endedBefore then TaskEnded
    else match TurnExit(who, until, turns[0])
         case Some(exit) => exit
         case None => ExitOf(who, LeaseWon(who, Awake(until, turns[0]), turns[0].rounds), turns[1..])
  }

  /** Turn `i` is reached: every earlier turn was live and won its renewal.  `UntilAt` is the deadline it starts with. */
  ghost predicate Reached(who: Triple, until: int, turns: seq<Turn>, i: nat)
    requires i <= |turns|
    decreases i
  {
    i == 0 || (Live(turns[0]) && TurnVerdict(who, until, turns[0]).Success? &&
               Reached(who, LeaseWon(who, Awake(until, turns[0]), turns[0].rounds), turns[1..], i - 1))
  }

  ghost function UntilAt(who: Triple, until: int, turns: seq<Turn>, i: nat): int
    requires i <= |turns| && Reached(who, until, turns, i)
    decreases i
  {
    if i == 0 then until
    else UntilAt(who, LeaseWon(who, Awake(until, turns[0]), turns[0].rounds), turns[1..], i - 1)
  }

  /** The renewal of turn `i` failed on a task that was live before it and still running after it. */
  ghost predicate LosesAt(who: Triple, until: int, turns: seq<Turn>, i: nat) {
    && i < |turns| && Reached(who, until, turns, i) && Live(turns[i]) && !turns[i].endedAfter
    && FailedBy(who, Awake(UntilAt(who, until, turns, i), turns[i]), turns[i].rounds)
  }

  /** A lease is lost if and only if the renewal of some turn on a running task was refused, answered after the
      deadline it was sent under, or out of time, however the deadline has moved since. */
  lemma {:induction false} LostIff(who: Triple, until: int, turns: seq<Turn>)
    ensures ExitOf(who, until, turns).LeaseLost? <==> exists i: nat :: LosesAt(who, until, turns, i)
    decreases |turns|
  {
    if turns != [] && Live(turns[0]) {
      VerdictMeans(who, Awake(until, turns[0]), turns[0].rounds);
      if TurnVerdict(who, until, turns[0]).Success? {
        var until', rest := LeaseWon(who, Awake(until, turns[0]), turns[0].rounds), turns[1..];
        LostIff(who, until', rest);
        if i: nat :| LosesAt(who, until, turns, i) {
          assert LosesAt(who, until', rest, i - 1);
        }
        if i: nat :| LosesAt(who, until', rest, i) {
          assert LosesAt(who, until, turns, i + 1);
        }
      } else if ExitOf(who, until, turns).LeaseLost? {
        assert LosesAt(who, until, turns, 0);
      }
    }
  }

  /** A late answer loses the lease although it has already moved the deadline. */
  lemma LateAnswerLoses(who: Triple, until: int, turn: Turn, rest: seq<Turn>)
    requires Live(turn) && !turn.endedAfter && turn.rounds != []
    requires Sends(Awake(until, turn), turn.rounds[0]) && Judge(who, turn.rounds[0].wire).Renewed?
    requires turn.rounds[0].replied >= Awake(until, turn)
    ensures ExitOf(who, until, [turn] + rest) == LeaseLost
  {
  }

  /** A renewal granted in time keeps the lease: the loop goes on with the lease granted. */
  lemma TimelyGrantKeepsLease(who: Triple, until: int, turn: Turn, rest: seq<Turn>)
    requires !turn.endedBefore && !turn.endedAsleep && turn.rounds != []
    requires var d := if turn.moved.Some? then turn.moved.value else until;
             && !turn.rounds[0].endedBefore && 0 < d && turn.rounds[0].start < d
             && Grants(who, turn.rounds[0].wire) && turn.rounds[0].replied < d
    ensures ExitOf(who, until, [turn] + rest) == ExitOf(who, turn.rounds[0].wire.leaseUntil, rest)
  {
    TimelyGrantWins(who, Awake(until, turn), turn.rounds);
    assert ([turn] + rest)[1..] == rest;
  }

  /** A renewal that is denied, late or out of time on a running task loses the lease at once. */
  lemma FailedRenewalLoses(who: Triple, until: int, turn: Turn, rest: seq<Turn>)
    requires !turn.endedBefore && !turn.endedAsleep && !turn.endedAfter && turn.rounds != []
    requires var d := if turn.moved.Some? then turn.moved.value else until;
             var r := turn.rounds[0];
             || r.endedBefore || d <= 0 || r.start >= d || r.wire.PermanentError?
             || (Grants(who, r.wire) && r.replied >= d)
    ensures ExitOf(who, until, [turn] + rest) == LeaseLost
  {
    PassMeans(who, Awake(until, turn), turn.rounds[0]);
  }

  /** The sleeps the loop asks for, one per turn that finds the task running, after those already in `asked`. */
  function WaitsOf(who: Triple, until: int, turns: seq<Turn>, period: int, backoff: int, asked: seq<int>): seq<int>
    decreases |turns|
  {
    if turns == [] || turns[0].endedBefore then asked
    else
      var asked' := asked + [NextRenewDelay(until, turns[0].now, period, backoff)];
      if TurnExit(who, until, turns[0]).Some? then asked'
      else WaitsOf(who, LeaseWon(who, Awake(until, turns[0]), turns[0].rounds), turns[1..], period, backoff, asked')
  }

  /** The rest of a turn once the loop has asked for its sleep. */
  method FinishTurn(registry: RegistryObject, lease: LeaseState, who: Triple, epoch: int, turn: Turn)
    returns (exit: Option<Exit>)
    requires !turn.endedBefore
    modifies registry`entries, lease
    ensures exit == TurnExit(who, old(lease.until), turn)
    ensures lease.lost == (old(lease.lost) || exit == Some(LeaseLost))
    ensures exit.None? ==> lease.until == LeaseWon(who, Awake(old(lease.until), turn), turn.rounds)
  {
    if turn.moved.Some? { lease.Update(turn.moved.value); }
    if turn.endedAsleep { return Some(TaskEnded); }
    var v, _ := RenewWithRetry(registry, lease, who, epoch, turn.rounds);
    if v.Ongoing? { return Some(StillRunning); }
    if v.GivenUp? {
      if turn.endedAfter { return Some(TaskEnded); }
      lease.MarkLost();
      return Some(LeaseLost);
    }
    return None;
  }

  /** `renewLoop`: the loop ends as the environment makes it end, a lost lease is marked and the task cancelled,
      nothing else marks or cancels, and a lease once lost stays lost. */
  method RenewLoop(registry: RegistryObject, lease: LeaseState, who: Triple, epoch: int, period: int, backoff: int,
                   turns: seq<Turn>) returns (exit: Exit, cancelled: bool, waits: seq<int>)
    modifies registry`entries, lease
    ensures exit == ExitOf(who, old(lease.until), turns)
    ensures lease.lost == (old(lease.lost) || exit.LeaseLost?) && cancelled == exit.LeaseLost?
    ensures waits == WaitsOf(who, old(lease.until), turns, period, backoff, [])
  {
    waits := [];
    for i := 0 to |turns|
      invariant lease.lost == old(lease.lost)
      invariant ExitOf(who, old(lease.until), turns) == ExitOf(who, lease.until, turns[i..])
      invariant WaitsOf(who, old(lease.until), turns, period, backoff, []) ==
                  WaitsOf(who, lease.until, turns[i..], period, backoff, waits)
    {
      assert turns[i..][0] == turns[i] && turns[i..][1..] == turns[i + 1..];
      if turns[i].endedBefore { return TaskEnded, false, waits; }
      waits := waits + [NextRenewDelay(lease.until, turns[i].now, period, backoff)];
      var stop := FinishTurn(registry, lease, who, epoch, turns[i]);
      if stop.Some? { return stop.value, stop.value.LeaseLost?, waits; }
    }
    return StillRunning, false, waits;
  }
}
