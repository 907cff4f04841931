// Any number of workers, retries and recovery passes on one delivery row.
module PushRuns {
  import opened Common
  import opened PushDelivery

  type Worker = nat

  // A worker reads the clock before it gets the row lock, so its `now` may be old when it claims.
  datatype Phase =
    | Reading(now: Time)
    | Holding(since: Time, attempt: nat)
    | Answered(since: Time, attempt: nat, result: SendResult)
    | Waiting
    | Gone

  // `accepted` counts the sends that Firebase accepted.
  datatype World = World(clock: Time, lease: nat, row: Row, workers: map<Worker, Phase>, accepted: nat)

  function Start(lease: nat): World {
    World(0, lease, NewRow, map[], 0)
  }

  datatype Step =
    | Tick(ticks: nat)
    | ReadClock(w: Worker)
    | Claim(w: Worker)
    | Send(w: Worker, result: SendResult)
    | Record(w: Worker)
    | GiveUp(w: Worker)
    | Recover(now: Time)

  predicate In(world: World, w: Worker) {
    w in world.workers
  }

  function Moved(world: World, w: Worker, p: Phase): World {
    world.(workers := world.workers[w := p])
  }

  function DoClaim(world: World, w: Worker): World {
    if !In(world, w) || !world.workers[w].Reading? then world
    else
      var now := world.workers[w].now;
      if !CanClaim(world.row, now, world.lease) then Moved(world, w, Gone)
      else Moved(world, w, Holding(now, world.row.attempts + 1)).(row := Claimed(world.row, now))
  }

  function DoSend(world: World, w: Worker, result: SendResult): World {
    if !In(world, w) || !world.workers[w].Holding? then world
    else
      Moved(world, w, Answered(world.workers[w].since, world.workers[w].attempt, result))
        .(accepted := world.accepted + if result == Accepted then 1 else 0)
  }

  // The outcome is written by primary key alone, whatever the row says by then.
  function DoRecord(world: World, w: Worker): World {
    if !In(world, w) || !world.workers[w].Answered? then world
    else
      var result := world.workers[w].result;
      Moved(world, w, if result == Errored then Waiting else Gone).(row := Recorded(world.row, result))
  }

  function DoGiveUp(world: World, w: Worker): World {
    if !In(world, w) || !world.workers[w].Waiting? then world
    else Moved(world, w, Gone).(row := GivenUp(world.row))
  }

  function Next(world: World, s: Step): World {
    match s
    case Tick(n) => world.(clock := world.clock + n)
    case ReadClock(w) => if In(world, w) then world else Moved(world, w, Reading(world.clock))
    case Claim(w) => DoClaim(world, w)
    case Send(w, result) => DoSend(world, w, result)
    case Record(w) => DoRecord(world, w)
    case GiveUp(w) => DoGiveUp(world, w)
    case Recover(now) => if now <= world.clock then world.(row := Recovered(world.row, now, world.lease)) else world
  }

  function Run(world: World, steps: seq<Step>): World
    decreases |steps|
  {
    if steps == [] then world else Run(Next(world, steps[0]), steps[1..])
  }

  // ---- the promise ----

  predicate Active(p: Phase) {
    p.Holding? || p.Answered?
  }

  predicate Live(world: World, w: Worker) {
    In(world, w) && Active(world.workers[w]) && world.clock < world.workers[w].since + world.lease
  }

  predicate OwnsRow(world: World, w: Worker)
    requires In(world, w) && Active(world.workers[w])
  {
    world.row == Row(Processing, world.workers[w].attempt, Some(world.workers[w].since))
  }

  // A worker within its lease that has not sent yet is about to.
  predicate MaySend(world: World, w: Worker) {
    Live(world, w) && world.workers[w].Holding?
  }

  // The device is notified at most once, also if every worker within its lease sends, and the row
  // belongs to whoever is within a lease.
  predicate Promise(world: World) {
    && world.accepted <= 1
    && (forall w | w in world.workers && MaySend(world, w) :: Next(world, Send(w, Accepted)).accepted <= 1)
    && (forall w | w in world.workers && Live(world, w) :: OwnsRow(world, w))
  }

  predicate Keeps(world: World, s: Step) {
    Promise(Next(world, s)) && (Final(world.row.status) ==> Next(world, s).row == world.row)
  }

  // ---- the discipline ----

  predicate OwesRecord(p: Phase) {
    p.Answered? && p.result == Accepted
  }

  predicate Owing(world: World) {
    exists w | w in world.workers :: OwesRecord(world.workers[w])
  }

  predicate OtherLive(world: World, w: Worker) {
    exists v | v in world.workers :: v != w && Live(world, v)
  }

  predicate OtherMaySend(world: World, w: Worker) {
    exists v | v in world.workers :: v != w && MaySend(world, v)
  }

  // A claim with a lease yet to run, while a send is accepted and not recorded.
  predicate LateClaim(world: World, w: Worker) {
    && In(world, w) && world.workers[w].Reading? && CanClaim(world.row, world.workers[w].now, world.lease)
    && world.clock < world.workers[w].now + world.lease
    && Owing(world)
  }

  // An accepted send of a worker that has been overtaken: by a send or by a worker about to send.
  predicate LateSend(world: World, w: Worker, result: SendResult) {
    && In(world, w) && world.workers[w].Holding? && result == Accepted
    && (world.row.status == Sent || Owing(world) || OtherMaySend(world, w))
  }

  // An outcome written over the row of a worker within its lease, or over a final status.
  predicate LateRecord(world: World, w: Worker) {
    && In(world, w) && world.workers[w].Answered?
    && (OtherLive(world, w)
        || (Final(world.row.status) && (world.row.status != Invalid || world.workers[w].result != Unregistered)))
  }

  predicate Harmless(world: World, s: Step) {
    match s
    case Claim(w) => !LateClaim(world, w)
    case Send(w, result) => !LateSend(world, w, result)
    case Record(w) => !LateRecord(world, w)
    case _ => true
  }

  predicate Disciplined(world: World, steps: seq<Step>)
    decreases |steps|
  {
    steps == [] || (Harmless(world, steps[0]) && Disciplined(Next(world, steps[0]), steps[1..]))
  }

  // ---- invariant ----

  predicate WorkersOk(world: World) {
    && (forall w | w in world.workers && world.workers[w].Reading? :: world.workers[w].now <= world.clock)
    && (forall w | w in world.workers && Active(world.workers[w]) ::
          world.workers[w].attempt <= world.row.attempts && (Live(world, w) ==> OwnsRow(world, w)))
    && (forall v, w | v in world.workers && w in world.workers && v != w && Active(world.workers[v]) && Active(world.workers[w]) ::
          world.workers[v].attempt != world.workers[w].attempt)
  }

  // One accepted send at most is unrecorded, none once the row says sent, and none while a worker
  // within its lease is about to send.
  predicate OwingOk(world: World) {
    && (forall v, w | v in world.workers && w in world.workers && OwesRecord(world.workers[v]) && OwesRecord(world.workers[w]) :: v == w)
    && (Owing(world) ==> world.row.status != Sent && forall w | w in world.workers :: !MaySend(world, w))
  }

  // The worker of the current attempt is still there to answer for a processing row.
  predicate ProcessingIsHeld(world: World) {
    world.row.status == Processing ==>
      world.row.lastAttemptAt.Some?
      && exists w | w in world.workers :: Active(world.workers[w]) && OwnsRow(world, w)
  }

  predicate SendsCounted(world: World) {
    world.accepted == if world.row.status == Sent || Owing(world) then 1 else 0
  }

  predicate Inv(world: World) {
    WorkersOk(world) && OwingOk(world) && ProcessingIsHeld(world) && SendsCounted(world)
  }

  lemma InvPromises(world: World)
    requires Inv(world)
    ensures Promise(world)
  {
    forall w | w in world.workers && MaySend(world, w) ensures Next(world, Send(w, Accepted)).accepted <= 1 {
      assert OwnsRow(world, w);
    }
  }

  // A row that is not under lease has no live worker.
  lemma UnleasedIsFree(world: World)
    requires WorkersOk(world) && !Leased(world.row, world.clock, world.lease)
    ensures forall v | v in world.workers :: !Live(world, v)
  {
    assert forall v | v in world.workers && Active(world.workers[v]) :: Live(world, v) ==> OwnsRow(world, v);
  }

  lemma LiveIsAlone(world: World, w: Worker)
    requires WorkersOk(world) && Live(world, w)
    ensures OwnsRow(world, w)
    ensures forall v | v in world.workers && v != w :: !Live(world, v)
  {
    assert forall v | v in world.workers && Active(world.workers[v]) :: Live(world, v) ==> OwnsRow(world, v);
  }

  // ---- claims ----

  // A step of worker w that leaves the row alone; w itself keeps its claim or had none.
  lemma StillHeld(world: World, after: World, w: Worker)
    requires Inv(world) && after.row == world.row && after.lease == world.lease
    requires In(after, w) && after.workers == world.workers[w := after.workers[w]]
    requires In(world, w) && Active(world.workers[w]) ==>
               Active(after.workers[w]) && after.workers[w].attempt == world.workers[w].attempt && after.workers[w].since == world.workers[w].since
    ensures ProcessingIsHeld(after)
    ensures !OwesRecord(after.workers[w]) && !(In(world, w) && OwesRecord(world.workers[w])) ==> (Owing(after) <==> Owing(world))
  {
    if world.row.status == Processing {
      var v :| v in world.workers && Active(world.workers[v]) && OwnsRow(world, v);
      assert Active(after.workers[v]) && OwnsRow(after, v);
    }
    if Owing(world) {
      var v :| v in world.workers && OwesRecord(world.workers[v]);
      assert v == w || OwesRecord(after.workers[v]);
    }
  }

  // A worker that owes nothing changes its phase and owes nothing.
  lemma SameOwing(world: World, after: World, w: Worker)
    requires In(world, w) && In(after, w) && !OwesRecord(world.workers[w]) && !OwesRecord(after.workers[w])
    requires after.workers == world.workers[w := after.workers[w]]
    ensures Owing(after) <==> Owing(world)
  {
    if Owing(world) {
      var v :| v in world.workers && OwesRecord(world.workers[v]);
      assert OwesRecord(after.workers[v]);
    }
  }

  // Worker w reads the clock, leaves or learns that its send failed.
  predicate Quiet(world: World, after: World, w: Worker) {
    && In(after, w) && after == world.(workers := world.workers[w := after.workers[w]])
    && !OwesRecord(after.workers[w])
    && (after.workers[w].Reading? ==> after.workers[w].now <= world.clock)
    && (In(world, w) ==> !OwesRecord(world.workers[w]))
    && (In(world, w) && Active(world.workers[w]) <==> Active(after.workers[w]))
    && (Active(after.workers[w]) ==>
          && after.workers[w].Answered?
          && after.workers[w].attempt == world.workers[w].attempt && after.workers[w].since == world.workers[w].since)
  }

  lemma QuietWorkersOk(world: World, after: World, w: Worker)
    requires Inv(world) && Quiet(world, after, w)
    ensures WorkersOk(after)
  {
    forall v | v in after.workers && Active(after.workers[v]) ensures Active(world.workers[v]) && after.workers[v].attempt == world.workers[v].attempt {
    }
    forall v | v in after.workers && Active(after.workers[v]) && Live(after, v) ensures OwnsRow(after, v) {
      assert Live(world, v);
    }
  }

  lemma QuietOwingOk(world: World, after: World, w: Worker)
    requires Inv(world) && Quiet(world, after, w)
    ensures OwingOk(after) && (Owing(after) <==> Owing(world))
  {
    if Owing(world) {
      var v :| v in world.workers && OwesRecord(world.workers[v]);
      assert OwesRecord(after.workers[v]);
    }
    forall v | v in after.workers && MaySend(after, v) ensures MaySend(world, v) {
    }
  }

  lemma QuietKeeps(world: World, after: World, w: Worker)
    requires Inv(world) && Quiet(world, after, w)
    ensures Inv(after)
  {
    QuietWorkersOk(world, after, w);
    QuietOwingOk(world, after, w);
    StillHeld(world, after, w);
  }

  lemma WonClaimKeeps(world: World, w: Worker)
    requires Inv(world) && In(world, w) && world.workers[w].Reading? && !LateClaim(world, w)
    requires CanClaim(world.row, world.workers[w].now, world.lease)
    ensures Inv(DoClaim(world, w))
  {
    var after := DoClaim(world, w);
    UnleasedIsFree(world);
    SameOwing(world, after, w);
    assert Active(after.workers[w]) && OwnsRow(after, w);
    assert forall v | v in after.workers && v != w :: v in world.workers && after.workers[v] == world.workers[v];
  }

  lemma LateClaimBreaks(world: World, w: Worker)
    requires Inv(world) && LateClaim(world, w)
    ensures !Promise(DoClaim(world, w))
  {
    assert MaySend(DoClaim(world, w), w);
  }

  lemma ClaimExactly(world: World, w: Worker)
    requires Inv(world)
    ensures Keeps(world, Claim(w)) <==> Harmless(world, Claim(w))
    ensures Harmless(world, Claim(w)) ==> Inv(DoClaim(world, w))
  {
    if LateClaim(world, w) {
      LateClaimBreaks(world, w);
    } else {
      if In(world, w) && world.workers[w].Reading? {
        if CanClaim(world.row, world.workers[w].now, world.lease) {
          WonClaimKeeps(world, w);
        } else {
          QuietKeeps(world, DoClaim(world, w), w);
        }
      }
      InvPromises(DoClaim(world, w));
    }
  }

  // ---- sends ----

  lemma AcceptedSendWorkersOk(world: World, w: Worker)
    requires Inv(world) && In(world, w) && world.workers[w].Holding?
    ensures WorkersOk(DoSend(world, w, Accepted))
  {
    var after := DoSend(world, w, Accepted);
    assert forall v | v in after.workers && v != w :: after.workers[v] == world.workers[v];
    forall v | v in after.workers && Live(after, v) ensures OwnsRow(after, v) {
      assert Live(world, v);
    }
  }

  lemma AcceptedSendOwingOk(world: World, w: Worker)
    requires Inv(world) && In(world, w) && world.workers[w].Holding? && !LateSend(world, w, Accepted)
    ensures OwingOk(DoSend(world, w, Accepted)) && Owing(DoSend(world, w, Accepted)) && !Owing(world) && world.row.status != Sent
  {
    var after := DoSend(world, w, Accepted);
    assert OwesRecord(after.workers[w]);
    forall v | v in after.workers && v != w ensures !OwesRecord(after.workers[v]) && !MaySend(after, v) {
      assert after.workers[v] == world.workers[v] && !MaySend(world, v);
    }
  }

  lemma AcceptedSendKeeps(world: World, w: Worker)
    requires Inv(world) && In(world, w) && world.workers[w].Holding? && !LateSend(world, w, Accepted)
    ensures Inv(DoSend(world, w, Accepted))
  {
    AcceptedSendWorkersOk(world, w);
    AcceptedSendOwingOk(world, w);
    StillHeld(world, DoSend(world, w, Accepted), w);
  }

  lemma LateSendBreaks(world: World, w: Worker)
    requires Inv(world) && LateSend(world, w, Accepted)
    ensures !Promise(DoSend(world, w, Accepted))
  {
    var after := DoSend(world, w, Accepted);
    if world.row.status != Sent && !Owing(world) {
      var v :| v in world.workers && v != w && MaySend(world, v);
      assert MaySend(after, v);
    }
  }

  lemma SendExactly(world: World, w: Worker, result: SendResult)
    requires Inv(world)
    ensures Keeps(world, Send(w, result)) <==> Harmless(world, Send(w, result))
    ensures Harmless(world, Send(w, result)) ==> Inv(DoSend(world, w, result))
  {
    if LateSend(world, w, result) {
      LateSendBreaks(world, w);
    } else {
      if In(world, w) && world.workers[w].Holding? {
        if result == Accepted {
          AcceptedSendKeeps(world, w);
        } else {
          QuietKeeps(world, DoSend(world, w, result), w);
        }
      }
      InvPromises(DoSend(world, w, result));
    }
  }

  // ---- outcomes ----

  lemma SentRecordKeeps(world: World, w: Worker)
    requires Inv(world) && In(world, w) && OwesRecord(world.workers[w]) && !LateRecord(world, w)
    ensures Inv(DoRecord(world, w))
  {
    var after := DoRecord(world, w);
    assert forall v | v in after.workers && v != w :: after.workers[v] == world.workers[v];
    assert !Owing(after);
  }

  lemma OtherRecordWorkersOk(world: World, w: Worker)
    requires Inv(world) && In(world, w) && world.workers[w].Answered? && !LateRecord(world, w)
    ensures WorkersOk(DoRecord(world, w))
  {
    var after := DoRecord(world, w);
    forall v | v in after.workers && Active(after.workers[v])
      ensures v != w && after.workers[v] == world.workers[v] && !Live(after, v) && world.workers[v].attempt <= after.row.attempts
    {
    }
  }

  lemma OtherRecordOwingOk(world: World, w: Worker)
    requires Inv(world) && In(world, w) && world.workers[w].Answered? && world.workers[w].result != Accepted && !LateRecord(world, w)
    ensures OwingOk(DoRecord(world, w)) && (Owing(DoRecord(world, w)) <==> Owing(world))
  {
    var after := DoRecord(world, w);
    SameOwing(world, after, w);
    forall v | v in after.workers && (OwesRecord(after.workers[v]) || MaySend(after, v)) ensures v != w && after.workers[v] == world.workers[v] {
    }
  }

  lemma OtherRecordKeeps(world: World, w: Worker)
    requires Inv(world) && In(world, w) && world.workers[w].Answered? && world.workers[w].result != Accepted && !LateRecord(world, w)
    ensures Inv(DoRecord(world, w))
  {
    OtherRecordWorkersOk(world, w);
    OtherRecordOwingOk(world, w);
  }

  lemma LateRecordBreaks(world: World, w: Worker)
    requires Inv(world) && LateRecord(world, w)
    ensures !Keeps(world, Record(w))
  {
    var after := DoRecord(world, w);
    if OtherLive(world, w) {
      var v :| v in world.workers && v != w && Live(world, v);
      assert after.workers[v] == world.workers[v] && Live(after, v) && !OwnsRow(after, v);
    }
  }

  lemma RecordExactly(world: World, w: Worker)
    requires Inv(world)
    ensures Keeps(world, Record(w)) <==> Harmless(world, Record(w))
    ensures Harmless(world, Record(w)) ==> Inv(DoRecord(world, w))
  {
    if LateRecord(world, w) {
      LateRecordBreaks(world, w);
    } else {
      if In(world, w) && world.workers[w].Answered? {
        if world.workers[w].result == Accepted {
          SentRecordKeeps(world, w);
        } else {
          OtherRecordKeeps(world, w);
        }
      }
      InvPromises(DoRecord(world, w));
    }
  }

  // ---- the other steps ----

  // Giving up and recovery only touch rows that nobody live holds.
  lemma UnheldRowKeeps(world: World, row: Row)
    requires Inv(world) && row.attempts == world.row.attempts && row.status in {Pending, Failed}
    requires world.row.status in {Pending, Processing}
    requires forall v | v in world.workers :: !Live(world, v)
    ensures Inv(world.(row := row))
  {
    var after := world.(row := row);
    assert Owing(after) <==> Owing(world);
    assert forall v | v in world.workers :: !Live(after, v);
  }

  lemma GiveUpKeeps(world: World, w: Worker)
    requires Inv(world)
    ensures Inv(DoGiveUp(world, w))
  {
    if In(world, w) && world.workers[w].Waiting? {
      var gone := Moved(world, w, Gone);
      QuietKeeps(world, gone, w);
      if world.row.status == Pending {
        UnleasedIsFree(gone);
        UnheldRowKeeps(gone, GivenUp(world.row));
      }
    }
  }

  lemma RecoverKeeps(world: World, now: Time)
    requires Inv(world)
    ensures Inv(Next(world, Recover(now)))
  {
    var after := Next(world, Recover(now));
    if after.row != world.row {
      UnleasedIsFree(world);
      UnheldRowKeeps(world, after.row);
    }
  }

  lemma TickKeeps(world: World, n: nat)
    requires Inv(world)
    ensures Inv(Next(world, Tick(n)))
  {
    var after := Next(world, Tick(n));
    forall w | w in world.workers && Live(after, w) ensures Live(world, w) {
    }
    if world.row.status == Processing {
      var v :| v in world.workers && Active(world.workers[v]) && OwnsRow(world, v);
      assert OwnsRow(after, v);
    }
    assert Owing(after) <==> Owing(world);
  }

  lemma FreeStepsKeep(world: World, s: Step)
    requires Inv(world) && (s.Tick? || s.ReadClock? || s.GiveUp? || s.Recover?)
    ensures Inv(Next(world, s)) && Keeps(world, s)
  {
    match s {
      case Tick(n) => TickKeeps(world, n);
      case ReadClock(w) => if !In(world, w) { QuietKeeps(world, Next(world, s), w); }
      case GiveUp(w) => GiveUpKeeps(world, w);
      case Recover(now) => RecoverKeeps(world, now);
    }
    InvPromises(Next(world, s));
  }

  // Main result: a step breaks the promise or changes a final row if and only if it is a claim, a
  // send or an outcome that comes too late.
  lemma StepExact(world: World, s: Step)
    requires Inv(world)
    ensures Keeps(world, s) <==> Harmless(world, s)
    ensures Harmless(world, s) ==> Inv(Next(world, s))
  {
    match s
    case Claim(w) => ClaimExactly(world, w);
    case Send(w, result) => SendExactly(world, w, result);
    case Record(w) => RecordExactly(world, w);
    case _ => FreeStepsKeep(world, s);
  }

  predicate KeptThroughout(world: World, steps: seq<Step>)
    decreases |steps|
  {
    steps == [] || (Keeps(world, steps[0]) && KeptThroughout(Next(world, steps[0]), steps[1..]))
  }

  // A run keeps the promise and final rows at every step if and only if no step comes too late.
  lemma {:induction false} RunExact(world: World, steps: seq<Step>)
    requires Inv(world)
    ensures KeptThroughout(world, steps) <==> Disciplined(world, steps)
    ensures Disciplined(world, steps) ==> Inv(Run(world, steps))
    decreases |steps|
  {
    if steps != [] {
      StepExact(world, steps[0]);
      if Harmless(world, steps[0]) {
        RunExact(Next(world, steps[0]), steps[1..]);
      }
    }
  }

  // ---- working within the lease ----

  // Sending and recording happen within the lease, and the lease of a worker whose send was
  // accepted does not run out before the outcome is recorded. Crashes before a send are free.
  predicate WithinLease(world: World, s: Step) {
    match s
    case Send(w, _) => In(world, w) && world.workers[w].Holding? ==> Live(world, w)
    case Record(w) => In(world, w) && world.workers[w].Answered? ==> Live(world, w)
    case Tick(n) => LeasesOutlast(world, n)
    case _ => true
  }

  predicate LeasesOutlast(world: World, n: nat) {
    forall w | w in world.workers && OwesRecord(world.workers[w]) :: world.clock + n < world.workers[w].since + world.lease
  }

  predicate LeaseKept(world: World, steps: seq<Step>)
    decreases |steps|
  {
    steps == [] || (WithinLease(world, steps[0]) && LeaseKept(Next(world, steps[0]), steps[1..]))
  }

  predicate OwingIsLive(world: World) {
    forall w | w in world.workers && OwesRecord(world.workers[w]) :: Live(world, w)
  }

  lemma WithinLeaseIsHarmless(world: World, s: Step)
    requires Inv(world) && OwingIsLive(world) && WithinLease(world, s)
    ensures Harmless(world, s) && OwingIsLive(Next(world, s))
  {
    if (s.Send? || s.Record?) && Live(world, s.w) {
      LiveIsAlone(world, s.w);
    }
    if s.Claim? && !Leased(world.row, world.clock, world.lease) {
      UnleasedIsFree(world);
    }
  }

  // Doing everything within the lease is enough.
  lemma {:induction false} LeaseKeptIsDisciplined(world: World, steps: seq<Step>)
    requires Inv(world) && OwingIsLive(world) && LeaseKept(world, steps)
    ensures Disciplined(world, steps)
    decreases |steps|
  {
    if steps != [] {
      WithinLeaseIsHarmless(world, steps[0]);
      StepExact(world, steps[0]);
      LeaseKeptIsDisciplined(Next(world, steps[0]), steps[1..]);
    }
  }

  // ---- what a device sees ----

  lemma {:induction false} FinalStays(world: World, steps: seq<Step>)
    requires Inv(world) && Disciplined(world, steps) && Final(world.row.status)
    ensures Run(world, steps).row == world.row
    decreases |steps|
  {
    if steps != [] {
      StepExact(world, steps[0]);
      FinalStays(Next(world, steps[0]), steps[1..]);
    }
  }

  // Over every disciplined run: at most one accepted send, a sent row means exactly one, no two
  // live workers, and a processing row within its lease has its live worker.
  lemma AtMostOneAcceptedSend(lease: nat, steps: seq<Step>, v: Worker, w: Worker)
    requires Disciplined(Start(lease), steps)
    ensures var world := Run(Start(lease), steps);
            && world.accepted <= 1
            && (world.row.status == Sent ==> world.accepted == 1)
            && (Live(world, v) && Live(world, w) ==> v == w)
            && (Live(world, v) ==> OwnsRow(world, v))
            && (Leased(world.row, world.clock, lease) ==> exists h | h in world.workers :: Live(world, h))
  {
    var world := Run(Start(lease), steps);
    RunExact(Start(lease), steps);
    LeaseIsFixed(Start(lease), steps);
    if Leased(world.row, world.clock, lease) {
      var h :| h in world.workers && Active(world.workers[h]) && OwnsRow(world, h);
      assert Live(world, h);
    }
  }

  lemma {:induction false} LeaseIsFixed(world: World, steps: seq<Step>)
    ensures Run(world, steps).lease == world.lease
    decreases |steps|
  {
    if steps != [] {
      LeaseIsFixed(Next(world, steps[0]), steps[1..]);
    }
  }

  // The first step of a run that comes too late.
  ghost predicate FirstLate(world: World, steps: seq<Step>, i: nat) {
    i < |steps| && Disciplined(world, steps[..i]) && !Harmless(Run(world, steps[..i]), steps[i])
  }

  lemma {:induction false} UndisciplinedHasFirstLate(world: World, steps: seq<Step>) returns (i: nat)
    requires !Disciplined(world, steps)
    ensures FirstLate(world, steps, i)
    decreases |steps|
  {
    if !Harmless(world, steps[0]) {
      i := 0;
    } else {
      var k := UndisciplinedHasFirstLate(Next(world, steps[0]), steps[1..]);
      i := k + 1;
      assert steps[..i][0] == steps[0] && steps[..i][1..] == steps[1..][..k];
    }
  }

  // Main result: whenever a device is notified twice there was a first late step, taken where all
  // was still in order: a claim while an accepted send was unrecorded, a send of an overtaken
  // worker, or an outcome over a held or a final row.
  lemma SecondSendHasCause(lease: nat, steps: seq<Step>) returns (i: nat)
    requires Run(Start(lease), steps).accepted > 1
    ensures FirstLate(Start(lease), steps, i)
    ensures var world := Run(Start(lease), steps[..i]);
            && world.accepted <= 1
            && match steps[i]
               case Claim(w) => LateClaim(world, w)
               case Send(w, result) => LateSend(world, w, result)
               case Record(w) => LateRecord(world, w)
               case _ => false
  {
    if Disciplined(Start(lease), steps) {
      AtMostOneAcceptedSend(lease, steps, 0, 0);
      assert false;
    }
    i := UndisciplinedHasFirstLate(Start(lease), steps);
    AtMostOneAcceptedSend(lease, steps[..i], 0, 0);
  }

  // ---- every final status has its cause ----

  // The step writes the status: a refused token, an accepted send or a give-up after the last
  // retry.
  predicate Causes(world: World, s: Step, status: Status) {
    match status
    case Sent => s.Record? && In(world, s.w) && world.workers[s.w].Answered? && world.workers[s.w].result == Accepted
    case Invalid => s.Record? && In(world, s.w) && world.workers[s.w].Answered? && world.workers[s.w].result == Unregistered
    case Failed => s.GiveUp? && In(world, s.w) && world.workers[s.w].Waiting? && world.row.status == Pending
    case _ => true
  }

  lemma NewStatusHasCause(world: World, s: Step)
    requires Next(world, s).row.status != world.row.status
    ensures Causes(world, s, Next(world, s).row.status)
  {
  }

  // Over every run, late steps or not.
  lemma {:induction false} FinalHasCause(world: World, steps: seq<Step>) returns (i: nat)
    requires Run(world, steps).row.status != world.row.status
    ensures i < |steps| && Causes(Run(world, steps[..i]), steps[i], Run(world, steps).row.status)
    decreases |steps|
  {
    var next := Next(world, steps[0]);
    if next.row.status == Run(world, steps).row.status {
      NewStatusHasCause(world, steps[0]);
      i := 0;
      assert steps[..0] == [];
    } else {
      var k := FinalHasCause(next, steps[1..]);
      i := k + 1;
      assert steps[..i][0] == steps[0] && steps[..i][1..] == steps[1..][..k];
    }
  }

  // A worker whose send failed waits for its next try or for the give-up; any other outcome ends it.
  lemma RecordedWorker(world: World, w: Worker)
    requires In(world, w) && world.workers[w].Answered?
    ensures var after := Next(world, Record(w));
            && after.workers == world.workers[w := if world.workers[w].result == Errored then Waiting else Gone]
            && after.row.status == (match world.workers[w].result case Accepted => Sent case Unregistered => Invalid case Errored => Pending)
            && after.accepted == world.accepted
  {
  }

  // A waiting worker has seen its own send fail, so nothing is given up that was not tried.
  lemma WaitingHasFailed(world: World, s: Step, w: Worker)
    requires In(Next(world, s), w) && Next(world, s).workers[w].Waiting? && !(In(world, w) && world.workers[w].Waiting?)
    ensures s == Record(w) && world.workers[w].Answered? && world.workers[w].result == Errored
  {
  }

  // ---- nothing is lost ----

  predicate ClocksOk(world: World) {
    && (world.row.lastAttemptAt.Some? ==> world.row.lastAttemptAt.value <= world.clock)
    && forall w | w in world.workers && world.workers[w].Reading? :: world.workers[w].now <= world.clock
  }

  lemma {:induction false} ClocksStayOk(world: World, steps: seq<Step>)
    requires ClocksOk(world)
    ensures ClocksOk(Run(world, steps))
    decreases |steps|
  {
    if steps != [] {
      ClocksStayOk(Next(world, steps[0]), steps[1..]);
    }
  }

  function Attempt(v: Worker): seq<Step> {
    [ReadClock(v), Claim(v), Send(v, Accepted), Record(v)]
  }

  lemma ClaimableIsSent(world: World, v: Worker)
    requires !In(world, v) && CanClaim(world.row, world.clock, world.lease)
    ensures Run(world, Attempt(v)).row.status == Sent && Run(world, Attempt(v)).accepted == world.accepted + 1
  {
    var s := Attempt(v);
    assert s[0..] == s && s[4..] == [];
    Peel(world, s, 0);
    var w1 := Next(world, s[0]);
    Peel(w1, s, 1);
    var w2 := Next(w1, s[1]);
    Peel(w2, s, 2);
    var w3 := Next(w2, s[2]);
    Peel(w3, s, 3);
  }

  // After any run a delivery that is not final can still be sent: when the lease is over a new
  // worker takes it, also if every earlier one has died.
  lemma CanStillBeSent(lease: nat, steps: seq<Step>, v: Worker)
    requires var world := Run(Start(lease), steps); !In(world, v) && !Final(world.row.status)
    ensures Run(Run(Start(lease), steps), [Tick(lease)] + Attempt(v)).row.status == Sent
  {
    var world := Run(Start(lease), steps);
    ClocksStayOk(Start(lease), steps);
    LeaseIsFixed(Start(lease), steps);
    assert ([Tick(lease)] + Attempt(v))[1..] == Attempt(v);
    ClaimableIsSent(Next(world, Tick(lease)), v);
  }

  // And a recovery pass hands an expired row to a new worker, which sends it.
  lemma RecoveredIsSent(world: World, v: Worker)
    requires !In(world, v) && world.row.status == Processing && world.row.lastAttemptAt.Some?
    requires world.row.lastAttemptAt.value + world.lease < world.clock
    ensures Next(world, Recover(world.clock)).row.status == Pending
    ensures Run(world, [Recover(world.clock)] + Attempt(v)).row.status == Sent
  {
    RecoveredIsClaimable(world.row, world.clock, world.lease, world.clock);
    assert ([Recover(world.clock)] + Attempt(v))[1..] == Attempt(v);
    ClaimableIsSent(Next(world, Recover(world.clock)), v);
  }

  // ---- exactly when a second send goes out ----

  // While a worker owns the row, another one claims it if and only if the lease is over by the
  // clock it has read.
  lemma ClaimExact(world: World, w: Worker, v: Worker)
    requires In(world, w) && Active(world.workers[w]) && OwnsRow(world, w)
    requires In(world, v) && world.workers[v].Reading?
    ensures DoClaim(world, v).workers[v].Holding? <==> world.workers[v].now >= world.workers[w].since + world.lease
  {
  }

  // So if the first send was accepted but is not recorded, a second worker gets another one
  // accepted if and only if it has read the clock after the lease.
  lemma SecondSendExact(world: World, w: Worker, v: Worker)
    requires In(world, w) && OwesRecord(world.workers[w]) && OwnsRow(world, w) && world.accepted == 1
    requires In(world, v) && world.workers[v].Reading?
    ensures Run(world, [Claim(v), Send(v, Accepted)]).accepted == 2
            <==> world.workers[v].now >= world.workers[w].since + world.lease
  {
    var s := [Claim(v), Send(v, Accepted)];
    ClaimExact(world, w, v);
    assert s[0..] == s;
    Peel(world, s, 0);
    Peel(Next(world, s[0]), s, 1);
    assert s[2..] == [];
  }

  // ---- every late step sends twice ----

  lemma Peel(world: World, steps: seq<Step>, i: nat)
    requires i < |steps|
    ensures Run(world, steps[i..]) == Run(Next(world, steps[i]), steps[i + 1..])
  {
    assert steps[i..][0] == steps[i] && steps[i..][1..] == steps[i + 1..];
  }

  // Worker 0 outlives its lease with an accepted send, and worker 1 reads the clock.
  const Outlived: World := World(
    1, 1, Row(Processing, 1, Some(0)), map[0 := Answered(0, 1, Accepted), 1 := Reading(1)], 1)

  lemma OutlivedIsReached()
    ensures Run(Start(1), [ReadClock(0), Claim(0), Send(0, Accepted), Tick(1), ReadClock(1)]) == Outlived
  {
    var s := [ReadClock(0), Claim(0), Send(0, Accepted), Tick(1), ReadClock(1)];
    assert s[0..] == s && s[5..] == [];
    Peel(Start(1), s, 0);
    var w1 := Next(Start(1), s[0]);
    Peel(w1, s, 1);
    var w2 := Next(w1, s[1]);
    assert w2.row == Row(Processing, 1, Some(0)) && w2.workers == map[0 := Holding(0, 1)];
    Peel(w2, s, 2);
    var w3 := Next(w2, s[2]);
    Peel(w3, s, 3);
    var w4 := Next(w3, s[3]);
    Peel(w4, s, 4);
    assert Next(w4, s[4]).workers == Outlived.workers;
  }

  // A late claim: the device is notified twice.
  lemma LateClaimSendsTwice()
    ensures Run(Start(1), [ReadClock(0), Claim(0), Send(0, Accepted), Tick(1), ReadClock(1)]) == Outlived
    ensures LateClaim(Outlived, 1) && Run(Outlived, [Claim(1), Send(1, Accepted)]).accepted == 2
  {
    OutlivedIsReached();
    assert OwesRecord(Outlived.workers[0]);
    SecondSendExact(Outlived, 0, 1);
  }

  // A lone late outcome does no harm: the lease is over, but nobody else came.
  lemma LoneLateRecordIsHarmless()
    ensures !WithinLease(Alone, Record(0)) && Harmless(Alone, Record(0)) && DoRecord(Alone, 0).row.status == Sent
    ensures Run(Start(1), [ReadClock(0), Claim(0), Send(0, Accepted), Tick(1)]) == Alone
  {
    var s := [ReadClock(0), Claim(0), Send(0, Accepted), Tick(1)];
    assert s[0..] == s && s[4..] == [];
    Peel(Start(1), s, 0);
    var w1 := Next(Start(1), s[0]);
    Peel(w1, s, 1);
    var w2 := Next(w1, s[1]);
    assert w2.row == Row(Processing, 1, Some(0)) && w2.workers == map[0 := Holding(0, 1)];
    Peel(w2, s, 2);
    var w3 := Next(w2, s[2]);
    Peel(w3, s, 3);
    assert Next(w3, s[3]).workers == Alone.workers;
  }

  const Alone: World := Outlived.(workers := map[0 := Answered(0, 1, Accepted)])

  // Worker 0 outlives its lease before it sends, and worker 1 takes the row.
  const Replaced: World := World(
    2, 2, Row(Processing, 2, Some(2)), map[0 := Holding(0, 1), 1 := Holding(2, 2)], 0)

  lemma ReplacedIsReached()
    ensures Run(Start(2), [ReadClock(0), Claim(0), Tick(2), ReadClock(1), Claim(1)]) == Replaced
  {
    var s := [ReadClock(0), Claim(0), Tick(2), ReadClock(1), Claim(1)];
    assert s[0..] == s && s[5..] == [];
    Peel(Start(2), s, 0);
    var w1 := Next(Start(2), s[0]);
    Peel(w1, s, 1);
    var w2 := Next(w1, s[1]);
    assert w2.row == Row(Processing, 1, Some(0)) && w2.workers == map[0 := Holding(0, 1)];
    Peel(w2, s, 2);
    var w3 := Next(w2, s[2]);
    Peel(w3, s, 3);
    var w4 := Next(w3, s[3]);
    assert w4.workers == map[0 := Holding(0, 1), 1 := Reading(2)];
    Peel(w4, s, 4);
    assert Next(w4, s[4]).workers == Replaced.workers;
  }

  // A late send, with no claim after an accepted send and no outcome written at all.
  lemma LateSendSendsTwice()
    ensures Run(Start(2), [ReadClock(0), Claim(0), Tick(2), ReadClock(1), Claim(1)]) == Replaced
    ensures LateSend(Replaced, 0, Accepted) && Run(Replaced, [Send(0, Accepted), Send(1, Accepted)]).accepted == 2
  {
    ReplacedIsReached();
    assert MaySend(Replaced, 1);
    var s := [Send(0, Accepted), Send(1, Accepted)];
    assert s[0..] == s && s[2..] == [];
    Peel(Replaced, s, 0);
    Peel(Next(Replaced, s[0]), s, 1);
  }

  // Worker 0 has learnt of an error, and worker 2 waits for the row.
  const Failing: World := Replaced.(workers := map[0 := Answered(0, 1, Errored), 1 := Holding(2, 2), 2 := Reading(2)])

  lemma FailingIsReached()
    ensures Run(Replaced, [Send(0, Errored), ReadClock(2)]) == Failing
  {
    var s := [Send(0, Errored), ReadClock(2)];
    assert s[0..] == s && s[2..] == [];
    Peel(Replaced, s, 0);
    Peel(Next(Replaced, s[0]), s, 1);
    assert Next(Next(Replaced, s[0]), s[1]).workers == Failing.workers;
  }

  // A late outcome: the row is given away under worker 1, which sends within its lease like
  // worker 2.
  lemma LateRecordSendsTwice()
    ensures Run(Replaced, [Send(0, Errored), ReadClock(2)]) == Failing
    ensures LateRecord(Failing, 0)
    ensures Run(Failing, [Record(0), Claim(2), Send(1, Accepted), Send(2, Accepted)]).accepted == 2
  {
    FailingIsReached();
    assert Live(Failing, 1);
    var s := [Record(0), Claim(2), Send(1, Accepted), Send(2, Accepted)];
    assert s[0..] == s && s[4..] == [];
    Peel(Failing, s, 0);
    var w1 := Next(Failing, s[0]);
    assert w1.row == Row(Pending, 2, Some(2)) && w1.workers[2] == Reading(2) && w1.workers[1] == Holding(2, 2);
    Peel(w1, s, 1);
    var w2 := Next(w1, s[1]);
    assert w2.workers[2] == Holding(2, 3) && w2.workers[1] == Holding(2, 2) && w2.accepted == 0;
    Peel(w2, s, 2);
    var w3 := Next(w2, s[2]);
    assert w3.workers[2] == Holding(2, 3) && w3.accepted == 1;
    Peel(w3, s, 3);
  }
}
