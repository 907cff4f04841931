// The job worker (execute_marketplace_job in apps/orchestrator/tasks.py): claim, one attempt per
// target with an external call between two transactions, and the verdict on the whole job.
// Other transactions may commit before and during every external call.
module Worker {
  import opened Common
  import opened EanPool
  import opened Listings
  import opened Lifecycle
  import opened LifecycleHistory
  import opened ExternalJson
  import opened JsonSnapshot

  // What the marketplace call comes to: an answer, a TypeError or ValueError, or any other
  // exception, which ends the worker.
  datatype Reply = Answer(ok: bool, statusCode: string, details: Json) | BadInput(reason: string) | Crash {
    predicate IsOk() {
      Answer? && ok
    }
  }

  datatype Call = Call(before: seq<Step>, during: seq<Step>, reply: Reply, now: Time, publicationId: string)

  // ---- one target ----

  // Won and Lost targets have their attempt recorded, a search only has its answer, NotSent
  // targets are refused before the call, and Broken ends the worker.
  datatype Verdict = Won(first: bool, consumed: bool) | Lost | Looked(ok: bool) | NotSent | Broken {
    predicate IsOk() {
      Won? || (Looked? && ok)
    }
  }

  function EanOf(d: Depot, k: Key): string {
    if k.product in d.products then d.products[k.product].codes.CodeFor(k.account) else ""
  }

  // The card that the worker loads with the job when it claims it.
  function LoadedCard(d: Depot, j: JobId): EanCard {
    if j in d.jobs && d.jobs[j].product in d.products then d.products[d.jobs[j].product].codes else EanCard("", "")
  }

  predicate Startable(d: Depot, j: JobId, k: Key) {
    CanWork(d, j, k) && Start(Existing(d, k), d.jobs[j].op, EanOf(d, k), j).Some?
  }

  // The EAN row that a first success of a publish has to consume can be consumed.
  predicate Consumable(d: Depot, a: Attempt)
    requires Open(d, a)
  {
    d.jobs[a.job].op == Publish && FirstSuccess(d.listings[a.key], Publish) ==>
      a.key.product in d.products
      && !Consume(d.rows, d.products[a.key.product].codes, a.key.product, a.key.account).Refused?
  }

  function OwnSteps(a: Attempt, reply: Reply, now: Time): seq<Step> {
    if reply.Crash? then [] else if reply.IsOk() then [Succeed(a, now)] else [Fail(a)]
  }

  // The transactions that commit while the worker handles one target.
  function TargetSteps(d: Depot, j: JobId, card: EanCard, k: Key, call: Call): seq<Step> {
    var ready := Run(d, call.before);
    if !CanWork(ready, j, k) || card.CodeFor(k.account) == "" then call.before
    else if ready.jobs[j].op == Search then call.before + call.during
    else if !Startable(ready, j, k) then call.before
    else call.before + SendSteps(j, k, call)
  }

  function SendSteps(j: JobId, k: Key, call: Call): seq<Step> {
    [StartAttempt(j, k)] + call.during + OwnSteps(Attempt(j, k), call.reply, call.now)
  }

  // How a recorded attempt leaves its listing.
  predicate Settled(d: Depot, a: Attempt, won: bool) {
    && a !in d.open && a.job in d.jobs && a.key in d.listings && d.jobs[a.job].op != Search
    && d.listings[a.key].saved.None? && d.listings[a.key].lastJob == Some(a.job)
    && (won ==> d.listings[a.key].status == StatusAfter(d.jobs[a.job].op))
    && (!won && d.jobs[a.job].op == Publish ==> d.listings[a.key].status == Failed)
  }

  predicate CodeSpent(d: Depot, k: Key) {
    exists i | 0 <= i < |d.rows| :: Holds(d.rows[i], k.product, k.account, EanOf(d, k)) && d.rows[i].state == Consumed
  }

  lemma ConsumptionSpends(d: Depot, k: Key)
    requires k.product in d.products
    ensures var c := Consume(d.rows, d.products[k.product].codes, k.product, k.account);
            !c.Refused? ==> CodeSpent(d.(rows := AfterConsume(d.rows, c)), k)
  {
    var c := Consume(d.rows, d.products[k.product].codes, k.product, k.account);
    if !c.Refused? {
      var i := FindRow(d.rows, k.product, k.account, EanOf(d, k)).value;
      assert Holds(AfterConsume(d.rows, c)[i], k.product, k.account, EanOf(d, k));
    }
  }

  class Database {
    var depot: Depot

    method Others(steps: seq<Step>)
      modifies this
      ensures depot == Run(old(depot), steps)
    {
      depot := Run(depot, steps);
    }

    // Success and EAN consumption in one transaction, or failure.
    method Record(a: Attempt, reply: Reply, now: Time) returns (verdict: Verdict)
      modifies this
      ensures depot == Run(old(depot), OwnSteps(a, reply, now))
      ensures verdict == Broken <==>
                reply.Crash? || !Open(old(depot), a) || (reply.IsOk() && !Consumable(old(depot), a))
      ensures verdict != Broken ==> verdict.Won? == reply.IsOk() && (verdict.Won? || verdict.Lost?)
      ensures verdict != Broken ==> Settled(depot, a, verdict.Won?)
      ensures verdict.Won? && depot.jobs[a.job].op == Publish && verdict.first ==> CodeSpent(depot, a.key)
    {
      if reply.Crash? {
        return Broken;
      }
      RunOne(depot, if reply.IsOk() then Succeed(a, now) else Fail(a));
      if !reply.IsOk() {
        verdict := if Open(depot, a) then Lost else Broken;
        depot := DoFail(depot, a);
        return;
      }
      verdict := Broken;
      if Open(depot, a) && Consumable(depot, a) {
        var first := FirstSuccess(depot.listings[a.key], depot.jobs[a.job].op);
        verdict := Won(first, first && depot.jobs[a.job].op == Publish
                              && Consume(depot.rows, depot.products[a.key.product].codes, a.key.product, a.key.account).NewlyConsumed?);
      }
      ghost var d := depot;
      depot := DoSucceed(depot, a, now);
      if verdict.Won? && depot.jobs[a.job].op == Publish && verdict.first {
        ConsumptionSpends(d, a.key);
      }
    }

    // One target: start, call, record.
    method ExecuteTarget(j: JobId, card: EanCard, k: Key, call: Call) returns (verdict: Verdict)
      modifies this
      ensures depot == Run(old(depot), TargetSteps(old(depot), j, card, k, call))
      ensures verdict == NotSent ==> depot == Run(old(depot), call.before)
      ensures verdict.Won? || verdict.Lost? ==> Settled(depot, Attempt(j, k), verdict.Won?)
      ensures verdict != Broken ==> verdict.IsOk() == (verdict != NotSent && call.reply.IsOk())
      ensures verdict.Won? && depot.jobs[j].op == Publish && verdict.first ==> CodeSpent(depot, k)
    {
      ghost var d := depot;
      Others(call.before);
      if !CanWork(depot, j, k) {
        return Broken;
      }
      if card.CodeFor(k.account) == "" {
        return NotSent;
      }
      if depot.jobs[j].op == Search {
        RunAppend(d, call.before, call.during);
        Others(call.during);
        return if call.reply.Crash? then Broken else Looked(call.reply.IsOk());
      }
      if !Startable(depot, j, k) {
        return NotSent;
      }
      RunAppend(d, call.before, SendSteps(j, k, call));
      verdict := Send(j, k, call);
    }

    // A publication attempt: start, call, record.
    method Send(j: JobId, k: Key, call: Call) returns (verdict: Verdict)
      requires Startable(depot, j, k)
      modifies this
      ensures depot == Run(old(depot), SendSteps(j, k, call))
      ensures verdict.Won? || verdict.Lost? || verdict == Broken
      ensures verdict != Broken ==> Settled(depot, Attempt(j, k), verdict.Won?) && verdict.Won? == call.reply.IsOk()
      ensures verdict.Won? && depot.jobs[j].op == Publish && verdict.first ==> CodeSpent(depot, k)
    {
      ThreeStages(depot, StartAttempt(j, k), call.during, OwnSteps(Attempt(j, k), call.reply, call.now));
      depot := DoStart(depot, j, k);
      Others(call.during);
      verdict := Record(Attempt(j, k), call.reply, call.now);
    }
  }

  lemma ThreeStages(d: Depot, s: Step, more: seq<Step>, last: seq<Step>)
    ensures Run(d, [s] + more + last) == Run(Run(Next(d, s), more), last)
  {
    RunOne(d, s);
    RunAppend(d, [s], more);
    RunAppend(d, [s] + more, last);
  }

  // Which transactions a target comes to: a start exactly where an attempt may begin, what others do
  // during the call, and then its own success or failure; a crash leaves the attempt open. A search
  // only makes the call, and anything else nothing at all.
  lemma TargetStepsSay(d: Depot, j: JobId, card: EanCard, k: Key, call: Call)
    ensures var ready := Run(d, call.before);
            var own := match call.reply
              case Crash => []
              case Answer(true, _, _) => [Succeed(Attempt(j, k), call.now)]
              case _ => [Fail(Attempt(j, k))];
            TargetSteps(d, j, card, k, call)
            == if card.CodeFor(k.account) != "" && MayBegin(ready, j, k) then call.before + ([StartAttempt(j, k)] + call.during + own)
               else if card.CodeFor(k.account) != "" && CanWork(ready, j, k) && ready.jobs[j].op == Search then call.before + call.during
               else call.before
  {
    var ready := Run(d, call.before);
    if CanWork(ready, j, k) && ready.jobs[j].op != Search {
      StartSays(ready, j, k);
      assert Startable(ready, j, k) <==> MayBegin(ready, j, k);
    }
  }

  // ---- the job ----

  function Answered(reply: Reply): seq<Field> {
    match reply
    case Answer(ok, statusCode, details) =>
      [Field("ok", Bool(ok)), Field("status_code", Num(statusCode)), Field("details", details)]
    case _ =>
      [Field("ok", Bool(false)), Field("status_code", Num("400")),
       Field("details", Obj([Field("code", Str("marketplace_dispatch_failed")), Field("reason", Str(if reply.BadInput? then reply.reason else ""))]))]
  }

  function MarketplaceName(m: Marketplace): string {
    match m
    case Otto => "otto"
    case Hood => "hood"
    case Kaufland => "kaufland"
  }

  // The entry of one target in job.results, before compaction.
  function Entry(k: Key, ean: string, verdict: Verdict, call: Call): Json {
    var reply := if verdict == NotSent then BadInput("") else call.reply;
    Obj([Field("marketplace", Str(MarketplaceName(k.marketplace))),
         Field("account", Str(if k.account == JV then "jv" else "xl")),
         Field("ean", Str(if reply.BadInput? then "" else ean)),
         Field("publication_id", if verdict.Won? || verdict.Lost? then Num(call.publicationId) else Null),
         Field("first_successful_publication", Bool(verdict.Won? && verdict.first)),
         Field("ean_consumed", Bool(verdict.Won? && verdict.consumed)),
         Field("awaiting_marketplace_confirmation", Bool(false))] + Answered(reply))
  }

  // The entry names its target, tells the call's answer and says what came of it; a target that
  // was not sent has no EAN and no publication.
  lemma EntrySays(k: Key, ean: string, verdict: Verdict, call: Call)
    ensures var entry := Entry(k, ean, verdict, call);
            && entry.Obj?
            && Field("marketplace", Str(if k.marketplace == Otto then "otto" else if k.marketplace == Hood then "hood" else "kaufland")) in entry.fields
            && Field("account", Str(if k.account == JV then "jv" else "xl")) in entry.fields
            && Field("ean", Str(if verdict == NotSent || call.reply.BadInput? then "" else ean)) in entry.fields
            && Field("publication_id", if verdict.Won? || verdict.Lost? then Num(call.publicationId) else Null) in entry.fields
            && Field("first_successful_publication", Bool(verdict.Won? && verdict.first)) in entry.fields
            && Field("ean_consumed", Bool(verdict.Won? && verdict.consumed)) in entry.fields
            && (verdict != NotSent && call.reply.Answer? ==>
                  && Field("ok", Bool(call.reply.ok)) in entry.fields && Field("status_code", Num(call.reply.statusCode)) in entry.fields
                  && Field("details", call.reply.details) in entry.fields)
            && (verdict == NotSent || call.reply.BadInput? ==>
                  Field("ok", Bool(false)) in entry.fields && Field("status_code", Num("400")) in entry.fields)
  {
    var fields := Entry(k, ean, verdict, call).fields;
    assert fields[0] in fields && fields[1] in fields && fields[2] in fields && fields[3] in fields && fields[4] in fields;
    assert fields[5] in fields && fields[7] in fields && fields[8] in fields && fields[9] in fields;
  }

  // Bodies are built anew for a publish, an update and an activation, if that succeeds.
  lemma BodiesSay(op: Operation, stored: Json, built: Json)
    ensures Bodies(op, stored, None) == stored
    ensures Bodies(op, stored, Some(built)) == if op in {Publish, Update, Activate} then built else stored
  {
  }

  predicate Says(entry: Json, key: string) {
    entry.Obj? && Field(key, Bool(true)) in entry.fields
  }

  // _refresh_job_status.
  method RefreshedStatus(results: seq<Json>) returns (status: JobStatus)
    ensures JudgedBy(status, results)
  {
    if exists r | r in results :: Says(r, "awaiting_marketplace_confirmation") {
      status := PendingConfirmation;
    } else if results != [] && forall r | r in results :: Says(r, "ok") {
      assert results[0] in results;
      status := JobSucceeded;
    } else if results != [] && !exists r | r in results :: Says(r, "ok") {
      status := JobFailed;
    } else {
      status := Partial;
    }
  }

  // The transactions of the first n targets, in order.
  function JobSteps(d: Depot, j: JobId, card: EanCard, targets: seq<Key>, calls: seq<Call>, n: nat): seq<Step>
    requires n <= |targets| == |calls|
  {
    if n == 0 then []
    else
      var before := JobSteps(d, j, card, targets, calls, n - 1);
      before + TargetSteps(Run(d, before), j, card, targets[n - 1], calls[n - 1])
  }

  // The first n targets have been worked off from d, in these steps, with this result.
  ghost predicate Worked(d: Depot, e: Depot, steps: seq<Step>, j: JobId, card: EanCard, targets: seq<Key>, calls: seq<Call>, n: nat)
    requires n <= |targets| == |calls|
  {
    forall ss | ss == JobSteps(d, j, card, targets, calls, n) :: steps == ss && e == Run(d, ss)
  }

  lemma NothingWorked(d: Depot, j: JobId, card: EanCard, targets: seq<Key>, calls: seq<Call>)
    requires |targets| == |calls|
    ensures Worked(d, d, [], j, card, targets, calls, 0)
  {
    assert Run(d, []) == d;
  }

  lemma WorkedMeans(d: Depot, e: Depot, steps: seq<Step>, j: JobId, card: EanCard, targets: seq<Key>, calls: seq<Call>, n: nat)
    requires n <= |targets| == |calls| && Worked(d, e, steps, j, card, targets, calls, n)
    ensures steps == JobSteps(d, j, card, targets, calls, n) && e == Run(d, steps)
  {
    assert e == Run(d, JobSteps(d, j, card, targets, calls, n));
  }

  // Bodies are rebuilt for these operations; a failed build falls back on the stored ones.
  predicate Rebuilds(op: Operation) {
    op == Publish || op == Update || op == Activate
  }

  function Bodies(op: Operation, stored: Json, built: Option<Json>): Json {
    if Rebuilds(op) && built.Some? then built.value else stored
  }

  datatype Outcome = NotQueued | Checking | BodiesTruncated | WorkerLost | Finished(status: JobStatus)

  // job.results holds each entry compacted.
  predicate Compacted(results: seq<Json>, saved: seq<Json>, lim: Limits) {
    |saved| == |results| && forall i | 0 <= i < |results| :: saved[i] == JsonSnapshot.Snapshot(results[i], lim)
  }

  method CompactEntries(results: seq<Json>, lim: Limits) returns (saved: seq<Json>)
    ensures Compacted(results, saved, lim)
  {
    saved := [];
    for i := 0 to |results|
      invariant |saved| == i && forall n | 0 <= n < i :: saved[n] == JsonSnapshot.Snapshot(results[n], lim)
    {
      var entry := CompactExternalJson(results[i], lim);
      saved := saved + [entry];
    }
  }

  class Executor {
    const db: Database
    const lim: Limits

    constructor (db: Database, lim: Limits)
      ensures this.db == db && this.lim == lim
    {
      this.db, this.lim := db, lim;
    }

    // The next target; the worker stops when it breaks.
    method ExecuteNext(ghost d: Depot, j: JobId, card: EanCard, targets: seq<Key>, calls: seq<Call>, ghost steps: seq<Step>,
                       verdicts: seq<Verdict>, results: seq<Json>)
      returns (verdict: Verdict, result: Json, ghost more: seq<Step>)
      requires |verdicts| == |results| < |targets| == |calls|
      requires Worked(d, db.depot, steps, j, card, targets, calls, |results|)
      requires Reported(card, targets, calls, verdicts, results)
      modifies db
      ensures Worked(d, db.depot, more, j, card, targets, calls, |results| + 1)
      ensures verdict != Broken ==> Reported(card, targets, calls, verdicts + [verdict], results + [result])
    {
      var k, call := targets[|results|], calls[|results|];
      var ean := card.CodeFor(k.account);
      WorkedMeans(d, db.depot, steps, j, card, targets, calls, |results|);
      RunAppend(d, steps, TargetSteps(db.depot, j, card, k, call));
      more := steps + TargetSteps(db.depot, j, card, k, call);
      verdict := db.ExecuteTarget(j, card, k, call);
      result := Entry(k, ean, verdict, call);
      if verdict != Broken {
        ReportOneMore(card, targets, calls, verdicts, results, verdict, result);
      }
    }

    method ExecuteTargets(j: JobId, card: EanCard, targets: seq<Key>, calls: seq<Call>) returns (verdicts: seq<Verdict>, results: seq<Json>, ghost steps: seq<Step>)
      requires |targets| == |calls|
      modifies db
      ensures |verdicts| == |results| <= |targets|
      ensures Worked(old(db.depot), db.depot, steps, j, card, targets, calls, if |results| < |targets| then |results| + 1 else |targets|)
      ensures Reported(card, targets, calls, verdicts, results)
    {
      ghost var d := db.depot;
      verdicts, results, steps := [], [], [];
      NothingWorked(d, j, card, targets, calls);
      while |results| < |targets|
        invariant |verdicts| == |results| <= |targets|
        invariant Worked(d, db.depot, steps, j, card, targets, calls, |results|)
        invariant Reported(card, targets, calls, verdicts, results)
      {
        var verdict, result;
        verdict, result, steps := ExecuteNext(d, j, card, targets, calls, steps, verdicts, results);
        if verdict == Broken {
          return;
        }
        verdicts, results := verdicts + [verdict], results + [result];
      }
    }

    // Claims the job under its row lock: only one delivery of a job gets through.
    method ClaimJob(j: JobId) returns (claimed: bool, ghost steps: seq<Step>)
      modifies db
      ensures claimed == (j in old(db.depot).jobs && old(db.depot).jobs[j].status == Queued)
      ensures steps == if claimed then [Step.Claim(j)] else []
      ensures db.depot == Run(old(db.depot), steps)
      ensures claimed ==> j in db.depot.jobs && db.depot.jobs[j].op == old(db.depot).jobs[j].op
    {
      RunOne(db.depot, Step.Claim(j));
      if j !in db.depot.jobs || db.depot.jobs[j].status != Queued {
        return false, [];
      }
      db.depot := DoClaim(db.depot, j);
      return true, [Step.Claim(j)];
    }

    method SaveStatus(ghost d: Depot, ghost before: seq<Step>, j: JobId, status: JobStatus) returns (ghost steps: seq<Step>)
      requires db.depot == Run(d, before)
      modifies db
      ensures steps == before + [RefreshJob(j, status)] && db.depot == Run(d, steps)
    {
      RunAppend(d, before, [RefreshJob(j, status)]);
      RunOne(db.depot, RefreshJob(j, status));
      db.depot := DoRefresh(db.depot, j, status);
      steps := before + [RefreshJob(j, status)];
    }

    method ExecuteMarketplaceJob(j: JobId, targets: seq<Key>, stored: Json, legacy: Json, built: Option<Json>, calls: seq<Call>)
      returns (outcome: Outcome, verdicts: seq<Verdict>, results: seq<Json>, saved: seq<Json>, ghost steps: seq<Step>)
      requires |targets| == |calls|
      modifies db
      ensures db.depot == Run(old(db.depot), steps)
      ensures outcome == NotQueued <==> !(j in old(db.depot).jobs && old(db.depot).jobs[j].status == Queued)
      ensures outcome == NotQueued ==> steps == []
      ensures outcome == BodiesTruncated ==> steps == [Step.Claim(j), RefreshJob(j, JobFailed)]
      ensures outcome == BodiesTruncated <==>
                && outcome != NotQueued && outcome != Checking
                && (Detects(Bodies(old(db.depot).jobs[j].op, stored, built)) || Detects(legacy))
      ensures outcome == Checking ==> steps == [Step.Claim(j)]
      ensures |verdicts| == |results| <= |targets| && Reported(LoadedCard(old(db.depot), j), targets, calls, verdicts, results)
      ensures outcome.Finished? ==>
                && |results| == |targets| && Compacted(results, saved, lim) && JudgedBy(outcome.status, saved)
                && steps == [Step.Claim(j)] + JobSteps(Run(old(db.depot), [Step.Claim(j)]), j, LoadedCard(old(db.depot), j), targets, calls, |targets|) + [RefreshJob(j, outcome.status)]
      ensures outcome == WorkerLost ==>
                && |results| < |targets|
                && steps == [Step.Claim(j)] + JobSteps(Run(old(db.depot), [Step.Claim(j)]), j, LoadedCard(old(db.depot), j), targets, calls, |results| + 1)
    {
      ghost var d := db.depot;
      verdicts, results, saved := [], [], [];
      var card := LoadedCard(db.depot, j);
      var claimed;
      claimed, steps := ClaimJob(j);
      if !claimed {
        return NotQueued, [], [], [], steps;
      }
      if db.depot.jobs[j].check.Some? {
        return Checking, [], [], [], steps;
      }
      var found := PayloadContainsTruncationMarkers(Bodies(db.depot.jobs[j].op, stored, built));
      var foundLegacy := PayloadContainsTruncationMarkers(legacy);
      if found || foundLegacy {
        steps := SaveStatus(d, steps, j, JobFailed);
        return BodiesTruncated, [], [], [], steps;
      }
      outcome, verdicts, results, saved, steps := ExecuteClaimed(d, steps, j, card, targets, calls);
    }

    method ExecuteClaimed(ghost d: Depot, ghost before: seq<Step>, j: JobId, card: EanCard, targets: seq<Key>, calls: seq<Call>)
      returns (outcome: Outcome, verdicts: seq<Verdict>, results: seq<Json>, saved: seq<Json>, ghost steps: seq<Step>)
      requires |targets| == |calls| && db.depot == Run(d, before)
      modifies db
      ensures db.depot == Run(d, steps)
      ensures |verdicts| == |results| <= |targets| && Reported(card, targets, calls, verdicts, results)
      ensures outcome.Finished? || outcome == WorkerLost
      ensures outcome.Finished? ==>
                && |results| == |targets| && Compacted(results, saved, lim) && JudgedBy(outcome.status, saved)
                && steps == before + JobSteps(old(db.depot), j, card, targets, calls, |targets|) + [RefreshJob(j, outcome.status)]
      ensures outcome == WorkerLost ==>
                |results| < |targets| && steps == before + JobSteps(old(db.depot), j, card, targets, calls, |results| + 1)
    {
      ghost var own;
      ghost var claimed := db.depot;
      verdicts, results, own := ExecuteTargets(j, card, targets, calls);
      WorkedMeans(claimed, db.depot, own, j, card, targets, calls, if |results| < |targets| then |results| + 1 else |targets|);
      RunAppend(d, before, own);
      steps := before + own;
      if |results| < |targets| {
        return WorkerLost, verdicts, results, [], steps;
      }
      saved := CompactEntries(results, lim);
      var status := RefreshedStatus(saved);
      steps := SaveStatus(d, steps, j, status);
      outcome := Finished(status);
    }
  }

  // One entry for each target dealt with, true to its call.
  ghost predicate Reported(card: EanCard, targets: seq<Key>, calls: seq<Call>, verdicts: seq<Verdict>, results: seq<Json>)
    requires |verdicts| == |results| <= |targets| == |calls|
  {
    forall i | 0 <= i < |verdicts| ::
      && verdicts[i].IsOk() == (verdicts[i] != NotSent && calls[i].reply.IsOk())
      && EntryOf(card, targets[i], verdicts[i], calls[i], results[i])
  }

  predicate EntryOf(card: EanCard, k: Key, verdict: Verdict, call: Call, entry: Json) {
    entry == Entry(k, card.CodeFor(k.account), verdict, call)
  }

  lemma ReportOneMore(card: EanCard, targets: seq<Key>, calls: seq<Call>, verdicts: seq<Verdict>, results: seq<Json>,
                      verdict: Verdict, result: Json)
    requires |verdicts| == |results| < |targets| == |calls| && Reported(card, targets, calls, verdicts, results)
    requires verdict.IsOk() == (verdict != NotSent && calls[|results|].reply.IsOk())
    requires EntryOf(card, targets[|results|], verdict, calls[|results|], result)
    ensures Reported(card, targets, calls, verdicts + [verdict], results + [result])
  {
  }

  predicate JudgedBy(status: JobStatus, results: seq<Json>) {
    && (status == PendingConfirmation <==> exists r | r in results :: Says(r, "awaiting_marketplace_confirmation"))
    && (status == JobSucceeded <==> status != PendingConfirmation && results != [] && forall r | r in results :: Says(r, "ok"))
    && (status == JobFailed <==> status != PendingConfirmation && results != [] && forall r | r in results :: !Says(r, "ok"))
    && status in {PendingConfirmation, JobSucceeded, JobFailed, Partial}
  }

  // ---- replacing the result of one target ----

  function About(marketplace: string, account: string): Json -> bool {
    (entry: Json) => entry.Obj? && Field("marketplace", Str(marketplace)) in entry.fields && Field("account", Str(account)) in entry.fields
  }

  function ReplaceFirst<T>(xs: seq<T>, matches: T -> bool, x: T): seq<T> {
    if xs == [] then [x]
    else if matches(xs[0]) then [x] + xs[1..]
    else [xs[0]] + ReplaceFirst(xs[1..], matches, x)
  }

  method WithReplacement<T>(xs: seq<T>, matches: T -> bool, x: T) returns (r: seq<T>)
    ensures r == ReplaceFirst(xs, matches, x)
  {
    var index := 0;
    while index < |xs| && !matches(xs[index])
      invariant index <= |xs|
      invariant ReplaceFirst(xs, matches, x) == xs[..index] + ReplaceFirst(xs[index..], matches, x)
    {
      assert xs[index..][1..] == xs[index + 1..];
      index := index + 1;
    }
    r := if index < |xs| then xs[index := x] else xs + [x];
    assert index < |xs| ==> r == xs[..index] + ([x] + xs[index..][1..]);
  }

  // _set_job_target_result: the first entry about the target is replaced, or one is added.
  method SetJobTargetResult(results: seq<Json>, marketplace: string, account: string, replacement: Json, lim: Limits)
    returns (saved: seq<Json>)
    ensures Compacted(ReplaceFirst(results, About(marketplace, account), replacement), saved, lim)
  {
    var recorded := WithReplacement(results, About(marketplace, account), replacement);
    saved := CompactEntries(recorded, lim);
  }

  predicate AtMostOne<T>(xs: seq<T>, matches: T -> bool) {
    forall i, j | 0 <= i < j < |xs| :: !(matches(xs[i]) && matches(xs[j]))
  }

  // With at most one entry per target, the new result is the only one about its target, and the
  // entries about the others stay, in place.
  lemma {:induction false} OnlyTheTargetIsReplaced<T>(xs: seq<T>, matches: T -> bool, x: T)
    requires matches(x) && AtMostOne(xs, matches)
    ensures var r := ReplaceFirst(xs, matches, x);
            && x in r && AtMostOne(r, matches)
            && |xs| <= |r| <= |xs| + 1
            && (forall i | 0 <= i < |r| :: if matches(r[i]) then r[i] == x else i < |xs| && r[i] == xs[i])
            && (forall i | 0 <= i < |xs| && !matches(xs[i]) :: r[i] == xs[i])
  {
    if xs != [] && !matches(xs[0]) {
      assert forall i | 0 <= i < |xs[1..]| :: xs[1..][i] == xs[i + 1];
      OnlyTheTargetIsReplaced(xs[1..], matches, x);
    }
  }
}
