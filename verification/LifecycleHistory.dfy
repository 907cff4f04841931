// What the rows of the depot tell about what has happened to them.
module LifecycleHistory {
  import opened Common
  import opened EanPool
  import opened Listings
  import opened Lifecycle
  import opened LifecycleSafety
  import opened LifecycleRuns

  // ---- a deleted listing stays deleted ----

  // The listing is deleted or gone, and no worker has an attempt on it.
  predicate Shut(d: Depot, k: Key) {
    (k in d.listings ==> d.listings[k].status == Deleted) && forall a | a in d.open :: a.key != k
  }

  // A publish of the listing or a reconciliation of it.
  predicate Reopens(d: Depot, s: Step, k: Key) {
    match s
    case StartAttempt(j, q) => q == k && j in d.jobs && d.jobs[j].op == Publish
    case ReconcileManual(q, _, _) => q == k
    case ReconcileFinish(j, _, _) => j in d.jobs && d.jobs[j].check.Some? && d.jobs[j].check.value.key == k
    case _ => false
  }

  lemma StartStaysShut(d: Depot, j: JobId, q: Key, k: Key)
    requires Shut(d, k) && !Reopens(d, StartAttempt(j, q), k)
    ensures Shut(DoStart(d, j, q), k)
  {
  }

  lemma ReconcileStaysShut(d: Depot, s: Step, k: Key)
    requires Shut(d, k) && !Reopens(d, s, k) && (s.ReconcileManual? || s.ReconcileFinish? || s.ReconcileCheck?)
    ensures Shut(Next(d, s), k)
  {
  }

  lemma OutcomeStaysShut(d: Depot, s: Step, k: Key)
    requires Shut(d, k) && (s.AwaitConfirmation? || s.Succeed? || s.Fail?)
    ensures Shut(Next(d, s), k)
  {
  }

  lemma ListingStateStaysShut(d: Depot, s: Step, k: Key)
    requires Shut(d, k) && (s.ListingState? || s.Purge?)
    ensures Shut(Next(d, s), k)
  {
  }

  lemma OthersStayShut(d: Depot, s: Step, k: Key)
    requires Shut(d, k) && !s.StartAttempt? && !s.ListingState? && !s.Purge?
    requires !s.ReconcileManual? && !s.ReconcileFinish? && !s.ReconcileCheck? && !s.AwaitConfirmation? && !s.Succeed? && !s.Fail?
    ensures Shut(Next(d, s), k)
  {
  }

  lemma StepStaysShut(d: Depot, s: Step, k: Key)
    requires Shut(d, k) && !Reopens(d, s, k)
    ensures Shut(Next(d, s), k)
  {
    if s.StartAttempt? {
      StartStaysShut(d, s.job, s.key, k);
    } else if s.ReconcileManual? || s.ReconcileFinish? || s.ReconcileCheck? {
      ReconcileStaysShut(d, s, k);
    } else if s.AwaitConfirmation? || s.Succeed? || s.Fail? {
      OutcomeStaysShut(d, s, k);
    } else if s.ListingState? || s.Purge? {
      ListingStateStaysShut(d, s, k);
    } else {
      OthersStayShut(d, s, k);
    }
  }

  ghost predicate NeverReopens(d: Depot, steps: seq<Step>, k: Key)
    decreases |steps|
  {
    steps == [] || (!Reopens(d, steps[0], k) && NeverReopens(Next(d, steps[0]), steps[1..], k))
  }

  // Over every run from a deletion on: until a publish or a reconciliation the listing is deleted
  // or gone, and no job of another operation can start on it.
  lemma {:induction false} DeletedStaysOff(d: Depot, steps: seq<Step>, k: Key, j: JobId)
    requires Shut(d, k) && NeverReopens(d, steps, k)
    ensures var e := Run(d, steps);
            && (k in e.listings ==> e.listings[k].status == Deleted)
            && (j in e.jobs && e.jobs[j].op != Publish ==> DoStart(e, j, k) == e)
    decreases |steps|
  {
    if steps != [] {
      StepStaysShut(d, steps[0], k);
      DeletedStaysOff(Next(d, steps[0]), steps[1..], k, j);
    }
  }

  // It begins with the success of the only attempt under way.
  lemma DeleteShuts(d: Depot, a: Attempt, now: Time)
    requires Open(d, a) && d.jobs[a.job].op == Delete && forall b | b in d.open && b != a :: b.key != a.key
    ensures var e := DoSucceed(d, a, now);
            Shut(e, a.key) && a.key in e.listings && e.listings[a.key].status == Deleted && e.listings[a.key].deletedAt.Some?
  {
  }

  // ---- the version of a listing tells whether it was written ----

  predicate Written(d: Depot, e: Depot, k: Key)
    requires k in d.listings && k in e.listings
  {
    if e.listings[k] == d.listings[k] then true else e.listings[k].version > d.listings[k].version
  }

  lemma AttemptWrites(d: Depot, s: Step, k: Key)
    requires k in d.listings && (s.StartAttempt? || s.AwaitConfirmation? || s.Succeed? || s.Fail?)
    ensures k in Next(d, s).listings && Written(d, Next(d, s), k)
  {
  }

  lemma ReconcileWrites(d: Depot, s: Step, k: Key)
    requires k in d.listings && (s.ReconcileManual? || s.ReconcileFinish?)
    ensures k in Next(d, s).listings && Written(d, Next(d, s), k)
  {
  }

  lemma BulkWrites(d: Depot, s: Step, k: Key)
    requires k in d.listings && (s.ListingState? || s.Purge?) && k in Next(d, s).listings
    ensures Written(d, Next(d, s), k)
  {
  }

  lemma StepWrites(d: Depot, s: Step, k: Key)
    requires k in d.listings && k in Next(d, s).listings
    ensures Written(d, Next(d, s), k)
  {
    if s.StartAttempt? || s.AwaitConfirmation? || s.Succeed? || s.Fail? {
      AttemptWrites(d, s, k);
    } else if s.ReconcileManual? || s.ReconcileFinish? {
      ReconcileWrites(d, s, k);
    } else if s.ListingState? || s.Purge? {
      BulkWrites(d, s, k);
    } else {
      OthersLeaveListings(d, s);
    }
  }

  lemma OthersLeaveListings(d: Depot, s: Step)
    requires !s.StartAttempt? && !s.AwaitConfirmation? && !s.Succeed? && !s.Fail?
    requires !s.ReconcileManual? && !s.ReconcileFinish? && !s.ListingState? && !s.Purge?
    ensures Next(d, s).listings == d.listings
  {
  }

  predicate ListingsHaveProducts(d: Depot) {
    forall k | k in d.listings :: k.product in d.products && k.product < d.nextProduct
  }

  lemma StepHasProducts(d: Depot, s: Step)
    requires PoolInv(d) && ListingsHaveProducts(d)
    ensures ListingsHaveProducts(Next(d, s))
  {
    if s.Purge? {
      PurgeHasProducts(d, s.seller);
    } else {
      ProductsStay(d, s);
      ListingsOfProducts(d, s);
    }
  }

  lemma PurgeHasProducts(d: Depot, seller: nat)
    requires PoolInv(d) && ListingsHaveProducts(d)
    ensures ListingsHaveProducts(DoPurge(d, seller))
  {
  }

  lemma ProductsStay(d: Depot, s: Step)
    requires !s.Purge?
    ensures d.products.Keys <= Next(d, s).products.Keys && d.nextProduct <= Next(d, s).nextProduct
  {
    if !TouchesPool(s) {
      QuietStep(d, s);
    }
  }

  lemma ListingsOfProducts(d: Depot, s: Step)
    requires !s.Purge?
    ensures forall k | k in Next(d, s).listings && k !in d.listings :: k.product in d.products
  {
    if s.StartAttempt? || s.AwaitConfirmation? || s.Succeed? || s.Fail? || s.ReconcileManual? || s.ReconcileFinish? || s.ListingState? {
      OnlyStartLists(d, s);
    } else {
      OthersLeaveListings(d, s);
    }
  }

  lemma OnlyStartLists(d: Depot, s: Step)
    requires !s.Purge?
    ensures forall k | k in Next(d, s).listings && k !in d.listings :: k.product in d.products
  {
  }

  // Over every run: a listing with the version it had is the listing it was, whatever was purged
  // or published in between.
  lemma {:induction false} VersionTells(d: Depot, steps: seq<Step>, k: Key)
    requires PoolInv(d) && ListingsHaveProducts(d) && k in d.listings && k in Run(d, steps).listings
    ensures Run(d, steps).listings[k].version >= d.listings[k].version
    ensures Run(d, steps).listings[k].version == d.listings[k].version ==> Run(d, steps).listings[k] == d.listings[k]
    decreases |steps|
  {
    if steps != [] {
      var e := Next(d, steps[0]);
      PoolStep(d, steps[0]);
      StepHasProducts(d, steps[0]);
      if k in e.listings {
        StepWrites(d, steps[0], k);
        VersionTells(e, steps[1..], k);
      } else {
        RemovedWithItsProduct(d, steps[0], k);
        GoneStaysGone(e, steps[1..], k);
        assert false;
      }
    }
  }

  lemma RemovedWithItsProduct(d: Depot, s: Step, k: Key)
    requires PoolInv(d) && ListingsHaveProducts(d) && k in d.listings && k !in Next(d, s).listings
    ensures k.product !in Next(d, s).products && k.product < Next(d, s).nextProduct
  {
    RemovalSparesLiveListings(d, s, k);
  }

  lemma {:induction false} RunHasProducts(d: Depot, steps: seq<Step>)
    requires PoolInv(d) && ListingsHaveProducts(d)
    ensures ListingsHaveProducts(Run(d, steps))
    decreases |steps|
  {
    if steps != [] {
      PoolStep(d, steps[0]);
      StepHasProducts(d, steps[0]);
      RunHasProducts(Next(d, steps[0]), steps[1..]);
    }
  }

  lemma GoneStaysGone(d: Depot, steps: seq<Step>, k: Key)
    requires PoolInv(d) && ListingsHaveProducts(d) && k.product !in d.products && k.product < d.nextProduct
    ensures k !in Run(d, steps).listings
  {
    RunHasProducts(d, steps);
    DeletedStaysDeleted(d, steps, k.product);
  }

  // ---- a check knows its listing ----

  // Whatever has a job's number is that job, with the check it was created for.
  predicate SameJob(d: Depot, e: Depot, j: JobId) {
    j in e.jobs ==>
      && j in d.jobs
      && e.jobs[j].op == d.jobs[j].op && e.jobs[j].product == d.jobs[j].product && e.jobs[j].check == d.jobs[j].check
  }

  lemma ReconcileKeepsJob(d: Depot, s: Step, j: JobId)
    requires j < d.nextJob && (s.ReconcileManual? || s.ReconcileCheck? || s.ReconcileFinish?)
    ensures SameJob(d, Next(d, s), j) && d.nextJob <= Next(d, s).nextJob
  {
  }

  lemma WorkKeepsJob(d: Depot, s: Step, j: JobId)
    requires j < d.nextJob && (s.NewJob? || s.ListingState? || s.Claim? || s.RefreshJob? || s.RecoverJob? || s.Purge?)
    ensures SameJob(d, Next(d, s), j) && d.nextJob <= Next(d, s).nextJob
  {
  }

  lemma OthersLeaveJobs(d: Depot, s: Step)
    requires !TouchesJobs(s)
    ensures Next(d, s).jobs == d.jobs && Next(d, s).nextJob == d.nextJob
  {
  }

  lemma {:induction false} JobStaysItself(d: Depot, steps: seq<Step>, j: JobId)
    requires j < d.nextJob
    ensures SameJob(d, Run(d, steps), j)
    decreases |steps|
  {
    if steps != [] {
      var s := steps[0];
      if !TouchesJobs(s) {
        OthersLeaveJobs(d, s);
      } else if s.ReconcileManual? || s.ReconcileCheck? || s.ReconcileFinish? {
        ReconcileKeepsJob(d, s, j);
      } else {
        WorkKeepsJob(d, s, j);
      }
      JobStaysItself(Next(d, s), steps[1..], j);
    }
  }

  // So a check that is confirmed, however much later, sets the very listing it was created for,
  // unchanged since.
  lemma CheckedIsUnchanged(d: Depot, k: Key, steps: seq<Step>, confirmed: bool, now: Time)
    requires PoolInv(d) && ListingsHaveProducts(d) && CanReconcile(d, k)
    requires d.nextJob in Run(DoReconcileCheck(d, k), steps).jobs
    ensures var e := Run(DoReconcileCheck(d, k), steps);
            var f := DoReconcileFinish(e, d.nextJob, confirmed, now);
            f.listings != e.listings ==>
              && k in e.listings && e.listings[k] == d.listings[k]
              && k in f.listings && f.listings == e.listings[k := f.listings[k]] && f.listings[k].status == Active
  {
    var created := DoReconcileCheck(d, k);
    var e := Run(created, steps);
    JobStaysItself(created, steps, d.nextJob);
    assert e.jobs[d.nextJob].check == Some(Snapshot(k, d.listings[k].version));
    if k in e.listings {
      VersionTells(created, steps, k);
    }
  }

  // ---- moderation ----

  lemma CardsKept(d: Depot, s: Step)
    requires s.Import? || s.Succeed? || s.ReconcileManual? || s.ReconcileFinish?
    ensures Next(d, s).products == d.products
  {
  }

  predicate AllOff(d: Depot, p: ProductId) {
    forall k | k in d.listings && k.product == p :: d.listings[k].status in {Deactivated, Deleted, Failed}
  }

  // Both codes are on the card, or there is a free row for each account.
  predicate Assignable(d: Depot, p: ProductId, locked: set<nat>)
    requires p in d.products
  {
    || (d.products[p].codes.jv != "" && d.products[p].codes.xl != "")
    || ((exists i | 0 <= i < |d.rows| :: IsNext(d.rows, JV, locked, i)) && exists i | 0 <= i < |d.rows| :: IsNext(d.rows, XL, locked, i))
  }

  // The status a step takes a product to.
  function StatusTable(d: Depot, s: Step, p: ProductId): ProductStatus
    requires p in d.products
  {
    var from := d.products[p].status;
    match s
    case Submit(q) => if q == p && from in {Draft, Rejected, Withdrawn} then Submitted else from
    case Approve(q, locked) => if q == p && from == Submitted && Assignable(d, p, locked) then Approved else from
    case Reject(q) => if q == p && from == Submitted then Rejected else from
    case Move(q, target) => if q == p && from == Approved && target in {Submitted, Rejected} && AllOff(d, p) then target else from
    case RequestDeactivation(q) => if q == p && from == Approved then ProductDeactivated else from
    case Withdraw(q) => if q == p && from == Submitted then Withdrawn else from
    case Archive(q, manager) =>
      if q == p && AllOff(d, p) && (from in {Draft, Rejected, Withdrawn} || (manager && from != Archived)) then Archived else from
    case _ => from
  }

  lemma ApproveMoves(d: Depot, p: ProductId, locked: set<nat>)
    requires p in d.products && d.products[p].status == Submitted
    ensures p in DoApprove(d, p, locked).products
    ensures DoApprove(d, p, locked).products[p].status == if Assignable(d, p, locked) then Approved else Submitted
  {
    NextIsFirst(d.rows, JV, locked);
    NextIsFirst(d.rows, XL, locked);
    AssignSays(d.rows, d.products[p].codes, p, locked, 0, 0);
  }

  lemma BlockedUnlessOff(d: Depot, p: ProductId)
    ensures HasBlockingListing(d, p) <==> !AllOff(d, p)
    ensures HasListingLeft(d, p) <==> !AllOff(d, p)
  {
    if AllOff(d, p) {
      assert forall k | k in d.listings && k.product == p :: !Blocking(d.listings[k].status);
    } else {
      var k :| k in d.listings && k.product == p && d.listings[k].status !in {Deactivated, Deleted, Failed};
      assert Blocking(d.listings[k].status);
    }
  }

  lemma PoolStepMoves(d: Depot, s: Step, p: ProductId)
    requires PoolInv(d) && TouchesPool(s) && p in d.products && p in Next(d, s).products
    ensures Next(d, s).products[p].status == StatusTable(d, s, p)
  {
    if s.Import? || s.Succeed? || s.ReconcileManual? || s.ReconcileFinish? {
      CardsKept(d, s);
    } else if s.Approve? && s.product == p && d.products[p].status == Submitted {
      ApproveMoves(d, p, s.locked);
    }
  }

  lemma QuietStepMoves(d: Depot, s: Step, p: ProductId)
    requires !TouchesPool(s) && p in d.products && p in Next(d, s).products
    ensures Next(d, s).products[p].status == StatusTable(d, s, p)
  {
    if s.Move? || s.Archive? {
      BlockedUnlessOff(d, p);
    }
  }

  // Every step takes a product to the status of the table.
  lemma StatusMoves(d: Depot, s: Step, p: ProductId)
    requires PoolInv(d) && p in d.products && p in Next(d, s).products
    ensures Next(d, s).products[p].status == StatusTable(d, s, p)
  {
    if TouchesPool(s) {
      PoolStepMoves(d, s, p);
    } else {
      QuietStepMoves(d, s, p);
    }
  }

  // An archived product is never brought back.
  lemma {:induction false} ArchivedStays(d: Depot, steps: seq<Step>, p: ProductId)
    requires PoolInv(d) && p in d.products && d.products[p].status == Archived && p in Run(d, steps).products
    ensures Run(d, steps).products[p].status == Archived
    decreases |steps|
  {
    if steps != [] {
      PoolStep(d, steps[0]);
      CardStep(d, steps[0], p);
      if p in Next(d, steps[0]).products {
        StatusMoves(d, steps[0], p);
        ArchivedStays(Next(d, steps[0]), steps[1..], p);
      } else {
        DeletedStaysDeleted(Next(d, steps[0]), steps[1..], p);
      }
    }
  }

  predicate ApprovedHaveCodes(d: Depot) {
    forall p | p in d.products && d.products[p].status in {Approved, ProductDeactivated} ::
      d.products[p].codes.jv != "" && d.products[p].codes.xl != ""
  }

  lemma NewProductIsDraft(d: Depot, s: Step, p: ProductId)
    requires PoolInv(d) && p !in d.products && p in Next(d, s).products
    ensures Next(d, s).products[p].status == Draft
  {
    if !TouchesPool(s) {
      QuietStep(d, s);
    }
  }

  lemma ApprovalGivesCodes(d: Depot, p: ProductId, locked: set<nat>)
    requires PoolInv(d) && p in d.products && d.products[p].status == Submitted && DoApprove(d, p, locked) != d
    ensures var e := DoApprove(d, p, locked);
            p in e.products && e.products[p].codes.jv != "" && e.products[p].codes.xl != ""
  {
    ApprovePool(d, p, locked);
  }

  lemma ApprovedHaveCodesStep(d: Depot, s: Step)
    requires PoolInv(d) && ApprovedHaveCodes(d)
    ensures ApprovedHaveCodes(Next(d, s))
  {
    var e := Next(d, s);
    forall p | p in e.products && e.products[p].status in {Approved, ProductDeactivated}
      ensures e.products[p].codes.jv != "" && e.products[p].codes.xl != ""
    {
      if p !in d.products {
        NewProductIsDraft(d, s, p);
      } else {
        CardStep(d, s, p);
        StatusMoves(d, s, p);
        if e.products[p].status != d.products[p].status && s.Approve? {
          ApprovalGivesCodes(d, p, s.locked);
        }
      }
    }
  }

  // Over every run an approved product has a code for both accounts.
  lemma {:induction false} ApprovedHaveCodesRun(d: Depot, steps: seq<Step>)
    requires PoolInv(d) && ApprovedHaveCodes(d)
    ensures ApprovedHaveCodes(Run(d, steps))
    decreases |steps|
  {
    if steps != [] {
      PoolStep(d, steps[0]);
      ApprovedHaveCodesStep(d, steps[0]);
      ApprovedHaveCodesRun(Next(d, steps[0]), steps[1..]);
    }
  }

  // ---- jobs ----

  // The status a step takes a job to; a finished check may also end its job.
  function JobTable(d: Depot, s: Step, j: JobId): JobStatus
    requires j in d.jobs
  {
    var from := d.jobs[j].status;
    match s
    case Claim(i) => if i == j && from == Queued then Running else from
    case RefreshJob(i, outcome) =>
      if i == j && j in d.claimed && outcome in {PendingConfirmation, JobSucceeded, Partial, JobFailed} then outcome else from
    case RecoverJob(i) => if i == j && from == Running then JobFailed else from
    case _ => from
  }

  predicate EndsCheck(d: Depot, s: Step, j: JobId)
    requires j in d.jobs
  {
    s.ReconcileFinish? && s.job == j && j in d.claimed && d.jobs[j].check.Some?
  }

  lemma ReconcileJobMoves(d: Depot, s: Step, j: JobId)
    requires JobsOk(d) && (s.ReconcileManual? || s.ReconcileFinish? || s.ReconcileCheck?)
    requires j in d.jobs && j in Next(d, s).jobs && !EndsCheck(d, s, j)
    ensures Next(d, s).jobs[j].status == d.jobs[j].status
  {
  }

  lemma NewJobsLeaveOthers(d: Depot, p: ProductId, action: Action, requested: set<Key>, j: JobId)
    requires JobsOk(d) && j in d.jobs
    ensures j in DoListingState(d, p, action, requested).jobs && DoListingState(d, p, action, requested).jobs[j] == d.jobs[j]
  {
  }

  lemma WorkMoves(d: Depot, s: Step, j: JobId)
    requires JobsOk(d) && j in d.jobs && j in Next(d, s).jobs
    requires s.NewJob? || s.Claim? || s.RefreshJob? || s.RecoverJob? || s.Purge?
    ensures Next(d, s).jobs[j].status == JobTable(d, s, j)
  {
  }

  // Every step takes a job to the status of the table.
  lemma JobMoves(d: Depot, s: Step, j: JobId)
    requires JobsOk(d) && j in d.jobs && j in Next(d, s).jobs && !EndsCheck(d, s, j)
    ensures Next(d, s).jobs[j].status == JobTable(d, s, j)
  {
    if !TouchesJobs(s) {
      OtherStepsKeepJobs(d, s);
    } else if s.ReconcileManual? || s.ReconcileFinish? || s.ReconcileCheck? {
      ReconcileJobMoves(d, s, j);
    } else if s.ListingState? {
      NewJobsLeaveOthers(d, s.product, s.action, s.requested, j);
    } else {
      WorkMoves(d, s, j);
    }
  }

  // New jobs wait; a claim opens the way for their worker.
  lemma NewJobWaits(d: Depot, p: ProductId, op: Operation)
    requires JobsOk(d) && p in d.products
    ensures var e := DoNewJob(d, p, op);
            && d.nextJob !in d.jobs && d.nextJob in e.jobs && e.jobs[d.nextJob] == Job(p, op, Queued, None) && d.nextJob !in e.claimed
            && d.nextJob in DoClaim(e, d.nextJob).claimed
  {
  }

  // ---- an attempt starts ----

  // A claimed job of the product, a code on the card, and a listing with that code in a status the
  // operation may start from; only a publish may do without a listing.
  predicate MayBegin(d: Depot, j: JobId, k: Key) {
    && j in d.claimed && j in d.jobs && d.jobs[j].product == k.product && k.product in d.products && d.jobs[j].op != Search
    && var code := d.products[k.product].codes.CodeFor(k.account);
       && code != ""
       && if k in d.listings then d.listings[k].ean == code && d.jobs[j].op in MayStart(d.listings[k].status) else d.jobs[j].op == Publish
  }

  lemma StartSays(d: Depot, j: JobId, k: Key)
    ensures var e := DoStart(d, j, k);
            if !MayBegin(d, j, k) then e == d
            else
              && e == d.(listings := e.listings, open := d.open + {Attempt(j, k)})
              && e.listings == d.listings[k := e.listings[k]] && e.listings[k].lastJob == Some(j)
              && e.listings[k].ean == d.products[k.product].codes.CodeFor(k.account)
              && e.listings[k].status == (if d.jobs[j].op == Deactivate then Deactivating else if d.jobs[j].op == Delete then Deleting else Publishing)
              && e.listings[k].attempts == (if k in d.listings then d.listings[k].attempts else 0) + 1
  {
  }

  // ---- reports of an attempt ----

  // What an attempt under way makes of its listing when it waits for the marketplace and when it
  // fails; other listings and the pool stay.
  lemma ReportSays(d: Depot, a: Attempt)
    requires Open(d, a)
    ensures var e, op, was := DoAwait(d, a), d.jobs[a.job].op, d.listings[a.key];
            && e == d.(listings := d.listings[a.key := e.listings[a.key]]) && e.listings[a.key].saved == was.saved
            && e.listings[a.key].status == (if op == Deactivate then Deactivating else if op == Delete then Deleting else Publishing)
    ensures var e, op, was := DoFail(d, a), d.jobs[a.job].op, d.listings[a.key];
            && e == d.(listings := d.listings[a.key := e.listings[a.key]], open := d.open - {a}) && e.listings[a.key].saved.None?
            && e.listings[a.key].status == (if op == Publish then Failed else if was.saved.Some? then was.saved.value else was.status)
            && e.listings[a.key].publishedAt == was.publishedAt
  {
  }

  // And when it succeeds. A first publication also uses up its code; without one nothing is
  // written.
  lemma WinSays(d: Depot, a: Attempt, now: Time)
    requires PoolInv(d) && Open(d, a) && a.key.product in d.products && d.listings[a.key].ean != ""
    requires d.listings[a.key].ean == d.products[a.key.product].codes.CodeFor(a.key.account)
    ensures var e, op, was := DoSucceed(d, a, now), d.jobs[a.job].op, d.listings[a.key];
            if op == Publish && was.publishedAt.None? && !Backed(d.rows, a.key.product, a.key.account, was.ean)
            then e == d.(open := d.open - {a})
            else
              && e == d.(listings := d.listings[a.key := e.listings[a.key]], open := d.open - {a}, rows := e.rows)
              && e.listings[a.key].status == (if op == Deactivate then Deactivated else if op == Delete then Deleted else Active)
              && (op in {Publish, Update, Activate} ==> e.listings[a.key].publishedAt == Some(Earlier(was.publishedAt, now)))
              && (op != Publish || was.publishedAt.Some? ==> e.rows == d.rows)
              && (op == Publish && was.publishedAt.None? ==> Spent(e.rows, a.key))
  {
    var op, code := d.jobs[a.job].op, d.listings[a.key].ean;
    if op == Publish && Backed(d.rows, a.key.product, a.key.account, code) {
      var i :| 0 <= i < |d.rows| && Holds(d.rows[i], a.key.product, a.key.account, code);
      assert d.rows[i].state != Available;
      var found := FindRow(d.rows, a.key.product, a.key.account, code).value;
      assert Holds(d.rows[found], a.key.product, a.key.account, code);
      assert DoSucceed(d, a, now).rows[found].state == Consumed || d.listings[a.key].publishedAt.Some?;
    }
  }

  // ---- switching listings off and on ----

  predicate Chosen(p: ProductId, requested: set<Key>, k: Key) {
    k.product == p && (requested == {} || k in requested)
  }

  // What a listing-state request orders of a listing: OTTO can switch an offer off and on again, on
  // the others it can only be deleted.
  function Ordered(k: Key, action: Action, s: Status): Option<Operation> {
    if s == Active && action == DeactivateListings then Some(if k.marketplace == Otto then Deactivate else Delete)
    else if s == Deactivated && action == ActivateListings && k.marketplace == Otto then Some(Activate)
    else None
  }

  // Every chosen listing is put under way for its own queued job, whose success ends it as
  // ordered; the others stay.
  lemma ListingStateOrders(d: Depot, p: ProductId, action: Action, requested: set<Key>, k: Key, now: Time)
    requires k in d.listings
    ensures var e := DoListingState(d, p, action, requested);
            var was, order := d.listings[k], Ordered(k, action, d.listings[k].status);
            && k in e.listings
            && if Chosen(p, requested, k) && order.Some? then
                 && e.listings[k].lastJob.Some? && e.listings[k].saved == Some(was.status)
                 && var j := e.listings[k].lastJob.value;
                    && j in e.jobs && e.jobs[j] == Job(p, order.value, Queued, None) && Attempt(j, k) in e.marks
                    && e.listings[k].status == (if action == ActivateListings then Publishing else if k.marketplace == Otto then Deactivating else Deleting)
                    && Succeeded(e.listings[k], order.value, j, now).status
                       == (if action == ActivateListings then Active else if k.marketplace == Otto then Deactivated else Deleted)
               else e.listings[k] == was
  {
    var e := DoListingState(d, p, action, requested);
    if k in PreMarkable(d, p, action, requested) {
      assert Attempt(JobIdFor(d, OperationFor(k.marketplace, action).value), k) in MarksFor(d, action, PreMarkable(d, p, action, requested));
    }
  }

  // ---- decisions about a listing ----

  // No job of the product is queued, running or waiting, and the listing has settled.
  predicate Decidable(d: Depot, k: Key) {
    && k in d.listings && k.product in d.products
    && d.listings[k].status in {Failed, Active, Deactivated, Deleted}
    && d.listings[k].ean != "" && d.listings[k].ean == d.products[k.product].codes.CodeFor(k.account)
    && forall j | j in d.jobs && d.jobs[j].product == k.product :: d.jobs[j].status !in {Queued, Running, PendingConfirmation}
  }

  // Where a decision leads: without a status a failed listing is confirmed as live; only OTTO can
  // be off without being deleted.
  function Decided(k: Key, was: Status, status: Option<Status>): Option<Status> {
    if status.None? then if was == Failed then Some(Active) else None
    else if status.value == Deactivated then Some(if k.marketplace == Otto then Deactivated else Deleted)
    else if status.value == Active || status.value == Failed then status
    else None
  }

  lemma DecisionWrites(d: Depot, k: Key, status: Option<Status>, now: Time)
    requires DoReconcileManual(d, k, status, now) != d
    ensures Decidable(d, k) && Decided(k, d.listings[k].status, status).Some?
    ensures var e, goal := DoReconcileManual(d, k, status, now), Decided(k, d.listings[k].status, status).value;
            && k in e.listings && e.listings[k].status == goal && e.listings[k].saved.None?
            && (goal == Active ==> e.listings[k].publishedAt == Some(Earlier(d.listings[k].publishedAt, now)))
            && (goal == Deactivated ==> e.listings[k].deactivatedAt == Some(now))
            && (goal == Deleted ==> e.listings[k].deletedAt == Some(now))
            && e.listings == d.listings[k := e.listings[k]]
  {
    assert forall j | j in d.jobs :: Busy(d.jobs[j].status) <==> d.jobs[j].status in {Queued, Running, PendingConfirmation};
    forall j | j in d.jobs && d.jobs[j].product == k.product ensures d.jobs[j].status !in {Queued, Running, PendingConfirmation} {
      assert !ProductBusy(d, k.product);
    }
  }

  // A decision for a live or removed listing also needs its EAN row, reserved or consumed.
  lemma DecisionTakesEffect(d: Depot, k: Key, status: Option<Status>, now: Time)
    requires PoolInv(d) && Decidable(d, k) && Decided(k, d.listings[k].status, status).Some?
    ensures var goal := Decided(k, d.listings[k].status, status).value;
            DoReconcileManual(d, k, status, now) != d <==> goal == Failed || Backed(d.rows, k.product, k.account, d.listings[k].ean)
  {
    var goal := Decided(k, d.listings[k].status, status).value;
    assert !ProductBusy(d, k.product);
    assert ManualGoal(d, k, status) == Some(goal);
    var code := d.listings[k].ean;
    if Backed(d.rows, k.product, k.account, code) {
      var i :| 0 <= i < |d.rows| && Holds(d.rows[i], k.product, k.account, code);
      assert d.rows[i].state != Available;
    }
    WithManualJobChanges(d, k, goal, now);
  }

  lemma WithManualJobChanges(d: Depot, k: Key, goal: Status, now: Time)
    requires k in d.listings && k.product in d.products
    ensures var r := Confirm(d, k, goal, d.nextJob, now);
            r.Some? ==> WithManualJob(r.value, k.product) != d
  {
  }

  // The listing has not been written since the check was created, it still carries the code of the
  // card, and no other job of the product is queued, running or waiting.
  predicate AsItWas(d: Depot, j: JobId, snap: Snapshot)
    requires snap.key in d.listings && snap.key.product in d.products
  {
    && d.listings[snap.key].version == snap.version
    && d.listings[snap.key].ean == d.products[snap.key.product].codes.CodeFor(snap.key.account)
    && forall i | i in d.jobs && i != j && d.jobs[i].product == snap.key.product :: d.jobs[i].status !in {Queued, Running, PendingConfirmation}
  }

  lemma AsItWasMeans(d: Depot, j: JobId, snap: Snapshot)
    requires snap.key in d.listings && snap.key.product in d.products
    ensures StillAsChecked(d, j, snap) <==> AsItWas(d, j, snap)
  {
    assert forall i | i in d.jobs :: Busy(d.jobs[i].status) <==> d.jobs[i].status in {Queued, Running, PendingConfirmation};
  }

  // A confirmed check of a listing as it was makes it live and succeeds; any other one only fails
  // its job. A listing or product that is gone, or a refused code, leaves no trace.
  lemma FinishSays(d: Depot, j: JobId, confirmed: bool, now: Time)
    requires j in d.claimed && j in d.jobs && d.jobs[j].check.Some?
    ensures var e, snap := DoReconcileFinish(d, j, confirmed, now), d.jobs[j].check.value;
            if snap.key !in d.listings || snap.key.product !in d.products then e == d
            else if !confirmed || !AsItWas(d, j, snap) then e == d.(jobs := d.jobs[j := d.jobs[j].(status := JobFailed)])
            else
              e == d
              || (&& snap.key in e.listings && e.listings[snap.key].status == Active && e.listings[snap.key].saved.None?
                  && e.listings[snap.key].publishedAt == Some(Earlier(d.listings[snap.key].publishedAt, now))
                  && e.listings == d.listings[snap.key := e.listings[snap.key]] && e.jobs == d.jobs[j := d.jobs[j].(status := JobSucceeded)])
    ensures var e, snap := DoReconcileFinish(d, j, confirmed, now), d.jobs[j].check.value;
            PoolInv(d) && confirmed && snap.key in d.listings && snap.key.product in d.products && AsItWas(d, j, snap) && d.listings[snap.key].ean != "" ==>
              (e != d <==> Backed(d.rows, snap.key.product, snap.key.account, d.listings[snap.key].ean))
  {
    var snap := d.jobs[j].check.value;
    if snap.key in d.listings && snap.key.product in d.products {
      AsItWasMeans(d, j, snap);
      assert Reconciled(d.listings[snap.key], Active, j, now).version != d.listings[snap.key].version;
      var code := d.listings[snap.key].ean;
      if PoolInv(d) && Backed(d.rows, snap.key.product, snap.key.account, code) {
        var i :| 0 <= i < |d.rows| && Holds(d.rows[i], snap.key.product, snap.key.account, code);
        assert d.rows[i].state != Available;
      }
    }
  }

  // ---- purge ----

  predicate OwnedBy(d: Depot, p: ProductId, seller: nat) {
    p in d.products && d.products[p].seller == seller
  }

  predicate UnderWay(d: Depot, seller: nat) {
    || (exists k | k in d.listings :: OwnedBy(d, k.product, seller) && d.listings[k].status in {Active, Publishing, Deactivating, Deleting})
    || (exists j | j in d.jobs :: OwnedBy(d, d.jobs[j].product, seller) && d.jobs[j].status in {Queued, Running, PendingConfirmation})
  }

  // A seller is erased exactly when nothing of his is live or under way.
  lemma PurgeExact(d: Depot, seller: nat)
    ensures if UnderWay(d, seller) then DoPurge(d, seller) == d
            else forall p | p in DoPurge(d, seller).products :: p in d.products && d.products[p].seller != seller
  {
    var gone := SellerProducts(d, seller);
    assert SellerBusy(d, seller) || SellerHasActive(d, seller) <==> UnderWay(d, seller) by {
      forall k | k in d.listings && k.product in gone
        ensures InProgress(d.listings[k].status) || d.listings[k].status == Active <==> d.listings[k].status in {Active, Publishing, Deactivating, Deleting}
      {
      }
      forall j | j in d.jobs && d.jobs[j].product in gone
        ensures Busy(d.jobs[j].status) <==> d.jobs[j].status in {Queued, Running, PendingConfirmation}
      {
      }
    }
  }
}
