// The whole publication life of a depot as a state machine: the EAN pool, product cards,
// listings, jobs and the workers that carry attempts. Every step is one database transaction;
// external calls happen between steps, so any interleaving of workers is a sequence of steps.
module Lifecycle {
  import opened Common
  import opened EanPool
  import opened Listings

  datatype ProductStatus = Draft | Submitted | Approved | Rejected | Withdrawn | ProductDeactivated | Archived

  datatype Product = Product(seller: nat, status: ProductStatus, codes: EanCard)

  datatype Key = Key(product: ProductId, marketplace: Marketplace, account: Account)

  datatype JobStatus = Queued | Running | PendingConfirmation | JobSucceeded | Partial | JobFailed

  // What a reconciliation check remembers of the listing it was created for.
  datatype Snapshot = Snapshot(key: Key, version: nat)

  datatype Job = Job(product: ProductId, op: Operation, status: JobStatus, check: Option<Snapshot>)

  datatype Attempt = Attempt(job: JobId, key: Key)

  // `claimed` holds the jobs whose worker has started, `open` the attempts a worker has started
  // and not yet reported, `marks` the listings pre-marked for a listing-state job.
  datatype Depot = Depot(
    rows: seq<EanRow>, products: map<ProductId, Product>, nextProduct: ProductId,
    listings: map<Key, Listing>, jobs: map<JobId, Job>, nextJob: JobId,
    claimed: set<JobId>, open: set<Attempt>, marks: set<Attempt>)

  const Empty := Depot([], map[], 0, map[], map[], 0, {}, {}, {})

  predicate Busy(s: JobStatus) {
    s == Queued || s == Running || s == PendingConfirmation
  }

  predicate ProductBusy(d: Depot, p: ProductId) {
    exists j | j in d.jobs :: d.jobs[j].product == p && Busy(d.jobs[j].status)
  }

  // ---- moderation and the pool ----

  function DoImport(d: Depot, account: Account, lines: seq<string>): Depot {
    d.(rows := Imported(d.rows, account, lines))
  }

  function DoRegister(d: Depot, seller: nat): Depot {
    d.(products := d.products[d.nextProduct := Product(seller, Draft, EanCard("", ""))], nextProduct := d.nextProduct + 1)
  }

  function WithStatus(d: Depot, p: ProductId, s: ProductStatus): Depot
    requires p in d.products
  {
    d.(products := d.products[p := d.products[p].(status := s)])
  }

  function DoSubmit(d: Depot, p: ProductId): Depot {
    if p in d.products && d.products[p].status in {Draft, Rejected, Withdrawn} then WithStatus(d, p, Submitted) else d
  }

  function DoApprove(d: Depot, p: ProductId, locked: set<nat>): Depot {
    if p !in d.products || d.products[p].status != Submitted then d
    else
      match Assign(d.rows, d.products[p].codes, p, locked)
      case NoFreeCode(_) => d
      case Assigned(rows, card) =>
        d.(rows := rows, products := d.products[p := d.products[p].(status := Approved, codes := card)])
  }

  function DoReject(d: Depot, p: ProductId): Depot {
    if p in d.products && d.products[p].status == Submitted then WithStatus(d, p, Rejected) else d
  }

  predicate Blocking(s: Status) {
    s == Pending || s == Publishing || s == Active || s == Deactivating || s == Deleting
  }

  predicate HasBlockingListing(d: Depot, p: ProductId) {
    exists k | k in d.listings :: k.product == p && Blocking(d.listings[k].status)
  }

  // change_approved_product_status
  function DoMove(d: Depot, p: ProductId, target: ProductStatus): Depot {
    if p in d.products && d.products[p].status == Approved && target in {Submitted, Rejected} && !HasBlockingListing(d, p)
    then WithStatus(d, p, target)
    else d
  }

  function DoRequestDeactivation(d: Depot, p: ProductId): Depot {
    if p in d.products && d.products[p].status == Approved then WithStatus(d, p, ProductDeactivated) else d
  }

  predicate Removed(s: Status) {
    s == Deactivated || s == Deleted || s == Failed
  }

  predicate HasListingLeft(d: Depot, p: ProductId) {
    exists k | k in d.listings :: k.product == p && !Removed(d.listings[k].status)
  }

  // perform_destroy: a seller may only delete what is not in review or approved.
  predicate CanArchive(d: Depot, p: ProductId, manager: bool) {
    && p in d.products && d.products[p].status != Archived
    && (manager || d.products[p].status in {Draft, Rejected, Withdrawn})
    && !HasListingLeft(d, p)
  }

  function DoArchive(d: Depot, p: ProductId, manager: bool): Depot {
    if CanArchive(d, p, manager) then WithStatus(d, p, Archived) else d
  }

  // The pool row is freed, the product keeps its code fields.
  function DoWithdraw(d: Depot, p: ProductId): Depot {
    if p in d.products && d.products[p].status == Submitted
    then WithStatus(d, p, Withdrawn).(rows := Release(d.rows, p))
    else d
  }

  // ---- jobs ----

  function DoNewJob(d: Depot, p: ProductId, op: Operation): Depot {
    if p in d.products
    then d.(jobs := d.jobs[d.nextJob := Job(p, op, Queued, None)], nextJob := d.nextJob + 1)
    else d
  }

  datatype Action = DeactivateListings | ActivateListings

  function OperationFor(m: Marketplace, action: Action): Option<Operation> {
    match action
    case DeactivateListings => Some(if m == Otto then Deactivate else Delete)
    case ActivateListings => if m == Otto then Some(Activate) else None
  }

  function DesiredStatus(action: Action): Status {
    if action == DeactivateListings then Active else Deactivated
  }

  // Listings of the product in the desired status, restricted to the requested ones if any.
  function Selected(d: Depot, p: ProductId, action: Action, requested: set<Key>): set<Key> {
    set k | k in d.listings && k.product == p && d.listings[k].status == DesiredStatus(action)
            && (requested == {} || k in requested)
  }

  function PreMarkable(d: Depot, p: ProductId, action: Action, requested: set<Key>): set<Key> {
    set k | k in Selected(d, p, action, requested) && OperationFor(k.marketplace, action).Some?
  }

  // One job per operation: the second number goes to the delete job.
  function JobIdFor(d: Depot, op: Operation): JobId {
    if op == Delete then d.nextJob + 1 else d.nextJob
  }

  function NewJobs(d: Depot, p: ProductId, action: Action, keys: set<Key>): map<JobId, Job> {
    map k | k in keys && OperationFor(k.marketplace, action).Some?
      :: JobIdFor(d, OperationFor(k.marketplace, action).value)
      := Job(p, OperationFor(k.marketplace, action).value, Queued, None)
  }

  function MarksFor(d: Depot, action: Action, keys: set<Key>): set<Attempt> {
    set k | k in keys && OperationFor(k.marketplace, action).Some?
      :: Attempt(JobIdFor(d, OperationFor(k.marketplace, action).value), k)
  }

  function DoListingState(d: Depot, p: ProductId, action: Action, requested: set<Key>): Depot {
    var keys := PreMarkable(d, p, action, requested);
    if keys == {} then d
    else
      d.(listings := map k | k in d.listings ::
           if k in keys
           then var op := OperationFor(k.marketplace, action).value; PreMarked(d.listings[k], op, JobIdFor(d, op))
           else d.listings[k],
         jobs := d.jobs + NewJobs(d, p, action, keys),
         nextJob := d.nextJob + 2,
         marks := d.marks + MarksFor(d, action, keys))
  }

  function WithJobStatus(d: Depot, j: JobId, s: JobStatus): Depot
    requires j in d.jobs
  {
    d.(jobs := d.jobs[j := d.jobs[j].(status := s)])
  }

  // The claim in execute_marketplace_job.
  function DoClaim(d: Depot, j: JobId): Depot {
    if j in d.jobs && d.jobs[j].status == Queued
    then WithJobStatus(d, j, Running).(claimed := d.claimed + {j})
    else d
  }

  // A worker that recovery has given up on still writes its result.
  function DoRefresh(d: Depot, j: JobId, outcome: JobStatus): Depot {
    if j in d.claimed && j in d.jobs && outcome in {JobSucceeded, Partial, JobFailed, PendingConfirmation}
    then WithJobStatus(d, j, outcome)
    else d
  }

  function DoRecover(d: Depot, j: JobId): Depot {
    if j in d.jobs && d.jobs[j].status == Running then WithJobStatus(d, j, JobFailed) else d
  }

  // ---- attempts ----

  function Existing(d: Depot, k: Key): Option<Listing> {
    if k in d.listings then Some(d.listings[k]) else None
  }

  predicate CanWork(d: Depot, j: JobId, k: Key) {
    j in d.claimed && j in d.jobs && d.jobs[j].product == k.product && k.product in d.products
  }

  function DoStart(d: Depot, j: JobId, k: Key): Depot {
    if !CanWork(d, j, k) then d
    else
      match Start(Existing(d, k), d.jobs[j].op, d.products[k.product].codes.CodeFor(k.account), j)
      case None => d
      case Some(l) => d.(listings := d.listings[k := l], open := d.open + {Attempt(j, k)})
  }

  predicate Open(d: Depot, a: Attempt) {
    a in d.open && a.job in d.jobs && a.key in d.listings && d.jobs[a.job].op != Search
  }

  function DoAwait(d: Depot, a: Attempt): Depot {
    if !Open(d, a) then d
    else d.(listings := d.listings[a.key := Awaiting(d.listings[a.key], d.jobs[a.job].op, a.job)])
  }

  // Success and, for the first success of a publish, consumption of the EAN: one transaction,
  // rolled back as a whole when the EAN cannot be consumed.
  function DoSucceed(d: Depot, a: Attempt, now: Time): Depot {
    if !Open(d, a) then d
    else
      var op, l, p := d.jobs[a.job].op, d.listings[a.key], a.key.product;
      var done := d.(listings := d.listings[a.key := Succeeded(l, op, a.job, now)], open := d.open - {a});
      if op != Publish || !FirstSuccess(l, op) then done
      else if p !in d.products then d.(open := d.open - {a})
      else
        var c := Consume(d.rows, d.products[p].codes, p, a.key.account);
        if c.Refused? then d.(open := d.open - {a}) else done.(rows := AfterConsume(d.rows, c))
  }

  function DoFail(d: Depot, a: Attempt): Depot {
    if !Open(d, a) then d
    else
      d.(listings := d.listings[a.key := FailedAttempt(d.listings[a.key], d.jobs[a.job].op, a.job)], open := d.open - {a})
  }

  // ---- reconciliation ----

  predicate CanReconcile(d: Depot, k: Key) {
    && k in d.listings && k.product in d.products
    && d.listings[k].status in {Failed, Active, Deactivated, Deleted}
    && d.listings[k].ean != "" && d.listings[k].ean == d.products[k.product].codes.CodeFor(k.account)
    && !ProductBusy(d, k.product)
  }

  function Reconciled(l: Listing, target: Status, job: JobId, now: Time): Listing {
    l.(status := target, saved := None, lastJob := Some(job), version := l.version + 1,
       publishedAt := if target == Active && l.publishedAt.None? then Some(now) else l.publishedAt,
       deactivatedAt := if target == Deactivated then Some(now) else l.deactivatedAt,
       deletedAt := if target == Deleted then Some(now) else l.deletedAt)
  }

  // The confirmed branch of finish_reconciliation: consume unless the target is a failure.
  function Confirm(d: Depot, k: Key, target: Status, job: JobId, now: Time): Option<Depot>
    requires k in d.listings && k.product in d.products
  {
    var listed := d.(listings := d.listings[k := Reconciled(d.listings[k], target, job, now)]);
    if target == Failed then Some(listed)
    else
      var c := Consume(d.rows, d.products[k.product].codes, k.product, k.account);
      if c.Refused? then None else Some(listed.(rows := AfterConsume(d.rows, c)))
  }

  function ManualTarget(m: Marketplace, target: Status): Status {
    if target == Deactivated && m != Otto then Deleted else target
  }

  // set_manual, or confirm_manual of a failed listing when `target` is absent.
  function ManualGoal(d: Depot, k: Key, target: Option<Status>): (goal: Option<Status>)
    ensures goal.Some? ==> CanReconcile(d, k) && goal.value in {Failed, Active, Deactivated, Deleted}
  {
    if !CanReconcile(d, k) then None
    else if target.Some? then
      if target.value in {Active, Deactivated, Failed} then Some(ManualTarget(k.marketplace, target.value)) else None
    else if d.listings[k].status == Failed then Some(Active) else None
  }

  // The finished job that keeps the trace of a manual decision.
  function WithManualJob(d: Depot, p: ProductId): Depot {
    d.(jobs := d.jobs[d.nextJob := Job(p, Search, JobSucceeded, None)], nextJob := d.nextJob + 1)
  }

  function DoReconcileManual(d: Depot, k: Key, target: Option<Status>, now: Time): Depot {
    match ManualGoal(d, k, target)
    case None => d
    case Some(goal) =>
      match Confirm(d, k, goal, d.nextJob, now)
      case None => d
      case Some(e) => WithManualJob(e, k.product)
  }

  function DoReconcileCheck(d: Depot, k: Key): Depot {
    if !CanReconcile(d, k) then d
    else
      var job := Job(k.product, Search, Queued, Some(Snapshot(k, d.listings[k].version)));
      d.(jobs := d.jobs[d.nextJob := job], nextJob := d.nextJob + 1)
  }

  predicate OtherJobBusy(d: Depot, j: JobId, p: ProductId) {
    exists i | i in d.jobs :: i != j && d.jobs[i].product == p && Busy(d.jobs[i].status)
  }

  predicate StillAsChecked(d: Depot, j: JobId, snap: Snapshot) {
    && snap.key in d.listings && snap.key.product in d.products
    && d.listings[snap.key].version == snap.version
    && d.listings[snap.key].ean == d.products[snap.key.product].codes.CodeFor(snap.key.account)
    && !OtherJobBusy(d, j, snap.key.product)
  }

  function DoReconcileFinish(d: Depot, j: JobId, confirmed: bool, now: Time): Depot {
    if j !in d.claimed || j !in d.jobs || d.jobs[j].check.None? then d
    else
      var snap := d.jobs[j].check.value;
      if snap.key !in d.listings || snap.key.product !in d.products then d
      else if !confirmed || !StillAsChecked(d, j, snap) then WithJobStatus(d, j, JobFailed)
      else
        match Confirm(d, snap.key, Active, j, now)
        case None => d
        case Some(e) => WithJobStatus(e, j, JobSucceeded)
  }

  // ---- seller purge ----

  function SellerProducts(d: Depot, seller: nat): set<ProductId> {
    set p | p in d.products && d.products[p].seller == seller
  }

  predicate SellerBusy(d: Depot, seller: nat) {
    || (exists k | k in d.listings :: k.product in SellerProducts(d, seller) && InProgress(d.listings[k].status))
    || (exists j | j in d.jobs :: d.jobs[j].product in SellerProducts(d, seller) && Busy(d.jobs[j].status))
  }

  predicate SellerHasActive(d: Depot, seller: nat) {
    exists k | k in d.listings :: k.product in SellerProducts(d, seller) && d.listings[k].status == Active
  }

  // The deleting branch of purge_seller and try_finalize_seller_purge. Attempts of workers on
  // deleted rows can only raise from here on, so they leave the model with their rows.
  function DoPurge(d: Depot, seller: nat): Depot {
    if SellerBusy(d, seller) || SellerHasActive(d, seller) then d
    else
      var gone := SellerProducts(d, seller);
      d.(rows := Detach(d.rows, gone),
         products := map p | p in d.products && p !in gone :: d.products[p],
         listings := map k | k in d.listings && k.product !in gone :: d.listings[k],
         jobs := map j | j in d.jobs && d.jobs[j].product !in gone :: d.jobs[j],
         open := (set a | a in d.open && a.key.product !in gone),
         marks := (set a | a in d.marks && a.key.product !in gone))
  }

  // ---- runs ----

  datatype Step =
    | Import(account: Account, lines: seq<string>)
    | Register(seller: nat)
    | Submit(product: ProductId)
    | Approve(product: ProductId, locked: set<nat>)
    | Reject(product: ProductId)
    | Move(product: ProductId, target: ProductStatus)
    | RequestDeactivation(product: ProductId)
    | Withdraw(product: ProductId)
    | Archive(product: ProductId, manager: bool)
    | NewJob(product: ProductId, op: Operation)
    | ListingState(product: ProductId, action: Action, requested: set<Key>)
    | Claim(job: JobId)
    | RefreshJob(job: JobId, outcome: JobStatus)
    | RecoverJob(job: JobId)
    | StartAttempt(job: JobId, key: Key)
    | AwaitConfirmation(attempt: Attempt)
    | Succeed(attempt: Attempt, now: Time)
    | Fail(attempt: Attempt)
    | ReconcileManual(key: Key, status: Option<Status>, now: Time)
    | ReconcileCheck(key: Key)
    | ReconcileFinish(job: JobId, confirmed: bool, now: Time)
    | Purge(seller: nat)

  function Next(d: Depot, s: Step): Depot {
    match s
    case Import(a, lines) => DoImport(d, a, lines)
    case Register(seller) => DoRegister(d, seller)
    case Submit(p) => DoSubmit(d, p)
    case Approve(p, locked) => DoApprove(d, p, locked)
    case Reject(p) => DoReject(d, p)
    case Move(p, t) => DoMove(d, p, t)
    case RequestDeactivation(p) => DoRequestDeactivation(d, p)
    case Withdraw(p) => DoWithdraw(d, p)
    case Archive(p, manager) => DoArchive(d, p, manager)
    case NewJob(p, op) => DoNewJob(d, p, op)
    case ListingState(p, action, requested) => DoListingState(d, p, action, requested)
    case Claim(j) => DoClaim(d, j)
    case RefreshJob(j, o) => DoRefresh(d, j, o)
    case RecoverJob(j) => DoRecover(d, j)
    case StartAttempt(j, k) => DoStart(d, j, k)
    case AwaitConfirmation(a) => DoAwait(d, a)
    case Succeed(a, now) => DoSucceed(d, a, now)
    case Fail(a) => DoFail(d, a)
    case ReconcileManual(k, t, now) => DoReconcileManual(d, k, t, now)
    case ReconcileCheck(k) => DoReconcileCheck(d, k)
    case ReconcileFinish(j, c, now) => DoReconcileFinish(d, j, c, now)
    case Purge(seller) => DoPurge(d, seller)
  }

  function Run(d: Depot, steps: seq<Step>): Depot
    decreases |steps|
  {
    if steps == [] then d else Run(Next(d, steps[0]), steps[1..])
  }

  lemma {:induction false} RunAppend(d: Depot, first: seq<Step>, more: seq<Step>)
    ensures Run(d, first + more) == Run(Run(d, first), more)
    decreases |first|
  {
    if first == [] {
      assert first + more == more;
    } else {
      assert (first + more)[1..] == first[1..] + more;
      RunAppend(Next(d, first[0]), first[1..], more);
    }
  }

  lemma RunOne(d: Depot, s: Step)
    ensures Run(d, [s]) == Next(d, s)
  {
    assert [s][1..] == [];
    assert Run(d, [s]) == Run(Next(d, s), []);
  }
}
