// Theorems about whole runs of the depot, in any interleaving of workers and managers.
module LifecycleRuns {
  import opened Common
  import opened EanPool
  import opened Listings
  import opened Lifecycle
  import opened LifecycleSafety

  // ---- the main safety theorem ----

  // Steps that move a product through moderation without touching the pool.
  lemma ModerationSafe(d: Depot, s: Step)
    requires Inv(d) && (s.Submit? || s.Reject? || s.Move? || s.RequestDeactivation? || s.Archive?)
    ensures Inv(Next(d, s))
  {
    if s.product in d.products {
      StatusKeeps(d, s.product, Submitted);
      StatusKeeps(d, s.product, Rejected);
      StatusKeeps(d, s.product, ProductDeactivated);
      StatusKeeps(d, s.product, Archived);
    }
  }

  lemma NewWorkSafe(d: Depot, s: Step)
    requires Inv(d) && (s.NewJob? || s.Claim? || s.ReconcileCheck?)
    ensures Inv(Next(d, s))
  {
    match s
    case NewJob(p, op) => NewJobKeeps(d, p, op);
    case Claim(j) => ClaimKeeps(d, j);
    case ReconcileCheck(k) => ReconcileCheckKeeps(d, k);
  }

  lemma RefreshSafe(d: Depot, j: JobId, outcome: JobStatus)
    requires Inv(d)
    ensures Inv(DoRefresh(d, j, outcome))
  {
    if DoRefresh(d, j, outcome) != d {
      JobStatusKeeps(d, j, outcome);
    }
  }

  lemma RecoverSafe(d: Depot, j: JobId)
    requires Inv(d)
    ensures Inv(DoRecover(d, j))
  {
    if DoRecover(d, j) != d {
      JobStatusKeeps(d, j, JobFailed);
    }
  }

  lemma SupplySafe(d: Depot, s: Step)
    requires Inv(d) && (s.Import? || s.Register? || s.Approve? || s.Withdraw? || s.ListingState? || s.Purge?)
    ensures Inv(Next(d, s))
  {
    match s
    case Import(a, lines) => ImportKeeps(d, a, lines);
    case Register(seller) => RegisterKeeps(d, seller);
    case Approve(p, locked) => ApproveKeeps(d, p, locked);
    case Withdraw(p) => WithdrawKeeps(d, p);
    case ListingState(p, action, requested) => ListingStateKeeps(d, p, action, requested);
    case Purge(seller) => PurgeKeeps(d, seller);
  }

  lemma OutcomeSafe(d: Depot, s: Step)
    requires Inv(d) && (s.StartAttempt? || s.AwaitConfirmation? || s.Succeed? || s.Fail?) && SpentSuccess(d, s)
    ensures Inv(Next(d, s))
  {
    match s
    case StartAttempt(j, k) => StartKeeps(d, j, k);
    case AwaitConfirmation(a) => AwaitKeeps(d, a);
    case Succeed(a, now) => SucceedKeeps(d, a, now);
    case Fail(a) => FailKeeps(d, a);
  }

  lemma ReconcileSafe(d: Depot, s: Step)
    requires Inv(d) && (s.ReconcileManual? || s.ReconcileFinish?)
    ensures Inv(Next(d, s))
  {
    match s
    case ReconcileManual(k, t, now) => ReconcileManualKeeps(d, k, t, now);
    case ReconcileFinish(j, c, now) => ReconcileFinishKeeps(d, j, c, now);
  }

  lemma JobLifeSafe(d: Depot, s: Step)
    requires Inv(d) && (s.NewJob? || s.Claim? || s.ReconcileCheck? || s.RefreshJob? || s.RecoverJob?)
    ensures Inv(Next(d, s))
  {
    if s.RefreshJob? {
      RefreshSafe(d, s.job, s.outcome);
    } else if s.RecoverJob? {
      RecoverSafe(d, s.job);
    } else {
      NewWorkSafe(d, s);
    }
  }

  lemma ReportSafe(d: Depot, s: Step)
    requires Inv(d) && SpentSuccess(d, s)
    requires s.StartAttempt? || s.AwaitConfirmation? || s.Succeed? || s.Fail? || s.ReconcileManual? || s.ReconcileFinish?
    ensures Inv(Next(d, s))
  {
    if s.ReconcileManual? || s.ReconcileFinish? {
      ReconcileSafe(d, s);
    } else {
      OutcomeSafe(d, s);
    }
  }

  lemma StepSafe(d: Depot, s: Step)
    requires Inv(d) && SpentSuccess(d, s)
    ensures Inv(Next(d, s))
  {
    if s.Submit? || s.Reject? || s.Move? || s.RequestDeactivation? || s.Archive? {
      ModerationSafe(d, s);
    } else if s.NewJob? || s.Claim? || s.ReconcileCheck? || s.RefreshJob? || s.RecoverJob? {
      JobLifeSafe(d, s);
    } else if s.Import? || s.Register? || s.Approve? || s.Withdraw? || s.ListingState? || s.Purge? {
      SupplySafe(d, s);
    } else {
      ReportSafe(d, s);
    }
  }

  // A step leaves every listing accounted for if and only if it is not the success of an
  // activation on a code that is not used up.
  lemma StepExact(d: Depot, s: Step)
    requires Inv(d)
    ensures Accounted(Next(d, s)) <==> SpentSuccess(d, s)
    ensures SpentSuccess(d, s) ==> Inv(Next(d, s))
  {
    if SpentSuccess(d, s) {
      StepSafe(d, s);
      InvAccounts(Next(d, s));
    } else {
      SuccessExact(d, s.attempt, s.now);
    }
  }

  ghost predicate Disciplined(d: Depot, steps: seq<Step>)
    decreases |steps|
  {
    steps == [] || (SpentSuccess(d, steps[0]) && Disciplined(Next(d, steps[0]), steps[1..]))
  }

  ghost predicate AccountedThroughout(d: Depot, steps: seq<Step>)
    decreases |steps|
  {
    Accounted(d) && (steps == [] || AccountedThroughout(Next(d, steps[0]), steps[1..]))
  }

  // All listings are accounted for in every state of a run if and only if no activation succeeds
  // on a code that is not used up.
  lemma {:induction false} RunExact(d: Depot, steps: seq<Step>)
    requires Inv(d)
    ensures AccountedThroughout(d, steps) <==> Disciplined(d, steps)
    ensures Disciplined(d, steps) ==> Inv(Run(d, steps))
    decreases |steps|
  {
    InvAccounts(d);
    if steps != [] {
      StepExact(d, steps[0]);
      if SpentSuccess(d, steps[0]) {
        RunExact(Next(d, steps[0]), steps[1..]);
      } else {
        assert !AccountedThroughout(Next(d, steps[0]), steps[1..]);
      }
    }
  }

  // ---- activations that start on consumed codes ----

  // Every activation under way has its code consumed.
  ghost predicate ActivationsSpent(d: Depot) {
    forall a | a in d.open && a.job in d.jobs && d.jobs[a.job].op == Activate :: Spent(d.rows, a.key)
  }

  lemma PoolKeepsConsumed(d: Depot, s: Step, p: ProductId)
    requires PoolOk(d.rows) && (s.Import? || s.Approve? || s.Withdraw? || s.Purge?) && p in Next(d, s).products
    ensures KeepsConsumed(d.rows, Next(d, s).rows, p)
  {
    match s
    case Import(account, lines) => ImportKeepsPool(d.rows, account, lines);
    case Approve(q, locked) =>
      if q in d.products {
        AssignKeepsPool(d.rows, d.products[q].codes, q, locked);
      }
    case Withdraw(_) =>
    case Purge(_) =>
  }

  // Consumed rows stay with their product as long as it is there.
  lemma StepKeepsConsumed(d: Depot, s: Step, p: ProductId)
    requires PoolOk(d.rows) && p in Next(d, s).products
    ensures KeepsConsumed(d.rows, Next(d, s).rows, p)
  {
    if s.Import? || s.Approve? || s.Withdraw? || s.Purge? {
      PoolKeepsConsumed(d, s, p);
    } else if s.ReconcileManual? || s.ReconcileFinish? {
      ReconcileKeepsConsumed(d, s, p);
    } else if s.Succeed? || s.Register? {
      SuccessKeepsConsumed(d, s, p);
    } else {
      QuietStep(d, s);
    }
  }

  lemma ReconcileKeepsConsumed(d: Depot, s: Step, p: ProductId)
    requires s.ReconcileManual? || s.ReconcileFinish?
    ensures KeepsConsumed(d.rows, Next(d, s).rows, p)
  {
  }

  lemma SuccessKeepsConsumed(d: Depot, s: Step, p: ProductId)
    requires s.Succeed? || s.Register?
    ensures KeepsConsumed(d.rows, Next(d, s).rows, p)
  {
  }

  lemma OnlyStartOpens(d: Depot, s: Step, a: Attempt)
    requires a in Next(d, s).open && a !in d.open
    ensures s == StartAttempt(a.job, a.key) && CanWork(d, a.job, a.key) && Next(d, s).rows == d.rows
  {
  }

  predicate TouchesJobs(s: Step) {
    || s.NewJob? || s.ListingState? || s.Claim? || s.RefreshJob? || s.RecoverJob?
    || s.ReconcileManual? || s.ReconcileCheck? || s.ReconcileFinish? || s.Purge?
  }

  lemma OtherStepsKeepJobs(d: Depot, s: Step)
    requires !TouchesJobs(s)
    ensures Next(d, s).jobs == d.jobs
  {
  }

  lemma ReconcileKeepsOperation(d: Depot, s: Step, j: JobId)
    requires JobsOk(d) && j in d.jobs && (s.ReconcileManual? || s.ReconcileCheck? || s.ReconcileFinish?)
    ensures j in Next(d, s).jobs && Next(d, s).jobs[j].op == d.jobs[j].op
  {
  }

  lemma WorkKeepsOperation(d: Depot, s: Step, j: JobId)
    requires JobsOk(d) && j in d.jobs && j in Next(d, s).jobs
    requires s.NewJob? || s.ListingState? || s.Claim? || s.RefreshJob? || s.RecoverJob? || s.Purge?
    ensures Next(d, s).jobs[j].op == d.jobs[j].op
  {
  }

  lemma JobKeepsOperation(d: Depot, s: Step, j: JobId)
    requires JobsOk(d) && j in d.jobs && j in Next(d, s).jobs
    ensures Next(d, s).jobs[j].op == d.jobs[j].op
  {
    if !TouchesJobs(s) {
      OtherStepsKeepJobs(d, s);
    } else if s.ReconcileManual? || s.ReconcileCheck? || s.ReconcileFinish? {
      ReconcileKeepsOperation(d, s, j);
    } else {
      WorkKeepsOperation(d, s, j);
    }
  }

  lemma ActivationStaysSpent(d: Depot, s: Step, a: Attempt)
    requires Inv(d) && Inv(Next(d, s)) && ActivationsSpent(d) && SpentActivation(d, s)
    requires a in Next(d, s).open && a.job in Next(d, s).jobs && Next(d, s).jobs[a.job].op == Activate
    ensures Spent(Next(d, s).rows, a.key)
  {
    if a in d.open {
      assert OpenOk(d, a) && OpenOk(Next(d, s), a) && ListingOk(Next(d, s), a.key);
      JobKeepsOperation(d, s, a.job);
      StepKeepsConsumed(d, s, a.key.product);
      SpentSurvives(d.rows, Next(d, s).rows, a.key);
    } else {
      OnlyStartOpens(d, s, a);
      JobKeepsOperation(d, s, a.job);
    }
  }

  lemma ActivationsStaySpent(d: Depot, s: Step)
    requires Inv(d) && ActivationsSpent(d) && SpentActivation(d, s)
    ensures SpentSuccess(d, s) && Inv(Next(d, s)) && ActivationsSpent(Next(d, s))
  {
    StepSafe(d, s);
    forall a | a in Next(d, s).open && a.job in Next(d, s).jobs && Next(d, s).jobs[a.job].op == Activate
      ensures Spent(Next(d, s).rows, a.key)
    {
      ActivationStaysSpent(d, s, a);
    }
  }

  ghost predicate StartsOnSpent(d: Depot, steps: seq<Step>)
    decreases |steps|
  {
    steps == [] || (SpentActivation(d, steps[0]) && StartsOnSpent(Next(d, steps[0]), steps[1..]))
  }

  // Whoever checks the code before an activation starts is safe, whatever happens meanwhile.
  lemma {:induction false} StartsOnSpentIsDisciplined(d: Depot, steps: seq<Step>)
    requires Inv(d) && ActivationsSpent(d) && StartsOnSpent(d, steps)
    ensures Disciplined(d, steps)
    decreases |steps|
  {
    if steps != [] {
      ActivationsStaySpent(d, steps[0]);
      StartsOnSpentIsDisciplined(Next(d, steps[0]), steps[1..]);
    }
  }

  ghost predicate ActivatesOwn(d: Depot, steps: seq<Step>)
    decreases |steps|
  {
    steps == [] || (OwnActivation(d, steps[0]) && ActivatesOwn(Next(d, steps[0]), steps[1..]))
  }

  // Activations that start on deactivated or own pre-marked listings start on consumed codes.
  lemma {:induction false} ActivatesOwnIsDisciplined(d: Depot, steps: seq<Step>)
    requires Inv(d) && ActivationsSpent(d) && ActivatesOwn(d, steps)
    ensures Disciplined(d, steps)
    decreases |steps|
  {
    if steps != [] {
      OwnActivationIsSpent(d, steps[0]);
      ActivationsStaySpent(d, steps[0]);
      ActivatesOwnIsDisciplined(Next(d, steps[0]), steps[1..]);
    }
  }

  // From the empty depot: a listing that is active, or would fall back to active, has been
  // published, and one ever published, deactivated or deleted has its own code consumed.
  lemma LiveListingsHaveSpentCodes(steps: seq<Step>, k: Key)
    requires Disciplined(Empty, steps)
    requires k in Run(Empty, steps).listings
    ensures var d := Run(Empty, steps);
            var l := d.listings[k];
            && (l.status == Active || l.saved == Some(Active) ==> l.publishedAt.Some?)
            && (EverLive(l) ==> exists i | 0 <= i < |d.rows| ::
                  d.rows[i] == EanRow(l.ean, k.account, Some(k.product), Consumed))
  {
    var d := Run(Empty, steps);
    RunExact(Empty, steps);
    assert ListingOk(d, k);
    if EverLive(d.listings[k]) {
      var i :| 0 <= i < |d.rows| && d.rows[i].owner == Some(k.product) && d.rows[i].account == k.account && d.rows[i].state == Consumed;
      assert d.rows[i] == EanRow(d.listings[k].ean, k.account, Some(k.product), Consumed);
    }
  }

  // An activation that starts and succeeds at once keeps the promise if and only if its code was
  // consumed when it started.
  lemma ActivationExactGuard(d: Depot, j: JobId, k: Key, now: Time)
    requires Inv(d) && CanWork(d, j, k) && d.jobs[j].op == Activate && k in d.listings
    requires CanStart(d.listings[k], Activate, d.products[k.product].codes.CodeFor(k.account))
    ensures var e := DoSucceed(DoStart(d, j, k), Attempt(j, k), now);
            && k in e.listings && e.listings[k].status == Active
            && (Accounted(e) <==> Spent(d.rows, k))
  {
    StartKeeps(d, j, k);
    SuccessExact(DoStart(d, j, k), Attempt(j, k), now);
  }

  // ---- the pool over every run, disciplined or not ----

  predicate PoolInv(d: Depot) {
    && PoolOk(d.rows) && OwnersOk(d.rows, d.products) && ProductsOk(d)
  }

  lemma ConfirmPool(d: Depot, k: Key, target: Status, job: JobId, now: Time)
    requires PoolInv(d) && k in d.listings && k.product in d.products
    ensures var r := Confirm(d, k, target, job, now);
            r.Some? ==> PoolInv(r.value) && PoolAdvances(d.rows, r.value.rows)
  {
  }

  lemma SucceedPool(d: Depot, a: Attempt, now: Time)
    requires PoolInv(d)
    ensures PoolInv(DoSucceed(d, a, now)) && PoolAdvances(d.rows, DoSucceed(d, a, now).rows)
  {
  }

  lemma ApprovePool(d: Depot, p: ProductId, locked: set<nat>)
    requires PoolInv(d)
    ensures PoolInv(DoApprove(d, p, locked)) && PoolAdvances(d.rows, DoApprove(d, p, locked).rows)
  {
    if p in d.products {
      AssignKeepsPool(d.rows, d.products[p].codes, p, locked);
    }
  }

  lemma PurgePool(d: Depot, seller: nat)
    requires PoolInv(d)
    ensures PoolInv(DoPurge(d, seller)) && PoolAdvances(d.rows, DoPurge(d, seller).rows)
  {
  }

  predicate TouchesPool(s: Step) {
    s.Import? || s.Register? || s.Approve? || s.Withdraw? || s.ReconcileManual? || s.ReconcileFinish? || s.Purge? || s.Succeed?
  }

  lemma QuietStep(d: Depot, s: Step)
    requires !TouchesPool(s)
    ensures Next(d, s).rows == d.rows && Next(d, s).nextProduct == d.nextProduct
    ensures Next(d, s).products.Keys == d.products.Keys
    ensures forall p | p in d.products :: Next(d, s).products[p].codes == d.products[p].codes
  {
  }

  lemma WithdrawPool(d: Depot, p: ProductId)
    requires PoolInv(d)
    ensures PoolInv(DoWithdraw(d, p)) && PoolAdvances(d.rows, DoWithdraw(d, p).rows)
  {
  }

  lemma GrowthPool(d: Depot, s: Step)
    requires PoolInv(d) && (s.Import? || s.Register?)
    ensures PoolInv(Next(d, s)) && PoolAdvances(d.rows, Next(d, s).rows)
  {
    if s.Import? {
      ImportKeepsPool(d.rows, s.account, s.lines);
    }
  }

  lemma ManualPool(d: Depot, k: Key, t: Option<Status>, now: Time)
    requires PoolInv(d)
    ensures PoolInv(DoReconcileManual(d, k, t, now)) && PoolAdvances(d.rows, DoReconcileManual(d, k, t, now).rows)
  {
    var goal := ManualGoal(d, k, t);
    if goal.Some? {
      ConfirmPool(d, k, goal.value, d.nextJob, now);
    }
  }

  lemma FinishPool(d: Depot, j: JobId, c: bool, now: Time)
    requires PoolInv(d)
    ensures PoolInv(DoReconcileFinish(d, j, c, now)) && PoolAdvances(d.rows, DoReconcileFinish(d, j, c, now).rows)
  {
    if j in d.jobs && d.jobs[j].check.Some? {
      var k := d.jobs[j].check.value.key;
      if k in d.listings && k.product in d.products {
        ConfirmPool(d, k, Active, j, now);
      }
    }
  }

  lemma QuietPool(d: Depot, s: Step)
    requires PoolInv(d) && !TouchesPool(s)
    ensures PoolInv(Next(d, s)) && PoolAdvances(d.rows, Next(d, s).rows)
  {
    QuietStep(d, s);
    var e := Next(d, s);
  }

  lemma PoolStep(d: Depot, s: Step)
    requires PoolInv(d)
    ensures PoolInv(Next(d, s)) && PoolAdvances(d.rows, Next(d, s).rows)
  {
    match s
    case Import(_, _) => GrowthPool(d, s);
    case Register(_) => GrowthPool(d, s);
    case Approve(p, locked) => ApprovePool(d, p, locked);
    case Withdraw(p) => WithdrawPool(d, p);
    case Succeed(a, now) => SucceedPool(d, a, now);
    case ReconcileManual(k, t, now) => ManualPool(d, k, t, now);
    case ReconcileFinish(j, c, now) => FinishPool(d, j, c, now);
    case Purge(seller) => PurgePool(d, seller);
    case _ => QuietPool(d, s);
  }

  // Rows are conserved, a code is used up once and for at most one product, an available row
  // has no product and a reserved one has, and an owner's card carries the code.
  lemma {:induction false} PoolRun(d: Depot, steps: seq<Step>)
    requires PoolInv(d)
    ensures PoolInv(Run(d, steps)) && PoolAdvances(d.rows, Run(d, steps).rows)
    decreases |steps|
  {
    if steps != [] {
      PoolStep(d, steps[0]);
      PoolRun(Next(d, steps[0]), steps[1..]);
    }
  }

  // ---- the converse: a code on a card is backed by a row ----

  predicate Backed(rows: seq<EanRow>, p: ProductId, account: Account, code: string) {
    exists i | 0 <= i < |rows| :: Holds(rows[i], p, account, code)
  }

  predicate CardsBacked(d: Depot) {
    forall p, account | p in d.products && d.products[p].codes.CodeFor(account) != "" ::
      Backed(d.rows, p, account, d.products[p].codes.CodeFor(account))
  }

  predicate OwnsReserved(rows: seq<EanRow>, p: ProductId) {
    exists i | 0 <= i < |rows| :: rows[i].owner == Some(p) && rows[i].state == Reserved
  }

  // A withdrawal keeps the converse exactly when the product has no reserved row to give back.
  lemma WithdrawExact(d: Depot, p: ProductId)
    requires PoolInv(d) && CardsBacked(d)
    requires p in d.products && d.products[p].status == Submitted
    ensures CardsBacked(DoWithdraw(d, p)) <==> !OwnsReserved(d.rows, p)
  {
    var e := DoWithdraw(d, p);
    if OwnsReserved(d.rows, p) {
      var i :| 0 <= i < |d.rows| && d.rows[i].owner == Some(p) && d.rows[i].state == Reserved;
      var account, code := d.rows[i].account, d.rows[i].code;
      assert e.products[p].codes.CodeFor(account) == code && code != "";
      forall j | 0 <= j < |e.rows| ensures !Holds(e.rows[j], p, account, code) {
        if d.rows[j].code == code {
          assert i == j;
        }
      }
      assert !Backed(e.rows, p, account, code);
    } else {
      assert e.rows == d.rows;
    }
  }

  predicate FreesReserved(d: Depot, s: Step) {
    s.Withdraw? && s.product in d.products && d.products[s.product].status == Submitted && OwnsReserved(d.rows, s.product)
  }

  // Same cards, and every row keeps its identity and owner.
  lemma SameOwnersKeepBacked(d: Depot, e: Depot)
    requires CardsBacked(d)
    requires forall p | p in e.products :: p in d.products && e.products[p].codes == d.products[p].codes
    requires |d.rows| <= |e.rows| && forall i | 0 <= i < |d.rows| && d.rows[i].owner.Some? && d.rows[i].owner.value in e.products ::
               e.rows[i].code == d.rows[i].code && e.rows[i].account == d.rows[i].account && e.rows[i].owner == d.rows[i].owner
    ensures CardsBacked(e)
  {
    forall p, account | p in e.products && e.products[p].codes.CodeFor(account) != ""
      ensures Backed(e.rows, p, account, e.products[p].codes.CodeFor(account))
    {
      var code := d.products[p].codes.CodeFor(account);
      assert Backed(d.rows, p, account, code);
      var i :| 0 <= i < |d.rows| && Holds(d.rows[i], p, account, code);
      assert Holds(e.rows[i], p, account, code);
    }
  }

  lemma ApproveBacked(d: Depot, p: ProductId, locked: set<nat>)
    requires PoolInv(d) && CardsBacked(d)
    ensures CardsBacked(DoApprove(d, p, locked))
  {
    var e := DoApprove(d, p, locked);
    if p in d.products && d.products[p].status == Submitted && d.products[p].codes.jv == "" && e.rows != d.rows {
      var j := FirstFree(d.rows, JV, locked).value;
      var x := FirstFree(d.rows[j := Reserve(d.rows[j], p)], XL, locked).value;
      forall q, account | q in e.products && e.products[q].codes.CodeFor(account) != ""
        ensures Backed(e.rows, q, account, e.products[q].codes.CodeFor(account))
      {
        if q == p {
          assert Holds(e.rows[if account == JV then j else x], p, account, e.products[p].codes.CodeFor(account));
        } else {
          OtherStaysBacked(d, e.rows, q, account, j, x);
        }
      }
    } else {
      SameOwnersKeepBacked(d, e);
    }
  }

  lemma OtherStaysBacked(d: Depot, rows: seq<EanRow>, q: ProductId, account: Account, j: nat, x: nat)
    requires CardsBacked(d) && q in d.products && d.products[q].codes.CodeFor(account) != ""
    requires |rows| == |d.rows| && j < |rows| && x < |rows| && d.rows[j].owner.None? && d.rows[x].owner.None?
    requires forall i | 0 <= i < |rows| && i != j && i != x :: rows[i] == d.rows[i]
    ensures Backed(rows, q, account, d.products[q].codes.CodeFor(account))
  {
    var code := d.products[q].codes.CodeFor(account);
    assert Backed(d.rows, q, account, code);
    var i :| 0 <= i < |d.rows| && Holds(d.rows[i], q, account, code);
    assert Holds(rows[i], q, account, code);
  }

  lemma ConfirmBacked(d: Depot, k: Key, target: Status, job: JobId, now: Time)
    requires CardsBacked(d) && k in d.listings && k.product in d.products
    ensures Confirm(d, k, target, job, now).Some? ==> CardsBacked(Confirm(d, k, target, job, now).value)
  {
    var r := Confirm(d, k, target, job, now);
    if r.Some? {
      SameOwnersKeepBacked(d, r.value);
    }
  }

  lemma ReconcileBacked(d: Depot, s: Step)
    requires CardsBacked(d) && (s.ReconcileManual? || s.ReconcileFinish?)
    ensures CardsBacked(Next(d, s))
  {
    match s
    case ReconcileManual(k, t, now) =>
      var goal := ManualGoal(d, k, t);
      if goal.Some? {
        ConfirmBacked(d, k, goal.value, d.nextJob, now);
      }
    case ReconcileFinish(j, c, now) =>
      if j in d.jobs && d.jobs[j].check.Some? {
        var k := d.jobs[j].check.value.key;
        if k in d.listings && k.product in d.products {
          ConfirmBacked(d, k, Active, j, now);
        }
      }
  }

  lemma GrowthBacked(d: Depot, s: Step)
    requires PoolInv(d) && CardsBacked(d) && (s.Import? || s.Register?)
    ensures CardsBacked(Next(d, s))
  {
    var e := Next(d, s);
    if s.Import? {
      ImportKeepsPool(d.rows, s.account, s.lines);
      SameOwnersKeepBacked(d, e);
    } else {
      forall p, account | p in e.products && e.products[p].codes.CodeFor(account) != ""
        ensures Backed(e.rows, p, account, e.products[p].codes.CodeFor(account))
      {
        assert p in d.products && e.products[p] == d.products[p];
      }
    }
  }

  lemma PurgeBacked(d: Depot, seller: nat)
    requires CardsBacked(d)
    ensures CardsBacked(DoPurge(d, seller))
  {
    SameOwnersKeepBacked(d, DoPurge(d, seller));
  }

  lemma SucceedBacked(d: Depot, a: Attempt, now: Time)
    requires CardsBacked(d)
    ensures CardsBacked(DoSucceed(d, a, now))
  {
    SameOwnersKeepBacked(d, DoSucceed(d, a, now));
  }

  lemma QuietBacked(d: Depot, s: Step)
    requires CardsBacked(d) && !TouchesPool(s)
    ensures CardsBacked(Next(d, s))
  {
    QuietStep(d, s);
    var e := Next(d, s);
    SameOwnersKeepBacked(d, e);
  }

  lemma BackedStep(d: Depot, s: Step)
    requires PoolInv(d) && CardsBacked(d) && !FreesReserved(d, s)
    ensures CardsBacked(Next(d, s))
  {
    match s
    case Import(_, _) => GrowthBacked(d, s);
    case Register(_) => GrowthBacked(d, s);
    case Approve(p, locked) => ApproveBacked(d, p, locked);
    case Withdraw(p) =>
      if p in d.products && d.products[p].status == Submitted {
        WithdrawExact(d, p);
      }
    case ReconcileManual(_, _, _) => ReconcileBacked(d, s);
    case ReconcileFinish(_, _, _) => ReconcileBacked(d, s);
    case Purge(seller) => PurgeBacked(d, seller);
    case Succeed(a, now) => SucceedBacked(d, a, now);
    case _ => QuietBacked(d, s);
  }

  ghost predicate NeverFreesReserved(d: Depot, steps: seq<Step>)
    decreases |steps|
  {
    steps == [] || (!FreesReserved(d, steps[0]) && NeverFreesReserved(Next(d, steps[0]), steps[1..]))
  }

  lemma {:induction false} BackedRun(d: Depot, steps: seq<Step>)
    requires PoolInv(d) && CardsBacked(d) && NeverFreesReserved(d, steps)
    ensures CardsBacked(Run(d, steps))
    decreases |steps|
  {
    if steps != [] {
      BackedStep(d, steps[0]);
      PoolStep(d, steps[0]);
      BackedRun(Next(d, steps[0]), steps[1..]);
    }
  }

  // ---- a card keeps its codes ----

  lemma CardStep(d: Depot, s: Step, p: ProductId)
    requires PoolInv(d) && p < d.nextProduct
    ensures p < Next(d, s).nextProduct && (p in Next(d, s).products ==> p in d.products)
    ensures p in Next(d, s).products && d.products[p].codes.jv != "" ==> Next(d, s).products[p].codes == d.products[p].codes
  {
    if !TouchesPool(s) {
      QuietStep(d, s);
    }
  }

  lemma {:induction false} DeletedStaysDeleted(d: Depot, steps: seq<Step>, p: ProductId)
    requires PoolInv(d) && p < d.nextProduct && p !in d.products
    ensures p !in Run(d, steps).products
    decreases |steps|
  {
    if steps != [] {
      CardStep(d, steps[0], p);
      PoolStep(d, steps[0]);
      DeletedStaysDeleted(Next(d, steps[0]), steps[1..], p);
    }
  }

  // The codes on a card are assigned once: a worker may go on with the card it loaded.
  lemma {:induction false} CardIsFixed(d: Depot, steps: seq<Step>, p: ProductId)
    requires PoolInv(d) && p in d.products && d.products[p].codes.jv != "" && p in Run(d, steps).products
    ensures Run(d, steps).products[p].codes == d.products[p].codes
    decreases |steps|
  {
    if steps != [] {
      CardStep(d, steps[0], p);
      PoolStep(d, steps[0]);
      if p in Next(d, steps[0]).products {
        CardIsFixed(Next(d, steps[0]), steps[1..], p);
      } else {
        DeletedStaysDeleted(Next(d, steps[0]), steps[1..], p);
      }
    }
  }

  // ---- saved statuses over runs ----

  predicate SavedSettled(d: Depot) {
    forall k | k in d.listings && d.listings[k].saved.Some? :: !InProgress(d.listings[k].saved.value)
  }

  // A publish that really starts on a listing being deactivated or deleted.
  predicate PublishOverRemoval(d: Depot, s: Step) {
    && s.StartAttempt? && CanWork(d, s.job, s.key) && d.jobs[s.job].op == Publish && s.key in d.listings
    && d.listings[s.key].status in {Deactivating, Deleting}
    && CanStart(d.listings[s.key], Publish, d.products[s.key.product].codes.CodeFor(s.key.account))
  }

  lemma StartSaves(d: Depot, j: JobId, k: Key)
    requires SavedSettled(d)
    ensures SavedSettled(DoStart(d, j, k)) <==> !PublishOverRemoval(d, StartAttempt(j, k))
  {
    if PublishOverRemoval(d, StartAttempt(j, k)) {
      assert DoStart(d, j, k).listings[k].saved == Some(d.listings[k].status);
    }
  }

  lemma PreMarkSaves(d: Depot, p: ProductId, action: Action, requested: set<Key>)
    requires SavedSettled(d)
    ensures SavedSettled(DoListingState(d, p, action, requested))
  {
  }

  lemma ReportSaves(d: Depot, s: Step)
    requires SavedSettled(d) && (s.AwaitConfirmation? || s.Succeed? || s.Fail?)
    ensures SavedSettled(Next(d, s))
  {
  }

  lemma ConfirmSaves(d: Depot, k: Key, target: Status, job: JobId, now: Time)
    requires SavedSettled(d) && k in d.listings && k.product in d.products
    ensures var r := Confirm(d, k, target, job, now);
            r.Some? ==> SavedSettled(r.value)
  {
  }

  lemma ReconcileSaves(d: Depot, s: Step)
    requires SavedSettled(d) && (s.ReconcileManual? || s.ReconcileFinish?)
    ensures SavedSettled(Next(d, s))
  {
    match s
    case ReconcileManual(k, t, now) =>
      var goal := ManualGoal(d, k, t);
      if goal.Some? {
        ConfirmSaves(d, k, goal.value, d.nextJob, now);
      }
    case ReconcileFinish(j, c, now) =>
      if j in d.jobs && d.jobs[j].check.Some? {
        var k := d.jobs[j].check.value.key;
        if k in d.listings && k.product in d.products {
          ConfirmSaves(d, k, Active, j, now);
        }
      }
  }

  lemma OtherSaves(d: Depot, s: Step)
    requires SavedSettled(d) && !s.StartAttempt? && !s.ListingState?
    requires !s.AwaitConfirmation? && !s.Succeed? && !s.Fail? && !s.ReconcileManual? && !s.ReconcileFinish?
    ensures SavedSettled(Next(d, s))
  {
  }

  // The saved status stays a settled one exactly as long as no publish overtakes a removal.
  lemma SavedSettledExact(d: Depot, s: Step)
    requires SavedSettled(d)
    ensures SavedSettled(Next(d, s)) <==> !PublishOverRemoval(d, s)
  {
    match s
    case StartAttempt(j, k) => StartSaves(d, j, k);
    case ListingState(p, action, requested) => PreMarkSaves(d, p, action, requested);
    case AwaitConfirmation(_) => ReportSaves(d, s);
    case Succeed(_, _) => ReportSaves(d, s);
    case Fail(_) => ReportSaves(d, s);
    case ReconcileManual(_, _, _) => ReconcileSaves(d, s);
    case ReconcileFinish(_, _, _) => ReconcileSaves(d, s);
    case _ => OtherSaves(d, s);
  }

  ghost predicate NeverPublishesOverRemoval(d: Depot, steps: seq<Step>)
    decreases |steps|
  {
    steps == [] || (!PublishOverRemoval(d, steps[0]) && NeverPublishesOverRemoval(Next(d, steps[0]), steps[1..]))
  }

  // A failure can then only ever restore a settled status.
  lemma {:induction false} SavedSettledRun(d: Depot, steps: seq<Step>)
    requires SavedSettled(d) && NeverPublishesOverRemoval(d, steps)
    ensures SavedSettled(Run(d, steps))
    decreases |steps|
  {
    if steps != [] {
      SavedSettledExact(d, steps[0]);
      SavedSettledRun(Next(d, steps[0]), steps[1..]);
    }
  }

  // ---- one worker per job ----

  predicate Tickets(d: Depot) {
    && (forall j | j in d.jobs :: j < d.nextJob)
    && (forall j | j in d.claimed :: j < d.nextJob)
    && (forall j | j in d.jobs && d.jobs[j].status == Queued :: j !in d.claimed)
  }

  ghost function Claims(d: Depot, steps: seq<Step>, j: JobId): nat
    decreases |steps|
  {
    if steps == [] then 0
    else (if steps[0] == Claim(j) && Next(d, steps[0]) != d then 1 else 0) + Claims(Next(d, steps[0]), steps[1..], j)
  }

  lemma ListingStateTickets(d: Depot, p: ProductId, action: Action, requested: set<Key>)
    requires Tickets(d)
    ensures Tickets(DoListingState(d, p, action, requested))
  {
  }

  lemma ReconcileTickets(d: Depot, s: Step)
    requires Tickets(d) && (s.ReconcileManual? || s.ReconcileFinish?)
    ensures Tickets(Next(d, s)) && Next(d, s).claimed == d.claimed
  {
  }

  lemma JobTickets(d: Depot, s: Step)
    requires Tickets(d) && (s.NewJob? || s.Claim? || s.RefreshJob? || s.RecoverJob? || s.ReconcileCheck? || s.Purge?)
    ensures Tickets(Next(d, s)) && d.claimed <= Next(d, s).claimed
  {
  }

  lemma OtherTickets(d: Depot, s: Step)
    requires Tickets(d) && !s.ListingState? && !s.ReconcileManual? && !s.ReconcileFinish?
    requires !s.NewJob? && !s.Claim? && !s.RefreshJob? && !s.RecoverJob? && !s.ReconcileCheck? && !s.Purge?
    ensures Tickets(Next(d, s)) && d.claimed <= Next(d, s).claimed
  {
  }

  lemma TicketStep(d: Depot, s: Step)
    requires Tickets(d)
    ensures Tickets(Next(d, s)) && d.claimed <= Next(d, s).claimed
  {
    match s
    case ListingState(p, action, requested) => ListingStateTickets(d, p, action, requested);
    case ReconcileManual(_, _, _) => ReconcileTickets(d, s);
    case ReconcileFinish(_, _, _) => ReconcileTickets(d, s);
    case _ =>
      if s.NewJob? || s.Claim? || s.RefreshJob? || s.RecoverJob? || s.ReconcileCheck? || s.Purge? {
        JobTickets(d, s);
      } else {
        OtherTickets(d, s);
      }
  }

  // However often a job is delivered, at most one delivery starts work.
  lemma {:induction false} ClaimedAtMostOnce(d: Depot, steps: seq<Step>, j: JobId)
    requires Tickets(d)
    ensures Claims(d, steps, j) <= if j in d.claimed then 0 else 1
    decreases |steps|
  {
    if steps != [] {
      TicketStep(d, steps[0]);
      ClaimedAtMostOnce(Next(d, steps[0]), steps[1..], j);
    }
  }

  // ---- purge ----

  lemma OnlyPurgeRemoves(d: Depot, s: Step)
    requires !s.Purge?
    ensures d.listings.Keys <= Next(d, s).listings.Keys
  {
  }

  // Only a purge removes a listing, and never one that is active or in progress.
  lemma RemovalSparesLiveListings(d: Depot, s: Step, k: Key)
    requires k in d.listings && k !in Next(d, s).listings
    ensures s.Purge? && k.product in SellerProducts(d, s.seller)
    ensures d.listings[k].status in {Pending, Deactivated, Deleted, Failed}
  {
    if !s.Purge? {
      OnlyPurgeRemoves(d, s);
    }
  }
}
