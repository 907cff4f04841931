// What every run of the depot keeps.
module LifecycleSafety {
  import opened Common
  import opened EanPool
  import opened Listings
  import opened Lifecycle

  // ---- the invariant ----

  // The listing's account has used up its code on this product.
  ghost predicate Spent(rows: seq<EanRow>, k: Key) {
    exists i | 0 <= i < |rows| ::
      rows[i].owner == Some(k.product) && rows[i].account == k.account && rows[i].state == Consumed
  }

  predicate Exposed(s: Status) {
    s == Active || s == Deactivating || s == Deactivated || s == Deleting || s == Deleted
  }

  // The listing was ever published, deactivated or deleted, or is or may fall back to such a status.
  predicate EverLive(l: Listing) {
    || l.publishedAt.Some? || l.deactivatedAt.Some? || l.deletedAt.Some?
    || Exposed(l.status) || (l.saved.Some? && Exposed(l.saved.value))
  }

  predicate ActiveIsPublished(l: Listing) {
    l.status == Active || l.saved == Some(Active) ==> l.publishedAt.Some?
  }

  predicate SettledHasNoSaved(l: Listing) {
    !InProgress(l.status) ==> l.saved.None?
  }

  // A row owned by a product carries the code on that product's card.
  predicate OwnersOk(rows: seq<EanRow>, products: map<ProductId, Product>) {
    forall i | 0 <= i < |rows| && rows[i].owner.Some? ::
      var p := rows[i].owner.value;
      p in products && products[p].codes.CodeFor(rows[i].account) == rows[i].code
  }

  predicate ProductsOk(d: Depot) {
    forall p | p in d.products :: p < d.nextProduct && (d.products[p].codes.jv == "" <==> d.products[p].codes.xl == "")
  }

  ghost predicate ListingOk(d: Depot, k: Key)
    requires k in d.listings
  {
    var l := d.listings[k];
    && k.product in d.products
    && l.ean != "" && l.ean == d.products[k.product].codes.CodeFor(k.account)
    && (EverLive(l) ==> Spent(d.rows, k))
    && ActiveIsPublished(l)
    && SettledHasNoSaved(l)
  }

  ghost predicate ListingsOk(d: Depot) {
    forall k | k in d.listings :: ListingOk(d, k)
  }

  predicate JobsOk(d: Depot) {
    && (forall j | j in d.jobs :: j < d.nextJob && d.jobs[j].product in d.products)
    && (forall j | j in d.claimed :: j < d.nextJob)
    && (forall j | j in d.jobs && d.jobs[j].status == Queued :: j !in d.claimed)
    && (forall j | j in d.jobs && d.jobs[j].check.Some? :: d.jobs[j].check.value.key.product == d.jobs[j].product)
  }

  // Only a publish or an activation may be under way on a listing whose code is not used up yet.
  ghost predicate OpenOk(d: Depot, a: Attempt) {
    && a.job in d.jobs && a.key in d.listings && d.jobs[a.job].product == a.key.product
    && (d.jobs[a.job].op in {Update, Delete, Deactivate} ==> Spent(d.rows, a.key))
  }

  ghost predicate MarkOk(d: Depot, a: Attempt) {
    a.job in d.jobs && a.key in d.listings && d.jobs[a.job].product == a.key.product && Spent(d.rows, a.key)
  }

  ghost predicate AttemptsOk(d: Depot) {
    && (forall a | a in d.open :: OpenOk(d, a))
    && (forall a | a in d.marks :: MarkOk(d, a))
  }

  ghost predicate Inv(d: Depot) {
    PoolOk(d.rows) && OwnersOk(d.rows, d.products) && ProductsOk(d) && ListingsOk(d) && JobsOk(d) && AttemptsOk(d)
  }

  // What the depot promises of its listings: what was ever live has its code consumed, and what is
  // active was published.
  ghost predicate Accounted(d: Depot) {
    forall k | k in d.listings :: (EverLive(d.listings[k]) ==> Spent(d.rows, k)) && ActiveIsPublished(d.listings[k])
  }

  lemma InvAccounts(d: Depot)
    requires Inv(d)
    ensures Accounted(d)
  {
    forall k | k in d.listings ensures (EverLive(d.listings[k]) ==> Spent(d.rows, k)) && ActiveIsPublished(d.listings[k]) {
      assert ListingOk(d, k);
    }
  }

  // The one guard the code does not check: an activation only succeeds on a listing whose code is
  // used up.
  ghost predicate SpentSuccess(d: Depot, s: Step) {
    s.Succeed? && Open(d, s.attempt) && d.jobs[s.attempt.job].op == Activate ==> Spent(d.rows, s.attempt.key)
  }

  // Enough for it, and known before the marketplace is called: it starts on such a listing.
  ghost predicate SpentActivation(d: Depot, s: Step) {
    s.StartAttempt? && CanWork(d, s.job, s.key) && d.jobs[s.job].op == Activate && DoStart(d, s.job, s.key) != d
    ==> Spent(d.rows, s.key)
  }

  // It holds when an activation starts on a deactivated listing or on one its own job pre-marked,
  // not on a listing some other publish is still bringing up.
  predicate OwnActivation(d: Depot, s: Step) {
    s.StartAttempt? && s.job in d.jobs && d.jobs[s.job].op == Activate && s.key in d.listings
    ==> d.listings[s.key].status == Deactivated || Attempt(s.job, s.key) in d.marks
  }

  // ---- pool steps ----

  // Consumed rows of product p survive, with their owner.
  predicate KeepsConsumed(rows: seq<EanRow>, rows': seq<EanRow>, p: ProductId) {
    |rows| <= |rows'| && forall i | 0 <= i < |rows| && rows[i].owner == Some(p) && rows[i].state == Consumed :: rows'[i] == rows[i]
  }

  lemma SpentSurvives(rows: seq<EanRow>, rows': seq<EanRow>, k: Key)
    requires Spent(rows, k) && KeepsConsumed(rows, rows', k.product)
    ensures Spent(rows', k)
  {
    var i :| 0 <= i < |rows| && rows[i].owner == Some(k.product) && rows[i].account == k.account && rows[i].state == Consumed;
    assert rows'[i] == rows[i];
  }

  // Each (product, account) owns at most one row.
  lemma OneRowPerAccount(rows: seq<EanRow>, products: map<ProductId, Product>, i: nat, j: nat)
    requires PoolOk(rows) && OwnersOk(rows, products)
    requires i < |rows| && j < |rows| && rows[i].owner.Some?
    requires rows[i].owner == rows[j].owner && rows[i].account == rows[j].account
    ensures i == j
  {
  }

  // A step that changes the pool and the cards only, keeping what listings and attempts rely on.
  lemma PoolStepKeeps(d: Depot, e: Depot)
    requires Inv(d)
    requires PoolOk(e.rows) && OwnersOk(e.rows, e.products) && ProductsOk(e)
    requires e == d.(rows := e.rows, products := e.products, nextProduct := e.nextProduct)
    requires forall p | p in d.products :: p in e.products && KeepsConsumed(d.rows, e.rows, p)
    requires forall k | k in d.listings :: e.products[k.product].codes.CodeFor(k.account) == d.listings[k].ean
    ensures Inv(e)
  {
    forall k: Key | k.product in d.products && Spent(d.rows, k) ensures Spent(e.rows, k) {
      SpentSurvives(d.rows, e.rows, k);
    }
    forall k | k in e.listings ensures ListingOk(e, k) {
      assert ListingOk(d, k);
    }
    forall a | a in e.open ensures OpenOk(e, a) {
      assert OpenOk(d, a) && ListingOk(d, a.key);
    }
    forall a | a in e.marks ensures MarkOk(e, a) {
      assert MarkOk(d, a) && ListingOk(d, a.key);
    }
  }

  lemma ImportKeeps(d: Depot, account: Account, lines: seq<string>)
    requires Inv(d)
    ensures Inv(DoImport(d, account, lines)) && PoolAdvances(d.rows, DoImport(d, account, lines).rows)
  {
    ImportKeepsPool(d.rows, account, lines);
    PoolStepKeeps(d, DoImport(d, account, lines));
  }

  lemma ApproveKeeps(d: Depot, p: ProductId, locked: set<nat>)
    requires Inv(d)
    ensures Inv(DoApprove(d, p, locked)) && PoolAdvances(d.rows, DoApprove(d, p, locked).rows)
  {
    var e := DoApprove(d, p, locked);
    if e != d {
      var card := d.products[p].codes;
      AssignKeepsPool(d.rows, card, p, locked);
      forall i | 0 <= i < |e.rows| && e.rows[i].owner.Some?
        ensures var q := e.rows[i].owner.value;
                q in e.products && e.products[q].codes.CodeFor(e.rows[i].account) == e.rows[i].code
      {
      }
      forall k | k in d.listings ensures e.products[k.product].codes.CodeFor(k.account) == d.listings[k].ean {
        assert ListingOk(d, k);
      }
      PoolStepKeeps(d, e);
    }
  }

  lemma WithdrawKeeps(d: Depot, p: ProductId)
    requires Inv(d)
    ensures Inv(DoWithdraw(d, p)) && PoolAdvances(d.rows, DoWithdraw(d, p).rows)
  {
    var e := DoWithdraw(d, p);
    if e != d {
      forall k | k in d.listings ensures e.products[k.product].codes.CodeFor(k.account) == d.listings[k].ean {
        assert ListingOk(d, k);
      }
      PoolStepKeeps(d, e);
    }
  }

  // Steps that only move a product through moderation.
  lemma StatusKeeps(d: Depot, p: ProductId, s: ProductStatus)
    requires Inv(d) && p in d.products
    ensures Inv(WithStatus(d, p, s))
  {
    var e := WithStatus(d, p, s);
    forall k | k in d.listings ensures e.products[k.product].codes.CodeFor(k.account) == d.listings[k].ean {
      assert ListingOk(d, k);
    }
    PoolStepKeeps(d, e);
  }

  lemma RegisterKeeps(d: Depot, seller: nat)
    requires Inv(d)
    ensures Inv(DoRegister(d, seller))
  {
    var e := DoRegister(d, seller);
    forall k | k in d.listings ensures e.products[k.product].codes.CodeFor(k.account) == d.listings[k].ean {
      assert ListingOk(d, k);
    }
    PoolStepKeeps(d, e);
  }

  // ---- job steps ----

  predicate SameWork(old_: Job, new_: Job) {
    new_.op == old_.op && new_.product == old_.product
  }

  lemma JobStepKeeps(d: Depot, e: Depot)
    requires Inv(d) && JobsOk(e)
    requires e == d.(jobs := e.jobs, nextJob := e.nextJob, claimed := e.claimed)
    requires forall j | j in d.jobs :: j in e.jobs && SameWork(d.jobs[j], e.jobs[j])
    ensures Inv(e)
  {
    forall k | k in e.listings ensures ListingOk(e, k) {
      assert ListingOk(d, k);
    }
    forall a | a in e.open ensures OpenOk(e, a) {
      assert OpenOk(d, a);
    }
    forall a | a in e.marks ensures MarkOk(e, a) {
      assert MarkOk(d, a);
    }
  }

  lemma NewJobKeeps(d: Depot, p: ProductId, op: Operation)
    requires Inv(d)
    ensures Inv(DoNewJob(d, p, op))
  {
    JobStepKeeps(d, DoNewJob(d, p, op));
  }

  lemma JobStatusKeeps(d: Depot, j: JobId, s: JobStatus)
    requires Inv(d) && j in d.jobs && s != Queued
    ensures Inv(WithJobStatus(d, j, s))
  {
    JobStepKeeps(d, WithJobStatus(d, j, s));
  }

  lemma ClaimKeeps(d: Depot, j: JobId)
    requires Inv(d)
    ensures Inv(DoClaim(d, j))
  {
    JobStepKeeps(d, DoClaim(d, j));
  }

  lemma ReconcileCheckKeeps(d: Depot, k: Key)
    requires Inv(d)
    ensures Inv(DoReconcileCheck(d, k))
  {
    JobStepKeeps(d, DoReconcileCheck(d, k));
  }

  // ---- listing steps ----

  // One listing is rewritten, the pool may consume a row; everything else stays or shrinks.
  lemma ListingStepKeeps(d: Depot, e: Depot, k: Key)
    requires Inv(d)
    requires PoolOk(e.rows) && OwnersOk(e.rows, e.products)
    requires e == d.(rows := e.rows, listings := e.listings, open := e.open)
    requires e.listings.Keys == d.listings.Keys + {k}
    requires forall q | q in d.listings && q != k :: e.listings[q] == d.listings[q]
    requires forall p :: KeepsConsumed(d.rows, e.rows, p)
    requires ListingOk(e, k)
    requires forall a | a in e.open && a !in d.open :: OpenOk(e, a)
    ensures Inv(e)
  {
    forall q: Key | Spent(d.rows, q) ensures Spent(e.rows, q) {
      SpentSurvives(d.rows, e.rows, q);
    }
    forall q | q in e.listings ensures ListingOk(e, q) {
      if q != k {
        assert ListingOk(d, q);
      }
    }
    forall a | a in e.open ensures OpenOk(e, a) {
      if a in d.open {
        assert OpenOk(d, a);
      }
    }
    forall a | a in e.marks ensures MarkOk(e, a) {
      assert MarkOk(d, a);
    }
  }

  lemma StartKeeps(d: Depot, j: JobId, k: Key)
    requires Inv(d)
    ensures Inv(DoStart(d, j, k))
  {
    var e := DoStart(d, j, k);
    if e != d {
      if k in d.listings {
        assert ListingOk(d, k);
      }
      ListingStepKeeps(d, e, k);
    }
  }

  lemma OwnActivationIsSpent(d: Depot, s: Step)
    requires Inv(d) && OwnActivation(d, s)
    ensures SpentActivation(d, s)
  {
    if s.StartAttempt? && s.key in d.listings {
      assert ListingOk(d, s.key);
      if Attempt(s.job, s.key) in d.marks {
        assert MarkOk(d, Attempt(s.job, s.key));
      }
    }
  }

  lemma AwaitKeeps(d: Depot, a: Attempt)
    requires Inv(d)
    ensures Inv(DoAwait(d, a))
  {
    if Open(d, a) {
      assert ListingOk(d, a.key);
      ListingStepKeeps(d, DoAwait(d, a), a.key);
    }
  }

  lemma FailKeeps(d: Depot, a: Attempt)
    requires Inv(d)
    ensures Inv(DoFail(d, a))
  {
    if Open(d, a) {
      assert ListingOk(d, a.key);
      ListingStepKeeps(d, DoFail(d, a), a.key);
    }
  }

  lemma ConsumeSpends(d: Depot, k: Key)
    requires Inv(d) && k.product in d.products
    requires !Consume(d.rows, d.products[k.product].codes, k.product, k.account).Refused?
    ensures var rows := AfterConsume(d.rows, Consume(d.rows, d.products[k.product].codes, k.product, k.account));
            && Spent(rows, k) && PoolOk(rows) && OwnersOk(rows, d.products) && PoolAdvances(d.rows, rows)
            && forall p :: KeepsConsumed(d.rows, rows, p)
  {
    var codes := d.products[k.product].codes;
    var c := Consume(d.rows, codes, k.product, k.account);
    var i := FindRow(d.rows, k.product, k.account, codes.CodeFor(k.account)).value;
    var rows := AfterConsume(d.rows, c);
    assert rows[i].owner == Some(k.product) && rows[i].account == k.account && rows[i].state == Consumed;
  }

  predicate FirstPublication(d: Depot, a: Attempt)
    requires Open(d, a)
  {
    d.jobs[a.job].op == Publish && FirstSuccess(d.listings[a.key], Publish)
  }

  lemma RepeatedSuccessKeeps(d: Depot, a: Attempt, now: Time)
    requires Inv(d) && Open(d, a) && !FirstPublication(d, a) && (d.jobs[a.job].op == Activate ==> Spent(d.rows, a.key))
    ensures Inv(DoSucceed(d, a, now)) && DoSucceed(d, a, now).rows == d.rows
  {
    assert ListingOk(d, a.key) && OpenOk(d, a);
    ListingStepKeeps(d, DoSucceed(d, a, now), a.key);
  }

  lemma FirstPublicationKeeps(d: Depot, a: Attempt, now: Time)
    requires Inv(d) && Open(d, a) && FirstPublication(d, a)
    ensures Inv(DoSucceed(d, a, now)) && PoolAdvances(d.rows, DoSucceed(d, a, now).rows)
  {
    assert ListingOk(d, a.key);
    if !Consume(d.rows, d.products[a.key.product].codes, a.key.product, a.key.account).Refused? {
      ConsumeSpends(d, a.key);
    }
    ListingStepKeeps(d, DoSucceed(d, a, now), a.key);
  }

  lemma SucceedKeeps(d: Depot, a: Attempt, now: Time)
    requires Inv(d) && SpentSuccess(d, Succeed(a, now))
    ensures Inv(DoSucceed(d, a, now)) && PoolAdvances(d.rows, DoSucceed(d, a, now).rows)
  {
    if Open(d, a) {
      if FirstPublication(d, a) {
        FirstPublicationKeeps(d, a, now);
      } else {
        RepeatedSuccessKeeps(d, a, now);
      }
    }
  }

  // A success breaks the promise if and only if it is an activation's on a code that is not used
  // up.
  lemma SuccessExact(d: Depot, a: Attempt, now: Time)
    requires Inv(d)
    ensures Accounted(DoSucceed(d, a, now)) <==> SpentSuccess(d, Succeed(a, now))
  {
    if SpentSuccess(d, Succeed(a, now)) {
      SucceedKeeps(d, a, now);
      InvAccounts(DoSucceed(d, a, now));
    } else {
      var e := DoSucceed(d, a, now);
      assert e.rows == d.rows && a.key in e.listings && e.listings[a.key].status == Active;
    }
  }

  lemma ReconciledOk(d: Depot, rows: seq<EanRow>, k: Key, target: Status, job: JobId, now: Time)
    requires k in d.listings && ListingOk(d, k)
    requires target in {Failed, Active, Deactivated, Deleted}
    requires if target == Failed then rows == d.rows else Spent(rows, k)
    ensures var e := d.(rows := rows, listings := d.listings[k := Reconciled(d.listings[k], target, job, now)]);
            ListingOk(e, k)
  {
  }

  lemma ReconciledKeeps(d: Depot, rows: seq<EanRow>, k: Key, target: Status, job: JobId, now: Time)
    requires Inv(d) && k in d.listings && target in {Failed, Active, Deactivated, Deleted}
    requires PoolOk(rows) && OwnersOk(rows, d.products) && forall p :: KeepsConsumed(d.rows, rows, p)
    requires if target == Failed then rows == d.rows else Spent(rows, k)
    ensures Inv(d.(rows := rows, listings := d.listings[k := Reconciled(d.listings[k], target, job, now)]))
  {
    assert ListingOk(d, k);
    ReconciledOk(d, rows, k, target, job, now);
    ListingStepKeeps(d, d.(rows := rows, listings := d.listings[k := Reconciled(d.listings[k], target, job, now)]), k);
  }

  lemma ConfirmKeeps(d: Depot, k: Key, target: Status, job: JobId, now: Time)
    requires Inv(d) && k in d.listings && k.product in d.products
    requires target in {Failed, Active, Deactivated, Deleted}
    ensures var r := Confirm(d, k, target, job, now);
            r.Some? ==> Inv(r.value) && PoolAdvances(d.rows, r.value.rows) && r.value.jobs == d.jobs
  {
    var r := Confirm(d, k, target, job, now);
    if r.Some? {
      if target != Failed {
        ConsumeSpends(d, k);
      }
      ReconciledKeeps(d, r.value.rows, k, target, job, now);
    }
  }

  lemma ManualJobKeeps(d: Depot, p: ProductId)
    requires Inv(d) && p in d.products
    ensures Inv(WithManualJob(d, p))
  {
    JobStepKeeps(d, WithManualJob(d, p));
  }

  lemma ReconcileManualKeeps(d: Depot, k: Key, target: Option<Status>, now: Time)
    requires Inv(d)
    ensures Inv(DoReconcileManual(d, k, target, now)) && PoolAdvances(d.rows, DoReconcileManual(d, k, target, now).rows)
  {
    var goal := ManualGoal(d, k, target);
    if goal.Some? {
      ConfirmKeeps(d, k, goal.value, d.nextJob, now);
      var r := Confirm(d, k, goal.value, d.nextJob, now);
      if r.Some? {
        ManualJobKeeps(r.value, k.product);
      }
    }
  }

  lemma ReconcileFinishKeeps(d: Depot, j: JobId, confirmed: bool, now: Time)
    requires Inv(d)
    ensures Inv(DoReconcileFinish(d, j, confirmed, now)) && PoolAdvances(d.rows, DoReconcileFinish(d, j, confirmed, now).rows)
  {
    if j in d.claimed && j in d.jobs && d.jobs[j].check.Some? {
      var k := d.jobs[j].check.value.key;
      if k in d.listings && k.product in d.products {
        JobStatusKeeps(d, j, JobFailed);
        ConfirmKeeps(d, k, Active, j, now);
        var r := Confirm(d, k, Active, j, now);
        if r.Some? {
          JobStatusKeeps(r.value, j, JobSucceeded);
        }
      }
    }
  }

  lemma NewJobsOk(d: Depot, p: ProductId, action: Action, keys: set<Key>)
    requires JobsOk(d) && p in d.products
    ensures JobsOk(d.(jobs := d.jobs + NewJobs(d, p, action, keys), nextJob := d.nextJob + 2))
    ensures forall j | j in d.jobs :: j !in NewJobs(d, p, action, keys)
  {
    var more := NewJobs(d, p, action, keys);
    forall j | j in more ensures d.nextJob <= j < d.nextJob + 2 && more[j].product == p && more[j].check.None? {
      var k :| k in keys && OperationFor(k.marketplace, action).Some? && j == JobIdFor(d, OperationFor(k.marketplace, action).value);
    }
  }

  lemma NewJobsKeep(d: Depot, p: ProductId, action: Action, keys: set<Key>)
    requires Inv(d) && p in d.products
    ensures Inv(d.(jobs := d.jobs + NewJobs(d, p, action, keys), nextJob := d.nextJob + 2))
  {
    NewJobsOk(d, p, action, keys);
    JobStepKeeps(d, d.(jobs := d.jobs + NewJobs(d, p, action, keys), nextJob := d.nextJob + 2));
  }

  lemma MarksForOk(d: Depot, p: ProductId, action: Action, keys: set<Key>, a: Attempt)
    requires a in MarksFor(d, action, keys)
    ensures a.key in keys && a.job in NewJobs(d, p, action, keys) && NewJobs(d, p, action, keys)[a.job].product == p
  {
  }

  lemma PreMarkOk(d: Depot, k: Key, op: Operation, job: JobId)
    requires k in d.listings && ListingOk(d, k) && CanPreMark(d.listings[k], op)
    ensures ListingOk(d.(listings := d.listings[k := PreMarked(d.listings[k], op, job)]), k)
    ensures Spent(d.rows, k)
  {
  }

  ghost predicate WasPreMarked(l: Listing, l': Listing) {
    l' == l || exists op, job | op != Search :: CanPreMark(l, op) && l' == PreMarked(l, op, job)
  }

  // Pre-marking a set of listings and remembering the marks, on a depot that has the jobs.
  lemma PreMarkingKeeps(d: Depot, e: Depot)
    requires Inv(d)
    requires e == d.(listings := e.listings, marks := e.marks)
    requires e.listings.Keys == d.listings.Keys
    requires forall k | k in d.listings :: WasPreMarked(d.listings[k], e.listings[k])
    requires forall a | a in e.marks && a !in d.marks :: MarkOk(d, a)
    ensures Inv(e)
  {
    forall k | k in e.listings ensures ListingOk(e, k) {
      assert ListingOk(d, k);
      if e.listings[k] != d.listings[k] {
        var op, job :| op != Search && CanPreMark(d.listings[k], op) && e.listings[k] == PreMarked(d.listings[k], op, job);
        PreMarkOk(d, k, op, job);
      }
    }
    forall a | a in e.open ensures OpenOk(e, a) {
      assert OpenOk(d, a);
    }
    forall a | a in e.marks ensures MarkOk(e, a) {
      assert MarkOk(d, a);
    }
  }

  lemma PreMarkableIsLive(d: Depot, p: ProductId, action: Action, requested: set<Key>, k: Key)
    requires Inv(d) && k in PreMarkable(d, p, action, requested)
    ensures OperationFor(k.marketplace, action).value != Search
    ensures CanPreMark(d.listings[k], OperationFor(k.marketplace, action).value)
    ensures Spent(d.rows, k) && k.product == p && p in d.products
  {
    assert ListingOk(d, k);
  }

  lemma NewMarkOk(d: Depot, p: ProductId, action: Action, requested: set<Key>, a: Attempt)
    requires Inv(d)
    requires a in MarksFor(d, action, PreMarkable(d, p, action, requested))
    ensures MarkOk(d.(jobs := d.jobs + NewJobs(d, p, action, PreMarkable(d, p, action, requested)), nextJob := d.nextJob + 2), a)
  {
    MarksForOk(d, p, action, PreMarkable(d, p, action, requested), a);
    PreMarkableIsLive(d, p, action, requested, a.key);
  }

  lemma NewMarksOk(d: Depot, p: ProductId, action: Action, requested: set<Key>)
    requires Inv(d)
    ensures forall a | a in MarksFor(d, action, PreMarkable(d, p, action, requested)) ::
              MarkOk(WithNewJobs(d, p, action, requested), a)
  {
    forall a | a in MarksFor(d, action, PreMarkable(d, p, action, requested))
      ensures MarkOk(WithNewJobs(d, p, action, requested), a)
    {
      NewMarkOk(d, p, action, requested, a);
    }
  }

  lemma PreMarkedListings(d: Depot, p: ProductId, action: Action, requested: set<Key>)
    requires Inv(d)
    ensures var e := DoListingState(d, p, action, requested);
            e.listings.Keys == d.listings.Keys && forall k | k in d.listings :: WasPreMarked(d.listings[k], e.listings[k])
  {
    var e := DoListingState(d, p, action, requested);
    forall k | k in d.listings ensures WasPreMarked(d.listings[k], e.listings[k]) {
      if k in PreMarkable(d, p, action, requested) {
        PreMarkableIsLive(d, p, action, requested, k);
        var op := OperationFor(k.marketplace, action).value;
        assert e.listings[k] == PreMarked(d.listings[k], op, JobIdFor(d, op));
      }
    }
  }

  // The depot with the new jobs only, before any listing is touched.
  function WithNewJobs(d: Depot, p: ProductId, action: Action, requested: set<Key>): Depot {
    d.(jobs := d.jobs + NewJobs(d, p, action, PreMarkable(d, p, action, requested)), nextJob := d.nextJob + 2)
  }

  lemma WithNewJobsKeeps(d: Depot, p: ProductId, action: Action, requested: set<Key>)
    requires Inv(d) && PreMarkable(d, p, action, requested) != {}
    ensures Inv(WithNewJobs(d, p, action, requested))
  {
    var some :| some in PreMarkable(d, p, action, requested);
    PreMarkableIsLive(d, p, action, requested, some);
    NewJobsKeep(d, p, action, PreMarkable(d, p, action, requested));
  }

  lemma ListingStateKeeps(d: Depot, p: ProductId, action: Action, requested: set<Key>)
    requires Inv(d)
    ensures Inv(DoListingState(d, p, action, requested))
  {
    if PreMarkable(d, p, action, requested) != {} {
      WithNewJobsKeeps(d, p, action, requested);
      NewMarksOk(d, p, action, requested);
      PreMarkedListings(d, p, action, requested);
      PreMarkingKeeps(WithNewJobs(d, p, action, requested), DoListingState(d, p, action, requested));
    }
  }

  lemma PurgeKeeps(d: Depot, seller: nat)
    requires Inv(d)
    ensures Inv(DoPurge(d, seller)) && PoolAdvances(d.rows, DoPurge(d, seller).rows)
  {
    var e := DoPurge(d, seller);
    if e != d {
      forall k: Key | k.product in e.products && Spent(d.rows, k) ensures Spent(e.rows, k) {
        SpentSurvives(d.rows, e.rows, k);
      }
      forall k | k in e.listings ensures ListingOk(e, k) {
        assert ListingOk(d, k);
      }
      forall a | a in e.open ensures OpenOk(e, a) {
        assert OpenOk(d, a) && ListingOk(d, a.key);
      }
      forall a | a in e.marks ensures MarkOk(e, a) {
        assert MarkOk(d, a) && ListingOk(d, a.key);
      }
    }
  }
}
