// Business actions over many listings at once: one job per marketplace operation with every
// target pre-marked (apps/orchestrator/listing_state_services.py), and the purge of a seller
// built on it (apps/accounts/purge.py).
module ListingState {
  import opened Common
  import opened EanPool
  import opened Listings
  import opened Lifecycle

  datatype Target = Target(marketplace: Marketplace, account: Account)

  function KeyOf(p: ProductId, t: Target): Key {
    Key(p, t.marketplace, t.account)
  }

  function KeysOf(p: ProductId, targets: seq<Target>): set<Key> {
    set t | t in targets :: KeyOf(p, t)
  }

  lemma KeysSay(p: ProductId, targets: seq<Target>, k: Key)
    ensures k in KeysOf(p, targets) <==> k.product == p && Target(k.marketplace, k.account) in targets
  {
    if k.product == p && Target(k.marketplace, k.account) in targets {
      assert KeyOf(p, Target(k.marketplace, k.account)) == k;
    }
  }

  datatype Unavailable = NotInStatus(key: Key) | NotReactivable(key: Key)

  predicate Distinct<T(==)>(xs: seq<T>) {
    forall i, j | 0 <= i < j < |xs| :: xs[i] != xs[j]
  }

  function Elems<T>(xs: seq<T>): set<T> {
    set x | x in xs
  }

  predicate Handles(k: Key, action: Action, op: Operation) {
    OperationFor(k.marketplace, action) == Some(op)
  }

  // The job of each operation lists once exactly those selected listings that it handles.
  ghost predicate Partitions(jobs: map<Operation, seq<Key>>, selected: set<Key>, action: Action) {
    && (forall op | op in jobs :: jobs[op] != [] && Distinct(jobs[op]))
    && (forall op, k | op in jobs && k in jobs[op] :: k in selected && Handles(k, action, op))
    && (forall op, k | k in selected && Handles(k, action, op) :: op in jobs && k in jobs[op])
  }

  // Any order of a set.
  method InSomeOrder<T>(items: set<T>) returns (order: seq<T>)
    ensures Distinct(order) && forall x :: x in order <==> x in items
  {
    order := [];
    var rest := items;
    while rest != {}
      invariant Distinct(order) && rest <= items
      invariant forall x :: x in order <==> x in items && x !in rest
      decreases rest
    {
      var x :| x in rest;
      order, rest := order + [x], rest - {x};
    }
  }

  method GroupByOperation(selected: seq<Key>, action: Action)
    returns (targets: map<Operation, seq<Key>>, unsupported: seq<Unavailable>)
    requires Distinct(selected)
    ensures Partitions(targets, Elems(selected), action)
    ensures forall u :: u in unsupported <==>
              u.NotReactivable? && u.key in selected && OperationFor(u.key.marketplace, action).None?
  {
    targets, unsupported := map[], [];
    for i := 0 to |selected|
      invariant Partitions(targets, Elems(selected[..i]), action)
      invariant forall u :: u in unsupported <==>
                  u.NotReactivable? && u.key in selected[..i] && OperationFor(u.key.marketplace, action).None?
    {
      var k := selected[i];
      assert selected[..i + 1] == selected[..i] + [k];
      assert k !in selected[..i];
      assert Elems(selected[..i + 1]) == Elems(selected[..i]) + {k};
      var operation := OperationFor(k.marketplace, action);
      if operation.None? {
        OneMoreUnsupported(targets, selected[..i], k, action);
        unsupported := unsupported + [NotReactivable(k)];
      } else {
        var op := operation.value;
        ghost var before := targets;
        targets := targets[op := (if op in targets then targets[op] else []) + [k]];
        OneMoreTarget(before, selected[..i], k, action, op);
      }
    }
    assert selected[..|selected|] == selected;
  }

  lemma OneMoreTarget(targets: map<Operation, seq<Key>>, selected: seq<Key>, k: Key, action: Action, op: Operation)
    requires Partitions(targets, Elems(selected), action) && k !in selected && Handles(k, action, op)
    ensures Partitions(targets[op := (if op in targets then targets[op] else []) + [k]], Elems(selected) + {k}, action)
  {
  }

  lemma OneMoreUnsupported(targets: map<Operation, seq<Key>>, selected: seq<Key>, k: Key, action: Action)
    requires Partitions(targets, Elems(selected), action) && OperationFor(k.marketplace, action).None?
    ensures Partitions(targets, Elems(selected) + {k}, action)
  {
  }

  predicate FreshJobs(d: Depot) {
    forall j | j in d.jobs :: j < d.nextJob
  }

  // What deactivating everything does to the listings of some products: the active ones are
  // pre-marked for a queued job of their product, and nothing else changes.
  ghost predicate ActiveArePreMarked(d: Depot, e: Depot, products: set<ProductId>) {
    && e.rows == d.rows && e.products == d.products && e.listings.Keys == d.listings.Keys
    && (forall j | j in d.jobs :: j in e.jobs && e.jobs[j] == d.jobs[j])
    && (forall k | k in d.listings ::
          if k.product in products && d.listings[k].status == Active
          then HasOwnMark(e, k, d.listings[k])
          else e.listings[k] == d.listings[k])
  }

  predicate AnyActive(d: Depot, products: set<ProductId>) {
    exists k | k in d.listings :: k.product in products && d.listings[k].status == Active
  }

  predicate OwnMark(e: Depot, k: Key, was: Listing, j: JobId) {
    && k in e.listings && j in e.jobs && e.jobs[j].product == k.product && e.jobs[j].status == Queued
    && CanPreMark(was, e.jobs[j].op) && e.listings[k] == PreMarked(was, e.jobs[j].op, j)
    && Attempt(j, k) in e.marks
  }

  ghost predicate HasOwnMark(e: Depot, k: Key, was: Listing) {
    exists j :: OwnMark(e, k, was, j)
  }

  // The loop over these products has led from d to e.
  ghost predicate DeactivatedSoFar(d: Depot, e: Depot, products: seq<ProductId>) {
    forall ps | ps == products :: e == Run(d, DeactivateSteps(ps)) && FreshJobs(e) && ActiveArePreMarked(d, e, Elems(ps))
  }

  lemma DeactivatedMeans(d: Depot, e: Depot, products: seq<ProductId>)
    ensures DeactivatedSoFar(d, e, products)
            <==> e == Run(d, DeactivateSteps(products)) && FreshJobs(e) && ActiveArePreMarked(d, e, Elems(products))
  {
  }

  function DeactivateSteps(products: seq<ProductId>): seq<Step> {
    seq(|products|, i requires 0 <= i < |products| => Step.ListingState(products[i], DeactivateListings, {}))
  }

  function JobsOf(d: Depot, p: ProductId, operations: set<Operation>): map<JobId, Job>
    requires operations <= {Deactivate, Delete} || operations <= {Activate}
  {
    map op | op in operations :: JobIdFor(d, op) := Job(p, op, Queued, None)
  }

  function WithJobs(d: Depot, p: ProductId, operations: set<Operation>): Depot
    requires operations <= {Deactivate, Delete} || operations <= {Activate}
  {
    d.(jobs := d.jobs + JobsOf(d, p, operations), nextJob := d.nextJob + 2)
  }

  predicate HaveJobs<T>(keys: set<Key>, action: Action, jobs: map<Operation, T>) {
    forall k | k in keys && OperationFor(k.marketplace, action).Some? :: OperationFor(k.marketplace, action).value in jobs
  }

  function Marked(d: Depot, keys: set<Key>, action: Action, jobs: map<Operation, JobId>): Depot
    requires HaveJobs(keys, action, jobs)
  {
    d.(listings := map k | k in d.listings :: MarkedListing(d.listings[k], k, keys, action, jobs),
       marks := d.marks + set k | k in keys && OperationFor(k.marketplace, action).Some? ::
                  Attempt(jobs[OperationFor(k.marketplace, action).value], k))
  }

  function MarkedListing(l: Listing, k: Key, keys: set<Key>, action: Action, jobs: map<Operation, JobId>): Listing
    requires HaveJobs(keys, action, jobs)
  {
    var operation := OperationFor(k.marketplace, action);
    if k in keys && operation.Some? then PreMarked(l, operation.value, jobs[operation.value]) else l
  }

  lemma OneMoreJob(d: Depot, p: ProductId, operations: set<Operation>, op: Operation)
    requires operations + {op} <= {Deactivate, Delete} || operations + {op} <= {Activate}
    ensures d.jobs + JobsOf(d, p, operations + {op}) == (d.jobs + JobsOf(d, p, operations))[JobIdFor(d, op) := Job(p, op, Queued, None)]
  {
    assert JobsOf(d, p, operations + {op}) == JobsOf(d, p, operations)[JobIdFor(d, op) := Job(p, op, Queued, None)];
  }

  lemma OneMoreMark(d: Depot, keys: set<Key>, k: Key, action: Action, jobs: map<Operation, JobId>)
    requires HaveJobs(keys + {k}, action, jobs) && k in d.listings && k !in keys
    ensures HaveJobs(keys, action, jobs)
    ensures var before, after := Marked(d, keys, action, jobs), Marked(d, keys + {k}, action, jobs);
            match OperationFor(k.marketplace, action)
            case None => after == before
            case Some(op) =>
              after == before.(listings := before.listings[k := PreMarked(d.listings[k], op, jobs[op])],
                               marks := before.marks + {Attempt(jobs[op], k)})
  {
    var before, after := Marked(d, keys, action, jobs), Marked(d, keys + {k}, action, jobs);
    match OperationFor(k.marketplace, action)
    case None =>
      assert after.listings == before.listings;
      assert after.marks == before.marks;
    case Some(op) =>
      assert after.listings == before.listings[k := PreMarked(d.listings[k], op, jobs[op])];
      assert after.marks == before.marks + {Attempt(jobs[op], k)};
  }

  // Marking these listings has led from d to e.
  ghost predicate MarkedSoFar(d: Depot, e: Depot, keys: set<Key>, action: Action, jobs: map<Operation, JobId>) {
    forall ks | ks == keys && HaveJobs(ks, action, jobs) :: e == Marked(d, ks, action, jobs)
  }

  lemma MarkedMeans(d: Depot, e: Depot, keys: set<Key>, action: Action, jobs: map<Operation, JobId>)
    requires HaveJobs(keys, action, jobs)
    ensures MarkedSoFar(d, e, keys, action, jobs) <==> e == Marked(d, keys, action, jobs)
  {
    if MarkedSoFar(d, e, keys, action, jobs) {
      assert e == Marked(d, keys, action, jobs);
    }
  }

  lemma NothingMarked(d: Depot, action: Action, jobs: map<Operation, JobId>)
    ensures MarkedSoFar(d, d, {}, action, jobs)
  {
    assert Marked(d, {}, action, jobs).listings == d.listings;
    assert Marked(d, {}, action, jobs).marks == d.marks;
  }

  function MarkOne(d: Depot, k: Key, action: Action, jobs: map<Operation, JobId>): Depot
    requires HaveJobs({k}, action, jobs) && k in d.listings
  {
    match OperationFor(k.marketplace, action)
    case None => d
    case Some(op) => d.(listings := d.listings[k := PreMarked(d.listings[k], op, jobs[op])], marks := d.marks + {Attempt(jobs[op], k)})
  }

  lemma MarkOneMore(d: Depot, e: Depot, keys: set<Key>, k: Key, action: Action, jobs: map<Operation, JobId>)
    requires HaveJobs({k}, action, jobs) && HaveJobs(keys, action, jobs) && MarkedSoFar(d, e, keys, action, jobs)
    requires k in d.listings && k in e.listings && k !in keys
    ensures HaveJobs(keys + {k}, action, jobs) && MarkedSoFar(d, MarkOne(e, k, action, jobs), keys + {k}, action, jobs)
  {
    MarkedMeans(d, e, keys, action, jobs);
    OneMoreMark(d, keys, k, action, jobs);
    MarkedMeans(d, MarkOne(e, k, action, jobs), keys + {k}, action, jobs);
  }

  // ---- what a deletion leaves ----

  predicate StillListedOrBusy(d: Depot, seller: nat) {
    SellerBusy(d, seller) || SellerHasActive(d, seller)
  }

  // No row refers to one of these products any more.
  predicate NothingLeft(e: Depot, gone: set<ProductId>) {
    && (forall p | p in e.products :: p !in gone)
    && (forall k | k in e.listings :: k.product !in gone)
    && (forall j | j in e.jobs :: e.jobs[j].product !in gone)
    && (forall a | a in e.open :: a.key.product !in gone)
    && (forall a | a in e.marks :: a.key.product !in gone)
    && (forall i | 0 <= i < |e.rows| && e.rows[i].owner.Some? :: e.rows[i].owner.value !in gone)
  }

  predicate OthersKept(d: Depot, e: Depot, gone: set<ProductId>) {
    && (forall p | p in d.products && p !in gone :: p in e.products && e.products[p] == d.products[p])
    && (forall k | k in d.listings && k.product !in gone :: k in e.listings && e.listings[k] == d.listings[k])
    && (forall j | j in d.jobs && d.jobs[j].product !in gone :: j in e.jobs && e.jobs[j] == d.jobs[j])
    && (forall a | a in d.open && a.key.product !in gone :: a in e.open)
    && (forall a | a in d.marks && a.key.product !in gone :: a in e.marks)
  }

  predicate NothingNew(d: Depot, e: Depot) {
    && e.products.Keys <= d.products.Keys && e.listings.Keys <= d.listings.Keys
    && (forall j | j in e.jobs :: j in d.jobs && e.jobs[j] == d.jobs[j])
    && e.open <= d.open && e.marks <= d.marks
    && e.nextProduct == d.nextProduct && e.nextJob == d.nextJob && e.claimed == d.claimed
  }

  // The pool keeps every code: a reserved one is free again, a consumed one stays consumed.
  predicate CodesReturned(d: Depot, e: Depot, gone: set<ProductId>) {
    && |e.rows| == |d.rows|
    && forall i | 0 <= i < |d.rows| ::
         if d.rows[i].owner.Some? && d.rows[i].owner.value in gone
         then e.rows[i] == EanRow(d.rows[i].code, d.rows[i].account, None, if d.rows[i].state == Reserved then Available else d.rows[i].state)
         else e.rows[i] == d.rows[i]
  }

  predicate Erased(d: Depot, e: Depot, seller: nat) {
    var gone := SellerProducts(d, seller);
    SellerProducts(e, seller) == {} && NothingLeft(e, gone) && OthersKept(d, e, gone) && NothingNew(d, e) && CodesReturned(d, e, gone)
  }

  // The deletion leaves nothing of the seller, returns his codes and spares everybody else.
  lemma PurgeErases(d: Depot, seller: nat)
    requires !StillListedOrBusy(d, seller)
    ensures Erased(d, DoPurge(d, seller), seller)
  {
    var e, gone := DoPurge(d, seller), SellerProducts(d, seller);
    assert e.rows == Detach(d.rows, gone);
    assert SellerProducts(e, seller) == {};
  }

  // And it is the only state of which that can be said.
  lemma ErasedIsPurged(d: Depot, e: Depot, seller: nat)
    requires !StillListedOrBusy(d, seller) && Erased(d, e, seller)
    ensures e == DoPurge(d, seller)
  {
    var f := DoPurge(d, seller);
    PurgeErases(d, seller);
    ErasedOnce(d, e, f, seller);
  }

  lemma ErasedOnce(d: Depot, e: Depot, f: Depot, seller: nat)
    requires Erased(d, e, seller) && Erased(d, f, seller)
    ensures e == f
  {
    assert e.rows == f.rows;
    SameKept(d.products, e.products, f.products, SellerProducts(d, seller));
    assert e.listings == f.listings;
    assert e.jobs == f.jobs;
    assert e.open == f.open && e.marks == f.marks;
  }

  lemma SameKept<V>(d: map<ProductId, V>, e: map<ProductId, V>, f: map<ProductId, V>, gone: set<ProductId>)
    requires e.Keys <= d.Keys && f.Keys <= d.Keys
    requires forall p | p in d && p !in gone :: p in e && p in f && e[p] == d[p] == f[p]
    requires forall p | p in e || p in f :: p !in gone
    ensures e == f
  {
  }

  datatype PurgeResult = Conflict | StillListed | Deleted(products: nat)

  class Database {
    var depot: Depot
    var blocked: set<nat>
    // Products whose deactivation the seller has asked for.
    var requests: set<ProductId>

    // One job per operation, with the ids the specification gives them.
    method CreateJobs(p: ProductId, operations: set<Operation>)
      requires operations <= {Deactivate, Delete} || operations <= {Activate}
      modifies this`depot
      ensures depot == WithJobs(old(depot), p, operations)
    {
      ghost var d := depot;
      ghost var done: set<Operation> := {};
      var rest := operations;
      assert d.jobs + JobsOf(d, p, done) == d.jobs;
      while rest != {}
        invariant done + rest == operations && done !! rest
        invariant depot == d.(jobs := d.jobs + JobsOf(d, p, done))
        decreases rest
      {
        var op :| op in rest;
        OneMoreJob(d, p, done, op);
        depot := depot.(jobs := depot.jobs[JobIdFor(depot, op) := Job(p, op, Queued, None)]);
        done, rest := done + {op}, rest - {op};
      }
      assert done == operations;
      depot := depot.(nextJob := depot.nextJob + 2);
    }

    // Every selected listing that has an operation is pre-marked for the job of that operation.
    method MarkSelected(selected: seq<Key>, action: Action, jobs: map<Operation, JobId>)
      requires Distinct(selected) && forall k | k in selected :: k in depot.listings
      requires HaveJobs(Elems(selected), action, jobs)
      modifies this`depot
      ensures depot == Marked(old(depot), Elems(selected), action, jobs)
    {
      ghost var d := depot;
      NothingMarked(d, action, jobs);
      for i := 0 to |selected|
        invariant HaveJobs(Elems(selected[..i]), action, jobs)
        invariant MarkedSoFar(d, depot, Elems(selected[..i]), action, jobs)
        invariant depot.listings.Keys == d.listings.Keys
      {
        var k := selected[i];
        assert selected[..i + 1] == selected[..i] + [k] && k !in selected[..i];
        assert Elems(selected[..i + 1]) == Elems(selected[..i]) + {k};
        MarkOneMore(d, depot, Elems(selected[..i]), k, action, jobs);
        var operation := OperationFor(k.marketplace, action);
        if operation.Some? {
          var job := jobs[operation.value];
          depot := depot.(listings := depot.listings[k := PreMarked(depot.listings[k], operation.value, job)],
                          marks := depot.marks + {Attempt(job, k)});
        }
      }
      assert selected[..|selected|] == selected;
      MarkedMeans(d, depot, Elems(selected), action, jobs);
    }

    // create_listing_state_jobs. `jobs` lists the targets of each created job; a deactivation
    // that creates any settles the seller's request for it.
    method CreateListingStateJobs(p: ProductId, action: Action, requested: seq<Target>)
      returns (jobs: map<Operation, seq<Key>>, unavailable: seq<Unavailable>)
      modifies this`depot, this`requests
      ensures depot == DoListingState(old(depot), p, action, KeysOf(p, requested))
      ensures requests == if action == DeactivateListings && jobs != map[] then old(requests) - {p} else old(requests)
      ensures Partitions(jobs, Selected(old(depot), p, action, KeysOf(p, requested)), action)
      ensures forall u :: u in unavailable <==> Unusable(old(depot), p, action, requested, u)
    {
      jobs, unavailable := CreateJobsAndMark(p, action, requested);
      if action == DeactivateListings && jobs != map[] {
        requests := requests - {p};
      }
    }

    method CreateJobsAndMark(p: ProductId, action: Action, requested: seq<Target>)
      returns (jobs: map<Operation, seq<Key>>, unavailable: seq<Unavailable>)
      modifies this`depot
      ensures depot == DoListingState(old(depot), p, action, KeysOf(p, requested))
      ensures Partitions(jobs, Selected(old(depot), p, action, KeysOf(p, requested)), action)
      ensures forall u :: u in unavailable <==> Unusable(old(depot), p, action, requested, u)
    {
      var d := depot;
      var publications := InStatus(depot, p, DesiredStatus(action));
      var selected := SelectPublications(p, requested, publications);
      SelectedElems(d, p, action, requested, publications, selected);
      unavailable := AbsentTargets(p, requested, publications);
      var unsupported;
      jobs, unsupported := GroupByOperation(selected, action);
      unavailable := unavailable + unsupported;
      JobsAreForOneAction(jobs, Elems(selected), action);
      if jobs == map[] {
        assert PreMarkable(d, p, action, KeysOf(p, requested)) == {};
        return;
      }
      CreateJobs(p, jobs.Keys);
      MarkSelected(selected, action, map op | op in jobs :: JobIdFor(d, op));
      MarkedIsListingState(d, p, action, KeysOf(p, requested), jobs);
    }

    // purge_seller: refused while marketplace work is under way; otherwise every active listing
    // is taken down first, and only a seller without any is deleted at once.
    method PurgeSeller(seller: nat) returns (r: PurgeResult, ghost products: seq<ProductId>)
      requires FreshJobs(depot)
      modifies this
      ensures r == Conflict <==> SellerBusy(old(depot), seller)
      ensures r.Deleted? <==> !SellerBusy(old(depot), seller) && !SellerHasActive(old(depot), seller)
      ensures r == Conflict ==> depot == old(depot)
      ensures r.Deleted? ==> depot == DoPurge(old(depot), seller) && Erased(old(depot), depot, seller)
      ensures r.Deleted? ==> r.products == |SellerProducts(old(depot), seller)|
      ensures r == StillListed ==>
                && depot == Run(old(depot), DeactivateSteps(products))
                && ActiveArePreMarked(old(depot), depot, SellerProducts(old(depot), seller))
                && SellerBusy(depot, seller) && !SellerHasActive(depot, seller)
      ensures blocked == if r == StillListed then old(blocked) + {seller} else old(blocked)
    {
      products := [];
      if SellerBusy(depot, seller) {
        return Conflict, [];
      }
      var d := depot;
      var order := InSomeOrder(SellerProducts(depot, seller));
      var created := DeactivateAll(order);
      assert Elems(order) == SellerProducts(d, seller);
      products := order;
      if created {
        blocked := blocked + {seller};
        DeactivationIsUnderWay(d, depot, seller);
        return StillListed, order;
      }
      var n := |SellerProducts(depot, seller)|;
      PurgeErases(depot, seller);
      HardDeleteSellerRows(seller);
      r := PurgeResult.Deleted(n);
    }

    // The loop of purge_seller over the products; says whether any job was created.
    method DeactivateAll(order: seq<ProductId>) returns (created: bool)
      requires FreshJobs(depot) && Distinct(order)
      modifies this`depot, this`requests
      ensures depot == Run(old(depot), DeactivateSteps(order))
      ensures ActiveArePreMarked(old(depot), depot, Elems(order))
      ensures created == AnyActive(old(depot), Elems(order))
      ensures created || depot == old(depot)
    {
      ghost var d := depot;
      created := false;
      DeactivatedMeans(d, depot, order[..0]);
      for i := 0 to |order|
        invariant DeactivatedSoFar(d, depot, order[..i])
        invariant created == AnyActive(d, Elems(order[..i]))
        invariant created || depot == d
      {
        var more := DeactivateNext(d, order, i);
        created := created || more;
      }
      assert order[..|order|] == order;
      DeactivatedMeans(d, depot, order);
    }

    method DeactivateNext(ghost d: Depot, order: seq<ProductId>, i: nat) returns (created: bool)
      requires i < |order| && Distinct(order)
      requires DeactivatedSoFar(d, depot, order[..i])
      modifies this`depot, this`requests
      ensures DeactivatedSoFar(d, depot, order[..i + 1])
      ensures AnyActive(d, Elems(order[..i + 1])) <==> AnyActive(d, Elems(order[..i])) || created
      ensures created || depot == old(depot)
    {
      ghost var e := depot;
      DeactivatedMeans(d, e, order[..i]);
      var jobs, _ := CreateListingStateJobs(order[i], DeactivateListings, []);
      assert KeysOf(order[i], []) == {};
      NextDeactivation(d, e, order, i);
      DeactivationCreatesJobs(d, e, order, i, jobs);
      DeactivatedMeans(d, depot, order[..i + 1]);
      created := jobs != map[];
    }

    // try_finalize_seller_purge, called until nothing of the seller is live or under way any more.
    method TryFinalizeSellerPurge(seller: nat) returns (deleted: bool)
      modifies this`depot
      ensures depot == DoPurge(old(depot), seller)
      ensures deleted ==> Erased(old(depot), depot, seller)
      ensures !deleted ==> depot == old(depot) && StillListedOrBusy(depot, seller)
      ensures deleted ==> !StillListedOrBusy(old(depot), seller)
    {
      if SellerBusy(depot, seller) || SellerHasActive(depot, seller) {
        return false;
      }
      PurgeErases(depot, seller);
      HardDeleteSellerRows(seller);
      deleted := true;
    }

    // _hard_delete_seller_rows: listings and jobs first, then the EAN rows are detached one by
    // one, then the products go.
    method HardDeleteSellerRows(seller: nat)
      requires !SellerBusy(depot, seller) && !SellerHasActive(depot, seller)
      modifies this`depot
      ensures depot == DoPurge(old(depot), seller)
    {
      var gone := SellerProducts(depot, seller);
      ghost var d := depot;
      depot := depot.(listings := map k | k in depot.listings && k.product !in gone :: depot.listings[k],
                      marks := (set a | a in depot.marks && a.key.product !in gone),
                      open := (set a | a in depot.open && a.key.product !in gone));
      depot := depot.(jobs := map j | j in depot.jobs && depot.jobs[j].product !in gone :: depot.jobs[j]);
      var rows := depot.rows;
      for i := 0 to |rows|
        invariant |rows| == |d.rows| && depot.rows == d.rows
        invariant forall n | 0 <= n < i :: rows[n] == DetachRow(d.rows[n], gone)
        invariant forall n | i <= n < |rows| :: rows[n] == d.rows[n]
        invariant depot == d.(listings := depot.listings, jobs := depot.jobs, open := depot.open, marks := depot.marks)
        invariant depot.listings == DoPurge(d, seller).listings && depot.jobs == DoPurge(d, seller).jobs
        invariant depot.open == DoPurge(d, seller).open && depot.marks == DoPurge(d, seller).marks
      {
        rows := rows[i := DetachRow(rows[i], gone)];
      }
      assert rows == Detach(d.rows, gone);
      depot := depot.(rows := rows, products := map p | p in depot.products && p !in gone :: depot.products[p]);
    }
  }

  predicate Unusable(d: Depot, p: ProductId, action: Action, requested: seq<Target>, u: Unavailable) {
    match u
    case NotInStatus(k) =>
      k in KeysOf(p, requested) && !(k in d.listings && d.listings[k].status == DesiredStatus(action))
    case NotReactivable(k) =>
      k in Selected(d, p, action, KeysOf(p, requested)) && OperationFor(k.marketplace, action).None?
  }

  function InStatus(d: Depot, p: ProductId, status: Status): set<Key> {
    set k | k in d.listings && k.product == p && d.listings[k].status == status
  }

  method SelectPublications(p: ProductId, requested: seq<Target>, publications: set<Key>) returns (selected: seq<Key>)
    ensures Distinct(selected)
    ensures forall k :: k in selected <==> k in publications && (requested == [] || k in KeysOf(p, requested))
  {
    if requested != [] {
      selected := InSomeOrder(KeysOf(p, requested) * publications);
    } else {
      selected := InSomeOrder(publications);
    }
  }

  method AbsentTargets(p: ProductId, requested: seq<Target>, publications: set<Key>) returns (absent: seq<Unavailable>)
    ensures forall u :: u in absent <==> u.NotInStatus? && u.key in KeysOf(p, requested) && u.key !in publications
  {
    absent := [];
    for i := 0 to |requested|
      invariant forall u :: u in absent <==> u.NotInStatus? && u.key in KeysOf(p, requested[..i]) && u.key !in publications
    {
      assert requested[..i + 1] == requested[..i] + [requested[i]];
      assert KeysOf(p, requested[..i + 1]) == KeysOf(p, requested[..i]) + {KeyOf(p, requested[i])};
      if KeyOf(p, requested[i]) !in publications {
        absent := absent + [NotInStatus(KeyOf(p, requested[i]))];
      }
    }
    assert requested[..|requested|] == requested;
  }

  lemma SelectedElems(d: Depot, p: ProductId, action: Action, requested: seq<Target>, publications: set<Key>, selected: seq<Key>)
    requires publications == InStatus(d, p, DesiredStatus(action))
    requires forall k :: k in selected <==> k in publications && (requested == [] || k in KeysOf(p, requested))
    ensures Elems(selected) == Selected(d, p, action, KeysOf(p, requested))
  {
    if requested != [] {
      assert KeyOf(p, requested[0]) in KeysOf(p, requested);
    }
  }

  lemma JobsAreForOneAction(jobs: map<Operation, seq<Key>>, selected: set<Key>, action: Action)
    requires Partitions(jobs, selected, action)
    ensures jobs.Keys <= {Deactivate, Delete} || jobs.Keys <= {Activate}
    ensures HaveJobs(selected, action, jobs)
    ensures jobs == map[] <==> forall k | k in selected :: OperationFor(k.marketplace, action).None?
  {
    forall op | op in jobs ensures if action == DeactivateListings then op in {Deactivate, Delete} else op == Activate {
      assert jobs[op][0] in jobs[op];
      assert Handles(jobs[op][0], action, op);
    }
    forall k | k in selected && OperationFor(k.marketplace, action).Some? ensures OperationFor(k.marketplace, action).value in jobs {
      assert Handles(k, action, OperationFor(k.marketplace, action).value);
    }
    if jobs != map[] {
      var op :| op in jobs;
      assert jobs[op][0] in jobs[op];
      assert Handles(jobs[op][0], action, op);
    }
  }

  lemma MarkedIsListingState(d: Depot, p: ProductId, action: Action, requested: set<Key>, jobs: map<Operation, seq<Key>>)
    requires Partitions(jobs, Selected(d, p, action, requested), action) && jobs != map[]
    requires jobs.Keys <= {Deactivate, Delete} || jobs.Keys <= {Activate}
    requires HaveJobs(Selected(d, p, action, requested), action, map op | op in jobs :: JobIdFor(d, op))
    ensures Marked(WithJobs(d, p, jobs.Keys), Selected(d, p, action, requested), action, map op | op in jobs :: JobIdFor(d, op))
            == DoListingState(d, p, action, requested)
  {
    var selected, keys := Selected(d, p, action, requested), PreMarkable(d, p, action, requested);
    var ids := map op | op in jobs :: JobIdFor(d, op);
    JobsAreForOneAction(jobs, selected, action);
    OperationsHaveTargets(selected, keys, action, jobs);
    NewJobsPerOperation(d, p, action, keys, jobs.Keys);
    SameListings(d, action, selected, keys, ids);
    SameMarks(d, action, selected, keys, ids);
    assert keys != {} by {
      assert exists k | k in selected :: OperationFor(k.marketplace, action).Some?;
    }
  }

  predicate GivesIds(d: Depot, action: Action, keys: set<Key>, ids: map<Operation, JobId>) {
    forall k | k in keys ::
      var operation := OperationFor(k.marketplace, action);
      operation.Some? && operation.value in ids && ids[operation.value] == JobIdFor(d, operation.value)
  }

  lemma SameListings(d: Depot, action: Action, selected: set<Key>, keys: set<Key>, ids: map<Operation, JobId>)
    requires HaveJobs(selected, action, ids) && GivesIds(d, action, keys, ids)
    requires keys == set k | k in selected && OperationFor(k.marketplace, action).Some?
    ensures (map k | k in d.listings :: MarkedListing(d.listings[k], k, selected, action, ids))
            == map k | k in d.listings ::
                 if k in keys
                 then var op := OperationFor(k.marketplace, action).value; PreMarked(d.listings[k], op, JobIdFor(d, op))
                 else d.listings[k]
  {
  }

  lemma SameMarks(d: Depot, action: Action, selected: set<Key>, keys: set<Key>, ids: map<Operation, JobId>)
    requires HaveJobs(selected, action, ids) && GivesIds(d, action, keys, ids)
    requires keys == set k | k in selected && OperationFor(k.marketplace, action).Some?
    ensures (set k | k in selected && OperationFor(k.marketplace, action).Some? ::
               Attempt(ids[OperationFor(k.marketplace, action).value], k))
            == MarksFor(d, action, keys)
  {
  }

  predicate HasTarget(keys: set<Key>, action: Action, op: Operation) {
    exists k | k in keys :: Handles(k, action, op)
  }

  lemma OperationsHaveTargets(selected: set<Key>, keys: set<Key>, action: Action, jobs: map<Operation, seq<Key>>)
    requires Partitions(jobs, selected, action)
    requires keys == set k | k in selected && OperationFor(k.marketplace, action).Some?
    ensures forall op :: op in jobs <==> HasTarget(keys, action, op)
  {
    forall op | op in jobs ensures HasTarget(keys, action, op) {
      assert jobs[op][0] in jobs[op];
      assert Handles(jobs[op][0], action, op);
    }
  }

  lemma NewJobsPerOperation(d: Depot, p: ProductId, action: Action, keys: set<Key>, operations: set<Operation>)
    requires forall k | k in keys :: OperationFor(k.marketplace, action).Some?
    requires forall op :: op in operations <==> HasTarget(keys, action, op)
    requires operations <= {Deactivate, Delete} || operations <= {Activate}
    ensures JobsOf(d, p, operations) == NewJobs(d, p, action, keys)
  {
    var perOperation, perListing := JobsOf(d, p, operations), NewJobs(d, p, action, keys);
    forall op | op in operations ensures JobIdFor(d, op) in perListing {
      var k :| k in keys && Handles(k, action, op);
      assert JobIdFor(d, OperationFor(k.marketplace, action).value) in perListing;
    }
    forall k | k in keys ensures
      var op := OperationFor(k.marketplace, action).value;
      op in operations && JobIdFor(d, op) in perOperation && perOperation[JobIdFor(d, op)] == Job(p, op, Queued, None)
    {
      var op := OperationFor(k.marketplace, action).value;
      assert Handles(k, action, op);
      assert op in operations;
    }
    assert perOperation.Keys == perListing.Keys;
    forall id | id in perListing ensures perListing[id] == perOperation[id] {
    }
  }

  lemma DeactivationKeepsOthers(d: Depot, e: Depot, done: set<ProductId>, p: ProductId)
    requires FreshJobs(e) && ActiveArePreMarked(d, e, done) && p !in done
    ensures var f := DoListingState(e, p, DeactivateListings, {});
            FreshJobs(f) && ActiveArePreMarked(d, f, done + {p})
  {
    var f := DoListingState(e, p, DeactivateListings, {});
    FreshJobsOnly(e, p);
    forall k | k in d.listings ensures
      if k.product in done + {p} && d.listings[k].status == Active then HasOwnMark(f, k, d.listings[k]) else f.listings[k] == d.listings[k]
    {
      if k.product != p {
        OthersAreLeft(e, p, k);
        if k.product in done && d.listings[k].status == Active {
          var j :| OwnMark(e, k, d.listings[k], j);
          assert OwnMark(f, k, d.listings[k], j);
        }
      } else if d.listings[k].status == Active {
        PreMarkIsOwn(e, k);
      } else {
        OthersAreLeft(e, p, k);
      }
    }
  }

  lemma OthersAreLeft(e: Depot, p: ProductId, k: Key)
    requires k in e.listings && (k.product != p || e.listings[k].status != Active)
    ensures DoListingState(e, p, DeactivateListings, {}).listings[k] == e.listings[k]
  {
    assert k !in PreMarkable(e, p, DeactivateListings, {});
  }

  lemma FreshJobsOnly(e: Depot, p: ProductId)
    requires FreshJobs(e)
    ensures var f := DoListingState(e, p, DeactivateListings, {});
            && f.rows == e.rows && f.products == e.products && f.listings.Keys == e.listings.Keys
            && e.marks <= f.marks
            && FreshJobs(f) && forall j | j in e.jobs :: j in f.jobs && f.jobs[j] == e.jobs[j]
  {
  }

  lemma PreMarkIsOwn(e: Depot, k: Key)
    requires FreshJobs(e) && k in e.listings && e.listings[k].status == Active
    ensures HasOwnMark(DoListingState(e, k.product, DeactivateListings, {}), k, e.listings[k])
  {
    var f := DoListingState(e, k.product, DeactivateListings, {});
    var keys := PreMarkable(e, k.product, DeactivateListings, {});
    assert k in keys;
    var op := OperationFor(k.marketplace, DeactivateListings).value;
    var j := JobIdFor(e, op);
    assert NewJobs(e, k.product, DeactivateListings, keys)[j] == Job(k.product, op, Queued, None);
    assert OwnMark(f, k, e.listings[k], j);
  }

  lemma NextDeactivation(d: Depot, e: Depot, order: seq<ProductId>, i: nat)
    requires i < |order| && Distinct(order)
    requires e == Run(d, DeactivateSteps(order[..i])) && FreshJobs(e) && ActiveArePreMarked(d, e, Elems(order[..i]))
    ensures var f := DoListingState(e, order[i], DeactivateListings, {});
            && f == Run(d, DeactivateSteps(order[..i + 1]))
            && FreshJobs(f) && ActiveArePreMarked(d, f, Elems(order[..i + 1]))
  {
    var step := Step.ListingState(order[i], DeactivateListings, {});
    assert DeactivateSteps(order[..i + 1]) == DeactivateSteps(order[..i]) + [step];
    RunAppend(d, DeactivateSteps(order[..i]), [step]);
    RunOne(e, step);
    assert Elems(order[..i + 1]) == Elems(order[..i]) + {order[i]};
    DeactivationKeepsOthers(d, e, Elems(order[..i]), order[i]);
  }

  lemma DeactivationCreatesJobs(d: Depot, e: Depot, order: seq<ProductId>, i: nat, jobs: map<Operation, seq<Key>>)
    requires i < |order| && Distinct(order) && ActiveArePreMarked(d, e, Elems(order[..i]))
    requires Partitions(jobs, Selected(e, order[i], DeactivateListings, {}), DeactivateListings)
    ensures AnyActive(d, Elems(order[..i + 1])) <==> AnyActive(d, Elems(order[..i])) || jobs != map[]
    ensures jobs == map[] ==> DoListingState(e, order[i], DeactivateListings, {}) == e
  {
    assert order[..i + 1] == order[..i] + [order[i]];
    assert order[i] !in Elems(order[..i]);
    JobsAreForOneAction(jobs, Selected(e, order[i], DeactivateListings, {}), DeactivateListings);
    forall k | k in d.listings && k.product == order[i] ensures e.listings[k] == d.listings[k] {
    }
  }

  lemma DeactivationIsUnderWay(d: Depot, e: Depot, seller: nat)
    requires ActiveArePreMarked(d, e, SellerProducts(d, seller)) && SellerHasActive(d, seller)
    ensures SellerBusy(e, seller) && !SellerHasActive(e, seller)
  {
    var k :| k in d.listings && k.product in SellerProducts(d, seller) && d.listings[k].status == Active;
    var j :| OwnMark(e, k, d.listings[k], j);
  }
}
