// Concrete runs from the empty depot that leave the conditions of the theorems about runs.
module LifecycleExamples {
  import opened Common
  import Gtin
  import opened EanPool
  import opened Listings
  import opened Lifecycle
  import opened LifecycleSafety
  import opened LifecycleRuns

  ghost predicate Reachable(d: Depot) {
    exists steps :: Run(Empty, steps) == d
  }

  lemma EmptyIsReachable()
    ensures Reachable(Empty)
  {
    assert Run(Empty, []) == Empty;
  }

  lemma StepReaches(d: Depot, s: Step)
    requires Reachable(d)
    ensures Reachable(Next(d, s))
  {
    var steps :| Run(Empty, steps) == d;
    RunAppend(Empty, steps, [s]);
    RunOne(d, s);
    assert Run(Empty, steps + [s]) == Next(d, s);
  }

  // ---- two codes and an approved product ----

  const CodeA := "00000000"
  const CodeB := "00000017"

  lemma CodeAIsValid()
    ensures Gtin.ValidGtin(CodeA)
  {
    Gtin.ZeroPadding([], 8);
    assert Gtin.Digits(CodeA) == seq(8, _ => 0) + [];
  }

  lemma CodeBIsValid()
    ensures Gtin.ValidGtin(CodeB)
  {
    var tail: seq<Gtin.Digit> := [1, 7];
    Gtin.ZeroPadding(tail, 6);
    assert tail[1..] == [7] && Gtin.CodeSum([7]) == 7 && Gtin.Weighted(1, 1) == 3;
    assert Gtin.Balanced(tail);
    assert Gtin.Digits(CodeB) == seq(6, _ => 0) + tail;
  }

  lemma {:induction false} NothingToClean(text: string)
    requires forall i | 0 <= i < |text| :: !IsSpace(text[i])
    ensures Strip(text) == text && WithoutBlanks(text) == text
  {
    if text != "" {
      NothingToClean(text[1..]);
      assert StripRight(text) == text;
    }
  }

  lemma CodesAreClean()
    ensures Clean(CodeA) == CodeA && Clean(CodeB) == CodeB
  {
    NothingToClean(CodeA);
    NothingToClean(CodeB);
  }

  lemma ImportOne(rows: seq<EanRow>, account: Account, code: string)
    requires Gtin.ValidGtin(code) && Clean(code) == code && code !in Codes(rows)
    ensures Imported(rows, account, [code]) == rows + [NewRow(code, account)]
  {
    assert [code][..0] == [];
    assert Imported(rows, account, [code][..0]) == rows;
  }

  const Stocked: Depot := Empty.(
    rows := [EanRow(CodeA, JV, Some(0), Reserved), EanRow(CodeB, XL, Some(0), Reserved)],
    products := map[0 := Product(7, Approved, EanCard(CodeA, CodeB))], nextProduct := 1)

  lemma FirstPairIsHandedOut(product: ProductId)
    ensures Assign([NewRow(CodeA, JV), NewRow(CodeB, XL)], EanCard("", ""), product, {})
            == Assigned([EanRow(CodeA, JV, Some(product), Reserved), EanRow(CodeB, XL, Some(product), Reserved)], EanCard(CodeA, CodeB))
  {
    var free := [NewRow(CodeA, JV), NewRow(CodeB, XL)];
    assert FirstFree(free, JV, {}) == Some(0);
    var half := free[0 := Reserve(free[0], product)];
    assert FirstFree(half, XL, {}, 1) == Some(1);
    assert FirstFree(half, XL, {}) == Some(1);
  }

  lemma SecondCodeIsNew()
    ensures CodeB !in Codes([NewRow(CodeA, JV)])
  {
    assert CodeA[7] != CodeB[7];
  }

  lemma CodesAreImported()
    ensures Imported(Imported([], JV, [CodeA]), XL, [CodeB]) == [NewRow(CodeA, JV), NewRow(CodeB, XL)]
  {
    CodeAIsValid();
    CodeBIsValid();
    CodesAreClean();
    ImportOne([], JV, CodeA);
    SecondCodeIsNew();
    ImportOne([NewRow(CodeA, JV)], XL, CodeB);
  }

  const WithPool: Depot := Empty.(rows := [NewRow(CodeA, JV), NewRow(CodeB, XL)])

  const InReview: Depot := WithPool.(products := map[0 := Product(7, Submitted, EanCard("", ""))], nextProduct := 1)

  lemma PoolIsFilled()
    ensures DoImport(DoImport(Empty, JV, [CodeA]), XL, [CodeB]) == WithPool
  {
    CodesAreImported();
  }

  lemma ProductIsSubmitted()
    ensures DoSubmit(DoRegister(WithPool, 7), 0) == InReview
  {
    assert DoSubmit(DoRegister(WithPool, 7), 0).products == InReview.products;
  }

  lemma ProductIsApproved()
    ensures DoApprove(InReview, 0, {}) == Stocked
  {
    FirstPairIsHandedOut(0);
    assert DoApprove(InReview, 0, {}).products == Stocked.products;
  }

  lemma StockedIsReachable()
    ensures Reachable(Stocked)
  {
    PoolIsReachable();
    ProductIsSubmitted();
    StepReaches(WithPool, Register(7));
    StepReaches(DoRegister(WithPool, 7), Submit(0));
    ProductIsApproved();
    StepReaches(InReview, Approve(0, {}));
  }

  lemma PoolIsReachable()
    ensures Reachable(WithPool)
  {
    EmptyIsReachable();
    StepReaches(Empty, Import(JV, [CodeA]));
    StepReaches(DoImport(Empty, JV, [CodeA]), Import(XL, [CodeB]));
    PoolIsFilled();
  }

  // ---- an activation overtakes a first publish ----

  const Contested := Key(0, Otto, JV)

  // A first publish is under way (job 0) when an activation job for the same listing comes along.
  const PublishUnderWay: Depot := TwoJobs.(
    listings := map[Contested := FirstStart], open := {Attempt(0, Contested)})

  const TwoJobs: Depot := Stocked.(
    jobs := map[0 := Job(0, Publish, Running, None), 1 := Job(0, Activate, Running, None)], nextJob := 2, claimed := {0, 1})

  const TwoQueued: Depot := Stocked.(
    jobs := map[0 := Job(0, Publish, Queued, None), 1 := Job(0, Activate, Queued, None)], nextJob := 2)

  lemma TwoQueuedIsReachable()
    ensures Reachable(TwoQueued)
  {
    StockedIsReachable();
    StepReaches(Stocked, NewJob(0, Publish));
    var d := DoNewJob(Stocked, 0, Publish);
    StepReaches(d, NewJob(0, Activate));
    assert DoNewJob(d, 0, Activate).jobs == TwoQueued.jobs;
  }

  lemma TwoJobsIsReachable()
    ensures Reachable(TwoJobs)
  {
    TwoQueuedIsReachable();
    StepReaches(TwoQueued, Step.Claim(0));
    var d := DoClaim(TwoQueued, 0);
    StepReaches(d, Step.Claim(1));
    assert DoClaim(d, 1).jobs == TwoJobs.jobs;
  }

  lemma PublishUnderWayIsReachable()
    ensures Reachable(PublishUnderWay)
  {
    TwoJobsIsReachable();
    StepReaches(TwoJobs, StartAttempt(0, Contested));
    assert DoStart(TwoJobs, 0, Contested).listings == PublishUnderWay.listings;
  }

  const FirstStart: Listing := Started(NewListing(CodeA), Publish, 0)

  const Activating: Depot := PublishUnderWay.(
    listings := map[Contested := Started(FirstStart, Activate, 1)], open := {Attempt(0, Contested), Attempt(1, Contested)})

  const Activated: Depot := Activating.(
    listings := map[Contested := Succeeded(Started(FirstStart, Activate, 1), Activate, 1, 5)], open := {Attempt(0, Contested)})

  const Overtaken: Depot := Activated.(
    listings := map[Contested := Succeeded(Activated.listings[Contested], Publish, 0, 6)], open := {})

  lemma ActivatingIsReachable()
    ensures Reachable(Activating)
  {
    PublishUnderWayIsReachable();
    StepReaches(PublishUnderWay, StartAttempt(1, Contested));
    assert DoStart(PublishUnderWay, 1, Contested).listings == Activating.listings;
    assert DoStart(PublishUnderWay, 1, Contested).open == Activating.open;
  }

  lemma ActivatedIsReachable()
    ensures Reachable(Activated)
  {
    ActivatingIsReachable();
    StepReaches(Activating, Succeed(Attempt(1, Contested), 5));
    assert DoSucceed(Activating, Attempt(1, Contested), 5).listings == Activated.listings;
    assert DoSucceed(Activating, Attempt(1, Contested), 5).open == Activated.open;
  }

  lemma OvertakenIsReachable()
    ensures Reachable(Overtaken)
  {
    ActivatedIsReachable();
    StepReaches(Activated, Succeed(Attempt(0, Contested), 6));
    assert DoSucceed(Activated, Attempt(0, Contested), 6).listings == Overtaken.listings;
    assert DoSucceed(Activated, Attempt(0, Contested), 6).open == {};
  }

  // The activation starts and succeeds first: the listing ends active with its code only
  // reserved, although the publish has reported success too.
  lemma ForeignActivationLeavesCodeReserved()
    ensures Reachable(Overtaken) && Overtaken.listings[Contested].status == Active && !Spent(Overtaken.rows, Contested)
  {
    OvertakenIsReachable();
  }

  // ---- a withdrawn product's codes are handed out again ----

  // Product 0 is back in review with its reserved codes; product 1 waits for approval.
  const BackInReview: Depot := Stocked.(
    products := map[0 := Product(7, Submitted, EanCard(CodeA, CodeB)), 1 := Product(8, Submitted, EanCard("", ""))],
    nextProduct := 2)

  lemma BackInReviewIsReachable()
    ensures Reachable(BackInReview)
  {
    StockedIsReachable();
    StepReaches(Stocked, Move(0, Submitted));
    var d1 := DoMove(Stocked, 0, Submitted);
    StepReaches(d1, Register(8));
    var d2 := DoRegister(d1, 8);
    StepReaches(d2, Submit(1));
    assert DoSubmit(d2, 1).products == BackInReview.products;
  }

  const CodesHandedOn: Depot := BackInReview.(
    rows := [EanRow(CodeA, JV, Some(1), Reserved), EanRow(CodeB, XL, Some(1), Reserved)],
    products := map[0 := Product(7, Withdrawn, EanCard(CodeA, CodeB)), 1 := Product(8, Approved, EanCard(CodeA, CodeB))])

  lemma CodesAreHandedOn()
    ensures DoApprove(DoWithdraw(BackInReview, 0), 1, {}) == CodesHandedOn
  {
    FirstPairIsHandedOut(1);
    var d1 := DoWithdraw(BackInReview, 0);
    assert d1.rows == [NewRow(CodeA, JV), NewRow(CodeB, XL)];
    assert DoApprove(d1, 1, {}).products == CodesHandedOn.products;
  }

  lemma CodesHandedOnIsReachable()
    ensures Reachable(CodesHandedOn)
  {
    BackInReviewIsReachable();
    StepReaches(BackInReview, Withdraw(0));
    StepReaches(DoWithdraw(BackInReview, 0), Approve(1, {}));
    CodesAreHandedOn();
  }

  const CodesShared: Depot := CodesHandedOn.(
    products := map[0 := Product(7, Approved, EanCard(CodeA, CodeB)), 1 := Product(8, Approved, EanCard(CodeA, CodeB))])

  // Withdrawal gives the codes back but leaves them on the card: the next approval hands them to
  // the other product, and when the first one is approved again two products carry one code.
  lemma WithdrawnCodeIsHandedOutAgain()
    ensures Reachable(CodesShared)
    ensures !Backed(CodesShared.rows, 0, JV, CodesShared.products[0].codes.CodeFor(JV))
  {
    CodesHandedOnIsReachable();
    StepReaches(CodesHandedOn, Submit(0));
    var d := DoSubmit(CodesHandedOn, 0);
    StepReaches(d, Approve(0, {}));
    assert DoApprove(d, 0, {}).products == CodesShared.products;
  }

  // ---- a publish over a removal ----

  // The listing is active and job 1 has started to deactivate it; job 2 is another publish.
  const Removing: Depot := Stocked.(
    rows := [EanRow(CodeA, JV, Some(0), Consumed), EanRow(CodeB, XL, Some(0), Reserved)],
    listings := map[Contested := Started(Succeeded(Started(NewListing(CodeA), Publish, 0), Publish, 0, 5), Deactivate, 1)],
    jobs := ThreeJobs, nextJob := 3, claimed := {0, 1, 2}, open := {Attempt(1, Contested)})

  const ThreeJobs: map<JobId, Job> :=
    map[0 := Job(0, Publish, Running, None), 1 := Job(0, Deactivate, Running, None), 2 := Job(0, Publish, Running, None)]

  const ThreeQueued: Depot := Stocked.(
    jobs := map[0 := Job(0, Publish, Queued, None), 1 := Job(0, Deactivate, Queued, None), 2 := Job(0, Publish, Queued, None)],
    nextJob := 3)

  const ThreeClaimed: Depot := Stocked.(jobs := ThreeJobs, nextJob := 3, claimed := {0, 1, 2})

  lemma ThreeQueuedIsReachable()
    ensures Reachable(ThreeQueued)
  {
    StockedIsReachable();
    StepReaches(Stocked, NewJob(0, Publish));
    var d1 := DoNewJob(Stocked, 0, Publish);
    StepReaches(d1, NewJob(0, Deactivate));
    var d2 := DoNewJob(d1, 0, Deactivate);
    StepReaches(d2, NewJob(0, Publish));
    assert DoNewJob(d2, 0, Publish).jobs == ThreeQueued.jobs;
  }

  lemma ThreeClaimedIsReachable()
    ensures Reachable(ThreeClaimed)
  {
    ThreeQueuedIsReachable();
    StepReaches(ThreeQueued, Step.Claim(0));
    var d1 := DoClaim(ThreeQueued, 0);
    StepReaches(d1, Step.Claim(1));
    var d2 := DoClaim(d1, 1);
    StepReaches(d2, Step.Claim(2));
    assert DoClaim(d2, 2).jobs == ThreeClaimed.jobs;
  }

  const Published: Depot := ThreeClaimed.(
    rows := [EanRow(CodeA, JV, Some(0), Consumed), EanRow(CodeB, XL, Some(0), Reserved)],
    listings := map[Contested := Succeeded(Started(NewListing(CodeA), Publish, 0), Publish, 0, 5)])

  const FirstPublish: Depot := ThreeClaimed.(listings := map[Contested := FirstStart], open := {Attempt(0, Contested)})

  lemma FirstPublishIsReachable()
    ensures Reachable(FirstPublish)
  {
    ThreeClaimedIsReachable();
    StepReaches(ThreeClaimed, StartAttempt(0, Contested));
    assert DoStart(ThreeClaimed, 0, Contested).listings == FirstPublish.listings;
  }

  lemma PublishedIsReachable()
    ensures Reachable(Published)
  {
    FirstPublishIsReachable();
    StepReaches(FirstPublish, Succeed(Attempt(0, Contested), 5));
    FirstPublishSucceeds();
  }

  lemma FirstPublishSucceeds()
    ensures DoSucceed(FirstPublish, Attempt(0, Contested), 5) == Published
  {
    assert FindRow(FirstPublish.rows, 0, JV, CodeA) == Some(0);
    var e := DoSucceed(FirstPublish, Attempt(0, Contested), 5);
    assert e.listings == Published.listings && e.rows == Published.rows && e.open == {};
  }

  lemma RemovingIsReachable()
    ensures Reachable(Removing)
  {
    PublishedIsReachable();
    StepReaches(Published, StartAttempt(1, Contested));
    assert DoStart(Published, 1, Contested).listings == Removing.listings;
  }

  // The publish starts and saves the in-progress status; when the deactivation then fails, its
  // rollback restores that status.
  lemma PublishSavesRemoval()
    ensures Reachable(Removing) && PublishOverRemoval(Removing, StartAttempt(2, Contested))
    ensures var d := DoStart(Removing, 2, Contested);
            var e := DoFail(d, Attempt(1, Contested));
            && d.listings[Contested].saved == Some(Deactivating)
            && e.listings[Contested].status == Deactivating && e.listings[Contested].saved.None?
  {
    RemovingIsReachable();
    var d := DoStart(Removing, 2, Contested);
    assert d.listings[Contested].saved == Some(Deactivating);
  }
}
