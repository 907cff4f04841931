// One marketplace listing (a MarketplacePublication row) and the operations that move it
// (apps/orchestrator/publication_services.py).
module Listings {
  import opened Common

  datatype Operation = Search | Publish | Update | Delete | Deactivate | Activate

  datatype Status = Pending | Publishing | Active | Deactivating | Deactivated | Deleting | Deleted | Failed

  type JobId = nat
  type Time = nat

  // `saved` is status_before_operation; `version` counts saves and stands for updated_at.
  datatype Listing = Listing(
    ean: string, status: Status, saved: Option<Status>,
    publishedAt: Option<Time>, deactivatedAt: Option<Time>, deletedAt: Option<Time>,
    attempts: nat, lastJob: Option<JobId>, version: nat)

  predicate InProgress(s: Status) {
    s == Publishing || s == Deactivating || s == Deleting
  }

  function StatusDuring(op: Operation): Status
    requires op != Search
  {
    match op
    case Deactivate => Deactivating
    case Delete => Deleting
    case _ => Publishing
  }

  function StatusAfter(op: Operation): Status
    requires op != Search
  {
    match op
    case Deactivate => Deactivated
    case Delete => Deleted
    case _ => Active
  }

  predicate Allowed(op: Operation, s: Status) {
    match op
    case Update => s == Active
    case Deactivate => s == Active || s == Deactivating
    case Activate => s == Deactivated || s == Publishing
    case Delete => s == Active || s == Deactivated || s == Deleting
    case _ => true
  }

  function NewListing(ean: string): Listing {
    Listing(ean, Pending, None, None, None, None, 0, None, 0)
  }

  predicate CanStart(l: Listing, op: Operation, ean: string) {
    op != Search && ean != "" && l.ean == ean && Allowed(op, l.status)
  }

  // The operations that may start on a listing, by its status.
  function MayStart(s: Status): set<Operation> {
    match s
    case Pending => {Publish}
    case Publishing => {Publish, Activate}
    case Active => {Publish, Update, Delete, Deactivate}
    case Deactivating => {Publish, Deactivate}
    case Deactivated => {Publish, Activate, Delete}
    case Deleting => {Publish, Delete}
    case Deleted => {Publish}
    case Failed => {Publish}
  }

  // start_publication_attempt on an existing row.
  function Started(l: Listing, op: Operation, job: JobId): Listing
    requires op != Search
  {
    var during := StatusDuring(op);
    l.(saved := if l.status != during then Some(l.status) else l.saved,
       status := during, lastJob := Some(job), attempts := l.attempts + 1, version := l.version + 1)
  }

  // start_publication_attempt with get_or_create: only a publish may create the row.
  function Start(existing: Option<Listing>, op: Operation, ean: string, job: JobId): Option<Listing> {
    if op == Search || ean == "" || (existing.None? && op != Publish) then None
    else
      var l := if existing.Some? then existing.value else NewListing(ean);
      if CanStart(l, op, ean) then Some(Started(l, op, job)) else None
  }

  function Awaiting(l: Listing, op: Operation, job: JobId): Listing {
    l.(status := if op == Search then l.status else StatusDuring(op), lastJob := Some(job), version := l.version + 1)
  }

  predicate FirstSuccess(l: Listing, op: Operation)
    requires op != Search
  {
    StatusAfter(op) == Active && l.publishedAt.None?
  }

  function Succeeded(l: Listing, op: Operation, job: JobId, now: Time): Listing
    requires op != Search
  {
    var target := StatusAfter(op);
    l.(status := target, saved := None, lastJob := Some(job), version := l.version + 1,
       publishedAt := if target == Active && l.publishedAt.None? then Some(now) else l.publishedAt,
       deactivatedAt := if target == Deactivated && l.deactivatedAt.None? then Some(now) else l.deactivatedAt,
       deletedAt := if target == Deleted && l.deletedAt.None? then Some(now) else l.deletedAt)
  }

  function FailedAttempt(l: Listing, op: Operation, job: JobId): Listing {
    l.(status := if op == Publish then Failed else if l.saved.Some? then l.saved.value else l.status,
       saved := None, lastJob := Some(job), version := l.version + 1)
  }

  // The pre-mark written by create_listing_state_jobs before its job runs.
  predicate CanPreMark(l: Listing, op: Operation) {
    match op
    case Deactivate => l.status == Active
    case Delete => l.status == Active
    case Activate => l.status == Deactivated
    case _ => false
  }

  function PreMarked(l: Listing, op: Operation, job: JobId): Listing
    requires op != Search
  {
    l.(saved := Some(l.status), status := StatusDuring(op), lastJob := Some(job), version := l.version + 1)
  }

  // The row itself, updated in place.
  class Publication {
    const ean: string
    var status: Status
    var saved: Option<Status>
    var publishedAt: Option<Time>
    var deactivatedAt: Option<Time>
    var deletedAt: Option<Time>
    var attempts: nat
    var lastJob: Option<JobId>
    var version: nat

    function Row(): Listing
      reads this
    {
      Listing(ean, status, saved, publishedAt, deactivatedAt, deletedAt, attempts, lastJob, version)
    }

    constructor (ean: string)
      ensures Row() == NewListing(ean)
    {
      this.ean, status, saved := ean, Pending, None;
      publishedAt, deactivatedAt, deletedAt := None, None, None;
      attempts, lastJob, version := 0, None, 0;
    }

    method StartAttempt(op: Operation, ean: string, job: JobId) returns (ok: bool)
      modifies this
      ensures ok == CanStart(old(Row()), op, ean)
      ensures ok <==> ean != "" && this.ean == ean && op in MayStart(old(status))
      ensures ok ==> status == (match op case Delete => Deleting case Deactivate => Deactivating case _ => Publishing)
      ensures ok ==> attempts == old(attempts) + 1 && lastJob == Some(job)
      ensures Row() == if ok then Started(old(Row()), op, job) else old(Row())
    {
      if op == Search || ean == "" || this.ean != ean || !Allowed(op, status) {
        return false;
      }
      var during := StatusDuring(op);
      if status != during {
        saved := Some(status);
      }
      status := during;
      lastJob := Some(job);
      attempts := attempts + 1;
      version := version + 1;
      ok := true;
    }

    method MarkAwaitingConfirmation(op: Operation, job: JobId)
      modifies this
      ensures Row() == Awaiting(old(Row()), op, job)
    {
      if op != Search {
        status := StatusDuring(op);
      }
      lastJob := Some(job);
      version := version + 1;
    }

    method MarkSucceeded(op: Operation, job: JobId, now: Time) returns (first: bool)
      requires op != Search
      modifies this
      ensures Row() == Succeeded(old(Row()), op, job, now)
      ensures first == FirstSuccess(old(Row()), op)
      ensures status == match op case Delete => Deleted case Deactivate => Deactivated case _ => Active
    {
      var target := StatusAfter(op);
      first := target == Active && publishedAt.None?;
      status := target;
      saved := None;
      lastJob := Some(job);
      if target == Active && publishedAt.None? {
        publishedAt := Some(now);
      }
      if target == Deactivated && deactivatedAt.None? {
        deactivatedAt := Some(now);
      }
      if target == Deleted && deletedAt.None? {
        deletedAt := Some(now);
      }
      version := version + 1;
    }

    method MarkFailed(op: Operation, job: JobId)
      modifies this
      ensures Row() == FailedAttempt(old(Row()), op, job)
    {
      var previous := saved;
      lastJob := Some(job);
      if op == Publish {
        status := Failed;
      } else if previous.Some? {
        status := previous.value;
      }
      saved := None;
      version := version + 1;
    }
  }

  // start_publication_attempt with its get_or_create: only a publish creates the row; the null
  // result stands for the raised error.
  method StartPublicationAttempt(existing: Publication?, op: Operation, ean: string, job: JobId) returns (publication: Publication?)
    modifies existing
    ensures existing == null && publication == null ==> Start(None, op, ean, job).None?
    ensures existing == null && publication != null ==> fresh(publication) && Start(None, op, ean, job) == Some(publication.Row())
    ensures existing != null && publication == null ==>
              Start(Some(old(existing.Row())), op, ean, job).None? && existing.Row() == old(existing.Row())
    ensures existing != null && publication != null ==>
              publication == existing && Start(Some(old(existing.Row())), op, ean, job) == Some(existing.Row())
  {
    publication := existing;
    if existing == null {
      if op != Publish || ean == "" {
        return null;
      }
      publication := new Publication(ean);
    }
    var ok := publication.StartAttempt(op, ean, job);
    if !ok {
      publication := null;
    }
  }

  // ---- where the operations lead ----

  // Each goal with its own timestamp, which is set once.
  lemma SuccessSays(l: Listing, op: Operation, job: JobId, now: Time)
    requires op != Search
    ensures var done := Succeeded(l, op, job, now);
            && done.saved.None? && done.lastJob == Some(job) && done.version == l.version + 1 && done.ean == l.ean
            && done.status == (if op == Delete then Deleted else if op == Deactivate then Deactivated else Active)
            && done.deletedAt == (if op == Delete then Some(Earlier(l.deletedAt, now)) else l.deletedAt)
            && done.deactivatedAt == (if op == Deactivate then Some(Earlier(l.deactivatedAt, now)) else l.deactivatedAt)
            && done.publishedAt == (if op in {Publish, Update, Activate} then Some(Earlier(l.publishedAt, now)) else l.publishedAt)
    ensures FirstSuccess(l, op) <==> op in {Publish, Update, Activate} && l.publishedAt.None?
  {
  }

  // A first publish creates the listing under way; should it fail, it was pending before.
  lemma CreationSays(ean: string, job: JobId)
    requires ean != ""
    ensures Start(None, Publish, ean, job) == Some(Listing(ean, Publishing, Some(Pending), None, None, None, 1, Some(job), 1))
  {
  }

  function Earlier(at: Option<Time>, now: Time): Time {
    if at.Some? then at.value else now
  }

  function Done(l: Listing, op: Operation, job: JobId, now: Time): Listing
    requires op != Search
  {
    Succeeded(Started(l, op, job), op, job, now)
  }

  // A deactivation can be taken back: the listing is off, may be activated, and is then live again
  // under its first publication time.
  lemma DeactivatedComesBack(l: Listing, off: JobId, on: JobId, then_: Time, now: Time)
    requires CanStart(l, Deactivate, l.ean) && l.publishedAt.Some?
    ensures var d := Done(l, Deactivate, off, then_);
            && d.status == Deactivated && d.saved.None?
            && d.deactivatedAt == (if l.deactivatedAt.Some? then l.deactivatedAt else Some(then_))
            && d.deletedAt == l.deletedAt && d.publishedAt == l.publishedAt
            && CanStart(d, Activate, l.ean)
            && var a := Done(d, Activate, on, now);
               a.status == Active && a.saved.None? && a.publishedAt == l.publishedAt && a.deletedAt == l.deletedAt
  {
  }

  // A deletion cannot: only a new publish may start.
  lemma DeletedOnlyPublishes(l: Listing, off: JobId, then_: Time, op: Operation)
    requires CanStart(l, Delete, l.ean)
    ensures var d := Done(l, Delete, off, then_);
            && d.status == Deleted && d.saved.None?
            && d.deletedAt == (if l.deletedAt.Some? then l.deletedAt else Some(then_))
            && d.deactivatedAt == l.deactivatedAt && d.publishedAt == l.publishedAt
            && (CanStart(d, op, l.ean) <==> op == Publish)
  {
  }

  // ---- exact rollback ----

  datatype Nudge = PreMark(job: JobId) | Restart(job: JobId) | Await(job: JobId)

  predicate Accepted(l: Listing, op: Operation, n: Nudge) {
    match n
    case PreMark(_) => CanPreMark(l, op)
    case Restart(_) => CanStart(l, op, l.ean)
    case Await(_) => true
  }

  // A refused step raises before it writes.
  function Apply(l: Listing, op: Operation, n: Nudge): Listing
    requires op != Search
  {
    if !Accepted(l, op, n) then l
    else
      match n
      case PreMark(j) => PreMarked(l, op, j)
      case Restart(j) => Started(l, op, j)
      case Await(j) => Awaiting(l, op, j)
  }

  function ApplyAll(l: Listing, op: Operation, ns: seq<Nudge>): Listing
    requires op != Search
    decreases |ns|
  {
    if ns == [] then l else ApplyAll(Apply(l, op, ns[0]), op, ns[1..])
  }

  // A confirmation wait that comes before any accepted pre-mark or start.
  predicate AwaitsFirst(l: Listing, op: Operation, ns: seq<Nudge>) {
    ns != [] && (ns[0].Await? || (!Accepted(l, op, ns[0]) && AwaitsFirst(l, op, ns[1..])))
  }

  // Once in progress, the steps of the same operation keep both the status and the saved one.
  lemma {:induction false} InProgressKeepsSaved(l: Listing, op: Operation, ns: seq<Nudge>)
    requires op != Search && l.status == StatusDuring(op)
    ensures ApplyAll(l, op, ns).status == l.status && ApplyAll(l, op, ns).saved == l.saved
    decreases |ns|
  {
    if ns != [] {
      InProgressKeepsSaved(Apply(l, op, ns[0]), op, ns[1..]);
    }
  }

  // From a settled listing, any steps of one non-publish operation followed by its failure
  // restore the status and clear the saved one, exactly unless a wait came first.
  lemma {:induction false} FailureRestores(l: Listing, op: Operation, ns: seq<Nudge>, job: JobId)
    requires op != Search && op != Publish
    requires !InProgress(l.status) && l.saved.None?
    ensures var end := FailedAttempt(ApplyAll(l, op, ns), op, job);
            end.saved.None? && (end.status == l.status <==> !AwaitsFirst(l, op, ns))
  {
    if ns != [] {
      var next := Apply(l, op, ns[0]);
      if Accepted(l, op, ns[0]) {
        InProgressKeepsSaved(next, op, ns[1..]);
      } else {
        FailureRestores(l, op, ns[1..], job);
      }
    }
  }
}
