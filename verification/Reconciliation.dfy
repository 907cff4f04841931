// Setting a listing to what the marketplace shows (apps/orchestrator/publication_reconciliation.py),
// and giving up on jobs whose worker is lost (recover_stale_orchestrator_jobs).
module Reconciliation {
  import opened Common
  import opened EanPool
  import opened Listings
  import opened Lifecycle

  datatype Outcome = Finished(confirmed: bool) | EanRefused | NotFound

  class Database {
    var depot: Depot

    // The confirmed branch of finish_reconciliation: consume the EAN, then rewrite the listing.
    // A refused consumption rolls the transaction back.
    method ConfirmListing(k: Key, target: Status, job: JobId, now: Time) returns (ok: bool)
      requires k in depot.listings && k.product in depot.products
      requires target in {Failed, Active, Deactivated, Deleted}
      modifies this
      ensures ok <==> Confirm(old(depot), k, target, job, now).Some?
      ensures depot == if ok then Confirm(old(depot), k, target, job, now).value else old(depot)
    {
      if target != Failed {
        var c := Consume(depot.rows, depot.products[k.product].codes, k.product, k.account);
        if c.Refused? {
          return false;
        }
        depot := depot.(rows := AfterConsume(depot.rows, c));
      }
      var l := depot.listings[k].(status := target, saved := None, lastJob := Some(job));
      if target == Active {
        l := l.(publishedAt := if l.publishedAt.Some? then l.publishedAt else Some(now));
      } else if target == Deactivated {
        l := l.(deactivatedAt := Some(now));
      } else if target == Deleted {
        l := l.(deletedAt := Some(now));
      }
      depot := depot.(listings := depot.listings[k := l.(version := l.version + 1)]);
      ok := true;
    }

    // finish_reconciliation of a check: confirmed only if the listing is still the one checked.
    method FinishReconciliation(j: JobId, confirmed: bool, now: Time) returns (outcome: Outcome)
      requires j in depot.claimed && j in depot.jobs && depot.jobs[j].check.Some?
      modifies this
      ensures depot == DoReconcileFinish(old(depot), j, confirmed, now)
      ensures outcome == Finished(true) ==> confirmed && StillAsChecked(old(depot), j, old(depot).jobs[j].check.value)
      ensures !outcome.Finished? ==> depot == old(depot)
    {
      var snap := depot.jobs[j].check.value;
      if snap.key !in depot.listings || snap.key.product !in depot.products {
        return NotFound;
      }
      var same := depot.listings[snap.key].version == snap.version
                       && depot.listings[snap.key].ean == depot.products[snap.key.product].codes.CodeFor(snap.key.account);
      var accepted := confirmed && same && !OtherJobBusy(depot, j, snap.key.product);
      if accepted {
        var ok := ConfirmListing(snap.key, Active, j, now);
        if !ok {
          return EanRefused;
        }
      }
      depot := WithJobStatus(depot, j, if accepted then JobSucceeded else JobFailed);
      outcome := Finished(accepted);
    }

    // create_reconciliation with set_manual or confirm_manual.
    method ReconcileManually(k: Key, target: Option<Status>, now: Time) returns (done: bool)
      modifies this
      ensures depot == DoReconcileManual(old(depot), k, target, now)
      ensures done ==> CanReconcile(old(depot), k) && (target.None? ==> old(depot).listings[k].status == Failed)
      ensures !done ==> depot == old(depot)
    {
      if !CanReconcile(depot, k) {
        return false;
      }
      var goal := Active;
      if target.Some? {
        if target.value !in {Active, Deactivated, Failed} {
          return false;
        }
        goal := if target.value == Deactivated && k.marketplace != Otto then Deleted else target.value;
      } else if depot.listings[k].status != Failed {
        return false;
      }
      var ok := ConfirmListing(k, goal, depot.nextJob, now);
      if !ok {
        return false;
      }
      depot := WithManualJob(depot, k.product);
      done := true;
    }

    // create_reconciliation with check: a queued job remembers the listing as it is now.
    method CreateCheck(k: Key) returns (job: Option<JobId>)
      modifies this
      ensures depot == DoReconcileCheck(old(depot), k)
      ensures job == if CanReconcile(old(depot), k) then Some(old(depot).nextJob) else None
    {
      if !CanReconcile(depot, k) {
        return None;
      }
      var id := depot.nextJob;
      depot := depot.(jobs := depot.jobs[id := Job(k.product, Search, Queued, Some(Snapshot(k, depot.listings[k].version)))],
                      nextJob := id + 1);
      job := Some(id);
    }

    // Every job that has been running since before the cutoff fails; no request is repeated.
    method RecoverStaleJobs(startedAt: map<JobId, Time>, cutoff: Time) returns (recovered: nat, ghost order: seq<JobId>)
      modifies this
      ensures depot == Run(old(depot), RecoverSteps(order)) && recovered == |order|
      ensures forall j :: j in order <==>
                && j in old(depot).jobs && old(depot).jobs[j].status == Running
                && j in startedAt && startedAt[j] < cutoff
      ensures forall i, n | 0 <= i < n < |order| :: order[i] != order[n]
    {
      ghost var d := depot;
      recovered, order := 0, [];
      var rest := set j | j in depot.jobs && Stale(depot, startedAt, cutoff, j);
      while rest != {}
        invariant forall j :: Stale(d, startedAt, cutoff, j) <==> j in order || j in rest
        invariant forall j | j in rest :: j !in order && j in depot.jobs && depot.jobs[j].status == Running
        invariant forall i, n | 0 <= i < n < |order| :: order[i] != order[n]
        invariant depot == Run(d, RecoverSteps(order)) && recovered == |order|
        decreases rest
      {
        var j :| j in rest;
        RecoverOneMore(d, order, j);
        depot := depot.(jobs := depot.jobs[j := depot.jobs[j].(status := JobFailed)]);
        order, rest, recovered := order + [j], rest - {j}, recovered + 1;
      }
    }
  }

  predicate Stale(d: Depot, startedAt: map<JobId, Time>, cutoff: Time, j: JobId) {
    j in d.jobs && d.jobs[j].status == Running && j in startedAt && startedAt[j] < cutoff
  }

  function RecoverSteps(order: seq<JobId>): seq<Step> {
    seq(|order|, i requires 0 <= i < |order| => RecoverJob(order[i]))
  }

  lemma RecoverOneMore(d: Depot, order: seq<JobId>, j: JobId)
    ensures Run(d, RecoverSteps(order + [j])) == DoRecover(Run(d, RecoverSteps(order)), j)
  {
    assert RecoverSteps(order + [j]) == RecoverSteps(order) + [RecoverJob(j)];
    RunAppend(d, RecoverSteps(order), [RecoverJob(j)]);
    RunOne(Run(d, RecoverSteps(order)), RecoverJob(j));
  }
}
