// Moderation of a product as far as it touches EAN codes and listings (apps/moderation/services.py,
// withdraw_product_submission in apps/products/services.py, deletion in its views). Revisions are in SellerChanges.
module Moderation {
  import opened Common
  import opened EanPool
  import opened Lifecycle

  datatype Refusal = NoSuchProduct | RevisionChanged | WithdrawnFromReview | ReasonMissing | WrongStatus | NoFreeEan(account: Account) | WrongTarget | HasListings

  predicate RevisionMatches(expected: Option<nat>, revision: nat) {
    expected.Some? ==> expected.value == revision
  }

  class Database {
    var depot: Depot

    method SaveStatus(p: ProductId, s: ProductStatus)
      requires p in depot.products
      modifies this
      ensures depot == WithStatus(old(depot), p, s)
    {
      depot := depot.(products := depot.products[p := depot.products[p].(status := s)]);
    }

    // One transaction: without a free code for both accounts nothing is reserved.
    method ApproveProduct(p: ProductId, locked: set<nat>, expected: Option<nat>, revision: nat) returns (refusal: Option<Refusal>)
      modifies this
      ensures depot == if RevisionMatches(expected, revision) then DoApprove(old(depot), p, locked) else old(depot)
      ensures refusal.None? <==>
                && p in old(depot).products && old(depot).products[p].status == Submitted && RevisionMatches(expected, revision)
                && Assign(old(depot).rows, old(depot).products[p].codes, p, locked).Assigned?
      ensures refusal.None? ==> p in depot.products && depot.products[p].status == Approved
      ensures p in old(depot).products && !RevisionMatches(expected, revision) ==>
                refusal == Some(if old(depot).products[p].status == Submitted then RevisionChanged else WithdrawnFromReview)
      ensures refusal.None? && CodesNonBlank(old(depot).rows) ==>
                depot.products[p].codes.jv != "" && depot.products[p].codes.xl != ""
      ensures refusal.Some? ==> depot == old(depot)
    {
      if p !in depot.products {
        return Some(NoSuchProduct);
      }
      if expected.Some? && expected.value != revision {
        return Some(if depot.products[p].status != Submitted then WithdrawnFromReview else RevisionChanged);
      }
      if depot.products[p].status != Submitted {
        return Some(WrongStatus);
      }
      var assignment := Assign(depot.rows, depot.products[p].codes, p, locked);
      if assignment.NoFreeCode? {
        return Some(NoFreeEan(assignment.account));
      }
      depot := depot.(rows := assignment.rows,
                      products := depot.products[p := depot.products[p].(codes := assignment.card)]);
      SaveStatus(p, Approved);
      refusal := None;
    }

    // Listings that are live or under way block the move.
    method ChangeApprovedProductStatus(p: ProductId, target: ProductStatus, comment: string, expected: Option<nat>, revision: nat)
      returns (refusal: Option<Refusal>)
      modifies this
      ensures depot == if refusal.None? then DoMove(old(depot), p, target) else old(depot)
      ensures refusal.None? <==>
                && p in old(depot).products && old(depot).products[p].status == Approved
                && RevisionMatches(expected, revision)
                && target in {Submitted, Rejected} && !HasBlockingListing(old(depot), p)
                && (target == Rejected ==> Strip(comment) != "")
      ensures refusal.None? ==> depot.products[p].status == target
    {
      if p !in depot.products {
        return Some(NoSuchProduct);
      }
      if depot.products[p].status != Approved {
        return Some(WrongStatus);
      }
      if expected.Some? && expected.value != revision {
        return Some(RevisionChanged);
      }
      if target != Submitted && target != Rejected {
        return Some(WrongTarget);
      }
      if HasBlockingListing(depot, p) {
        return Some(HasListings);
      }
      if target == Rejected && Strip(comment) == "" {
        return Some(ReasonMissing);
      }
      SaveStatus(p, target);
      refusal := None;
    }

    // Deletion only hides the product: the row, its codes and its removed listings stay.
    method ArchiveProduct(p: ProductId, manager: bool) returns (refusal: Option<Refusal>)
      modifies this
      ensures depot == DoArchive(old(depot), p, manager)
      ensures refusal.None? <==> CanArchive(old(depot), p, manager)
      ensures refusal.None? ==> depot.products[p] == old(depot).products[p].(status := Archived)
      ensures refusal == Some(HasListings) ==> HasListingLeft(old(depot), p)
    {
      if p !in depot.products || depot.products[p].status == Archived {
        return Some(NoSuchProduct);
      }
      if !manager && depot.products[p].status !in {Draft, Rejected, Withdrawn} {
        return Some(WrongStatus);
      }
      if HasListingLeft(depot, p) {
        return Some(HasListings);
      }
      SaveStatus(p, Archived);
      refusal := None;
    }

    // Frees the reserved rows one by one; the product keeps its code fields.
    method WithdrawSubmission(p: ProductId) returns (refusal: Option<Refusal>)
      modifies this
      ensures depot == DoWithdraw(old(depot), p)
      ensures refusal.None? <==> p in old(depot).products && old(depot).products[p].status == Submitted
      ensures refusal.None? ==> depot.products[p].codes == old(depot).products[p].codes
    {
      if p !in depot.products {
        return Some(NoSuchProduct);
      }
      if depot.products[p].status != Submitted {
        return Some(WrongStatus);
      }
      var rows := depot.rows;
      for i := 0 to |rows|
        invariant |rows| == |depot.rows|
        invariant forall k | 0 <= k < i :: rows[k] == ReleaseRow(depot.rows[k], p)
        invariant forall k | i <= k < |rows| :: rows[k] == depot.rows[k]
      {
        if rows[i].owner == Some(p) && rows[i].state == Reserved {
          rows := rows[i := rows[i].(owner := None, state := Available)];
        }
      }
      assert rows == Release(depot.rows, p);
      depot := depot.(rows := rows);
      SaveStatus(p, Withdrawn);
      refusal := None;
    }
  }

  predicate CodesNonBlank(rows: seq<EanRow>) {
    forall r | r in rows :: r.code != ""
  }
}
