// Edits of an approved product wait in `pending_changes` until a manager approves or rejects
// them (apps/products/services.py, apps/moderation/services.py). The catalogue revision guards
// a manager against approving what he has not read.
module SellerChanges {
  import opened Common
  import opened Lifecycle

  // A value is its JSON text.
  type Value = string

  datatype FieldName =
    | Title | ProductType | UnitPrice | Currency | WarehouseCity | CategoryId | CategoryGroupId
    | CategoryName | CategoryGroupName | Attributes | Unlisted(name: string)

  datatype Variant = Variant(color: Value, materials: seq<Value>, composition: string, width: Value, height: Value, length: Value, quantity: Value)

  datatype Part = Part(description: Value, width: Value, height: Value, length: Value)

  // pending_changes; every key may be absent.
  datatype Pending = Pending(
    fields: map<FieldName, Value>, variants: Option<seq<Variant>>, parts: Option<seq<Part>>,
    images: Option<seq<nat>>, comment: Option<string>)

  const NoChanges := Pending(map[], None, None, None, None)

  // seller_change_review: the rejected changes with the live values they were meant to replace.
  datatype Review = Review(rejected: Pending, managerComment: string, baseline: Pending)

  datatype Card = Card(
    status: ProductStatus, fields: map<FieldName, Value>, variants: seq<Variant>, parts: seq<Part>,
    pending: Pending, review: Option<Review>, revision: nat, accepted: Option<Value>)
  {
    function Live(f: FieldName): Value {
      if f in fields then fields[f] else "null"
    }
  }

  // One request of the seller.
  datatype Edit = Edit(
    data: map<FieldName, Value>, variants: Option<seq<Variant>>, parts: Option<seq<Part>>,
    comment: Option<string>, images: Option<seq<nat>>)

  datatype Result = Done(card: Card) | WrongStatus | CommentAlone | NothingPending | RevisionChanged | ReasonMissing

  // ---- what an edit adds to the pending changes ----

  // A submitted value counts when it differs from the live one; a price the seller has already
  // agreed on does not.
  predicate Counts(c: Card, f: FieldName, v: Value) {
    !f.Unlisted? && v != c.Live(f) && !(f == UnitPrice && c.accepted == Some(v))
  }

  function FieldDiffs(c: Card, data: map<FieldName, Value>): map<FieldName, Value> {
    map f | f in data && Counts(c, f, data[f]) :: data[f]
  }

  function Normalized(v: Variant): Variant {
    v.(composition := Strip(v.composition))
  }

  function VariantsPayload(vs: seq<Variant>): (r: seq<Variant>)
    ensures |r| == |vs| && forall i | 0 <= i < |vs| :: r[i] == Normalized(vs[i])
  {
    seq(|vs|, i requires 0 <= i < |vs| => Normalized(vs[i]))
  }

  function VariantsDiff(c: Card, variants: Option<seq<Variant>>): Option<seq<Variant>> {
    if variants.None? || VariantsPayload(variants.value) == VariantsPayload(c.variants) then None
    else Some(VariantsPayload(variants.value))
  }

  function PartsDiff(c: Card, parts: Option<seq<Part>>): Option<seq<Part>> {
    if parts == Some(c.parts) then None else parts
  }

  predicate HasCatalogChange(c: Card, e: Edit) {
    FieldDiffs(c, e.data) != map[] || VariantsDiff(c, e.variants).Some? || PartsDiff(c, e.parts).Some? || e.images.Some?
  }

  function OrElse<T>(a: Option<T>, b: Option<T>): Option<T> {
    if a.Some? then a else b
  }

  function PendingComment(comment: Option<string>, before: Option<string>): Option<string> {
    if comment.None? then before else if Strip(comment.value) == "" then None else Some(Strip(comment.value))
  }

  function PendingAfter(c: Card, e: Edit): Pending {
    Pending(c.pending.fields + FieldDiffs(c, e.data),
            OrElse(VariantsDiff(c, e.variants), c.pending.variants),
            OrElse(PartsDiff(c, e.parts), c.pending.parts),
            OrElse(e.images, c.pending.images),
            PendingComment(e.comment, c.pending.comment))
  }

  function Save(c: Card, e: Edit): Result {
    if c.status != Approved then WrongStatus
    else if HasCatalogChange(c, e) then Done(c.(pending := PendingAfter(c, e), review := None, revision := c.revision + 1))
    else if e.comment.Some? then CommentAlone
    else Done(c)
  }

  // ---- approval and rejection ----

  // update_product.
  function Update(c: Card, data: map<FieldName, Value>, variants: Option<seq<Variant>>, parts: Option<seq<Part>>): Card {
    c.(fields := c.fields + data,
       revision := if c.status == Submitted then c.revision + 1 else c.revision,
       variants := if variants.Some? then variants.value else c.variants,
       parts := if parts.Some? then parts.value else c.parts)
  }

  function ListedOnly(fields: map<FieldName, Value>): map<FieldName, Value> {
    map f | f in fields && !f.Unlisted? :: fields[f]
  }

  function ApplyPending(c: Card): Result {
    if c.pending == NoChanges then NothingPending
    else
      var updated := Update(c, ListedOnly(c.pending.fields), c.pending.variants, c.pending.parts);
      Done(updated.(pending := NoChanges, review := None, revision := updated.revision + 1))
  }

  // The live side of the pending changes.
  function Baseline(c: Card, pending: Pending): Pending {
    Pending(map f | f in pending.fields && !f.Unlisted? :: c.Live(f),
            if pending.variants.Some? then Some(VariantsPayload(c.variants)) else None,
            if pending.parts.Some? then Some(c.parts) else None,
            None, None)
  }

  function DiscardPending(c: Card, managerComment: Option<string>): Result {
    if c.pending == NoChanges then NothingPending
    else
      Done(c.(pending := NoChanges,
              review := if managerComment.Some? then Some(Review(c.pending, Strip(managerComment.value), Baseline(c, c.pending))) else c.review))
  }

  predicate RevisionMatches(c: Card, expected: Option<nat>) {
    expected.Some? ==> expected.value == c.revision
  }

  function ApproveChanges(c: Card, expected: Option<nat>): Result {
    if !RevisionMatches(c, expected) then RevisionChanged
    else if c.status != Approved then WrongStatus
    else ApplyPending(c)
  }

  function RejectChanges(c: Card, comment: string, expected: Option<nat>): Result {
    if !RevisionMatches(c, expected) then RevisionChanged
    else if c.status != Approved then WrongStatus
    else if Strip(comment) == "" then ReasonMissing
    else DiscardPending(c, Some(Strip(comment)))
  }

  // A refused request changes nothing.
  function After(c: Card, r: Result): Card {
    if r.Done? then r.card else c
  }

  // The product row with its variants and set pieces, changed in place.
  class Product {
    var status: ProductStatus
    var fields: map<FieldName, Value>
    var variants: seq<Variant>
    var parts: seq<Part>
    var pending: Pending
    var review: Option<Review>
    var revision: nat
    var accepted: Option<Value>

    function AsCard(): Card
      reads this
    {
      Card(status, fields, variants, parts, pending, review, revision, accepted)
    }

    method PendingFieldDiffs(data: map<FieldName, Value>) returns (updates: map<FieldName, Value>)
      ensures updates == FieldDiffs(AsCard(), data)
    {
      updates := map[];
      var rest := data.Keys;
      while rest != {}
        invariant rest <= data.Keys
        invariant updates == map f | f in data && f !in rest && Counts(AsCard(), f, data[f]) :: data[f]
        decreases rest
      {
        var field :| field in rest;
        rest := rest - {field};
        if field.Unlisted? || AsCard().Live(field) == data[field] {
          continue;
        }
        if field == UnitPrice && accepted.Some? && data[field] == accepted.value {
          continue;
        }
        updates := updates[field := data[field]];
      }
    }

    method SaveSellerPendingChanges(e: Edit) returns (r: Result)
      modifies this
      ensures r == Save(old(AsCard()), e)
      ensures AsCard() == After(old(AsCard()), r)
    {
      if status != Approved {
        return WrongStatus;
      }
      var updates := PendingFieldDiffs(e.data);
      var variantsUpdate := VariantsDiff(AsCard(), e.variants);
      var partsUpdate := PartsDiff(AsCard(), e.parts);
      var changed := updates != map[] || variantsUpdate.Some? || partsUpdate.Some? || e.images.Some?;
      if !changed {
        return if e.comment.None? then Done(AsCard()) else CommentAlone;
      }
      var next := pending.(fields := pending.fields + updates);
      if variantsUpdate.Some? {
        next := next.(variants := variantsUpdate);
      }
      if partsUpdate.Some? {
        next := next.(parts := partsUpdate);
      }
      if e.images.Some? {
        next := next.(images := e.images);
      }
      if e.comment.Some? {
        var cleaned := Strip(e.comment.value);
        next := next.(comment := if cleaned != "" then Some(cleaned) else None);
      }
      pending := next;
      review := None;
      revision := revision + 1;
      r := Done(AsCard());
    }

    method SetFields(data: map<FieldName, Value>)
      modifies this`fields
      ensures fields == old(fields) + data
    {
      var rest := data.Keys;
      while rest != {}
        invariant rest <= data.Keys
        invariant fields == old(fields) + map f | f in data && f !in rest :: data[f]
        decreases rest
      {
        var field :| field in rest;
        fields := fields[field := data[field]];
        rest := rest - {field};
      }
      assert data == map f | f in data :: data[f];
    }

    method UpdateProduct(data: map<FieldName, Value>, newVariants: Option<seq<Variant>>, newParts: Option<seq<Part>>)
      modifies this
      ensures AsCard() == Update(old(AsCard()), data, newVariants, newParts)
    {
      SetFields(data);
      if status == Submitted {
        revision := revision + 1;
      }
      if newVariants.Some? {
        variants := newVariants.value;
      }
      if newParts.Some? {
        parts := newParts.value;
      }
    }

    method ApplyPendingSellerChanges() returns (r: Result)
      modifies this
      ensures r == ApplyPending(old(AsCard()))
      ensures AsCard() == After(old(AsCard()), r)
    {
      if pending == NoChanges {
        return NothingPending;
      }
      UpdateProduct(ListedOnly(pending.fields), pending.variants, pending.parts);
      pending := NoChanges;
      review := None;
      revision := revision + 1;
      r := Done(AsCard());
    }

    method ApproveSellerChanges(expected: Option<nat>) returns (r: Result)
      modifies this
      ensures r == ApproveChanges(old(AsCard()), expected)
      ensures AsCard() == After(old(AsCard()), r)
    {
      if expected.Some? && expected.value != revision {
        return RevisionChanged;
      }
      if status != Approved {
        return WrongStatus;
      }
      r := ApplyPendingSellerChanges();
    }

    method BaselineForPending() returns (baseline: Pending)
      ensures baseline == Baseline(AsCard(), pending)
    {
      var live: map<FieldName, Value> := map[];
      var rest := pending.fields.Keys;
      while rest != {}
        invariant rest <= pending.fields.Keys
        invariant live == map f | f in pending.fields && f !in rest && !f.Unlisted? :: AsCard().Live(f)
        decreases rest
      {
        var field :| field in rest;
        rest := rest - {field};
        if !field.Unlisted? {
          live := live[field := AsCard().Live(field)];
        }
      }
      baseline := Pending(live, None, None, None, None);
      if pending.variants.Some? {
        baseline := baseline.(variants := Some(VariantsPayload(variants)));
      }
      if pending.parts.Some? {
        baseline := baseline.(parts := Some(parts));
      }
    }

    method RejectSellerChanges(comment: string, expected: Option<nat>) returns (r: Result)
      modifies this
      ensures r == RejectChanges(old(AsCard()), comment, expected)
      ensures AsCard() == After(old(AsCard()), r)
    {
      if expected.Some? && expected.value != revision {
        return RevisionChanged;
      }
      if status != Approved {
        return WrongStatus;
      }
      var reason := Strip(comment);
      if reason == "" {
        return ReasonMissing;
      }
      if pending == NoChanges {
        return NothingPending;
      }
      var baseline := BaselineForPending();
      review := Some(Review(pending, Strip(reason), baseline));
      pending := NoChanges;
      r := Done(AsCard());
    }
  }

  // The baseline kept with a rejection undoes the rejected changes: after both, every listed field,
  // the variants and the pieces are as they are without them, the spaces around compositions aside.
  lemma BaselineUndoes(c: Card, f: FieldName)
    ensures var changed := Update(c, ListedOnly(c.pending.fields), c.pending.variants, c.pending.parts);
            var baseline := Baseline(c, c.pending);
            var restored := Update(changed, baseline.fields, baseline.variants, baseline.parts);
            && restored.Live(f) == c.Live(f)
            && VariantsPayload(restored.variants) == VariantsPayload(c.variants)
            && restored.parts == c.parts
  {
    NormalizingTwice(c.variants);
  }

  lemma NormalizingTwice(vs: seq<Variant>)
    ensures VariantsPayload(VariantsPayload(vs)) == VariantsPayload(vs)
  {
    forall i | 0 <= i < |vs| ensures VariantsPayload(VariantsPayload(vs))[i] == VariantsPayload(vs)[i] {
      StripTwice(vs[i].composition);
    }
  }

  // ---- reviewed is applied ----

  datatype Step =
    | SaveEdit(edit: Edit)
    | Approve(expected: Option<nat>)
    | Reject(comment: string, expected: Option<nat>)
    | Discard
    | EditDirectly(data: map<FieldName, Value>, variants: Option<seq<Variant>>, parts: Option<seq<Part>>)
    | EditPhotos
    | ChangeStatus(status: ProductStatus)
    | WithdrawFromReview
    | AgreeOnPrice(price: Value)

  // Every service that touches the row. Photo edits and withdrawal bump the revision of a
  // product in review; other status changes do not touch revision or pending changes. Agreeing on a
  // price writes it to the live product.
  function Next(c: Card, s: Step): Card {
    match s
    case SaveEdit(e) => After(c, Save(c, e))
    case Approve(expected) => After(c, ApproveChanges(c, expected))
    case Reject(comment, expected) => After(c, RejectChanges(c, comment, expected))
    case Discard => After(c, DiscardPending(c, None))
    case EditDirectly(data, variants, parts) => Update(c, data, variants, parts)
    case EditPhotos => if c.status == Submitted then c.(revision := c.revision + 1) else c
    case ChangeStatus(status) => c.(status := status)
    case WithdrawFromReview =>
      if c.status == Submitted then c.(status := Withdrawn, revision := c.revision + 1) else c
    case AgreeOnPrice(price) =>
      if c.status in {Submitted, Approved} then c.(accepted := Some(price), fields := c.fields[UnitPrice := price]) else c
  }

  function Run(c: Card, steps: seq<Step>): Card
    decreases |steps|
  {
    if steps == [] then c else Run(Next(c, steps[0]), steps[1..])
  }

  // The revision never decreases, and while it stands the pending changes can only be emptied.
  lemma {:induction false} OneChangeSetPerRevision(c: Card, steps: seq<Step>)
    ensures Run(c, steps).revision >= c.revision
    ensures Run(c, steps).revision == c.revision ==> Run(c, steps).pending == c.pending || Run(c, steps).pending == NoChanges
    decreases |steps|
  {
    if steps != [] {
      OneChangeSetPerRevision(Next(c, steps[0]), steps[1..]);
    }
  }

  // Whatever happens between reading and approving: an approval with the revision that was read
  // alongside non-empty changes applies exactly those changes to the live product.
  lemma ReviewedIsApplied(read: Card, steps: seq<Step>)
    requires read.pending != NoChanges
    ensures var now := Run(read, steps);
            var r := ApproveChanges(now, Some(read.revision));
            r.Done? ==>
              && r.card.fields == now.fields + ListedOnly(read.pending.fields)
              && r.card.variants == (if read.pending.variants.Some? then read.pending.variants.value else now.variants)
              && r.card.parts == (if read.pending.parts.Some? then read.pending.parts.value else now.parts)
              && r.card.pending == NoChanges
  {
    OneChangeSetPerRevision(read, steps);
  }

  // The guard alone does not tell rejected changes from waiting ones: discarding keeps the
  // revision. Approval is then refused only because nothing is pending.
  lemma DiscardKeepsRevision(c: Card, comment: string)
    requires c.status == Approved && c.pending != NoChanges && Strip(comment) != ""
    ensures var rejected := RejectChanges(c, comment, Some(c.revision)).card;
            rejected.revision == c.revision && ApproveChanges(rejected, Some(c.revision)) == NothingPending
  {
  }

  // ---- the overlay is the edit history ----

  function SaveAll(c: Card, edits: seq<Edit>): Card {
    if edits == [] then c
    else
      var before := SaveAll(c, edits[..|edits| - 1]);
      After(before, Save(before, edits[|edits| - 1]))
  }

  // The last submitted value of a field that counted.
  function LastValue(c: Card, edits: seq<Edit>, f: FieldName): Option<Value> {
    if edits == [] then None
    else
      var last := edits[|edits| - 1];
      if f in last.data && Counts(c, f, last.data[f]) then Some(last.data[f])
      else LastValue(c, edits[..|edits| - 1], f)
  }

  function LastVariants(c: Card, edits: seq<Edit>): Option<seq<Variant>> {
    if edits == [] then None
    else OrElse(VariantsDiff(c, edits[|edits| - 1].variants), LastVariants(c, edits[..|edits| - 1]))
  }

  function LastParts(c: Card, edits: seq<Edit>): Option<seq<Part>> {
    if edits == [] then None
    else OrElse(PartsDiff(c, edits[|edits| - 1].parts), LastParts(c, edits[..|edits| - 1]))
  }

  function OverlayValue(c: Card, f: FieldName): Option<Value> {
    if f in c.pending.fields then Some(c.pending.fields[f]) else None
  }

  // Saving leaves the live product alone and overlays the last counted submissions.
  lemma {:induction false} OverlayIsHistory(c: Card, edits: seq<Edit>, f: FieldName)
    requires c.status == Approved
    ensures var d := SaveAll(c, edits);
            && d == c.(pending := d.pending, review := d.review, revision := d.revision)
            && OverlayValue(d, f) == OrElse(LastValue(c, edits, f), OverlayValue(c, f))
            && d.pending.variants == OrElse(LastVariants(c, edits), c.pending.variants)
            && d.pending.parts == OrElse(LastParts(c, edits), c.pending.parts)
  {
    if edits != [] {
      var last := edits[|edits| - 1];
      OverlayIsHistory(c, edits[..|edits| - 1], f);
      SameChange(c, SaveAll(c, edits[..|edits| - 1]), last);
      assert f in last.data && Counts(c, f, last.data[f]) <==> f in FieldDiffs(c, last.data);
    }
  }

  // Main result: from an approved card without pending changes, any sequence of seller edits and
  // then an approval give each field the last submitted value that differed from the live one
  // (an agreed price aside), and otherwise the live value; variants and set pieces go as wholes.
  lemma ApprovalAppliesHistory(c: Card, edits: seq<Edit>, expected: Option<nat>, f: FieldName)
    requires c.status == Approved && c.pending == NoChanges
    ensures var r := ApproveChanges(SaveAll(c, edits), expected);
            r.Done? ==>
              && r.card.Live(f) == (if LastValue(c, edits, f).Some? then LastValue(c, edits, f).value else c.Live(f))
              && r.card.variants == (if LastVariants(c, edits).Some? then LastVariants(c, edits).value else c.variants)
              && r.card.parts == (if LastParts(c, edits).Some? then LastParts(c, edits).value else c.parts)
  {
    OverlayIsHistory(c, edits, f);
    LastValueIsListed(c, edits, f);
  }

  lemma {:induction false} LastValueIsListed(c: Card, edits: seq<Edit>, f: FieldName)
    ensures LastValue(c, edits, f).Some? ==> Counts(c, f, LastValue(c, edits, f).value)
  {
    if edits != [] {
      LastValueIsListed(c, edits[..|edits| - 1], f);
    }
  }

  // Approval finds something to apply exactly when one of the edits changed something.
  lemma {:induction false} PendingNeedsAChange(c: Card, edits: seq<Edit>)
    requires c.status == Approved && c.pending == NoChanges
    ensures SaveAll(c, edits).pending != NoChanges <==> exists i | 0 <= i < |edits| :: HasCatalogChange(c, edits[i])
  {
    if edits != [] {
      var front, last := edits[..|edits| - 1], edits[|edits| - 1];
      PendingNeedsAChange(c, front);
      OverlayIsHistory(c, front, Title);
      SameChange(c, SaveAll(c, front), last);
    }
  }

  lemma SameChange(c: Card, d: Card, e: Edit)
    requires d == c.(pending := d.pending, review := d.review, revision := d.revision)
    ensures FieldDiffs(d, e.data) == FieldDiffs(c, e.data)
    ensures HasCatalogChange(d, e) <==> HasCatalogChange(c, e)
    ensures HasCatalogChange(c, e) ==> PendingAfter(d, e) != NoChanges
  {
    assert FieldDiffs(d, e.data) == FieldDiffs(c, e.data);
    if FieldDiffs(c, e.data) != map[] {
      var f :| f in FieldDiffs(c, e.data);
      assert f in PendingAfter(d, e).fields;
    }
  }

  // An edit that puts a field back to its live value does not count, so it does not take an
  // earlier change back: approval then gives the live value if and only if no other value waits.
  lemma EditingBackExact(c: Card, f: FieldName)
    requires c.status == Approved && !f.Unlisted?
    ensures var back := Edit(map[f := c.Live(f)], None, None, None, None);
            var saved := Save(c, back);
            && saved == Done(c)
            && var r := ApproveChanges(c, None);
               r.Done? ==> (r.card.Live(f) == c.Live(f) <==> !(f in c.pending.fields && c.pending.fields[f] != c.Live(f)))
  {
    var back := Edit(map[f := c.Live(f)], None, None, None, None);
    assert FieldDiffs(c, back.data) == map[];
  }

  // It happens from any counted edit on: the earlier value is approved.
  lemma EditingBackIsIgnored(c: Card, f: FieldName, v: Value)
    requires c.status == Approved && c.pending == NoChanges && Counts(c, f, v)
    ensures var there := Edit(map[f := v], None, None, None, None);
            var back := Edit(map[f := c.Live(f)], None, None, None, None);
            var r := ApproveChanges(SaveAll(c, [there, back]), None);
            r.Done? && r.card.Live(f) == v
  {
    var there := Edit(map[f := v], None, None, None, None);
    var back := Edit(map[f := c.Live(f)], None, None, None, None);
    assert [there, back][..1] == [there] && [there][..0] == [];
    assert FieldDiffs(c, there.data) == map[f := v];
    OverlayIsHistory(c, [there, back], f);
    assert LastValue(c, [there, back], f) == LastValue(c, [there], f) == Some(v);
    assert SaveAll(c, [there, back]).pending != NoChanges by {
      assert f in SaveAll(c, [there, back]).pending.fields;
    }
    ApprovalAppliesHistory(c, [there, back], None, f);
  }
}
