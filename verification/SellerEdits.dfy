// What a seller's edits ask for, in terms of the card and the request alone, and what becomes of it.
module SellerEdits {
  import opened Common
  import opened Lifecycle
  import opened SellerChanges

  // ---- what an edit asks for ----

  // The submitted value of a listed field differs from the live one and is not the agreed price.
  predicate AsksField(c: Card, e: Edit, f: FieldName) {
    && f in e.data && !f.Unlisted?
    && e.data[f] != (if f in c.fields then c.fields[f] else "null")
    && !(f == UnitPrice && c.accepted == Some(e.data[f]))
  }

  // Blanks around the composition do not count.
  predicate SameVariant(v: Variant, w: Variant) {
    && v.color == w.color && v.materials == w.materials && Strip(v.composition) == Strip(w.composition)
    && v.width == w.width && v.height == w.height && v.length == w.length && v.quantity == w.quantity
  }

  predicate AsksVariants(c: Card, e: Edit) {
    e.variants.Some?
    && (|e.variants.value| != |c.variants| || exists i | 0 <= i < |c.variants| :: !SameVariant(e.variants.value[i], c.variants[i]))
  }

  predicate SamePart(p: Part, q: Part) {
    p.description == q.description && p.width == q.width && p.height == q.height && p.length == q.length
  }

  predicate AsksParts(c: Card, e: Edit) {
    e.parts.Some?
    && (|e.parts.value| != |c.parts| || exists i | 0 <= i < |c.parts| :: !SamePart(e.parts.value[i], c.parts[i]))
  }

  predicate Asks(c: Card, e: Edit) {
    (exists f | f in e.data :: AsksField(c, e, f)) || AsksVariants(c, e) || AsksParts(c, e) || e.images.Some?
  }

  // The variants as they were submitted, with the blanks around compositions gone.
  predicate AsSubmitted(vs: seq<Variant>, submitted: seq<Variant>) {
    && |vs| == |submitted|
    && forall i | 0 <= i < |vs| :: SameVariant(vs[i], submitted[i]) && vs[i].composition == Strip(submitted[i].composition)
  }

  // ---- one edit ----

  lemma FieldIsKept(c: Card, e: Edit, f: FieldName)
    ensures f in FieldDiffs(c, e.data) <==> AsksField(c, e, f)
    ensures f in FieldDiffs(c, e.data) ==> FieldDiffs(c, e.data)[f] == e.data[f]
  {
  }

  lemma VariantsAreKept(c: Card, e: Edit)
    ensures if AsksVariants(c, e)
            then VariantsDiff(c, e.variants).Some? && AsSubmitted(VariantsDiff(c, e.variants).value, e.variants.value)
            else VariantsDiff(c, e.variants).None?
  {
    if e.variants.Some? {
      var vs := e.variants.value;
      if AsksVariants(c, e) {
        if |vs| == |c.variants| {
          var i :| 0 <= i < |c.variants| && !SameVariant(vs[i], c.variants[i]);
          assert VariantsPayload(vs)[i] != VariantsPayload(c.variants)[i];
        }
        forall i | 0 <= i < |vs|
          ensures SameVariant(VariantsPayload(vs)[i], vs[i]) && VariantsPayload(vs)[i].composition == Strip(vs[i].composition)
        {
          StripTwice(vs[i].composition);
        }
      } else {
        forall i | 0 <= i < |vs| ensures VariantsPayload(vs)[i] == VariantsPayload(c.variants)[i] {
          assert SameVariant(vs[i], c.variants[i]);
        }
        assert VariantsPayload(vs) == VariantsPayload(c.variants);
      }
    }
  }

  lemma PartsAreKept(c: Card, e: Edit)
    ensures PartsDiff(c, e.parts) == if AsksParts(c, e) then e.parts else None
  {
    if e.parts.Some? && !AsksParts(c, e) {
      forall i | 0 <= i < |c.parts| ensures e.parts.value[i] == c.parts[i] {
        assert SamePart(e.parts.value[i], c.parts[i]);
      }
      assert e.parts.value == c.parts;
    }
  }

  lemma AskedIsChange(c: Card, e: Edit)
    ensures HasCatalogChange(c, e) <==> Asks(c, e)
  {
    VariantsAreKept(c, e);
    PartsAreKept(c, e);
    if f :| f in e.data && AsksField(c, e, f) {
      FieldIsKept(c, e, f);
    }
    if FieldDiffs(c, e.data) != map[] {
      var f :| f in FieldDiffs(c, e.data);
      FieldIsKept(c, e, f);
    }
  }

  // A save that asks for nothing writes nothing; another one overlays exactly what it asks for and
  // leaves the live product alone.
  lemma SaveSays(c: Card, e: Edit, f: FieldName)
    requires c.status == Approved
    ensures var r := Save(c, e);
            if !Asks(c, e) then r == if e.comment.Some? then CommentAlone else Done(c)
            else
              && r.Done? && r.card == c.(pending := r.card.pending, review := None, revision := c.revision + 1)
              && var p := r.card.pending;
                 && (f in p.fields <==> AsksField(c, e, f) || f in c.pending.fields)
                 && (f in p.fields ==> p.fields[f] == if AsksField(c, e, f) then e.data[f] else c.pending.fields[f])
                 && (if AsksVariants(c, e) then p.variants.Some? && AsSubmitted(p.variants.value, e.variants.value) else p.variants == c.pending.variants)
                 && p.parts == (if AsksParts(c, e) then e.parts else c.pending.parts)
                 && p.images == (if e.images.Some? then e.images else c.pending.images)
                 && (e.comment.None? ==> p.comment == c.pending.comment)
                 && (e.comment.Some? ==> p.comment == if Strip(e.comment.value) == "" then None else Some(Strip(e.comment.value)))
  {
    AskedIsChange(c, e);
    FieldIsKept(c, e, f);
    VariantsAreKept(c, e);
    PartsAreKept(c, e);
  }

  // ---- many edits, then an approval ----

  predicate LastAsksField(c: Card, edits: seq<Edit>, i: int, f: FieldName) {
    0 <= i < |edits| && AsksField(c, edits[i], f) && forall n | i < n < |edits| :: !AsksField(c, edits[n], f)
  }

  predicate LastAsksVariants(c: Card, edits: seq<Edit>, i: int) {
    0 <= i < |edits| && AsksVariants(c, edits[i]) && forall n | i < n < |edits| :: !AsksVariants(c, edits[n])
  }

  predicate LastAsksParts(c: Card, edits: seq<Edit>, i: int) {
    0 <= i < |edits| && AsksParts(c, edits[i]) && forall n | i < n < |edits| :: !AsksParts(c, edits[n])
  }

  lemma {:induction false} FieldHistory(c: Card, edits: seq<Edit>, f: FieldName)
    ensures LastValue(c, edits, f).None? <==> forall n | 0 <= n < |edits| :: !AsksField(c, edits[n], f)
    ensures forall i | LastAsksField(c, edits, i, f) :: LastValue(c, edits, f) == Some(edits[i].data[f])
  {
    if edits != [] {
      var front, last := edits[..|edits| - 1], edits[|edits| - 1];
      FieldHistory(c, front, f);
      FieldIsKept(c, last, f);
      if !AsksField(c, last, f) {
        forall i | LastAsksField(c, edits, i, f) ensures LastAsksField(c, front, i, f) {
        }
      }
    }
  }

  lemma {:induction false} VariantsHistory(c: Card, edits: seq<Edit>)
    ensures LastVariants(c, edits).None? <==> forall n | 0 <= n < |edits| :: !AsksVariants(c, edits[n])
    ensures forall i | LastAsksVariants(c, edits, i) ::
              LastVariants(c, edits).Some? && AsSubmitted(LastVariants(c, edits).value, edits[i].variants.value)
  {
    if edits != [] {
      var front, last := edits[..|edits| - 1], edits[|edits| - 1];
      VariantsHistory(c, front);
      VariantsAreKept(c, last);
      if !AsksVariants(c, last) {
        forall i | LastAsksVariants(c, edits, i) ensures LastAsksVariants(c, front, i) {
        }
      }
    }
  }

  lemma {:induction false} PartsHistory(c: Card, edits: seq<Edit>)
    ensures LastParts(c, edits).None? <==> forall n | 0 <= n < |edits| :: !AsksParts(c, edits[n])
    ensures forall i | LastAsksParts(c, edits, i) :: LastParts(c, edits) == edits[i].parts
  {
    if edits != [] {
      var front, last := edits[..|edits| - 1], edits[|edits| - 1];
      PartsHistory(c, front);
      PartsAreKept(c, last);
      if !AsksParts(c, last) {
        forall i | LastAsksParts(c, edits, i) ensures LastAsksParts(c, front, i) {
        }
      }
    }
  }

  // Main result: after any sequence of edits an approval gives each field the value that was asked
  // for last, and the variants and set pieces as they were last submitted with a difference; what
  // no edit asked for stays as it is.
  lemma ApprovalGivesWhatWasAsked(c: Card, edits: seq<Edit>, expected: Option<nat>, f: FieldName)
    requires c.status == Approved && c.pending == NoChanges
    ensures var r := ApproveChanges(SaveAll(c, edits), expected);
            r.Done? ==>
              && (forall i | LastAsksField(c, edits, i, f) :: r.card.Live(f) == edits[i].data[f])
              && ((forall n | 0 <= n < |edits| :: !AsksField(c, edits[n], f)) ==> r.card.Live(f) == c.Live(f))
              && (forall i | LastAsksVariants(c, edits, i) :: AsSubmitted(r.card.variants, edits[i].variants.value))
              && ((forall n | 0 <= n < |edits| :: !AsksVariants(c, edits[n])) ==> r.card.variants == c.variants)
              && (forall i | LastAsksParts(c, edits, i) :: r.card.parts == edits[i].parts.value)
              && ((forall n | 0 <= n < |edits| :: !AsksParts(c, edits[n])) ==> r.card.parts == c.parts)
  {
    ApprovalAppliesHistory(c, edits, expected, f);
    FieldHistory(c, edits, f);
    VariantsHistory(c, edits);
    PartsHistory(c, edits);
  }

  // And it goes through exactly when an edit asked for something and the revision was read after it.
  lemma ApprovalGoesThrough(c: Card, edits: seq<Edit>, expected: Option<nat>)
    requires c.status == Approved && c.pending == NoChanges
    ensures ApproveChanges(SaveAll(c, edits), expected).Done? <==>
              (exists i | 0 <= i < |edits| :: Asks(c, edits[i])) && (expected.Some? ==> expected.value == SaveAll(c, edits).revision)
  {
    PendingNeedsAChange(c, edits);
    OverlayIsHistory(c, edits, Title);
    forall i | 0 <= i < |edits| ensures HasCatalogChange(c, edits[i]) <==> Asks(c, edits[i]) {
      AskedIsChange(c, edits[i]);
    }
  }

  // ---- decisions ----

  // An approval needs the revision that was read, an approved product and something pending; it
  // then moves what is pending to the live product under a new revision.
  lemma ApprovalSays(c: Card, expected: Option<nat>, f: FieldName)
    ensures var r := ApproveChanges(c, expected);
            if expected.Some? && expected.value != c.revision then r == Result.RevisionChanged
            else if c.status != Approved then r == Result.WrongStatus
            else if c.pending == Pending(map[], None, None, None, None) then r == NothingPending
            else
              && r.Done? && r.card.revision == c.revision + 1 && r.card.review.None? && r.card.status == Approved
              && r.card.pending == Pending(map[], None, None, None, None)
              && r.card.Live(f) == (if f in c.pending.fields && !f.Unlisted? then c.pending.fields[f] else c.Live(f))
              && r.card.variants == (if c.pending.variants.Some? then c.pending.variants.value else c.variants)
              && r.card.parts == (if c.pending.parts.Some? then c.pending.parts.value else c.parts)
  {
  }

  // A rejection also needs a reason; it keeps what was pending, the reason and the live values
  // beside it, and leaves the live product and the revision alone.
  lemma RejectionSays(c: Card, comment: string, expected: Option<nat>, f: FieldName)
    ensures var r := RejectChanges(c, comment, expected);
            if expected.Some? && expected.value != c.revision then r == Result.RevisionChanged
            else if c.status != Approved then r == Result.WrongStatus
            else if Strip(comment) == "" then r == Result.ReasonMissing
            else if c.pending == Pending(map[], None, None, None, None) then r == NothingPending
            else
              && r.Done? && r.card.review.Some?
              && r.card == c.(pending := Pending(map[], None, None, None, None), review := r.card.review)
              && var kept := r.card.review.value;
                 && kept.rejected == c.pending && kept.managerComment == Strip(comment)
                 && (f in kept.baseline.fields <==> f in c.pending.fields && !f.Unlisted?)
                 && (f in kept.baseline.fields ==> kept.baseline.fields[f] == c.Live(f))
                 && (kept.baseline.variants.Some? <==> c.pending.variants.Some?)
                 && (kept.baseline.variants.Some? ==> AsSubmitted(kept.baseline.variants.value, c.variants))
                 && kept.baseline.parts == (if c.pending.parts.Some? then Some(c.parts) else None)
  {
    StripTwice(comment);
    forall i | 0 <= i < |c.variants| ensures SameVariant(VariantsPayload(c.variants)[i], c.variants[i]) {
      StripTwice(c.variants[i].composition);
    }
  }

  // Editing directly writes the live product; a product in review takes a new revision for any
  // edit, photo edit or withdrawal.
  lemma EditsInReview(c: Card, data: map<FieldName, Value>, variants: Option<seq<Variant>>, parts: Option<seq<Part>>, f: FieldName)
    ensures var u := SellerChanges.Next(c, EditDirectly(data, variants, parts));
            && u.Live(f) == (if f in data then data[f] else c.Live(f))
            && u.variants == (if variants.Some? then variants.value else c.variants)
            && u.parts == (if parts.Some? then parts.value else c.parts)
            && u.pending == c.pending && u.status == c.status
    ensures c.status == ProductStatus.Submitted ==>
              && SellerChanges.Next(c, EditDirectly(data, variants, parts)).revision == c.revision + 1
              && SellerChanges.Next(c, EditPhotos).revision == c.revision + 1
              && SellerChanges.Next(c, WithdrawFromReview).revision == c.revision + 1 && SellerChanges.Next(c, WithdrawFromReview).status == Withdrawn
  {
  }

  // A price agreed on while the product is in review or approved is live at once, and submitting it
  // asks for nothing, also when the live price has been edited since.
  lemma AgreedPriceIsLive(c: Card, price: Value, data: map<FieldName, Value>, e: Edit)
    requires c.status in {ProductStatus.Submitted, Approved} && UnitPrice in e.data && e.data[UnitPrice] == price
    ensures var agreed := SellerChanges.Next(c, AgreeOnPrice(price));
            && agreed.Live(UnitPrice) == price && agreed.pending == c.pending
            && !AsksField(agreed, e, UnitPrice)
            && !AsksField(SellerChanges.Next(agreed, EditDirectly(data, None, None)), e, UnitPrice)
  {
  }

  // The seller can take back what is pending; nothing else changes.
  lemma DiscardSays(c: Card)
    ensures SellerChanges.Next(c, Discard) == c.(pending := Pending(map[], None, None, None, None))
  {
  }
}
