// The photo gallery of a product (apps/products/services.py). The table allows one image per
// (product, position) and one primary image per product, and checks both at every row write.
module Gallery {
  import opened Common

  type ImageId = nat

  datatype Image = Image(position: nat, primary: bool)

  type Images = map<ImageId, Image>

  const MaxImages := 20

  // ---- the table constraints and the invariant ----

  predicate DistinctPositions(m: Images) {
    forall a, b | a in m && b in m && a != b :: m[a].position != m[b].position
  }

  predicate AtMostOnePrimary(m: Images) {
    forall a, b | a in m && b in m && a != b :: !(m[a].primary && m[b].primary)
  }

  predicate HasPrimary(m: Images) {
    exists a | a in m :: m[a].primary
  }

  predicate Ok(m: Images) {
    |m| <= MaxImages && DistinctPositions(m) && AtMostOnePrimary(m) && (m != map[] ==> HasPrimary(m))
  }

  predicate PositionFree(m: Images, id: ImageId, position: nat) {
    forall a | a in m && a != id :: m[a].position != position
  }

  predicate NoOtherPrimary(m: Images, id: ImageId) {
    forall a | a in m && a != id :: !m[a].primary
  }

  // ---- the operations on the rows ----

  // Where the next image goes: behind the last one, or at 0.
  predicate NextPosition(m: Images, p: nat) {
    (forall a | a in m :: m[a].position < p) && if m == map[] then p == 0 else exists a | a in m :: m[a].position + 1 == p
  }

  function Demoted(m: Images): Images {
    map a | a in m :: m[a].(primary := false)
  }

  function Promoted(m: Images, id: ImageId): Images
    requires id in m
  {
    Demoted(m)[id := m[id].(primary := true)]
  }

  function Uploaded(m: Images, id: ImageId, position: nat, isPrimary: bool): Images {
    if isPrimary || !HasPrimary(m) then Demoted(m)[id := Image(position, true)] else m[id := Image(position, false)]
  }

  predicate IsFirst(m: Images, id: ImageId) {
    id in m && forall a | a in m :: m[id].position < m[a].position || (m[id].position == m[a].position && id <= a)
  }

  // A deleted primary image hands the flag to the first image left.
  predicate DeletedTo(m: Images, id: ImageId, n: Images)
    requires id in m
  {
    var rest := m - {id};
    if m[id].primary && rest != map[] then exists f | f in rest :: IsFirst(rest, f) && n == rest[f := rest[f].(primary := true)]
    else n == rest
  }

  function LastIndex(ids: seq<ImageId>, id: ImageId): nat
    requires id in ids
  {
    if ids[|ids| - 1] == id then |ids| - 1 else LastIndex(ids[..|ids| - 1], id)
  }

  function Elems(ids: seq<ImageId>): set<ImageId> {
    set id | id in ids
  }

  function Reordered(m: Images, ids: seq<ImageId>): Images
    requires Elems(ids) == m.Keys
  {
    map a | a in m :: Image(LastIndex(ids, a), a == ids[0])
  }

  // The rows of one product.
  class GalleryRows {
    var images: Images

    // A row write is only possible where the constraints allow it, so they hold after every one.
    method WritePosition(id: ImageId, position: nat)
      requires id in images && PositionFree(images, id, position)
      modifies this
      ensures images == old(images)[id := old(images)[id].(position := position)]
      ensures DistinctPositions(old(images)) ==> DistinctPositions(images)
    {
      images := images[id := images[id].(position := position)];
    }

    method WritePrimary(id: ImageId, primary: bool)
      requires id in images && (primary ==> NoOtherPrimary(images, id))
      modifies this
      ensures images == old(images)[id := old(images)[id].(primary := primary)]
      ensures AtMostOnePrimary(old(images)) ==> AtMostOnePrimary(images)
    {
      images := images[id := images[id].(primary := primary)];
    }

    method InsertRow(id: ImageId, position: nat, primary: bool)
      requires id !in images && PositionFree(images, id, position) && (primary ==> NoOtherPrimary(images, id))
      modifies this
      ensures images == old(images)[id := Image(position, primary)]
      ensures DistinctPositions(old(images)) ==> DistinctPositions(images)
      ensures AtMostOnePrimary(old(images)) ==> AtMostOnePrimary(images)
    {
      images := images[id := Image(position, primary)];
    }

    // update(is_primary=False), row by row in any order.
    method ClearPrimary()
      modifies this
      ensures images == Demoted(old(images))
    {
      var rest := images.Keys;
      while rest != {}
        invariant rest <= images.Keys == old(images).Keys
        invariant forall a | a in images :: images[a] == if a in rest then old(images)[a] else old(images)[a].(primary := false)
        decreases rest
      {
        var id :| id in rest;
        WritePrimary(id, false);
        rest := rest - {id};
      }
    }

    // update(position=F("position") + offset), row by row in any order: the offset is so large that a moved
    // row never meets one that has not moved yet.
    method ShiftPositions(offset: nat)
      requires DistinctPositions(images) && forall a | a in images :: images[a].position < offset
      modifies this
      ensures images == Shifted(old(images), offset)
      ensures DistinctPositions(images)
    {
      var rest := images.Keys;
      ghost var moved: set<ImageId> := {};
      while rest != {}
        invariant moved + rest == old(images).Keys && moved !! rest
        invariant images == ShiftedIn(old(images), moved, offset)
        invariant DistinctPositions(images)
        decreases rest
      {
        var id :| id in rest;
        ShiftedFree(old(images), moved, id, offset);
        WritePosition(id, images[id].position + offset);
        moved, rest := moved + {id}, rest - {id};
      }
    }

    method MaxPosition() returns (max: Option<nat>)
      ensures max.None? <==> images == map[]
      ensures max.Some? ==> (forall a | a in images :: images[a].position <= max.value)
                            && exists a | a in images :: images[a].position == max.value
    {
      max := None;
      var rest := images.Keys;
      while rest != {}
        invariant rest <= images.Keys
        invariant max.None? <==> rest == images.Keys
        invariant max.Some? ==> (forall a | a in images && a !in rest :: images[a].position <= max.value)
                                && exists a | a in images && a !in rest :: images[a].position == max.value
        decreases rest
      {
        var id :| id in rest;
        if max.None? || images[id].position > max.value {
          max := Some(images[id].position);
        }
        rest := rest - {id};
      }
    }

    // create_product_with_images.
    method CreateWithImages(ids: seq<ImageId>) returns (ok: bool)
      requires images == map[] && forall i, j | 0 <= i < j < |ids| :: ids[i] != ids[j]
      modifies this
      ensures ok <==> |ids| <= 20
      ensures ok ==> Ok(images) && images == map id | id in ids :: Image(LastIndex(ids, id), id == ids[0])
      ensures !ok ==> images == map[]
    {
      if |ids| > MaxImages {
        return false;
      }
      for i := 0 to |ids|
        invariant images.Keys == Elems(ids[..i])
        invariant forall n | 0 <= n < i :: images[ids[n]] == Image(n, n == 0)
      {
        assert ids[..i + 1] == ids[..i] + [ids[i]];
        InsertRow(ids[i], i, i == 0);
      }
      assert ids[..|ids|] == ids;
      ListedAreOk(images, ids);
      ok := true;
    }

    method UploadProductImage(id: ImageId, isPrimary: bool) returns (ok: bool)
      requires Ok(images) && id !in images
      modifies this
      ensures ok <==> |old(images)| < 20
      ensures ok ==> exists p :: NextPosition(old(images), p) && images == Uploaded(old(images), id, p, isPrimary)
      ensures !ok ==> images == old(images)
      ensures Ok(images)
    {
      if |images| >= MaxImages {
        return false;
      }
      var max := MaxPosition();
      var position := if max.None? then 0 else max.value + 1;
      ghost var before := images;
      assert NextPosition(before, position);
      var primary := isPrimary;
      if isPrimary || !HasPrimary(images) {
        ClearPrimary();
        primary := true;
      }
      InsertRow(id, position, primary);
      UploadKeeps(before, id, position, isPrimary);
      ok := true;
    }

    method DeleteProductImage(id: ImageId) returns (ok: bool)
      requires Ok(images)
      modifies this
      ensures ok <==> id in old(images)
      ensures ok ==> DeletedTo(old(images), id, images)
      ensures !ok ==> images == old(images)
      ensures Ok(images)
    {
      if id !in images {
        return false;
      }
      ghost var before := images;
      var wasPrimary := images[id].primary;
      images := images - {id};
      if wasPrimary && images != map[] {
        var next := FirstImage();
        WritePrimary(next, true);
      }
      DeleteKeeps(before, id, images);
      ok := true;
    }

    method FirstImage() returns (first: ImageId)
      requires images != map[]
      ensures IsFirst(images, first)
    {
      first :| first in images;
      var rest := images.Keys - {first};
      while rest != {}
        invariant rest <= images.Keys && first in images && first !in rest
        invariant forall a | a in images && a !in rest ::
                    images[first].position < images[a].position || (images[first].position == images[a].position && first <= a)
        decreases rest
      {
        var id :| id in rest;
        if images[id].position < images[first].position || (images[id].position == images[first].position && id < first) {
          first := id;
        }
        rest := rest - {id};
      }
    }

    method MakeProductImagePrimary(id: ImageId) returns (ok: bool)
      requires Ok(images)
      modifies this
      ensures ok <==> id in old(images)
      ensures images == if ok then Promoted(old(images), id) else old(images)
      ensures Ok(images)
    {
      if id !in images {
        return false;
      }
      ghost var before := images;
      ClearPrimary();
      WritePrimary(id, true);
      PromoteKeeps(before, id);
      ok := true;
    }

    // The list is compared as a set, so it may repeat an image; a row write that the constraints
    // refuse raises IntegrityError, and the transaction is rolled back.
    method ReorderProductImages(ids: seq<ImageId>) returns (r: ReorderResult, ghost offset: nat)
      requires Ok(images)
      modifies this
      ensures r == NotTheImages <==> Elems(ids) != old(images).Keys
      ensures IsOffset(old(images), offset)
      ensures r == IntegrityError <==> r != NotTheImages && Collides(Shifted(old(images), offset), ids, |ids|)
      ensures r == Done ==> images == Reordered(old(images), ids)
      ensures r != Done ==> images == old(images)
      ensures Ok(images)
    {
      var before := images;
      var max := MaxPosition();
      var shift := (if max.None? then 0 else max.value) + |images| + 1;
      offset := shift;
      if Elems(ids) != images.Keys {
        return NotTheImages, offset;
      }
      ShiftPositions(shift);
      var moved := Renumber(ids);
      if !moved {
        images := before;
        return IntegrityError, offset;
      }
      assert ids[..|ids|] == ids;
      FirstBecomesPrimary(ids);
      NumberedIsReordered(before, ids, shift);
      ReorderKeeps(before, ids);
      r := Done;
    }

    method FirstBecomesPrimary(ids: seq<ImageId>)
      requires Elems(ids) == images.Keys
      modifies this
      ensures images == WithPrimary(old(images), ids)
    {
      ClearPrimary();
      if ids != [] {
        assert ids[0] in ids;
        WritePrimary(ids[0], true);
      }
    }

    // update(position=...) for one listed image after the other.
    method Renumber(ids: seq<ImageId>) returns (ok: bool)
      requires Elems(ids) == images.Keys && DistinctPositions(images)
      modifies this
      ensures ok <==> !Collides(old(images), ids, |ids|)
      ensures ok ==> images == Numbered(old(images), ids, |ids|)
    {
      for i := 0 to |ids|
        invariant images == Numbered(old(images), ids, i)
        invariant !Collides(old(images), ids, i)
      {
        NumberedFree(old(images), ids, i);
        assert ids[i] in ids;
        if !PositionFree(images, ids[i], i) {
          return false;
        }
        WritePosition(ids[i], i);
      }
      ok := true;
    }
  }

  datatype ReorderResult = Done | NotTheImages | IntegrityError

  function Shifted(m: Images, offset: nat): Images {
    map a | a in m :: m[a].(position := m[a].position + offset)
  }

  function ShiftedIn(m: Images, moved: set<ImageId>, offset: nat): Images {
    map a | a in m :: if a in moved then m[a].(position := m[a].position + offset) else m[a]
  }

  lemma ShiftedFree(m: Images, moved: set<ImageId>, id: ImageId, offset: nat)
    requires DistinctPositions(m) && (forall a | a in m :: m[a].position < offset) && id in m && id !in moved
    ensures PositionFree(ShiftedIn(m, moved, offset), id, m[id].position + offset)
    ensures ShiftedIn(m, moved + {id}, offset)
            == ShiftedIn(m, moved, offset)[id := m[id].(position := m[id].position + offset)]
  {
  }

  predicate IsOffset(m: Images, offset: nat) {
    if m == map[] then offset == 1
    else exists a | a in m :: offset == m[a].position + |m| + 1 && forall b | b in m :: m[b].position <= m[a].position
  }

  // The rows after the first n listed images have been renumbered.
  function Numbered(m: Images, ids: seq<ImageId>, n: nat): Images
    requires n <= |ids|
  {
    map a | a in m :: if a in ids[..n] then m[a].(position := LastIndex(ids[..n], a)) else m[a]
  }

  function WithPrimary(m: Images, ids: seq<ImageId>): Images
    requires Elems(ids) == m.Keys
  {
    map a | a in m :: m[a].(primary := a == ids[0])
  }

  lemma NumberedIsReordered(m: Images, ids: seq<ImageId>, offset: nat)
    requires Elems(ids) == m.Keys
    ensures Numbered(Shifted(m, offset), ids, |ids|).Keys == m.Keys
    ensures WithPrimary(Numbered(Shifted(m, offset), ids, |ids|), ids) == Reordered(m, ids)
  {
    assert ids[..|ids|] == ids;
    assert forall a | a in m :: a in ids;
  }

  // One of the first n writes meets a row that has not been renumbered yet.
  predicate Collides(m: Images, ids: seq<ImageId>, n: nat)
    requires n <= |ids|
  {
    exists i | 0 <= i < n :: CollidesAt(m, ids, i)
  }

  predicate CollidesAt(m: Images, ids: seq<ImageId>, i: nat)
    requires i < |ids|
  {
    exists a | a in m :: a !in ids[..i + 1] && m[a].position == i
  }

  lemma {:induction false} LastIndexIn(ids: seq<ImageId>, id: ImageId)
    requires id in ids
    ensures LastIndex(ids, id) < |ids| && ids[LastIndex(ids, id)] == id
    ensures forall i | LastIndex(ids, id) < i < |ids| :: ids[i] != id
  {
    if ids[|ids| - 1] != id {
      LastIndexIn(ids[..|ids| - 1], id);
    }
  }

  lemma NumberedFree(m: Images, ids: seq<ImageId>, i: nat)
    requires i < |ids| && ids[i] in m
    ensures PositionFree(Numbered(m, ids, i), ids[i], i) <==> !CollidesAt(m, ids, i)
    ensures Numbered(m, ids, i + 1) == Numbered(m, ids, i)[ids[i] := Numbered(m, ids, i)[ids[i]].(position := i)]
  {
    assert ids[..i + 1] == ids[..i] + [ids[i]];
    assert ids[..i + 1][..i] == ids[..i];
    forall a | a in m && a != ids[i]
      ensures Numbered(m, ids, i)[a].position == i <==> a !in ids[..i + 1] && m[a].position == i
    {
      if a in ids[..i] {
        LastIndexIn(ids[..i], a);
      }
    }
  }

  lemma ListedAreOk(m: Images, ids: seq<ImageId>)
    requires forall i, j | 0 <= i < j < |ids| :: ids[i] != ids[j]
    requires |ids| <= MaxImages && m.Keys == Elems(ids) && forall n | 0 <= n < |ids| :: m[ids[n]] == Image(n, n == 0)
    ensures Ok(m) && m == map id | id in ids :: Image(LastIndex(ids, id), id == ids[0])
  {
    forall id | id in ids ensures m[id] == Image(LastIndex(ids, id), id == ids[0]) {
      LastIndexIn(ids, id);
    }
    ElemsSize(ids);
    assert |m| == |m.Keys|;
    if m != map[] {
      assert ids != [] && m[ids[0]].primary;
    }
    forall a, b | a in m && b in m && a != b ensures m[a].position != m[b].position && !(m[a].primary && m[b].primary) {
      LastIndexIn(ids, a);
      LastIndexIn(ids, b);
    }
  }

  lemma {:induction false} ElemsSize(ids: seq<ImageId>)
    ensures |Elems(ids)| <= |ids|
  {
    if ids != [] {
      ElemsSize(ids[1..]);
      assert Elems(ids) == Elems(ids[1..]) + {ids[0]};
    }
  }

  lemma UploadKeeps(m: Images, id: ImageId, p: nat, isPrimary: bool)
    requires Ok(m) && |m| < MaxImages && id !in m && NextPosition(m, p)
    ensures Ok(Uploaded(m, id, p, isPrimary))
  {
    AddedPosition(m, id, Uploaded(m, id, p, isPrimary));
    UploadPrimary(m, id, p, isPrimary);
  }

  lemma AddedPosition(m: Images, id: ImageId, n: Images)
    requires DistinctPositions(m) && id !in m && n.Keys == m.Keys + {id}
    requires forall a | a in m :: n[a].position == m[a].position < n[id].position
    ensures DistinctPositions(n) && |n| == |m| + 1
  {
    assert |n| == |n.Keys| && |m| == |m.Keys|;
  }

  lemma FewerPositions(m: Images, n: Images)
    requires DistinctPositions(m) && n.Keys <= m.Keys && forall a | a in n :: n[a].position == m[a].position
    ensures DistinctPositions(n) && |n| <= |m|
  {
    assert |n| == |n.Keys| && |m| == |m.Keys|;
    assert |m.Keys| == |n.Keys| + |m.Keys - n.Keys|;
  }

  lemma UploadPrimary(m: Images, id: ImageId, p: nat, isPrimary: bool)
    requires AtMostOnePrimary(m) && id !in m
    ensures AtMostOnePrimary(Uploaded(m, id, p, isPrimary)) && HasPrimary(Uploaded(m, id, p, isPrimary))
  {
    var n := Uploaded(m, id, p, isPrimary);
    if isPrimary || !HasPrimary(m) {
      assert n[id].primary;
    } else {
      var a :| a in m && m[a].primary;
      assert n[a].primary;
    }
  }

  lemma DeleteKeeps(m: Images, id: ImageId, n: Images)
    requires Ok(m) && id in m && DeletedTo(m, id, n)
    ensures Ok(n)
  {
    FewerPositions(m, n);
    DeletePrimary(m, id, n);
  }

  lemma DeletePrimary(m: Images, id: ImageId, n: Images)
    requires AtMostOnePrimary(m) && (m != map[] ==> HasPrimary(m)) && id in m && DeletedTo(m, id, n)
    ensures AtMostOnePrimary(n) && (n != map[] ==> HasPrimary(n))
  {
    if n != map[] {
      if m[id].primary {
        var rest := m - {id};
        var f :| f in rest && IsFirst(rest, f) && n == rest[f := rest[f].(primary := true)];
        assert n[f].primary;
      } else {
        var a :| a in m && m[a].primary;
        assert n[a].primary;
      }
    }
  }

  lemma PromoteKeeps(m: Images, id: ImageId)
    requires Ok(m) && id in m
    ensures Ok(Promoted(m, id))
  {
    FewerPositions(m, Promoted(m, id));
    assert Promoted(m, id)[id].primary;
  }

  lemma ReorderKeeps(m: Images, ids: seq<ImageId>)
    requires Ok(m) && Elems(ids) == m.Keys
    ensures Ok(Reordered(m, ids))
  {
    var n := Reordered(m, ids);
    assert n.Keys == m.Keys;
    assert |n| == |n.Keys| && |m| == |m.Keys|;
    forall a, b | a in n && b in n && a != b ensures n[a].position != n[b].position {
      LastIndexIn(ids, a);
      LastIndexIn(ids, b);
    }
    if n != map[] {
      assert ids != [];
      assert ids[0] in ids;
      assert n[ids[0]].primary;
    }
  }
}
