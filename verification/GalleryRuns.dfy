// Runs of gallery operations. The rows always show an album: a list of photos in display order
// with one of them on the cover.
module GalleryRuns {
  import opened Common
  import opened Gallery

  datatype Step = Upload(id: ImageId, isPrimary: bool) | Delete(id: ImageId) | MakePrimary(id: ImageId) | Reorder(ids: seq<ImageId>)

  predicate ReorderFails(m: Images, ids: seq<ImageId>, offset: nat) {
    Elems(ids) != m.Keys || Collides(Shifted(m, offset), ids, |ids|)
  }

  // The contracts of the gallery methods as one relation; a refused request changes nothing.
  ghost predicate StepTo(m: Images, s: Step, n: Images) {
    match s
    case Upload(id, isPrimary) =>
      if |m| >= MaxImages || id in m then n == m
      else exists p :: NextPosition(m, p) && n == Uploaded(m, id, p, isPrimary)
    case Delete(id) => if id in m then DeletedTo(m, id, n) else n == m
    case MakePrimary(id) => n == if id in m then Promoted(m, id) else m
    case Reorder(ids) =>
      exists offset: nat :: IsOffset(m, offset) && n == if ReorderFails(m, ids, offset) then m else Reordered(m, ids)
  }

  ghost predicate IsRun(states: seq<Images>, steps: seq<Step>) {
    |states| == |steps| + 1 && forall i | 0 <= i < |steps| :: StepTo(states[i], steps[i], states[i + 1])
  }

  lemma StepKeeps(m: Images, s: Step, n: Images)
    requires Ok(m) && StepTo(m, s, n)
    ensures Ok(n)
  {
    match s
    case Upload(id, isPrimary) =>
      if |m| < MaxImages && id !in m {
        var p :| NextPosition(m, p) && n == Uploaded(m, id, p, isPrimary);
        UploadKeeps(m, id, p, isPrimary);
      }
    case Delete(id) =>
      if id in m {
        DeleteKeeps(m, id, n);
      }
    case MakePrimary(id) =>
      if id in m {
        PromoteKeeps(m, id);
      }
    case Reorder(ids) =>
      if n != m {
        ReorderKeeps(m, ids);
      }
  }

  // At most 20 images, distinct positions and exactly one cover, in every state of every run.
  lemma {:induction false} RunKeeps(states: seq<Images>, steps: seq<Step>, i: nat)
    requires IsRun(states, steps) && Ok(states[0]) && i < |states|
    ensures Ok(states[i])
  {
    if i > 0 {
      RunKeeps(states, steps, i - 1);
      StepKeeps(states[i - 1], steps[i - 1], states[i]);
    }
  }

  // ---- albums ----

  datatype Album = Album(order: seq<ImageId>, cover: Option<ImageId>)

  predicate NoRepeats(ids: seq<ImageId>) {
    forall i, j | 0 <= i < j < |ids| :: ids[i] != ids[j]
  }

  predicate InOrder(m: Images, order: seq<ImageId>) {
    && Elems(order) == m.Keys && NoRepeats(order)
    && forall i, j | 0 <= i < j < |order| :: order[i] in m && order[j] in m && m[order[i]].position < m[order[j]].position
  }

  predicate Covered(m: Images, cover: Option<ImageId>) {
    (cover.Some? ==> cover.value in m) && forall a | a in m :: m[a].primary <==> cover == Some(a)
  }

  predicate Shows(m: Images, album: Album) {
    InOrder(m, album.order) && Covered(m, album.cover)
  }

  function Without(ids: seq<ImageId>, id: ImageId): (r: seq<ImageId>)
    ensures forall a :: a in r <==> a in ids && a != id
    ensures |r| <= |ids|
  {
    if ids == [] then [] else Without(ids[..|ids| - 1], id) + if ids[|ids| - 1] == id then [] else [ids[|ids| - 1]]
  }

  function FirstOf(ids: seq<ImageId>): Option<ImageId> {
    if ids == [] then None else Some(ids[0])
  }

  function AlbumNext(album: Album, s: Step): Album {
    match s
    case Upload(id, isPrimary) =>
      if |album.order| >= 20 || id in album.order then album
      else Album(album.order + [id], if isPrimary || album.cover.None? then Some(id) else album.cover)
    case Delete(id) =>
      var rest := Without(album.order, id);
      Album(rest, if album.cover == Some(id) then FirstOf(rest) else album.cover)
    case MakePrimary(id) => if id in album.order then album.(cover := Some(id)) else album
    case Reorder(ids) => if Elems(ids) == Elems(album.order) then Album(ids, FirstOf(ids)) else album
  }

  function AlbumAfter(album: Album, steps: seq<Step>): Album {
    if steps == [] then album else AlbumNext(AlbumAfter(album, steps[..|steps| - 1]), steps[|steps| - 1])
  }

  lemma {:induction false} OrderSize(order: seq<ImageId>)
    requires NoRepeats(order)
    ensures |Elems(order)| == |order|
  {
    if order != [] {
      var front := order[..|order| - 1];
      OrderSize(front);
      assert Elems(order) == Elems(front) + {order[|order| - 1]};
    }
  }

  lemma CoverOfOk(m: Images, album: Album)
    requires Ok(m) && Shows(m, album)
    ensures album.cover.None? <==> m == map[]
    ensures HasPrimary(m) <==> album.cover.Some?
    ensures |m| == |album.order|
  {
    OrderSize(album.order);
    assert |m| == |m.Keys|;
    if m != map[] {
      var a :| a in m && m[a].primary;
    }
  }

  lemma AppendOrder(m: Images, order: seq<ImageId>, id: ImageId, n: Images)
    requires InOrder(m, order) && id !in m && n.Keys == m.Keys + {id}
    requires forall a | a in m :: n[a].position == m[a].position < n[id].position
    ensures InOrder(n, order + [id])
  {
    var all := order + [id];
    assert Elems(all) == Elems(order) + {id};
    forall i, j | 0 <= i < j < |all| ensures all[i] != all[j] && n[all[i]].position < n[all[j]].position {
      assert all[i] == order[i] && order[i] in Elems(order);
      assert j < |order| ==> all[j] == order[j] && order[j] in Elems(order);
    }
  }

  lemma UploadCovers(m: Images, cover: Option<ImageId>, id: ImageId, isPrimary: bool, p: nat)
    requires Covered(m, cover) && id !in m && (HasPrimary(m) <==> cover.Some?)
    ensures Covered(Uploaded(m, id, p, isPrimary), if isPrimary || cover.None? then Some(id) else cover)
  {
  }

  lemma UploadShows(m: Images, album: Album, id: ImageId, isPrimary: bool, p: nat)
    requires Ok(m) && Shows(m, album) && |m| < MaxImages && id !in m && NextPosition(m, p)
    ensures Shows(Uploaded(m, id, p, isPrimary), Album(album.order + [id], if isPrimary || album.cover.None? then Some(id) else album.cover))
  {
    CoverOfOk(m, album);
    AppendOrder(m, album.order, id, Uploaded(m, id, p, isPrimary));
    UploadCovers(m, album.cover, id, isPrimary, p);
  }

  // ---- deletion ----

  lemma SameOrder(m: Images, order: seq<ImageId>, n: Images)
    requires InOrder(m, order) && n.Keys == m.Keys && forall a | a in m :: n[a].position == m[a].position
    ensures InOrder(n, order)
  {
  }

  predicate Ascending(m: Images, ids: seq<ImageId>) {
    forall i, j | 0 <= i < j < |ids| :: ids[i] in m && ids[j] in m && m[ids[i]].position < m[ids[j]].position
  }

  lemma {:induction false} WithoutKeepsOrder(m: Images, ids: seq<ImageId>, id: ImageId)
    requires Ascending(m, ids)
    ensures Ascending(m, Without(ids, id))
  {
    if ids != [] {
      var front, last := ids[..|ids| - 1], ids[|ids| - 1];
      WithoutKeepsOrder(m, front, id);
      var kept := Without(front, id);
      forall i | 0 <= i < |kept| ensures kept[i] in m && last in m && m[kept[i]].position < m[last].position {
        assert kept[i] in front;
        var k :| 0 <= k < |front| && front[k] == kept[i];
        assert ids[k] == kept[i];
      }
    }
  }

  lemma RestOrder(m: Images, order: seq<ImageId>, id: ImageId)
    requires InOrder(m, order) && id in m
    ensures InOrder(m - {id}, Without(order, id))
  {
    WithoutKeepsOrder(m, order, id);
    var rest := Without(order, id);
    forall a ensures a in Elems(rest) <==> a in m && a != id {
      assert a in order <==> a in Elems(order);
    }
    forall i, j | 0 <= i < j < |rest| ensures rest[i] != id && rest[j] != id && rest[i] != rest[j] {
      assert rest[i] in rest && rest[j] in rest;
    }
  }

  lemma FirstIsFirst(m: Images, order: seq<ImageId>, f: ImageId)
    requires InOrder(m, order) && IsFirst(m, f)
    ensures FirstOf(order) == Some(f)
  {
    assert f in Elems(order);
    var i :| 0 <= i < |order| && order[i] == f;
    assert order[0] in Elems(order);
  }

  lemma EmptyOrder(m: Images, order: seq<ImageId>)
    requires InOrder(m, order)
    ensures order == [] <==> m == map[]
  {
    if order != [] {
      assert order[0] in Elems(order);
    } else {
      assert m.Keys == {};
    }
  }

  lemma DeleteShows(m: Images, album: Album, id: ImageId, n: Images)
    requires Shows(m, album) && id in m && DeletedTo(m, id, n)
    ensures Shows(n, AlbumNext(album, Delete(id)))
  {
    RestOrder(m, album.order, id);
    SameOrder(m - {id}, Without(album.order, id), n);
    DeleteCovers(m, album.cover, id, n, Without(album.order, id));
  }

  lemma DeleteCovers(m: Images, cover: Option<ImageId>, id: ImageId, n: Images, order: seq<ImageId>)
    requires Covered(m, cover) && id in m && DeletedTo(m, id, n) && InOrder(m - {id}, order)
    ensures Covered(n, if cover == Some(id) then FirstOf(order) else cover)
  {
    var rest := m - {id};
    EmptyOrder(rest, order);
    if m[id].primary && rest != map[] {
      var f :| f in rest && IsFirst(rest, f) && n == rest[f := rest[f].(primary := true)];
      FirstIsFirst(rest, order, f);
    }
  }

  // ---- reordering ----

  lemma {:induction false} LastIndexOfOnly(ids: seq<ImageId>, i: nat)
    requires NoRepeats(ids) && i < |ids|
    ensures LastIndex(ids, ids[i]) == i
  {
    LastIndexIn(ids, ids[i]);
  }

  // Reordering by a list without repeats puts every image at its index and the first on the cover.
  lemma ReorderIsExact(m: Images, ids: seq<ImageId>)
    requires Elems(ids) == m.Keys && NoRepeats(ids)
    ensures var n := Reordered(m, ids);
            && (forall i | 0 <= i < |ids| :: ids[i] in n && n[ids[i]] == Image(i, i == 0))
            && Shows(n, Album(ids, FirstOf(ids)))
  {
    var n := Reordered(m, ids);
    forall i | 0 <= i < |ids| ensures ids[i] in n && n[ids[i]] == Image(i, i == 0) {
      assert ids[i] in Elems(ids);
      LastIndexOfOnly(ids, i);
    }
    assert n.Keys == m.Keys;
    forall a | a in n ensures n[a].primary <==> FirstOf(ids) == Some(a) {
      assert a in Elems(ids);
    }
    if ids != [] {
      assert ids[0] in Elems(ids);
    }
  }

  // A list of exactly the images puts each at its index if and only if it repeats none.
  lemma ReorderExact(m: Images, ids: seq<ImageId>)
    requires Elems(ids) == m.Keys
    ensures (forall i | 0 <= i < |ids| :: ids[i] in Reordered(m, ids) && Reordered(m, ids)[ids[i]].position == i) <==> NoRepeats(ids)
  {
    if NoRepeats(ids) {
      ReorderIsExact(m, ids);
    } else {
      var i, j :| 0 <= i < j < |ids| && ids[i] == ids[j];
      assert ids[i] in Elems(ids);
      LastIndexIn(ids, ids[i]);
      assert Reordered(m, ids)[ids[i]].position != i;
    }
  }

  // Such a list never makes a row write collide.
  lemma NoRepeatsNoCollision(m: Images, ids: seq<ImageId>, offset: nat)
    requires Elems(ids) == m.Keys && NoRepeats(ids) && IsOffset(m, offset)
    ensures !Collides(Shifted(m, offset), ids, |ids|)
  {
    OrderSize(ids);
    assert |m| == |m.Keys|;
    if ids != [] {
      assert ids[0] in Elems(ids);
    }
  }

  // A list that names an image often enough does collide although it names exactly the images:
  // the service function compares sets, and the repeats run past the shift. Its serializer keeps
  // such lists away.
  const TwoPhotos: Images := map[1 := Image(0, true), 2 := Image(1, false)]
  const ManyRepeats: seq<ImageId> := [1, 1, 1, 1, 1, 1, 2]

  lemma TwoPhotosAreOk()
    ensures Ok(TwoPhotos) && Elems(ManyRepeats) == TwoPhotos.Keys
  {
    var ids: seq<ImageId> := [1, 2];
    assert Elems(ids) == {1, 2} by {
      assert ids[0] == 1 && ids[1] == 2;
    }
    ListedAreOk(TwoPhotos, ids);
    assert ManyRepeats[0] == 1 && ManyRepeats[6] == 2;
  }

  lemma OffsetOfTwo()
    ensures IsOffset(TwoPhotos, 4)
  {
    assert TwoPhotos.Keys == {1, 2} && |TwoPhotos| == |TwoPhotos.Keys|;
    assert TwoPhotos[2].position + |TwoPhotos| + 1 == 4;
    assert TwoPhotos != map[];
  }

  lemma RepeatsCanCollide()
    ensures Ok(TwoPhotos) && Elems(ManyRepeats) == TwoPhotos.Keys && IsOffset(TwoPhotos, 4)
    ensures Collides(Shifted(TwoPhotos, 4), ManyRepeats, |ManyRepeats|)
  {
    TwoPhotosAreOk();
    OffsetOfTwo();
    assert forall i | 0 <= i < 6 :: ManyRepeats[..6][i] == 1;
    assert Shifted(TwoPhotos, 4)[2].position == 5;
    assert CollidesAt(Shifted(TwoPhotos, 4), ManyRepeats, 5);
  }

  // ---- every run shows the album of its steps ----

  predicate ListsWithoutRepeats(steps: seq<Step>) {
    forall s | s in steps :: s.Reorder? ==> NoRepeats(s.ids)
  }

  lemma StepShows(m: Images, s: Step, n: Images, album: Album)
    requires Ok(m) && Shows(m, album) && StepTo(m, s, n) && (s.Reorder? ==> NoRepeats(s.ids))
    ensures Shows(n, AlbumNext(album, s))
  {
    OrderHolds(m, album.order);
    match s
    case Upload(id, isPrimary) => UploadStepShows(m, id, isPrimary, n, album);
    case Delete(id) =>
      if id in m {
        DeleteShows(m, album, id, n);
      } else {
        WithoutAbsent(album.order, id);
      }
    case MakePrimary(id) =>
      if id in m {
        SameOrder(m, album.order, n);
      }
    case Reorder(ids) => ReorderShows(m, ids, n, album);
  }

  lemma UploadStepShows(m: Images, id: ImageId, isPrimary: bool, n: Images, album: Album)
    requires Ok(m) && Shows(m, album) && StepTo(m, Upload(id, isPrimary), n)
    ensures Shows(n, AlbumNext(album, Upload(id, isPrimary)))
  {
    CoverOfOk(m, album);
    OrderHolds(m, album.order);
    if |m| < MaxImages && id !in m {
      var p :| NextPosition(m, p) && n == Uploaded(m, id, p, isPrimary);
      UploadShows(m, album, id, isPrimary, p);
    }
  }

  lemma OrderHolds(m: Images, order: seq<ImageId>)
    requires InOrder(m, order)
    ensures forall a :: a in order <==> a in m
  {
    assert forall a :: a in order <==> a in Elems(order);
  }

  lemma ReorderShows(m: Images, ids: seq<ImageId>, n: Images, album: Album)
    requires Shows(m, album) && StepTo(m, Reorder(ids), n) && NoRepeats(ids)
    ensures Shows(n, AlbumNext(album, Reorder(ids)))
  {
    if Elems(ids) == m.Keys {
      var offset: nat :| IsOffset(m, offset) && n == if ReorderFails(m, ids, offset) then m else Reordered(m, ids);
      NoRepeatsNoCollision(m, ids, offset);
      ReorderIsExact(m, ids);
    }
  }

  lemma {:induction false} WithoutAbsent(ids: seq<ImageId>, id: ImageId)
    requires id !in ids
    ensures Without(ids, id) == ids
  {
    if ids != [] {
      WithoutAbsent(ids[..|ids| - 1], id);
    }
  }

  // Main result: after any run the photos are displayed in the order, and with the cover, that
  // the steps give on a plain list.
  lemma {:induction false} RunShows(states: seq<Images>, steps: seq<Step>, album: Album)
    requires IsRun(states, steps) && Ok(states[0]) && Shows(states[0], album) && ListsWithoutRepeats(steps)
    ensures Shows(states[|steps|], AlbumAfter(album, steps))
  {
    if steps != [] {
      var n := |steps| - 1;
      RunShows(states[..n + 1], steps[..n], album);
      RunKeeps(states, steps, n);
      StepShows(states[n], steps[n], states[n + 1], AlbumAfter(album, steps[..n]));
    }
  }
}
