// Lossless or marked: when a snapshot can be told from an exact copy.
module JsonLossless {
  import opened ExternalJson
  import opened JsonSnapshot

  // ---- payloads without a marker key of their own ----

  lemma {:induction false} PutKeepsOut(fields: seq<Field>, key: string, value: Json, out: string)
    requires !HasKey(fields, out) && key != out
    ensures !HasKey(Put(fields, key, value), out)
  {
    if fields != [] && fields[0].key != key {
      assert forall i | 0 <= i < |fields[1..]| :: fields[1..][i] == fields[i + 1];
      PutKeepsOut(fields[1..], key, value, out);
    }
  }

  // The dict loop writes no key that is neither a source key nor the item marker.
  lemma {:induction false} KeysStayOut(fields: seq<Field>, done: seq<Field>, depth: nat, lim: Limits, index: nat)
    requires KeysFit(fields, lim) && !HasKey(fields, "_truncated") && !HasKey(done, "_truncated")
    ensures !HasKey(CompactFields(fields, done, depth, lim, index), "_truncated")
    decreases |fields|
  {
    if fields != [] {
      if index >= lim.maxItems {
        PutKeepsOut(done, ItemsKey, Bool(true), "_truncated");
      } else {
        assert fields[0].key != "_truncated";
        assert forall i | 0 <= i < |fields[1..]| :: fields[1..][i] == fields[i + 1];
        var value := Compact(fields[0].value, depth + 1, lim);
        PutKeepsOut(done, fields[0].key, value, "_truncated");
        KeysStayOut(fields[1..], Put(done, fields[0].key, value), depth, lim, index + 1);
      }
    }
  }

  // Whatever is cut away or cut short leaves a marker the detector finds.
  lemma TruncationIsMarked(fields: seq<Field>, lim: Limits)
    requires KeysFit(fields, lim) && !HasKey(fields, "_truncated") && Truncates(Obj(fields), 0, lim)
    ensures Detects(Snapshot(Obj(fields), lim))
  {
    var compacted := Compact(Obj(fields), 0, lim);
    if Size(compacted) > lim.maxBytes {
      ShrinkFits(Size(compacted), DecodePrefix(Dumps(compacted), PreviewBytes(Size(compacted), lim)), lim);
    } else if lim.maxDepth > 0 {
      KeysStayOut(fields, [], 0, lim, 0);
      var marked := compacted.fields + [Marked];
      assert Snapshot(Obj(fields), lim) == Obj(marked) && marked[|compacted.fields|] == Marked;
    } else {
      assert compacted.fields[0] == Marked && HasKey(compacted.fields, "_truncated");
    }
  }

  // For a JSON object with short keys and no "_truncated" of its own at the top: a snapshot
  // without a marker is the payload itself.
  lemma UnmarkedSnapshotIsLossless(fields: seq<Field>, lim: Limits)
    requires Fits(Obj(fields), lim) && !HasKey(fields, "_truncated")
    ensures Detects(Snapshot(Obj(fields), lim)) || Snapshot(Obj(fields), lim) == Obj(fields)
  {
    var compacted := Compact(Obj(fields), 0, lim);
    if Truncates(Obj(fields), 0, lim) {
      TruncationIsMarked(fields, lim);
    } else if Size(compacted) > lim.maxBytes {
      ShrinkFits(Size(compacted), DecodePrefix(Dumps(compacted), PreviewBytes(Size(compacted), lim)), lim);
    } else {
      UntruncatedIsIdentity(Obj(fields), 0, lim);
    }
  }

  // So for a payload free of markers the detector tells lossy snapshots from exact ones.
  lemma DetectorIsExact(fields: seq<Field>, lim: Limits)
    requires Fits(Obj(fields), lim) && !HasKey(fields, "_truncated") && !Detects(Obj(fields))
    ensures Detects(Snapshot(Obj(fields), lim)) <==> Snapshot(Obj(fields), lim) != Obj(fields)
  {
    UnmarkedSnapshotIsLossless(fields, lim);
  }

  // ---- what a compacted dict holds ----

  // Keys are cut before they are written, so distinct keys may meet.
  function CutEach(fields: seq<Field>, depth: nat, lim: Limits): (r: seq<Field>)
    ensures |r| == |fields|
    ensures forall i | 0 <= i < |fields| ::
              r[i] == Field(Prefix(fields[i].key, lim.maxChars), Compact(fields[i].value, depth + 1, lim))
  {
    if fields == [] then []
    else [Field(Prefix(fields[0].key, lim.maxChars), Compact(fields[0].value, depth + 1, lim))] + CutEach(fields[1..], depth, lim)
  }

  // Assignments one after another to an empty dict.
  function Assigned(entries: seq<Field>): seq<Field> {
    if entries == [] then []
    else Put(Assigned(entries[..|entries| - 1]), entries[|entries| - 1].key, entries[|entries| - 1].value)
  }

  lemma AssignedNext(entries: seq<Field>, f: Field)
    ensures Assigned(entries + [f]) == Put(Assigned(entries), f.key, f.value)
  {
    assert (entries + [f])[..|entries|] == entries;
  }

  predicate Joins(all: seq<Field>, a: seq<Field>, b: seq<Field>) {
    all == a + b
  }

  // `all` is what was assigned before followed by the fields still to be kept.
  ghost predicate Follows(all: seq<Field>, before: seq<Field>, fields: seq<Field>, depth: nat, lim: Limits, n: nat) {
    forall each | each == CutEach(Kept(fields, n), depth, lim) :: Joins(all, before, each)
  }

  lemma NothingFollows(all: seq<Field>, before: seq<Field>, fields: seq<Field>, depth: nat, lim: Limits, n: nat)
    requires Follows(all, before, fields, depth, lim, n) && (fields == [] || n == 0)
    ensures all == before
  {
    assert Joins(all, before, CutEach(Kept(fields, n), depth, lim));
  }

  // One round of the loop.
  lemma NextFollows(all: seq<Field>, before: seq<Field>, fields: seq<Field>, depth: nat, lim: Limits, n: nat) returns (f: Field)
    requires Follows(all, before, fields, depth, lim, n) && fields != [] && n > 0
    ensures f == Field(Prefix(fields[0].key, lim.maxChars), Compact(fields[0].value, depth + 1, lim))
    ensures Follows(all, before + [f], fields[1..], depth, lim, n - 1)
  {
    f := Field(Prefix(fields[0].key, lim.maxChars), Compact(fields[0].value, depth + 1, lim));
    assert Joins(all, before, CutEach(Kept(fields, n), depth, lim));
    HeadOfKept(fields, n);
    AppendInFront(before, f, CutEach(Kept(fields[1..], n - 1), depth, lim));
  }

  lemma {:induction false} FieldsAreAssigned(all: seq<Field>, before: seq<Field>, fields: seq<Field>, depth: nat, lim: Limits, index: nat)
    requires index <= lim.maxItems && Follows(all, before, fields, depth, lim, lim.maxItems - index)
    ensures CompactFields(fields, Assigned(before), depth, lim, index) == WithItemsMark(Assigned(all), |fields| > lim.maxItems - index)
    decreases |fields|
  {
    if fields == [] || index >= lim.maxItems {
      NothingFollows(all, before, fields, depth, lim, lim.maxItems - index);
    } else {
      var f := NextFollows(all, before, fields, depth, lim, lim.maxItems - index);
      AssignedNext(before, f);
      FieldsAreAssigned(all, before + [f], fields[1..], depth, lim, index + 1);
    }
  }

  // The dict loop, whatever the keys are.
  lemma {:induction false} DictIsAssigned(fields: seq<Field>, depth: nat, lim: Limits)
    ensures CompactFields(fields, [], depth, lim)
            == WithItemsMark(Assigned(CutEach(Kept(fields, lim.maxItems), depth, lim)), |fields| > lim.maxItems)
  {
    var each := CutEach(Kept(fields, lim.maxItems), depth, lim);
    EmptyInFront(each);
    FieldsAreAssigned(each, [], fields, depth, lim, 0);
  }

  lemma EmptyInFront<T>(xs: seq<T>)
    ensures [] + xs == xs
  {
  }

  lemma {:induction false} PutMembers(fields: seq<Field>, key: string, value: Json)
    requires UniqueKeys(fields)
    ensures UniqueKeys(Put(fields, key, value))
    ensures forall f :: f in Put(fields, key, value) <==> f == Field(key, value) || (f in fields && f.key != key)
  {
    if fields != [] {
      var rest := fields[1..];
      assert fields == [fields[0]] + rest;
      assert forall f | f in rest :: f.key != fields[0].key;
      if fields[0].key != key {
        assert forall i | 0 <= i < |rest| :: rest[i] == fields[i + 1];
        PutMembers(rest, key, value);
        UniqueInFront(fields[0], Put(rest, key, value));
      } else {
        UniqueInFront(Field(key, value), rest);
      }
    }
  }

  lemma UniqueInFront(f: Field, rest: seq<Field>)
    requires forall i, j | 0 <= i < j < |rest| :: rest[i].key != rest[j].key
    requires forall g | g in rest :: g.key != f.key
    ensures UniqueKeys([f] + rest)
  {
  }

  predicate LastOfKey(entries: seq<Field>, i: nat)
    requires i < |entries|
  {
    forall j | i < j < |entries| :: entries[j].key != entries[i].key
  }

  // Of the assignments to one key the last one stays.
  lemma {:induction false} AssignedMembers(entries: seq<Field>, f: Field)
    ensures UniqueKeys(Assigned(entries))
    ensures f in Assigned(entries) <==> exists i | 0 <= i < |entries| :: entries[i] == f && LastOfKey(entries, i)
  {
    if entries != [] {
      var front, last := entries[..|entries| - 1], entries[|entries| - 1];
      AssignedMembers(front, f);
      PutMembers(Assigned(front), last.key, last.value);
      if f == last {
        assert LastOfKey(entries, |entries| - 1);
      } else {
        forall i | 0 <= i < |front| ensures entries[i] == front[i] && (LastOfKey(entries, i) <==> LastOfKey(front, i) && front[i].key != last.key) {
          LastOfMore(front, last, i);
          assert entries == front + [last];
        }
      }
    }
  }

  lemma LastOfMore(front: seq<Field>, last: Field, i: nat)
    requires i < |front|
    ensures LastOfKey(front + [last], i) <==> LastOfKey(front, i) && front[i].key != last.key
  {
    var entries := front + [last];
    assert forall j | 0 <= j < |front| :: entries[j] == front[j];
    assert entries[|front|] == last;
  }

  lemma MarkMembers(fields: seq<Field>, more: bool, f: Field)
    requires UniqueKeys(fields)
    ensures f in WithItemsMark(fields, more)
            <==> (more && f == Field(ItemsKey, Bool(true))) || (f in fields && !(more && f.key == ItemsKey))
  {
    PutMembers(fields, ItemsKey, Bool(true));
  }

  // ---- exactly when the detector finds a marker ----

  function CutKey(fields: seq<Field>, i: nat, lim: Limits): string
    requires i < |fields|
  {
    Prefix(fields[i].key, lim.maxChars)
  }

  // The field is among the first ones, no later one of them has the same key after cutting, and
  // the item marker does not take its place.
  predicate Stays(fields: seq<Field>, i: nat, lim: Limits)
    requires i < |fields|
  {
    && i < lim.maxItems
    && (forall j | i < j < |fields| && j < lim.maxItems :: CutKey(fields, j, lim) != CutKey(fields, i, lim))
    && !(|fields| > lim.maxItems && CutKey(fields, i, lim) == ItemsKey)
  }

  // The value has a marker that compaction keeps or makes by cutting a key, or it is cut where a
  // nested marker is left: too deep, or in a list. Cut texts and long dicts leave none.
  predicate Carries(item: Json, depth: nat, lim: Limits) {
    depth >= lim.maxDepth ||
    match item
    case Obj(fields) =>
      exists i | 0 <= i < |fields| ::
        Stays(fields, i, lim)
        && ((CutKey(fields, i, lim) == "_truncated" && fields[i].value == Bool(true)) || Carries(fields[i].value, depth + 1, lim))
    case Arr(items) =>
      |items| > lim.maxItems || exists i | 0 <= i < |items| :: i < lim.maxItems && Carries(items[i], depth + 1, lim)
    case _ => false
  }

  predicate ShowsMark(f: Field) {
    f == Marked || Detects(f.value)
  }

  lemma DetectsAField(fields: seq<Field>)
    ensures Detects(Obj(fields)) <==> exists f | f in fields :: ShowsMark(f)
  {
    if Detects(Obj(fields)) {
      var i :| 0 <= i < |fields| && (fields[i] == Marked || Detects(fields[i].value));
      assert ShowsMark(fields[i]);
    }
  }

  lemma StaysIfLast(fields: seq<Field>, depth: nat, lim: Limits, i: nat)
    requires i < |Kept(fields, lim.maxItems)|
    ensures LastOfKey(CutEach(Kept(fields, lim.maxItems), depth, lim), i) && !(|fields| > lim.maxItems && CutKey(fields, i, lim) == ItemsKey)
            <==> Stays(fields, i, lim)
  {
    var each := CutEach(Kept(fields, lim.maxItems), depth, lim);
    assert forall j | 0 <= j < |each| :: each[j].key == CutKey(fields, j, lim);
  }

  lemma {:induction false} CompactedFieldStays(fields: seq<Field>, depth: nat, lim: Limits, i: nat)
    requires i < |fields| && Stays(fields, i, lim)
    ensures Field(CutKey(fields, i, lim), Compact(fields[i].value, depth + 1, lim)) in CompactFields(fields, [], depth, lim)
  {
    var each := CutEach(Kept(fields, lim.maxItems), depth, lim);
    DictIsAssigned(fields, depth, lim);
    StaysIfLast(fields, depth, lim, i);
    AssignedMembers(each, each[i]);
    MarkMembers(Assigned(each), |fields| > lim.maxItems, each[i]);
  }

  lemma {:induction false} CompactedFieldStayed(fields: seq<Field>, depth: nat, lim: Limits, f: Field) returns (i: nat)
    requires f in CompactFields(fields, [], depth, lim) && f != Field(ItemsKey, Bool(true))
    ensures i < |fields| && Stays(fields, i, lim) && f == Field(CutKey(fields, i, lim), Compact(fields[i].value, depth + 1, lim))
  {
    var each := CutEach(Kept(fields, lim.maxItems), depth, lim);
    DictIsAssigned(fields, depth, lim);
    AssignedMembers(each, f);
    MarkMembers(Assigned(each), |fields| > lim.maxItems, f);
    i :| 0 <= i < |each| && each[i] == f && LastOfKey(each, i);
    StaysIfLast(fields, depth, lim, i);
  }

  lemma {:induction false} CompactCarries(item: Json, depth: nat, lim: Limits)
    ensures Detects(Compact(item, depth, lim)) <==> Carries(item, depth, lim)
    decreases item, 1
  {
    if depth >= lim.maxDepth {
      assert DepthMarker.fields[0] == Marked;
    } else {
      match item
      case Obj(_) => CompactDictCarries(item, depth, lim);
      case Arr(_) => CompactListCarries(item, depth, lim);
      case _ =>
    }
  }

  lemma MarkedFieldShows(f: Field, depth: nat, lim: Limits, key: string)
    requires Detects(Compact(f.value, depth, lim)) <==> Carries(f.value, depth, lim)
    ensures ShowsMark(Field(key, Compact(f.value, depth, lim)))
            <==> (key == "_truncated" && f.value == Bool(true)) || Carries(f.value, depth, lim)
  {
    if depth >= lim.maxDepth {
      assert Carries(f.value, depth, lim);
    }
  }

  lemma {:induction false} CompactDictCarries(item: Json, depth: nat, lim: Limits)
    requires item.Obj? && depth < lim.maxDepth
    ensures Detects(Compact(item, depth, lim)) <==> Carries(item, depth, lim)
    decreases item, 0
  {
    var fields := item.fields;
    var compacted := CompactFields(fields, [], depth, lim);
    forall i | 0 <= i < |fields|
      ensures ShowsMark(Field(CutKey(fields, i, lim), Compact(fields[i].value, depth + 1, lim)))
              <==> (CutKey(fields, i, lim) == "_truncated" && fields[i].value == Bool(true)) || Carries(fields[i].value, depth + 1, lim)
    {
      CompactCarries(fields[i].value, depth + 1, lim);
      MarkedFieldShows(fields[i], depth + 1, lim, CutKey(fields, i, lim));
    }
    DetectsAField(compacted);
    if f :| f in compacted && ShowsMark(f) {
      var i := CompactedFieldStayed(fields, depth, lim, f);
    }
    forall i | 0 <= i < |fields| && Stays(fields, i, lim)
      ensures Field(CutKey(fields, i, lim), Compact(fields[i].value, depth + 1, lim)) in compacted
    {
      CompactedFieldStays(fields, depth, lim, i);
    }
  }

  lemma {:induction false} CompactListCarries(item: Json, depth: nat, lim: Limits)
    requires item.Arr? && depth < lim.maxDepth
    ensures Detects(Compact(item, depth, lim)) <==> Carries(item, depth, lim)
    decreases item, 0
  {
    var items := item.items;
    var kept := Kept(items, lim.maxItems);
    var result := Compact(item, depth, lim).items;
    forall i | 0 <= i < |kept| ensures Detects(result[i]) <==> Carries(items[i], depth + 1, lim) {
      CompactItemsAt(kept, depth, lim, i);
      CompactCarries(items[i], depth + 1, lim);
    }
    if |items| > lim.maxItems {
      assert ListMarker.fields[0] == Marked;
      assert result[|kept|] == ListMarker;
    }
  }

  // A top-level key of the payload's own that is, or is cut to, "_truncated", among the fields kept.
  predicate OwnMarkerKey(fields: seq<Field>, lim: Limits) {
    exists i | 0 <= i < |fields| :: i < lim.maxItems && CutKey(fields, i, lim) == "_truncated"
  }

  lemma {:induction false} PutHasKey(fields: seq<Field>, key: string, value: Json, k: string)
    ensures HasKey(Put(fields, key, value), k) <==> k == key || HasKey(fields, k)
  {
    if fields == [] {
      assert Put(fields, key, value)[0].key == key;
    } else if fields[0].key == key {
      assert Put(fields, key, value)[0].key == key;
      assert forall i | 0 < i < |fields| :: Put(fields, key, value)[i] == fields[i];
    } else {
      var rest := fields[1..];
      PutHasKey(rest, key, value, k);
      HasKeyInFront(fields[0], rest, k);
      HasKeyInFront(fields[0], Put(rest, key, value), k);
      assert [fields[0]] + rest == fields;
    }
  }

  lemma HasKeyInFront(f: Field, rest: seq<Field>, k: string)
    ensures HasKey([f] + rest, k) <==> f.key == k || HasKey(rest, k)
  {
    var all := [f] + rest;
    assert all[0] == f;
    assert forall i | 0 <= i < |rest| :: all[i + 1] == rest[i];
  }

  lemma {:induction false} AssignedKeys(entries: seq<Field>, k: string)
    ensures HasKey(Assigned(entries), k) <==> HasKey(entries, k)
  {
    if entries != [] {
      var front, last := entries[..|entries| - 1], entries[|entries| - 1];
      AssignedKeys(front, k);
      PutHasKey(Assigned(front), last.key, last.value, k);
      assert forall i | 0 <= i < |front| :: entries[i] == front[i];
    }
  }

  lemma KeepsOwnMarkerKey(fields: seq<Field>, lim: Limits)
    ensures HasKey(CompactFields(fields, [], 0, lim), "_truncated") <==> OwnMarkerKey(fields, lim)
  {
    var each := CutEach(Kept(fields, lim.maxItems), 0, lim);
    DictIsAssigned(fields, 0, lim);
    AssignedKeys(each, "_truncated");
    PutHasKey(Assigned(each), ItemsKey, Bool(true), "_truncated");
    assert forall i | 0 <= i < |each| :: each[i].key == CutKey(fields, i, lim);
  }

  // The late top-level marker: the payload is a dict, something was cut, and no key of its own
  // keeps the marker out.
  predicate MarkedLate(payload: Json, lim: Limits) {
    payload.Obj? && Truncates(payload, 0, lim) && !OwnMarkerKey(payload.fields, lim)
  }

  // Main result: of any payload the detector finds the snapshot marked if and only if the byte
  // limit is exceeded, the late marker is written or the compaction carries one.
  lemma SnapshotIsMarkedExactly(payload: Json, lim: Limits)
    ensures Detects(Snapshot(payload, lim))
            <==> Size(Compact(payload, 0, lim)) > lim.maxBytes || MarkedLate(payload, lim) || Carries(payload, 0, lim)
  {
    var compacted := Compact(payload, 0, lim);
    CompactCarries(payload, 0, lim);
    if Size(compacted) > lim.maxBytes {
      ShrinkFits(Size(compacted), DecodePrefix(Dumps(compacted), PreviewBytes(Size(compacted), lim)), lim);
    } else if lim.maxDepth == 0 {
      assert compacted.fields[0] == Marked && HasKey(compacted.fields, "_truncated");
    } else if payload.Obj? {
      KeepsOwnMarkerKey(payload.fields, lim);
      LateMarkerShows(compacted.fields);
    }
  }

  lemma LateMarkerShows(fields: seq<Field>)
    ensures Detects(Obj(SetDefault(fields, "_truncated", Bool(true)))) <==> Detects(Obj(fields)) || !HasKey(fields, "_truncated")
  {
    if !HasKey(fields, "_truncated") {
      assert (fields + [Marked])[|fields|] == Marked;
    }
  }

  // In particular for a dict that is cut.
  lemma CutIsMarkedExactly(fields: seq<Field>, lim: Limits)
    requires Truncates(Obj(fields), 0, lim)
    ensures Detects(Snapshot(Obj(fields), lim))
            <==> Size(Compact(Obj(fields), 0, lim)) > lim.maxBytes || !OwnMarkerKey(fields, lim) || Carries(Obj(fields), 0, lim)
  {
    SnapshotIsMarkedExactly(Obj(fields), lim);
  }

  // Without a cut and within the byte limit: the snapshot is the payload if and only if no key
  // anywhere in it is too long.
  lemma UncutSnapshotExact(payload: Json, lim: Limits)
    requires DistinctKeys(payload) && !Truncates(payload, 0, lim) && Size(Compact(payload, 0, lim)) <= lim.maxBytes
    ensures Snapshot(payload, lim) == payload <==> Fits(payload, lim)
  {
    UnflaggedIdentityExact(payload, 0, lim);
  }

  // ---- both failures happen ----

  lemma LongKeyIsCutSilently(key: string, lim: Limits)
    requires |key| > lim.maxChars && lim.maxDepth >= 2 && lim.maxItems >= 1
    requires Size(Obj([Field(key[..lim.maxChars], Null)])) <= lim.maxBytes
    ensures Snapshot(Obj([Field(key, Null)]), lim) == Obj([Field(key[..lim.maxChars], Null)])
    ensures !Detects(Snapshot(Obj([Field(key, Null)]), lim))
  {
    var fields := [Field(key, Null)];
    assert fields[1..] == [] && Compact(Null, 1, lim) == Null && !Truncates(Null, 1, lim);
    assert !Truncates(Obj(fields), 0, lim);
    assert Put([], Prefix(key, lim.maxChars), Null) == [Field(key[..lim.maxChars], Null)];
    assert CompactFields(fields, [], 0, lim) == CompactFields(fields[1..], [Field(key[..lim.maxChars], Null)], 0, lim, 1);
  }

  function HiddenCut(text: string): Json {
    Obj([Field("_truncated", Bool(false)), Field("text", Str(text))])
  }

  // An own "_truncated" beside a text that is too long, under any limits that have room for both.
  lemma OwnMarkerKeyHidesCut(text: string, lim: Limits)
    requires lim.maxDepth >= 2 && lim.maxItems >= 2 && lim.maxChars >= 10 && |text| > lim.maxChars
    requires Size(HiddenCut(ClipText(text, lim))) <= lim.maxBytes
    ensures Snapshot(HiddenCut(text), lim) == HiddenCut(ClipText(text, lim)) && !Detects(Snapshot(HiddenCut(text), lim))
  {
    var fields, cut := HiddenCut(text).fields, HiddenCut(ClipText(text, lim)).fields;
    assert Compact(Bool(false), 1, lim) == Bool(false) && Compact(Str(text), 1, lim) == Str(ClipText(text, lim));
    assert Truncates(fields[1].value, 1, lim);
    DictClosed(fields, 0, lim);
    assert CompactEach(fields, 0, lim) == cut;
    assert cut[0].key == "_truncated" && HasKey(cut, "_truncated");
    assert !Detects(Bool(false)) && !Detects(Str(ClipText(text, lim)));
  }

  // The limits of the default configuration.
  const DefaultLimits := Limits(65536, 8, 100, 4000)

  function Repeat(c: char, n: nat): (s: string)
    ensures |s| == n && forall i | 0 <= i < n :: s[i] == c
  {
    seq(n, i requires 0 <= i < n => c)
  }

  lemma FalseBytes()
    ensures ByteLen("false") == 5
  {
    AsciiByteLen("false");
  }

  lemma OwnMarkerSize()
    ensures Size(Obj([Field("_truncated", Bool(false))])) == 21
  {
    FieldBytes(Field("_truncated", Bool(false)));
    MarkerKeyBytes();
    FalseBytes();
    OneFieldSize(Field("_truncated", Bool(false)));
  }

  lemma TextFieldSize(text: string)
    requires forall i | 0 <= i < |text| :: Plain(text[i])
    ensures ByteLen(DumpField(Field("text", Str(text)))) == |text| + 10
  {
    FieldBytes(Field("text", Str(text)));
    PlainKeyBytes("text");
    PlainTextSize(text);
  }

  lemma HiddenCutSize(text: string)
    requires forall i | 0 <= i < |text| :: Plain(text[i])
    ensures Size(HiddenCut(text)) == |text| + 33
  {
    var own, rest := Field("_truncated", Bool(false)), Field("text", Str(text));
    OwnMarkerSize();
    TextFieldSize(text);
    assert [own] + [rest] == HiddenCut(text).fields;
    SizeWithField([own], rest);
  }

  // So under the default limits a text of 4001 letters is cut without a marker.
  lemma DefaultLimitsHideACut()
    ensures var payload := HiddenCut(Repeat('x', 4001));
            Snapshot(payload, DefaultLimits) != payload && !Detects(Snapshot(payload, DefaultLimits))
  {
    var text := Repeat('x', 4001);
    var cut := ClipText(text, DefaultLimits);
    assert cut == text[..4000] + Ellipsis && |cut| == 4014;
    assert forall i | 0 <= i < |Ellipsis| :: Plain(Ellipsis[i]);
    HiddenCutSize(cut);
    OwnMarkerKeyHidesCut(text, DefaultLimits);
  }
}
