// Bounded diagnostic snapshots (apps/common/external_json.py) and the detector of their
// markers (apps/orchestrator/job_services.py).
module ExternalJson {

  // Objects keep insertion order. A number is its JSON text; `Foreign` is a value of any other
  // type, known by its text form.
  datatype Json =
    | Null
    | Bool(b: bool)
    | Num(text: string)
    | Str(s: string)
    | Arr(items: seq<Json>)
    | Obj(fields: seq<Field>)
    | Foreign(text: string)

  datatype Field = Field(key: string, value: Json)

  datatype Limits = Limits(maxBytes: nat, maxDepth: nat, maxItems: nat, maxChars: nat)

  // ---- dictionaries ----

  predicate HasKey(fields: seq<Field>, key: string) {
    exists i | 0 <= i < |fields| :: fields[i].key == key
  }

  // Assignment to a key: in place when it exists, at the end otherwise.
  function Put(fields: seq<Field>, key: string, value: Json): seq<Field> {
    if fields == [] then [Field(key, value)]
    else if fields[0].key == key then [Field(key, value)] + fields[1..]
    else [fields[0]] + Put(fields[1..], key, value)
  }

  function SetDefault(fields: seq<Field>, key: string, value: Json): seq<Field> {
    if HasKey(fields, key) then fields else fields + [Field(key, value)]
  }

  lemma {:induction false} PutNewAppends(fields: seq<Field>, key: string, value: Json)
    requires !HasKey(fields, key)
    ensures Put(fields, key, value) == fields + [Field(key, value)]
  {
    if fields != [] {
      assert fields[0].key != key;
      forall i | 0 <= i < |fields[1..]| ensures fields[1..][i].key != key {
        assert fields[1..][i] == fields[i + 1];
      }
      PutNewAppends(fields[1..], key, value);
    }
  }

  // ---- compaction ----

  const Marked := Field("_truncated", Bool(true))
  const DepthMarker := Obj([Marked, Field("_reason", Str("maximum nesting depth reached"))])
  const ListMarker := Obj([Marked, Field("_reason", Str("maximum list length reached"))])
  const ItemsKey := "_truncated_items"
  const Ellipsis := "...[truncated]"

  function Prefix(s: string, n: nat): string {
    if |s| <= n then s else s[..n]
  }

  function ClipText(s: string, lim: Limits): string {
    if |s| > lim.maxChars then s[..lim.maxChars] + Ellipsis else s
  }

  // What `compact` returns.
  function Compact(item: Json, depth: nat, lim: Limits): Json
    decreases item, 2
  {
    if depth >= lim.maxDepth then DepthMarker
    else
      match item
      case Obj(fields) => Obj(CompactFields(fields, [], depth, lim))
      case Arr(items) =>
        Arr(CompactItems(if |items| <= lim.maxItems then items else items[..lim.maxItems], depth, lim)
            + if |items| <= lim.maxItems then [] else [ListMarker])
      case Str(s) => Str(ClipText(s, lim))
      case Foreign(s) => Str(ClipText(s, lim))
      case _ => item
  }

  // The dict loop: `done` is what has been written, one source field per earlier iteration.
  function CompactFields(fields: seq<Field>, done: seq<Field>, depth: nat, lim: Limits, index: nat := 0): seq<Field>
    decreases fields, 1
  {
    if fields == [] then done
    else if index >= lim.maxItems then Put(done, ItemsKey, Bool(true))
    else
      CompactFields(fields[1..],
                    Put(done, Prefix(fields[0].key, lim.maxChars), Compact(fields[0].value, depth + 1, lim)),
                    depth, lim, index + 1)
  }

  function CompactItems(items: seq<Json>, depth: nat, lim: Limits): (r: seq<Json>)
    ensures |r| == |items|
    decreases items, 1
  {
    if items == [] then [] else [Compact(items[0], depth + 1, lim)] + CompactItems(items[1..], depth, lim)
  }

  // Whether `compact` raises the was_truncated flag. Cutting a long key does not raise it.
  predicate Truncates(item: Json, depth: nat, lim: Limits) {
    depth >= lim.maxDepth ||
    match item
    case Obj(fields) =>
      |fields| > lim.maxItems || exists i | 0 <= i < |fields| :: i < lim.maxItems && Truncates(fields[i].value, depth + 1, lim)
    case Arr(items) =>
      |items| > lim.maxItems || exists i | 0 <= i < |items| :: i < lim.maxItems && Truncates(items[i], depth + 1, lim)
    case Str(s) => |s| > lim.maxChars
    case Foreign(s) => |s| > lim.maxChars
    case _ => false
  }

  // The nested function with its nonlocal flag.
  class Compactor {
    const lim: Limits
    var wasTruncated: bool

    constructor (lim: Limits)
      ensures this.lim == lim && !wasTruncated
    {
      this.lim, wasTruncated := lim, false;
    }

    method Clip(s: string) returns (r: Json)
      modifies this
      ensures r == Str(ClipText(s, lim)) && wasTruncated == (old(wasTruncated) || |s| > lim.maxChars)
    {
      if |s| > lim.maxChars {
        wasTruncated := true;
        return Str(s[..lim.maxChars] + Ellipsis);
      }
      r := Str(s);
    }

    method CompactValue(item: Json, depth: nat) returns (r: Json)
      modifies this
      ensures r == Compact(item, depth, lim)
      ensures wasTruncated == (old(wasTruncated) || Truncates(item, depth, lim))
      decreases item, 1
    {
      if depth >= lim.maxDepth {
        wasTruncated := true;
        return DepthMarker;
      }
      match item {
        case Obj(fields) =>
          var result := CompactDict(item, depth);
          r := Obj(result);
        case Arr(items) =>
          var result := CompactList(item, depth);
          r := Arr(result);
        case Str(s) => r := Clip(s);
        case Foreign(s) => r := Clip(s);
        case _ => r := item;
      }
    }

    method CompactDict(item: Json, depth: nat) returns (result: seq<Field>)
      requires item.Obj? && depth < lim.maxDepth
      modifies this
      ensures result == CompactFields(item.fields, [], depth, lim)
      ensures wasTruncated == (old(wasTruncated) || Truncates(item, depth, lim))
      decreases item, 0
    {
      var fields := item.fields;
      result := [];
      var index := 0;
      assert fields[0..] == fields;
      while index < |fields|
        invariant index <= |fields| && index <= lim.maxItems
        invariant CompactFields(fields, [], depth, lim) == CompactFields(fields[index..], result, depth, lim, index)
        invariant wasTruncated == (old(wasTruncated) || exists i | 0 <= i < index :: Truncates(fields[i].value, depth + 1, lim))
      {
        if index >= lim.maxItems {
          wasTruncated := true;
          result := Put(result, ItemsKey, Bool(true));
          return;
        }
        var value := CompactValue(fields[index].value, depth + 1);
        result := Put(result, Prefix(fields[index].key, lim.maxChars), value);
        assert fields[index..][1..] == fields[index + 1..];
        index := index + 1;
      }
    }

    method CompactList(item: Json, depth: nat) returns (result: seq<Json>)
      requires item.Arr? && depth < lim.maxDepth
      modifies this
      ensures Arr(result) == Compact(item, depth, lim)
      ensures wasTruncated == (old(wasTruncated) || Truncates(item, depth, lim))
      decreases item, 0
    {
      var items := item.items;
      result := [];
      var index := 0;
      while index < |items|
        invariant index <= |items| && index <= lim.maxItems
        invariant |result| == index && forall i | 0 <= i < index :: result[i] == Compact(items[i], depth + 1, lim)
        invariant wasTruncated == (old(wasTruncated) || exists i | 0 <= i < index :: Truncates(items[i], depth + 1, lim))
      {
        if index >= lim.maxItems {
          wasTruncated := true;
          ItemByItem(items[..index], result, depth, lim);
          result := result + [ListMarker];
          return;
        }
        var value := CompactValue(items[index], depth + 1);
        result := result + [value];
        index := index + 1;
      }
      ItemByItem(items, result, depth, lim);
      assert result + [] == result;
    }
  }

  lemma {:induction false} ItemByItem(items: seq<Json>, result: seq<Json>, depth: nat, lim: Limits)
    requires |result| == |items| && forall i | 0 <= i < |items| :: result[i] == Compact(items[i], depth + 1, lim)
    ensures result == CompactItems(items, depth, lim)
  {
    if items != [] {
      ItemByItem(items[1..], result[1..], depth, lim);
    }
  }

  // ---- what a cut looks like ----

  // A text that is too long keeps its beginning and says that it was cut.
  lemma CutTextSays(s: string, depth: nat, lim: Limits)
    requires depth < lim.maxDepth
    ensures Compact(Str(s), depth, lim).Str? && Compact(Foreign(s), depth, lim) == Compact(Str(s), depth, lim)
    ensures var cut := Compact(Str(s), depth, lim).s;
            if |s| <= lim.maxChars then cut == s
            else
              && |cut| == lim.maxChars + 14 && cut[..lim.maxChars] == s[..lim.maxChars]
              && cut[lim.maxChars..] == "...[truncated]"
  {
  }

  // A list that is too long keeps its first values, each compacted, and then says so.
  lemma CutListSays(items: seq<Json>, depth: nat, lim: Limits)
    requires depth < lim.maxDepth
    ensures Compact(Arr(items), depth, lim).Arr?
    ensures var cut, n := Compact(Arr(items), depth, lim).items, if |items| <= lim.maxItems then |items| else lim.maxItems;
            && |cut| == (if |items| <= lim.maxItems then |items| else lim.maxItems + 1)
            && (forall i | 0 <= i < n :: cut[i] == Compact(items[i], depth + 1, lim))
            && (|items| > lim.maxItems ==>
                  cut[lim.maxItems] == Obj([Field("_truncated", Bool(true)), Field("_reason", Str("maximum list length reached"))]))
  {
    var kept := if |items| <= lim.maxItems then items else items[..lim.maxItems];
    forall i | 0 <= i < |kept| ensures CompactItems(kept, depth, lim)[i] == Compact(items[i], depth + 1, lim) {
      CompactItemsAt(kept, depth, lim, i);
    }
  }

  // A dict that is too long keeps its first fields, each compacted, and then says so; keys that
  // are too long or in use for that are told apart by AssignedMembers.
  lemma CutDictSays(fields: seq<Field>, depth: nat, lim: Limits)
    requires depth < lim.maxDepth && UniqueKeys(fields) && KeysFit(fields, lim) && !HasKey(fields, "_truncated_items")
    ensures Compact(Obj(fields), depth, lim).Obj?
    ensures var cut, n := Compact(Obj(fields), depth, lim).fields, if |fields| <= lim.maxItems then |fields| else lim.maxItems;
            && |cut| == (if |fields| <= lim.maxItems then |fields| else lim.maxItems + 1)
            && (forall i | 0 <= i < n :: cut[i] == Field(fields[i].key, Compact(fields[i].value, depth + 1, lim)))
            && (|fields| > lim.maxItems ==> cut[lim.maxItems] == Field("_truncated_items", Bool(true)))
  {
    var kept := Kept(fields, lim.maxItems);
    var each := CompactEach(kept, depth, lim);
    DictClosed(fields, depth, lim);
    forall i | 0 <= i < |each| ensures each[i].key != "_truncated_items" {
      assert each[i].key == fields[i].key;
    }
    PutNewAppends(each, ItemsKey, Bool(true));
  }

  lemma TooDeepSays(item: Json, depth: nat, lim: Limits)
    requires depth >= lim.maxDepth
    ensures Compact(item, depth, lim) == Obj([Field("_truncated", Bool(true)), Field("_reason", Str("maximum nesting depth reached"))])
  {
  }

  // ---- compaction is the identity unless it raises the flag ----

  predicate UniqueKeys(fields: seq<Field>) {
    forall i, j | 0 <= i < j < |fields| :: fields[i].key != fields[j].key
  }

  // A JSON value as Python's dicts give it, with every key within the key limit.
  predicate Fits(item: Json, lim: Limits) {
    match item
    case Obj(fields) =>
      UniqueKeys(fields) && forall i | 0 <= i < |fields| :: |fields[i].key| <= lim.maxChars && Fits(fields[i].value, lim)
    case Arr(items) => forall i | 0 <= i < |items| :: Fits(items[i], lim)
    case Foreign(_) => false
    case _ => true
  }

  function CompactEach(fields: seq<Field>, depth: nat, lim: Limits): (r: seq<Field>)
    ensures |r| == |fields|
    ensures forall i | 0 <= i < |fields| :: r[i] == Field(fields[i].key, Compact(fields[i].value, depth + 1, lim))
  {
    if fields == [] then []
    else [Field(fields[0].key, Compact(fields[0].value, depth + 1, lim))] + CompactEach(fields[1..], depth, lim)
  }

  function Kept<T>(xs: seq<T>, n: nat): seq<T> {
    if |xs| <= n then xs else xs[..n]
  }

  predicate KeysFit(fields: seq<Field>, lim: Limits) {
    forall i | 0 <= i < |fields| :: |fields[i].key| <= lim.maxChars
  }

  predicate DisjointKeys(a: seq<Field>, b: seq<Field>) {
    forall i, j | 0 <= i < |a| && 0 <= j < |b| :: a[i].key != b[j].key
  }

  // The dict loop's end: a dict that is too long gets the item marker, over an own key of that name.
  function WithItemsMark(fields: seq<Field>, more: bool): seq<Field> {
    if more then Put(fields, ItemsKey, Bool(true)) else fields
  }

  lemma AppendInFront<T>(a: seq<T>, x: T, b: seq<T>)
    ensures a + ([x] + b) == a + [x] + b
  {
  }

  lemma HeadOfKept<T>(xs: seq<T>, n: nat)
    requires xs != [] && n > 0
    ensures Kept(xs, n)[0] == xs[0] && Kept(xs[1..], n - 1) == Kept(xs, n)[1..]
  {
  }

  lemma HeadMovesOver(done: seq<Field>, kept: seq<Field>, value: Json, lim: Limits)
    requires kept != [] && UniqueKeys(kept) && KeysFit(kept, lim) && DisjointKeys(done, kept)
    ensures !HasKey(done, kept[0].key) && Prefix(kept[0].key, lim.maxChars) == kept[0].key
    ensures DisjointKeys(done + [Field(kept[0].key, value)], kept[1..])
    ensures UniqueKeys(kept[1..]) && KeysFit(kept[1..], lim)
  {
    assert forall i | 0 <= i < |kept[1..]| :: kept[1..][i] == kept[i + 1];
  }

  // With short distinct keys the dict loop maps the first fields and writes the item marker.
  lemma {:induction false} FieldsClosed(fields: seq<Field>, done: seq<Field>, depth: nat, lim: Limits, index: nat)
    requires index <= lim.maxItems
    requires UniqueKeys(Kept(fields, lim.maxItems - index)) && KeysFit(Kept(fields, lim.maxItems - index), lim)
    requires DisjointKeys(done, Kept(fields, lim.maxItems - index))
    ensures CompactFields(fields, done, depth, lim, index)
            == WithItemsMark(done + CompactEach(Kept(fields, lim.maxItems - index), depth, lim), |fields| > lim.maxItems - index)
    decreases |fields|
  {
    var kept := Kept(fields, lim.maxItems - index);
    if fields == [] || index >= lim.maxItems {
      assert done + CompactEach(kept, depth, lim) == done;
    } else {
      var key, value := fields[0].key, Compact(fields[0].value, depth + 1, lim);
      HeadOfKept(fields, lim.maxItems - index);
      HeadMovesOver(done, kept, value, lim);
      PutNewAppends(done, key, value);
      FieldsClosed(fields[1..], done + [Field(key, value)], depth, lim, index + 1);
      AppendInFront(done, Field(key, value), CompactEach(kept[1..], depth, lim));
    }
  }

  // The whole loop of one dict.
  lemma DictClosed(fields: seq<Field>, depth: nat, lim: Limits)
    requires UniqueKeys(Kept(fields, lim.maxItems)) && KeysFit(Kept(fields, lim.maxItems), lim)
    ensures CompactFields(fields, [], depth, lim)
            == WithItemsMark(CompactEach(Kept(fields, lim.maxItems), depth, lim), |fields| > lim.maxItems)
  {
    FieldsClosed(fields, [], depth, lim, 0);
    assert [] + CompactEach(Kept(fields, lim.maxItems), depth, lim) == CompactEach(Kept(fields, lim.maxItems), depth, lim);
  }

  lemma {:induction false} UntruncatedIsIdentity(item: Json, depth: nat, lim: Limits)
    requires Fits(item, lim) && !Truncates(item, depth, lim)
    ensures Compact(item, depth, lim) == item
    decreases item
  {
    match item
    case Obj(fields) =>
      DictClosed(fields, depth, lim);
      forall i | 0 <= i < |fields| ensures CompactEach(fields, depth, lim)[i] == fields[i] {
        UntruncatedIsIdentity(fields[i].value, depth + 1, lim);
      }
      assert CompactEach(fields, depth, lim) == fields;
    case Arr(items) =>
      forall i | 0 <= i < |items| ensures CompactItems(items, depth, lim)[i] == items[i] {
        CompactItemsAt(items, depth, lim, i);
        UntruncatedIsIdentity(items[i], depth + 1, lim);
      }
      assert CompactItems(items, depth, lim) == items;
    case _ =>
  }

  lemma {:induction false} CompactItemsAt(items: seq<Json>, depth: nat, lim: Limits, i: nat)
    requires i < |items|
    ensures CompactItems(items, depth, lim)[i] == Compact(items[i], depth + 1, lim)
  {
    if i > 0 {
      CompactItemsAt(items[1..], depth, lim, i - 1);
    }
  }

  // A value as Python has it: the keys of a dict are distinct.
  predicate DistinctKeys(item: Json) {
    match item
    case Obj(fields) => UniqueKeys(fields) && forall i | 0 <= i < |fields| :: DistinctKeys(fields[i].value)
    case Arr(items) => forall i | 0 <= i < |items| :: DistinctKeys(items[i])
    case _ => true
  }

  lemma {:induction false} PutKeepsKeysShort(fields: seq<Field>, key: string, value: Json, lim: Limits)
    requires KeysFit(fields, lim) && |key| <= lim.maxChars
    ensures KeysFit(Put(fields, key, value), lim)
  {
    if fields != [] && fields[0].key != key {
      assert forall i | 0 <= i < |fields[1..]| :: fields[1..][i] == fields[i + 1];
      PutKeepsKeysShort(fields[1..], key, value, lim);
    }
  }

  // The dict loop only writes keys within the limit, the item marker aside.
  lemma {:induction false} KeysAreCut(fields: seq<Field>, done: seq<Field>, depth: nat, lim: Limits, index: nat)
    requires KeysFit(done, lim) && |fields| + index <= lim.maxItems
    ensures KeysFit(CompactFields(fields, done, depth, lim, index), lim)
    decreases |fields|
  {
    if fields != [] {
      var key, value := Prefix(fields[0].key, lim.maxChars), Compact(fields[0].value, depth + 1, lim);
      PutKeepsKeysShort(done, key, value, lim);
      KeysAreCut(fields[1..], Put(done, key, value), depth, lim, index + 1);
    }
  }

  // A value whose compaction raises no flag is returned unchanged if and only if all its keys are
  // within the limit and it is JSON throughout: the flag does not see a key that is cut.
  lemma {:induction false} UnflaggedIdentityExact(item: Json, depth: nat, lim: Limits)
    requires DistinctKeys(item) && !Truncates(item, depth, lim)
    ensures Compact(item, depth, lim) == item <==> Fits(item, lim)
    decreases item
  {
    if Fits(item, lim) {
      UntruncatedIsIdentity(item, depth, lim);
    } else {
      match item
      case Obj(fields) =>
        KeysAreCut(fields, [], depth, lim, 0);
        if KeysFit(fields, lim) {
          DictClosed(fields, depth, lim);
          var i :| 0 <= i < |fields| && !Fits(fields[i].value, lim);
          UnflaggedIdentityExact(fields[i].value, depth + 1, lim);
        }
      case Arr(items) =>
        var i :| 0 <= i < |items| && !Fits(items[i], lim);
        CompactItemsAt(items, depth, lim, i);
        UnflaggedIdentityExact(items[i], depth + 1, lim);
      case _ =>
    }
  }

  // ---- compacting twice at the same depth ----

  // No key of the value is the one the item marker uses.
  predicate ItemsKeyFree(item: Json) {
    match item
    case Obj(fields) => forall i | 0 <= i < |fields| :: fields[i].key != ItemsKey && ItemsKeyFree(fields[i].value)
    case Arr(items) => forall i | 0 <= i < |items| :: ItemsKeyFree(items[i])
    case _ => true
  }

  lemma MarkedDictIsFixed(once: seq<Field>, more: bool, depth: nat, lim: Limits)
    requires |once| <= lim.maxItems && (more ==> |once| == lim.maxItems)
    requires UniqueKeys(once) && KeysFit(once, lim) && !HasKey(once, ItemsKey)
    requires forall i | 0 <= i < |once| :: Compact(once[i].value, depth + 1, lim) == once[i].value
    ensures CompactFields(WithItemsMark(once, more), [], depth, lim) == WithItemsMark(once, more)
  {
    PutNewAppends(once, ItemsKey, Bool(true));
    assert Kept(WithItemsMark(once, more), lim.maxItems) == once;
    DictClosed(WithItemsMark(once, more), depth, lim);
    assert CompactEach(once, depth, lim) == once;
  }

  lemma DictTwice(fields: seq<Field>, depth: nat, lim: Limits)
    requires depth < lim.maxDepth && UniqueKeys(fields) && KeysFit(fields, lim) && !HasKey(fields, ItemsKey)
    requires forall i | 0 <= i < |fields| ::
               Compact(Compact(fields[i].value, depth + 1, lim), depth + 1, lim) == Compact(fields[i].value, depth + 1, lim)
    ensures Compact(Compact(Obj(fields), depth, lim), depth, lim) == Compact(Obj(fields), depth, lim)
  {
    var kept, more := Kept(fields, lim.maxItems), |fields| > lim.maxItems;
    assert forall i | 0 <= i < |kept| :: kept[i] == fields[i];
    DictClosed(fields, depth, lim);
    MarkedDictIsFixed(CompactEach(kept, depth, lim), more, depth, lim);
  }

  lemma ListTwice(items: seq<Json>, depth: nat, lim: Limits)
    requires depth < lim.maxDepth
    requires forall i | 0 <= i < |items| ::
               Compact(Compact(items[i], depth + 1, lim), depth + 1, lim) == Compact(items[i], depth + 1, lim)
    ensures Compact(Compact(Arr(items), depth, lim), depth, lim) == Compact(Arr(items), depth, lim)
  {
    var kept := Kept(items, lim.maxItems);
    var once := CompactItems(kept, depth, lim);
    var result := Compact(Arr(items), depth, lim).items;
    assert Kept(result, lim.maxItems) == once;
    forall i | 0 <= i < |once| ensures CompactItems(once, depth, lim)[i] == once[i] {
      CompactItemsAt(kept, depth, lim, i);
      CompactItemsAt(once, depth, lim, i);
    }
    assert CompactItems(once, depth, lim) == once;
  }

  lemma {:induction false} CompactIdempotent(item: Json, depth: nat, lim: Limits)
    requires Fits(item, lim) && ItemsKeyFree(item)
    ensures Compact(Compact(item, depth, lim), depth, lim) == Compact(item, depth, lim)
    decreases item
  {
    if depth < lim.maxDepth {
      match item
      case Obj(fields) =>
        forall i | 0 <= i < |fields|
          ensures Compact(Compact(fields[i].value, depth + 1, lim), depth + 1, lim) == Compact(fields[i].value, depth + 1, lim)
        {
          CompactIdempotent(fields[i].value, depth + 1, lim);
        }
        DictTwice(fields, depth, lim);
      case Arr(items) =>
        forall i | 0 <= i < |items|
          ensures Compact(Compact(items[i], depth + 1, lim), depth + 1, lim) == Compact(items[i], depth + 1, lim)
        {
          CompactIdempotent(items[i], depth + 1, lim);
        }
        ListTwice(items, depth, lim);
      case Str(s) =>
        assert |s| > lim.maxChars ==> (s[..lim.maxChars] + Ellipsis)[..lim.maxChars] == s[..lim.maxChars];
      case _ =>
    }
  }
}
