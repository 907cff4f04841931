// The Turkish catalogue pipeline: extracting entries, deduplicating source strings, collecting
// a batch output that may be partial, repairing it and assembling the localized catalogue.
module Translation {
  import opened Common
  import opened Chunking

  // ---- the source catalogue ----

  // A JSON value where a string is expected.
  datatype Raw = Text(s: string) | NotText

  function NonEmpty(raw: Raw): Option<string> {
    match raw
    case NotText => None
    case Text(s) => if Strip(s) == "" then None else Some(Strip(s))
  }

  datatype FieldName = Name | Section | Description | Unit

  datatype Attribute = Attribute(id: int, fields: map<FieldName, Raw>, allowed: seq<Raw>)

  datatype Category = Category(id: int, groupId: int, groupName: Raw, name: Raw)

  datatype Group = Group(id: int, name: Raw, attributes: seq<Attribute>)

  datatype Catalog = Catalog(categories: seq<Category>, groups: seq<Group>)

  // Stable destination keys; their printed forms ("group:7", "attribute:7:3:name", ...) are
  // injective. A unique source string has a digest key, taken to be injective as well.
  datatype Key =
    | GroupKey(id: int)
    | CategoryKey(id: int)
    | FieldKey(group: int, attribute: int, field: FieldName)
    | AllowedKey(group: int, attribute: int, index: nat)
    | SourceKey(text: string, context: string)
    | Alias(n: nat)
    | Foreign(s: string)

  const GroupContext := "OTTO marketplace category group name"
  const CategoryContext := "OTTO marketplace selectable category name; preserve numbers, product codes, and meaningful punctuation"
  const AllowedContext := "allowed selectable value for an OTTO product attribute"

  function FieldContext(f: FieldName): string {
    match f
    case Name => "OTTO product attribute name"
    case Section => "OTTO product attribute section name"
    case Description => "OTTO product attribute help text"
    case Unit => "human-readable measurement unit"
  }

  const FieldOrder := [Name, Section, Description, Unit]

  type Entries = seq<Entry<Key>>

  function Keys(entries: Entries): set<Key> {
    set e | e in entries :: e.key
  }

  predicate DistinctKeys(entries: Entries) {
    forall i, j | 0 <= i < j < |entries| :: entries[i].key != entries[j].key
  }

  lemma KeysAppend(a: Entries, b: Entries)
    ensures Keys(a + b) == Keys(a) + Keys(b)
  {
    forall k | k in Keys(a) + Keys(b) ensures k in Keys(a + b) {
      var e :| e in a + b && e.key == k;
    }
  }

  // ---- build_entries ----

  function One(key: Key, raw: Raw, context: string): Entries {
    match NonEmpty(raw)
    case None => []
    case Some(text) => [Entry(key, text, context)]
  }

  function FieldEntry(g: int, a: Attribute, f: FieldName): Entries {
    if f in a.fields then One(FieldKey(g, a.id, f), a.fields[f], FieldContext(f)) else []
  }

  // Entries of the first n fields, of the first n allowed values, of some attributes.
  function FieldEntries(g: int, a: Attribute, n: nat): Entries
    requires n <= |FieldOrder|
  {
    if n == 0 then [] else FieldEntries(g, a, n - 1) + FieldEntry(g, a, FieldOrder[n - 1])
  }

  function AllowedEntries(g: int, a: Attribute, n: nat): Entries
    requires n <= |a.allowed|
  {
    if n == 0 then []
    else AllowedEntries(g, a, n - 1) + One(AllowedKey(g, a.id, n - 1), a.allowed[n - 1], AllowedContext)
  }

  function AttributeEntries(g: int, a: Attribute): Entries {
    FieldEntries(g, a, |FieldOrder|) + AllowedEntries(g, a, |a.allowed|)
  }

  function AttributesEntries(g: int, attributes: seq<Attribute>): Entries {
    if attributes == [] then []
    else AttributesEntries(g, attributes[..|attributes| - 1]) + AttributeEntries(g, attributes[|attributes| - 1])
  }

  // A group name is emitted once, where it is first non-empty.
  function GroupEntry(seen: set<int>, g: int, raw: Raw): Entries {
    if g in seen then [] else One(GroupKey(g), raw, GroupContext)
  }

  function NameMark(g: int, raw: Raw): set<int> {
    if NonEmpty(raw).Some? then {g} else {}
  }

  function NamedByCategories(categories: seq<Category>): set<int> {
    if categories == [] then {}
    else
      var c := categories[|categories| - 1];
      NamedByCategories(categories[..|categories| - 1]) + NameMark(c.groupId, c.groupName)
  }

  function NamedByGroups(groups: seq<Group>): set<int> {
    if groups == [] then {}
    else
      var g := groups[|groups| - 1];
      NamedByGroups(groups[..|groups| - 1]) + NameMark(g.id, g.name)
  }

  function CategoryEntry(seen: set<int>, c: Category): Entries {
    GroupEntry(seen, c.groupId, c.groupName) + One(CategoryKey(c.id), c.name, CategoryContext)
  }

  function CategoryEntries(categories: seq<Category>): Entries {
    if categories == [] then []
    else
      var front := categories[..|categories| - 1];
      CategoryEntries(front) + CategoryEntry(NamedByCategories(front), categories[|categories| - 1])
  }

  function GroupsEntries(groups: seq<Group>, seen: set<int>): Entries {
    if groups == [] then []
    else
      var front, g := groups[..|groups| - 1], groups[|groups| - 1];
      GroupsEntries(front, seen)
      + (GroupEntry(seen + NamedByGroups(front), g.id, g.name) + AttributesEntries(g.id, g.attributes))
  }

  function AllEntries(cat: Catalog): Entries {
    CategoryEntries(cat.categories) + GroupsEntries(cat.groups, NamedByCategories(cat.categories))
  }

  lemma CategoryStep(categories: seq<Category>, i: nat)
    requires i < |categories|
    ensures CategoryEntries(categories[..i + 1])
            == CategoryEntries(categories[..i]) + CategoryEntry(NamedByCategories(categories[..i]), categories[i])
    ensures NamedByCategories(categories[..i + 1])
            == NamedByCategories(categories[..i]) + NameMark(categories[i].groupId, categories[i].groupName)
  {
    assert categories[..i + 1][..i] == categories[..i];
  }

  method BuildCategoryEntries(categories: seq<Category>) returns (entries: Entries, seen: set<int>)
    ensures entries == CategoryEntries(categories) && seen == NamedByCategories(categories)
  {
    entries, seen := [], {};
    for i := 0 to |categories|
      invariant entries == CategoryEntries(categories[..i]) && seen == NamedByCategories(categories[..i])
    {
      var c := categories[i];
      CategoryStep(categories, i);
      ghost var was := seen;
      var groupName, name := NonEmpty(c.groupName), NonEmpty(c.name);
      var more: Entries := [];
      if groupName.Some? && c.groupId !in seen {
        more := more + [Entry(GroupKey(c.groupId), groupName.value, GroupContext)];
        seen := seen + {c.groupId};
      }
      if name.Some? {
        more := more + [Entry(CategoryKey(c.id), name.value, CategoryContext)];
      }
      assert more == CategoryEntry(was, c);
      entries := entries + more;
    }
    assert categories[..|categories|] == categories;
  }

  method BuildFieldEntries(g: int, a: Attribute) returns (entries: Entries)
    ensures entries == FieldEntries(g, a, |FieldOrder|)
  {
    entries := [];
    for f := 0 to |FieldOrder|
      invariant entries == FieldEntries(g, a, f)
    {
      entries := entries + FieldEntry(g, a, FieldOrder[f]);
    }
  }

  method BuildAllowedEntries(g: int, a: Attribute) returns (entries: Entries)
    ensures entries == AllowedEntries(g, a, |a.allowed|)
  {
    entries := [];
    for index := 0 to |a.allowed|
      invariant entries == AllowedEntries(g, a, index)
    {
      entries := entries + One(AllowedKey(g, a.id, index), a.allowed[index], AllowedContext);
    }
  }

  method BuildAttributeEntries(g: int, attributes: seq<Attribute>) returns (entries: Entries)
    ensures entries == AttributesEntries(g, attributes)
  {
    entries := [];
    for i := 0 to |attributes|
      invariant entries == AttributesEntries(g, attributes[..i])
    {
      var a := attributes[i];
      assert attributes[..i + 1][..i] == attributes[..i];
      var fields := BuildFieldEntries(g, a);
      var allowed := BuildAllowedEntries(g, a);
      entries := entries + (fields + allowed);
    }
    assert attributes[..|attributes|] == attributes;
  }

  method BuildGroupEntries(groups: seq<Group>, named: set<int>) returns (entries: Entries)
    ensures entries == GroupsEntries(groups, named)
  {
    entries := [];
    var seen := named;
    for i := 0 to |groups|
      invariant entries == GroupsEntries(groups[..i], named) && seen == named + NamedByGroups(groups[..i])
    {
      var g := groups[i];
      assert groups[..i + 1][..i] == groups[..i];
      var name := NonEmpty(g.name);
      var more: Entries := [];
      if name.Some? && g.id !in seen {
        more := [Entry(GroupKey(g.id), name.value, GroupContext)];
        seen := seen + {g.id};
      }
      var attributeEntries := BuildAttributeEntries(g.id, g.attributes);
      entries := entries + (more + attributeEntries);
    }
    assert groups[..|groups|] == groups;
  }

  method KeysAreDistinct(entries: Entries) returns (distinct: bool)
    ensures distinct == DistinctKeys(entries)
  {
    var keys: set<Key> := {};
    for i := 0 to |entries|
      invariant keys == Keys(entries[..i]) && DistinctKeys(entries[..i])
    {
      assert entries[..i + 1] == entries[..i] + [entries[i]];
      KeysAppend(entries[..i], [entries[i]]);
      if entries[i].key in keys {
        RepeatedKey(entries, i);
        return false;
      }
      FreshKey(entries[..i], entries[i]);
      KeyOfOne(entries[i]);
      keys := keys + {entries[i].key};
    }
    assert entries[..|entries|] == entries;
    distinct := true;
  }

  // The extraction; None when the stable keys collide.
  method BuildEntries(cat: Catalog) returns (result: Option<Entries>)
    ensures result == if DistinctKeys(AllEntries(cat)) then Some(AllEntries(cat)) else None
  {
    var fromCategories, seen := BuildCategoryEntries(cat.categories);
    var fromGroups := BuildGroupEntries(cat.groups, seen);
    var distinct := KeysAreDistinct(fromCategories + fromGroups);
    result := if distinct then Some(fromCategories + fromGroups) else None;
  }

  lemma RepeatedKey(entries: Entries, i: nat)
    requires i < |entries| && entries[i].key in Keys(entries[..i])
    ensures !DistinctKeys(entries)
  {
    var e :| e in entries[..i] && e.key == entries[i].key;
    var n :| 0 <= n < i && entries[..i][n] == e;
    assert entries[n].key == entries[i].key;
  }

  lemma FreshKey(entries: Entries, e: Entry<Key>)
    requires DistinctKeys(entries) && e.key !in Keys(entries)
    ensures DistinctKeys(entries + [e])
  {
    assert forall n | 0 <= n < |entries| :: entries[n] in entries && entries[n].key in Keys(entries);
  }

  // ---- deduplicate_entries ----

  function SourceOf(e: Entry<Key>): Key {
    SourceKey(e.text, e.context)
  }

  function UniqueEntry(e: Entry<Key>): Entry<Key> {
    Entry(SourceOf(e), e.text, e.context)
  }

  // One entry per source string, in order of first occurrence.
  function Unique(entries: Entries): Entries {
    if entries == [] then []
    else
      var before, e := Unique(entries[..|entries| - 1]), entries[|entries| - 1];
      if SourceOf(e) in Keys(before) then before else before + [UniqueEntry(e)]
  }

  datatype Resolved = Resolved(entry: Entry<Key>, translationKey: Key)

  lemma UniqueKeysGrow(unique: Entries, e: Entry<Key>)
    ensures Keys(unique + [UniqueEntry(e)]) == Keys(unique) + {SourceOf(e)}
  {
    KeysAppend(unique, [UniqueEntry(e)]);
    KeyOfOne(UniqueEntry(e));
  }

  ghost predicate IndexesSources(index: map<(string, string), Key>, unique: Entries) {
    && (forall s :: s in index <==> SourceKey(s.0, s.1) in Keys(unique))
    && (forall s | s in index :: index[s] == SourceKey(s.0, s.1))
  }

  lemma IndexGrows(index: map<(string, string), Key>, unique: Entries, e: Entry<Key>)
    requires IndexesSources(index, unique)
    ensures (e.text, e.context) in index <==> SourceOf(e) in Keys(unique)
    ensures IndexesSources(index[(e.text, e.context) := SourceOf(e)], unique + [UniqueEntry(e)])
  {
    UniqueKeysGrow(unique, e);
  }

  lemma UniqueStep(entries: Entries, i: nat)
    requires i < |entries|
    ensures var before := Unique(entries[..i]);
            Unique(entries[..i + 1])
            == if SourceOf(entries[i]) in Keys(before) then before else before + [UniqueEntry(entries[i])]
  {
    assert entries[..i + 1][..i] == entries[..i];
  }

  predicate AllResolved(entries: Entries, resolved: seq<Resolved>) {
    |resolved| == |entries| && forall i | 0 <= i < |entries| :: resolved[i] == Resolved(entries[i], SourceOf(entries[i]))
  }

  lemma ResolveOneMore(entries: Entries, i: nat, resolved: seq<Resolved>)
    requires i < |entries| && AllResolved(entries[..i], resolved)
    ensures AllResolved(entries[..i + 1], resolved + [Resolved(entries[i], SourceOf(entries[i]))])
  {
  }

  method DeduplicateEntries(entries: Entries) returns (resolved: seq<Resolved>, unique: Entries)
    ensures AllResolved(entries, resolved)
    ensures unique == Unique(entries)
  {
    resolved, unique := [], [];
    var keysBySource: map<(string, string), Key> := map[];
    for i := 0 to |entries|
      invariant AllResolved(entries[..i], resolved)
      invariant unique == Unique(entries[..i])
      invariant IndexesSources(keysBySource, unique)
    {
      var e := entries[i];
      UniqueStep(entries, i);
      IndexGrows(keysBySource, unique, e);
      ResolveOneMore(entries, i, resolved);
      var source := (e.text, e.context);
      var key := SourceKey(e.text, e.context);
      if source in keysBySource {
        key := keysBySource[source];
      } else {
        keysBySource := keysBySource[source := key];
        unique := unique + [Entry(key, e.text, e.context)];
      }
      assert key == SourceOf(e);
      resolved := resolved + [Resolved(e, key)];
    }
    assert entries[..|entries|] == entries;
  }

  lemma KeyOfOne(e: Entry<Key>)
    ensures Keys([e]) == {e.key}
  {
    assert e in [e];
  }

  // Every entry finds its source string among the unique ones, each of which occurs once.
  lemma {:induction false} UniqueCovers(entries: Entries)
    ensures DistinctKeys(Unique(entries))
    ensures Keys(Unique(entries)) == set e | e in entries :: SourceOf(e)
    ensures forall u | u in Unique(entries) :: u.key == SourceOf(u)
  {
    if entries != [] {
      var front, e := entries[..|entries| - 1], entries[|entries| - 1];
      assert entries == front + [e];
      UniqueCovers(front);
      var before := Unique(front);
      if SourceOf(e) !in Keys(before) {
        KeysAppend(before, [UniqueEntry(e)]);
        KeyOfOne(UniqueEntry(e));
        FreshKey(before, UniqueEntry(e));
      }
      assert Keys(Unique(entries)) == Keys(before) + {SourceOf(e)};
      SourcesAppend(front, e);
    }
  }

  lemma SourcesAppend(front: Entries, e: Entry<Key>)
    ensures (set x | x in front + [e] :: SourceOf(x)) == (set x | x in front :: SourceOf(x)) + {SourceOf(e)}
  {
    var all, fore := set x | x in front + [e] :: SourceOf(x), set x | x in front :: SourceOf(x);
    forall k | k in fore + {SourceOf(e)} ensures k in all {
      var x :| x in front + [e] && SourceOf(x) == k;
    }
  }

  // ---- which destination keys exist ----

  // An entry for a non-empty field of the catalogue: its text is that field's.
  predicate Carries(entries: Entries, key: Key, raw: Raw, context: string) {
    NonEmpty(raw).Some? ==> Entry(key, NonEmpty(raw).value, context) in entries
  }

  lemma {:induction false} NamedByCategoriesMeans(categories: seq<Category>, id: int)
    ensures id in NamedByCategories(categories) <==> exists c | c in categories :: c.groupId == id && NonEmpty(c.groupName).Some?
  {
    if categories != [] {
      var front, last := categories[..|categories| - 1], categories[|categories| - 1];
      NamedByCategoriesMeans(front, id);
      assert categories == front + [last];
    }
  }

  function NamedCategories(categories: seq<Category>): set<int> {
    if categories == [] then {}
    else NamedCategories(categories[..|categories| - 1]) + NameMark(categories[|categories| - 1].id, categories[|categories| - 1].name)
  }

  lemma {:induction false} NamedCategoriesMeans(categories: seq<Category>, id: int)
    ensures id in NamedCategories(categories) <==> exists c | c in categories :: c.id == id && NonEmpty(c.name).Some?
  {
    if categories != [] {
      var front, last := categories[..|categories| - 1], categories[|categories| - 1];
      NamedCategoriesMeans(front, id);
      assert categories == front + [last];
    }
  }

  lemma {:induction false} NamedByGroupsMeans(groups: seq<Group>, id: int)
    ensures id in NamedByGroups(groups) <==> exists g | g in groups :: g.id == id && NonEmpty(g.name).Some?
  {
    if groups != [] {
      var front, last := groups[..|groups| - 1], groups[|groups| - 1];
      NamedByGroupsMeans(front, id);
      assert groups == front + [last];
    }
  }

  lemma KeysOfOne(key: Key, raw: Raw, context: string)
    ensures Keys(One(key, raw, context)) == if NonEmpty(raw).Some? then {key} else {}
  {
    if NonEmpty(raw).Some? {
      KeyOfOne(Entry(key, NonEmpty(raw).value, context));
    }
  }

  lemma CategoryEntryKeys(seen: set<int>, c: Category)
    ensures Keys(CategoryEntry(seen, c))
            == (if NonEmpty(c.groupName).Some? && c.groupId !in seen then {GroupKey(c.groupId)} else {})
               + if NonEmpty(c.name).Some? then {CategoryKey(c.id)} else {}
  {
    KeysAppend(GroupEntry(seen, c.groupId, c.groupName), One(CategoryKey(c.id), c.name, CategoryContext));
    KeysOfOne(GroupKey(c.groupId), c.groupName, GroupContext);
    KeysOfOne(CategoryKey(c.id), c.name, CategoryContext);
  }

  lemma {:induction false} CategoryKeys(categories: seq<Category>)
    ensures forall id :: GroupKey(id) in Keys(CategoryEntries(categories)) <==> id in NamedByCategories(categories)
    ensures forall id :: CategoryKey(id) in Keys(CategoryEntries(categories)) <==> id in NamedCategories(categories)
    ensures forall k | k in Keys(CategoryEntries(categories)) :: k.GroupKey? || k.CategoryKey?
  {
    if categories != [] {
      var front, c := categories[..|categories| - 1], categories[|categories| - 1];
      var seen := NamedByCategories(front);
      CategoryKeys(front);
      KeysAppend(CategoryEntries(front), CategoryEntry(seen, c));
      CategoryEntryKeys(seen, c);
    }
  }

  predicate AttributeKey(k: Key) {
    k.FieldKey? || k.AllowedKey?
  }

  lemma {:induction false} FieldKeys(g: int, a: Attribute, n: nat)
    requires n <= |FieldOrder|
    ensures forall k | k in Keys(FieldEntries(g, a, n)) :: AttributeKey(k)
    ensures forall i | 0 <= i < n :: FieldOrder[i] in a.fields ==>
              Carries(FieldEntries(g, a, n), FieldKey(g, a.id, FieldOrder[i]), a.fields[FieldOrder[i]], FieldContext(FieldOrder[i]))
  {
    if n > 0 {
      FieldKeys(g, a, n - 1);
      KeysAppend(FieldEntries(g, a, n - 1), FieldEntry(g, a, FieldOrder[n - 1]));
    }
  }

  lemma {:induction false} AllowedKeys(g: int, a: Attribute, n: nat)
    requires n <= |a.allowed|
    ensures forall k | k in Keys(AllowedEntries(g, a, n)) :: AttributeKey(k)
    ensures forall i | 0 <= i < n :: Carries(AllowedEntries(g, a, n), AllowedKey(g, a.id, i), a.allowed[i], AllowedContext)
  {
    if n > 0 {
      AllowedKeys(g, a, n - 1);
      KeysAppend(AllowedEntries(g, a, n - 1), One(AllowedKey(g, a.id, n - 1), a.allowed[n - 1], AllowedContext));
    }
  }

  // Every non-empty field and allowed value of the attribute has its entry.
  predicate AttributeCarried(entries: Entries, g: int, a: Attribute) {
    && (forall f | f in a.fields :: Carries(entries, FieldKey(g, a.id, f), a.fields[f], FieldContext(f)))
    && (forall i | 0 <= i < |a.allowed| :: Carries(entries, AllowedKey(g, a.id, i), a.allowed[i], AllowedContext))
  }

  lemma AttributeIsCarried(g: int, a: Attribute)
    ensures AttributeCarried(AttributeEntries(g, a), g, a)
    ensures forall k | k in Keys(AttributeEntries(g, a)) :: AttributeKey(k)
  {
    FieldKeys(g, a, |FieldOrder|);
    AllowedKeys(g, a, |a.allowed|);
    KeysAppend(FieldEntries(g, a, |FieldOrder|), AllowedEntries(g, a, |a.allowed|));
    forall f | f in a.fields
      ensures Carries(AttributeEntries(g, a), FieldKey(g, a.id, f), a.fields[f], FieldContext(f))
    {
      var n := match f case Name => 0 case Section => 1 case Description => 2 case Unit => 3;
      assert FieldOrder[n] == f;
    }
  }

  lemma CarriedStays(entries: Entries, all: Entries, g: int, a: Attribute)
    requires AttributeCarried(entries, g, a) && forall e | e in entries :: e in all
    ensures AttributeCarried(all, g, a)
  {
  }

  lemma {:induction false} AttributesAreCarried(g: int, attributes: seq<Attribute>)
    ensures forall a | a in attributes :: AttributeCarried(AttributesEntries(g, attributes), g, a)
    ensures forall k | k in Keys(AttributesEntries(g, attributes)) :: AttributeKey(k)
  {
    if attributes != [] {
      var front, last := attributes[..|attributes| - 1], attributes[|attributes| - 1];
      AttributesAreCarried(g, front);
      AttributeIsCarried(g, last);
      KeysAppend(AttributesEntries(g, front), AttributeEntries(g, last));
      assert attributes == front + [last];
      forall a | a in attributes ensures AttributeCarried(AttributesEntries(g, attributes), g, a) {
        CarriedStays(if a == last then AttributeEntries(g, last) else AttributesEntries(g, front), AttributesEntries(g, attributes), g, a);
      }
    }
  }

  lemma {:induction false} GroupKeys(groups: seq<Group>, seen: set<int>)
    ensures forall id :: GroupKey(id) in Keys(GroupsEntries(groups, seen)) <==> id in NamedByGroups(groups) && id !in seen
    ensures forall k | k in Keys(GroupsEntries(groups, seen)) :: k.GroupKey? || AttributeKey(k)
    ensures forall g, a | g in groups && a in g.attributes :: AttributeCarried(GroupsEntries(groups, seen), g.id, a)
  {
    if groups != [] {
      var front, g := groups[..|groups| - 1], groups[|groups| - 1];
      GroupKeys(front, seen);
      AttributesAreCarried(g.id, g.attributes);
      assert groups == front + [g];
      var nameEntry, attributeEntries := GroupEntry(seen + NamedByGroups(front), g.id, g.name), AttributesEntries(g.id, g.attributes);
      KeysAppend(GroupsEntries(front, seen), nameEntry + attributeEntries);
      KeysAppend(nameEntry, attributeEntries);
      KeysOfOne(GroupKey(g.id), g.name, GroupContext);
      forall h, a | h in groups && a in h.attributes ensures AttributeCarried(GroupsEntries(groups, seen), h.id, a) {
        CarriedStays(if h == g then attributeEntries else GroupsEntries(front, seen), GroupsEntries(groups, seen), h.id, a);
      }
    }
  }

  predicate Named(cat: Catalog, id: int) {
    || (exists c | c in cat.categories :: c.groupId == id && NonEmpty(c.groupName).Some?)
    || (exists g | g in cat.groups :: g.id == id && NonEmpty(g.name).Some?)
  }

  // Which keys the extraction yields, in terms of the catalogue alone.
  lemma ExtractedKeys(cat: Catalog)
    ensures forall id :: GroupKey(id) in Keys(AllEntries(cat)) <==> Named(cat, id)
    ensures forall id :: CategoryKey(id) in Keys(AllEntries(cat)) <==>
              exists c | c in cat.categories :: c.id == id && NonEmpty(c.name).Some?
    ensures forall g, a | g in cat.groups && a in g.attributes :: AttributeCarried(AllEntries(cat), g.id, a)
  {
    var seen := NamedByCategories(cat.categories);
    CategoryKeys(cat.categories);
    GroupKeys(cat.groups, seen);
    KeysAppend(CategoryEntries(cat.categories), GroupsEntries(cat.groups, seen));
    forall id ensures GroupKey(id) in Keys(AllEntries(cat)) <==> Named(cat, id) {
      NamedByCategoriesMeans(cat.categories, id);
      NamedByGroupsMeans(cat.groups, id);
    }
    forall id
      ensures CategoryKey(id) in Keys(AllEntries(cat)) <==> exists c | c in cat.categories :: c.id == id && NonEmpty(c.name).Some?
    {
      NamedCategoriesMeans(cat.categories, id);
    }
    forall g, a | g in cat.groups && a in g.attributes ensures AttributeCarried(AllEntries(cat), g.id, a) {
      CarriedStays(GroupsEntries(cat.groups, seen), AllEntries(cat), g.id, a);
    }
  }
}
