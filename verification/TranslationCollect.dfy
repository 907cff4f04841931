// Assembling the localized catalogue from the collected texts, and the collection as a whole.
module TranslationCollect {
  import opened Common
  import opened Chunking
  import opened Translation
  import opened TranslationBatch

  // ---- build_output_payloads ----

  datatype AllowedText = Translated(text: string) | Kept(raw: Raw)

  datatype LocalAttribute = LocalAttribute(fields: map<FieldName, string>, allowed: seq<AllowedText>)

  datatype LocalGroup = LocalGroup(name: string, attributes: map<int, LocalAttribute>)

  datatype Localized = Localized(groupNames: map<int, string>, categories: map<int, string>, groups: map<int, LocalGroup>)

  // A missing key raises KeyError: None.
  function LocalizeAllowed(g: int, a: Attribute, t: Texts, n: nat): Option<seq<AllowedText>>
    requires n <= |a.allowed|
  {
    if n == 0 then Some([])
    else
      match LocalizeAllowed(g, a, t, n - 1)
      case None => None
      case Some(before) =>
        if NonEmpty(a.allowed[n - 1]).None? then Some(before + [Kept(a.allowed[n - 1])])
        else if AllowedKey(g, a.id, n - 1) in t then Some(before + [Translated(t[AllowedKey(g, a.id, n - 1)])])
        else None
  }

  function PresentFields(a: Attribute): set<FieldName> {
    set f | f in a.fields && NonEmpty(a.fields[f]).Some?
  }

  function LocalizeAttribute(g: int, a: Attribute, t: Texts): Option<LocalAttribute> {
    var fields := PresentFields(a);
    if exists f | f in fields :: FieldKey(g, a.id, f) !in t then None
    else
      match LocalizeAllowed(g, a, t, |a.allowed|)
      case None => None
      case Some(allowed) => Some(LocalAttribute(map f | f in fields :: t[FieldKey(g, a.id, f)], allowed))
  }

  // A dictionary built by localizing items one by one; a repeated id keeps the last one, and an
  // item that cannot be localized stops everything.
  function DictOf<T, L>(items: seq<T>, idOf: T -> int, localize: T -> Option<L>, n: nat): Option<map<int, L>>
    requires n <= |items|
  {
    if n == 0 then Some(map[])
    else
      var before, local := DictOf(items, idOf, localize, n - 1), localize(items[n - 1]);
      if before.None? || local.None? then None else Some(before.value[idOf(items[n - 1]) := local.value])
  }

  // Item i is the last of the first n to carry the id, and this is what it localizes to.
  ghost predicate Gives<T, L>(items: seq<T>, idOf: T -> int, localize: T -> Option<L>, n: nat, i: nat, id: int, local: L)
    requires n <= |items|
  {
    && i < n && idOf(items[i]) == id && localize(items[i]) == Some(local)
    && forall m | i < m < n :: idOf(items[m]) != id
  }

  ghost predicate Given<T, L>(items: seq<T>, idOf: T -> int, localize: T -> Option<L>, n: nat, id: int, local: L)
    requires n <= |items|
  {
    exists i: nat | i < n :: Gives(items, idOf, localize, n, i, id, local)
  }

  lemma {:induction false} DictNeedsAll<T, L>(items: seq<T>, idOf: T -> int, localize: T -> Option<L>, n: nat)
    requires n <= |items|
    ensures DictOf(items, idOf, localize, n).Some? <==> forall i | 0 <= i < n :: localize(items[i]).Some?
  {
    if n > 0 {
      DictNeedsAll(items, idOf, localize, n - 1);
    }
  }

  lemma {:induction false} DictGivesLast<T, L>(items: seq<T>, idOf: T -> int, localize: T -> Option<L>, n: nat)
    requires n <= |items| && DictOf(items, idOf, localize, n).Some?
    ensures forall i | 0 <= i < n :: idOf(items[i]) in DictOf(items, idOf, localize, n).value
    ensures forall id | id in DictOf(items, idOf, localize, n).value ::
              Given(items, idOf, localize, n, id, DictOf(items, idOf, localize, n).value[id])
  {
    if n > 0 {
      DictGivesLast(items, idOf, localize, n - 1);
      var before, dict := DictOf(items, idOf, localize, n - 1).value, DictOf(items, idOf, localize, n).value;
      forall id | id in dict ensures Given(items, idOf, localize, n, id, dict[id]) {
        if id == idOf(items[n - 1]) {
          assert Gives(items, idOf, localize, n, n - 1, id, dict[id]);
        } else {
          assert Given(items, idOf, localize, n - 1, id, before[id]);
          var i: nat :| i < n - 1 && Gives(items, idOf, localize, n - 1, i, id, before[id]);
          assert Gives(items, idOf, localize, n, i, id, dict[id]);
        }
      }
    }
  }

  function AttributeId(): Attribute -> int {
    (a: Attribute) => a.id
  }

  function AttributeLocalizer(g: int, t: Texts): Attribute -> Option<LocalAttribute> {
    a => LocalizeAttribute(g, a, t)
  }

  function LocalizedAttributes(g: Group, t: Texts): Option<map<int, LocalAttribute>> {
    DictOf(g.attributes, AttributeId(), AttributeLocalizer(g.id, t), |g.attributes|)
  }

  method BuildDict<T, L>(items: seq<T>, idOf: T -> int, localize: T -> Option<L>) returns (r: Option<map<int, L>>)
    ensures r == DictOf(items, idOf, localize, |items|)
  {
    DictNeedsAll(items, idOf, localize, |items|);
    var dict: map<int, L> := map[];
    for i := 0 to |items|
      invariant DictOf(items, idOf, localize, i) == Some(dict)
    {
      var local := localize(items[i]);
      if local.None? {
        return None;
      }
      dict := dict[idOf(items[i]) := local.value];
    }
    r := Some(dict);
  }

  predicate GroupFound(g: Group, t: Texts) {
    GroupKey(g.id) in t && LocalizedAttributes(g, t).Some?
  }

  function GroupId(): Group -> int {
    (g: Group) => g.id
  }

  function GroupLocalizer(t: Texts): Group -> Option<LocalGroup> {
    g => if GroupFound(g, t) then Some(LocalGroup(t[GroupKey(g.id)], LocalizedAttributes(g, t).value)) else None
  }

  function LocalizedGroups(groups: seq<Group>, t: Texts): Option<map<int, LocalGroup>> {
    DictOf(groups, GroupId(), GroupLocalizer(t), |groups|)
  }

  method LocalizeGroup(g: Group, t: Texts) returns (r: Option<LocalGroup>)
    ensures r == GroupLocalizer(t)(g)
  {
    var attributes := BuildDict(g.attributes, AttributeId(), AttributeLocalizer(g.id, t));
    r := if GroupKey(g.id) in t && attributes.Some? then Some(LocalGroup(t[GroupKey(g.id)], attributes.value)) else None;
  }

  method LocalizeGroups(groups: seq<Group>, t: Texts) returns (r: Option<map<int, LocalGroup>>)
    ensures r == LocalizedGroups(groups, t)
  {
    DictNeedsAll(groups, GroupId(), GroupLocalizer(t), |groups|);
    var local: map<int, LocalGroup> := map[];
    for i := 0 to |groups|
      invariant DictOf(groups, GroupId(), GroupLocalizer(t), i) == Some(local)
    {
      var entry := LocalizeGroup(groups[i], t);
      if entry.None? {
        return None;
      }
      local := local[groups[i].id := entry.value];
    }
    r := Some(local);
  }

  predicate CategoryFound(c: Category, t: Texts) {
    GroupKey(c.groupId) in t && CategoryKey(c.id) in t
  }

  predicate AllFound(cat: Catalog, t: Texts) {
    (forall c | c in cat.categories :: CategoryFound(c, t)) && forall g | g in cat.groups :: GroupFound(g, t)
  }

  ghost predicate CategoriesLocalized(categories: seq<Category>, n: nat, t: Texts, names: map<int, string>, local: map<int, string>)
    requires n <= |categories|
  {
    && (forall id :: id in names <==> exists i | 0 <= i < n :: categories[i].groupId == id)
    && (forall id :: id in local <==> exists i | 0 <= i < n :: categories[i].id == id)
    && (forall id | id in names :: GroupKey(id) in t && names[id] == t[GroupKey(id)])
    && (forall id | id in local :: CategoryKey(id) in t && local[id] == t[CategoryKey(id)])
  }

  // ---- what the output says, item by item ----

  // Value by value in the order of the source: the text of a non-blank one, a blank one as it is.
  predicate AllowedSays(g: int, a: Attribute, t: Texts, allowed: seq<AllowedText>) {
    && |allowed| == |a.allowed|
    && forall i | 0 <= i < |a.allowed| ::
         if NonEmpty(a.allowed[i]).None? then allowed[i] == Kept(a.allowed[i])
         else AllowedKey(g, a.id, i) in t && allowed[i] == Translated(t[AllowedKey(g, a.id, i)])
  }

  // Exactly the non-blank fields, each with its own text.
  predicate AttributeSays(g: int, a: Attribute, t: Texts, local: LocalAttribute) {
    && (forall f :: f in local.fields <==> f in a.fields && NonEmpty(a.fields[f]).Some?)
    && (forall f | f in local.fields :: FieldKey(g, a.id, f) in t && local.fields[f] == t[FieldKey(g, a.id, f)])
    && AllowedSays(g, a, t, local.allowed)
  }

  // Under each id the last attribute that carries it.
  predicate AttributeGiven(g: Group, n: nat, t: Texts, id: int, local: LocalAttribute) {
    && n < |g.attributes| && g.attributes[n].id == id && AttributeSays(g.id, g.attributes[n], t, local)
    && forall m | n < m < |g.attributes| :: g.attributes[m].id != id
  }

  ghost predicate GroupSays(g: Group, t: Texts, local: LocalGroup) {
    && GroupKey(g.id) in t && local.name == t[GroupKey(g.id)]
    && (forall i | 0 <= i < |g.attributes| :: g.attributes[i].id in local.attributes)
    && (forall id | id in local.attributes :: exists n :: AttributeGiven(g, n, t, id, local.attributes[id]))
  }

  ghost predicate GroupGiven(groups: seq<Group>, n: nat, t: Texts, id: int, local: LocalGroup) {
    && n < |groups| && groups[n].id == id && GroupSays(groups[n], t, local)
    && forall m | n < m < |groups| :: groups[m].id != id
  }

  ghost predicate GroupsSay(groups: seq<Group>, t: Texts, local: map<int, LocalGroup>) {
    && (forall i | 0 <= i < |groups| :: groups[i].id in local)
    && (forall id | id in local :: exists n :: GroupGiven(groups, n, t, id, local[id]))
  }

  lemma {:induction false} LocalizedAllowedSays(g: int, a: Attribute, t: Texts, n: nat)
    requires n <= |a.allowed| && LocalizeAllowed(g, a, t, n).Some?
    ensures var allowed := LocalizeAllowed(g, a, t, n).value;
            && |allowed| == n
            && forall i | 0 <= i < n ::
                 if NonEmpty(a.allowed[i]).None? then allowed[i] == Kept(a.allowed[i])
                 else AllowedKey(g, a.id, i) in t && allowed[i] == Translated(t[AllowedKey(g, a.id, i)])
  {
    if n > 0 {
      LocalizedAllowedSays(g, a, t, n - 1);
    }
  }

  lemma LocalizedAttributeSays(g: int, a: Attribute, t: Texts)
    requires LocalizeAttribute(g, a, t).Some?
    ensures AttributeSays(g, a, t, LocalizeAttribute(g, a, t).value)
  {
    LocalizedAllowedSays(g, a, t, |a.allowed|);
  }

  lemma LocalizedGroupSays(g: Group, t: Texts)
    requires GroupFound(g, t)
    ensures GroupSays(g, t, LocalGroup(t[GroupKey(g.id)], LocalizedAttributes(g, t).value))
  {
    var attributes := LocalizedAttributes(g, t).value;
    DictGivesLast(g.attributes, AttributeId(), AttributeLocalizer(g.id, t), |g.attributes|);
    forall i | 0 <= i < |g.attributes| ensures g.attributes[i].id in attributes {
      assert AttributeId()(g.attributes[i]) in attributes;
    }
    forall id | id in attributes ensures exists n :: AttributeGiven(g, n, t, id, attributes[id]) {
      var n := GivenAttribute(g, t, id);
    }
  }

  lemma GivenAttribute(g: Group, t: Texts, id: int) returns (n: nat)
    requires LocalizedAttributes(g, t).Some? && id in LocalizedAttributes(g, t).value
    ensures AttributeGiven(g, n, t, id, LocalizedAttributes(g, t).value[id])
  {
    var local := LocalizedAttributes(g, t).value[id];
    DictGivesLast(g.attributes, AttributeId(), AttributeLocalizer(g.id, t), |g.attributes|);
    assert Given(g.attributes, AttributeId(), AttributeLocalizer(g.id, t), |g.attributes|, id, local);
    n :| n < |g.attributes| && Gives(g.attributes, AttributeId(), AttributeLocalizer(g.id, t), |g.attributes|, n, id, local);
    LocalizedAttributeSays(g.id, g.attributes[n], t);
    forall m | n < m < |g.attributes| ensures g.attributes[m].id != id {
      assert AttributeId()(g.attributes[m]) != id;
    }
  }

  lemma LocalizedGroupsSay(groups: seq<Group>, t: Texts)
    requires LocalizedGroups(groups, t).Some?
    ensures GroupsSay(groups, t, LocalizedGroups(groups, t).value)
  {
    var local := LocalizedGroups(groups, t).value;
    DictGivesLast(groups, GroupId(), GroupLocalizer(t), |groups|);
    forall i | 0 <= i < |groups| ensures groups[i].id in local {
      assert GroupId()(groups[i]) in local;
    }
    forall id | id in local ensures exists n :: GroupGiven(groups, n, t, id, local[id]) {
      var n := GivenGroup(groups, t, id);
    }
  }

  lemma GivenGroup(groups: seq<Group>, t: Texts, id: int) returns (n: nat)
    requires LocalizedGroups(groups, t).Some? && id in LocalizedGroups(groups, t).value
    ensures GroupGiven(groups, n, t, id, LocalizedGroups(groups, t).value[id])
  {
    var local := LocalizedGroups(groups, t).value[id];
    DictGivesLast(groups, GroupId(), GroupLocalizer(t), |groups|);
    assert Given(groups, GroupId(), GroupLocalizer(t), |groups|, id, local);
    n :| n < |groups| && Gives(groups, GroupId(), GroupLocalizer(t), |groups|, n, id, local);
    LocalizedGroupSays(groups[n], t);
    forall m | n < m < |groups| ensures groups[m].id != id {
      assert GroupId()(groups[m]) != id;
    }
  }

  method BuildOutput(cat: Catalog, t: Texts) returns (r: Option<Localized>)
    ensures r.Some? <==> AllFound(cat, t)
    ensures r.Some? ==> CategoriesLocalized(cat.categories, |cat.categories|, t, r.value.groupNames, r.value.categories)
    ensures r.Some? ==> LocalizedGroups(cat.groups, t) == Some(r.value.groups)
    ensures r.Some? ==> GroupsSay(cat.groups, t, r.value.groups)
  {
    var groupNames: map<int, string>, categories: map<int, string> := map[], map[];
    for i := 0 to |cat.categories|
      invariant forall n | 0 <= n < i :: CategoryFound(cat.categories[n], t)
      invariant CategoriesLocalized(cat.categories, i, t, groupNames, categories)
    {
      var c := cat.categories[i];
      if !CategoryFound(c, t) {
        assert c in cat.categories;
        return None;
      }
      if c.groupId !in groupNames {
        groupNames := groupNames[c.groupId := t[GroupKey(c.groupId)]];
      }
      categories := categories[c.id := t[CategoryKey(c.id)]];
    }
    var groups := LocalizeGroups(cat.groups, t);
    GroupsNeedAll(cat.groups, t);
    if groups.None? {
      return None;
    }
    LocalizedGroupsSay(cat.groups, t);
    r := Some(Localized(groupNames, categories, groups.value));
  }

  lemma GroupsNeedAll(groups: seq<Group>, t: Texts)
    ensures LocalizedGroups(groups, t).Some? <==> forall g | g in groups :: GroupFound(g, t)
  {
    DictNeedsAll(groups, GroupId(), GroupLocalizer(t), |groups|);
    forall i | 0 <= i < |groups| ensures GroupLocalizer(t)(groups[i]).Some? <==> GroupFound(groups[i], t) {
      assert groups[i] in groups;
    }
  }

  lemma {:induction false} AllowedIsLocalized(g: int, a: Attribute, t: Texts, n: nat)
    requires n <= |a.allowed|
    requires forall i | 0 <= i < |a.allowed| && NonEmpty(a.allowed[i]).Some? :: AllowedKey(g, a.id, i) in t
    ensures LocalizeAllowed(g, a, t, n).Some?
  {
    if n > 0 {
      AllowedIsLocalized(g, a, t, n - 1);
    }
  }

  lemma CarriedIsLocalized(entries: Entries, g: int, a: Attribute, t: Texts)
    requires AttributeCarried(entries, g, a) && Keys(entries) <= t.Keys
    ensures LocalizeAttribute(g, a, t).Some?
  {
    forall f | f in PresentFields(a) ensures FieldKey(g, a.id, f) in t {
      assert Carries(entries, FieldKey(g, a.id, f), a.fields[f], FieldContext(f));
      assert FieldKey(g, a.id, f) in Keys(entries);
    }
    forall i | 0 <= i < |a.allowed| && NonEmpty(a.allowed[i]).Some? ensures AllowedKey(g, a.id, i) in t {
      assert Carries(entries, AllowedKey(g, a.id, i), a.allowed[i], AllowedContext);
      assert AllowedKey(g, a.id, i) in Keys(entries);
    }
    AllowedIsLocalized(g, a, t, |a.allowed|);
  }

  // ---- command_collect ----

  datatype CollectError =
    | DuplicateKeys | FailedRequests(count: nat) | Retry(error: RetryError) | StillMissing | MissingKey

  predicate CategoriesNamed(cat: Catalog) {
    forall c | c in cat.categories :: exists d | d in cat.categories :: d.id == c.id && NonEmpty(d.name).Some?
  }

  predicate GroupsNamed(cat: Catalog) {
    && (forall c | c in cat.categories :: Named(cat, c.groupId))
    && (forall g | g in cat.groups :: Named(cat, g.id))
  }

  function ExpectedKeys(chunks: seq<Entries>): (expected: Expected)
    ensures |expected| == |chunks|
  {
    seq(|chunks|, i requires 0 <= i < |chunks| => Keys(chunks[i]))
  }

  lemma {:induction false} ChunkKeys(chunks: seq<Entries>, n: nat)
    requires n <= |chunks|
    ensures AllExpected(ExpectedKeys(chunks), n) == Keys(Flatten(chunks[..n]))
  {
    if n > 0 {
      ChunkKeys(chunks, n - 1);
      assert chunks[..n] == chunks[..n - 1] + [chunks[n - 1]];
      FlattenAppend(chunks[..n - 1], chunks[n - 1]);
      KeysAppend(Flatten(chunks[..n - 1]), chunks[n - 1]);
    }
  }

  lemma {:induction false} CardinalityOfKeys(entries: Entries)
    requires DistinctKeys(entries)
    ensures |Keys(entries)| == |entries|
  {
    if entries != [] {
      var front, e := entries[..|entries| - 1], entries[|entries| - 1];
      CardinalityOfKeys(front);
      assert entries == front + [e];
      KeysAppend(front, [e]);
      KeyOfOne(e);
      assert e.key !in Keys(front);
    }
  }

  // The final translations: every destination entry gets its source string's text.
  function Final(resolved: seq<Resolved>, t: Texts): Texts
    requires forall i | 0 <= i < |resolved| :: resolved[i].translationKey in t
    requires forall i, j | 0 <= i < j < |resolved| :: resolved[i].entry.key != resolved[j].entry.key
  {
    map i | 0 <= i < |resolved| :: resolved[i].entry.key := t[resolved[i].translationKey]
  }

  // ---- collecting one text for every unique entry ----

  predicate Clean(lines: seq<Line>, expected: Expected) {
    |BatchFailures(lines, expected)| == 0
  }

  // The collection succeeds: nothing has failed, or the repair brings all that has.
  predicate Collected(lines: seq<Line>, expected: Expected, repair: bool, order: seq<Key>, respond: nat -> RetryResponse) {
    Clean(lines, expected) || (repair && order != [] && RepairAnswered(|order|, Chunks(|order|), respond))
  }

  function CollectedTexts(lines: seq<Line>, expected: Expected, order: seq<Key>, respond: nat -> RetryResponse): Texts {
    if Clean(lines, expected) then LinesTexts(lines, expected)
    else LinesTexts(lines, expected) + Recovery(order, respond, |order|)
  }

  // The requests carry the unique entries in legal chunks.
  predicate Sends(chunks: seq<Entries>, unique: Entries, keyLen: Key -> nat) {
    Flatten(chunks) == unique && AllLegal(chunks, keyLen) && Greedy(chunks, keyLen)
  }

  predicate Covers(t: Texts, keys: set<Key>) {
    t.Keys == keys && NonBlankTexts(t)
  }

  lemma CleanIsComplete(lines: seq<Line>, expected: Expected, order: seq<Key>, respond: nat -> RetryResponse)
    requires Clean(lines, expected)
    ensures Covers(CollectedTexts(lines, expected, order, respond), AllExpected(expected, |expected|))
  {
    BatchIsAccounted(lines, expected);
  }

  lemma RepairedIsComplete(lines: seq<Line>, expected: Expected, order: seq<Key>, respond: nat -> RetryResponse)
    requires Lists(order, RetryKeys(BatchFailures(lines, expected))) && RepairAnswered(|order|, Chunks(|order|), respond)
    ensures Covers(LinesTexts(lines, expected) + Recovery(order, respond, |order|), AllExpected(expected, |expected|))
  {
    var keys := RetryKeys(BatchFailures(lines, expected));
    BatchIsAccounted(lines, expected);
    RepairIsComplete(order, keys, respond);
    JoinTexts(LinesTexts(lines, expected), Recovery(order, respond, |order|), keys, AllExpected(expected, |expected|));
  }

  lemma RepairedCollects(lines: seq<Line>, expected: Expected, order: seq<Key>, respond: nat -> RetryResponse)
    requires !Clean(lines, expected)
    ensures CollectedTexts(lines, expected, order, respond) == LinesTexts(lines, expected) + Recovery(order, respond, |order|)
  {
  }

  lemma {:induction false} CollectedIsComplete(lines: seq<Line>, expected: Expected, repair: bool, order: seq<Key>, respond: nat -> RetryResponse)
    requires Lists(order, RetryKeys(BatchFailures(lines, expected))) && Collected(lines, expected, repair, order, respond)
    ensures Covers(CollectedTexts(lines, expected, order, respond), AllExpected(expected, |expected|))
  {
    if Clean(lines, expected) {
      CleanIsComplete(lines, expected, order, respond);
    } else {
      RepairedCollects(lines, expected, order, respond);
      RepairedIsComplete(lines, expected, order, respond);
    }
  }

  lemma JoinTexts(a: Texts, b: Texts, keys: set<Key>, all: set<Key>)
    requires NonBlankTexts(a) && NonBlankTexts(b) && a.Keys + keys == all && b.Keys == keys
    ensures Covers(a + b, all)
  {
  }

  lemma NothingListed(order: seq<Key>, keys: set<Key>)
    requires Lists(order, keys)
    ensures order == [] <==> keys == {}
  {
    if order != [] {
      assert order[0] in Listed(order);
    }
  }

  // The repair of a batch can only fail for want of a retryable key or of a chunk's answer.
  lemma RepairFails(unique: Entries, lines: seq<Line>, expected: Expected, order: seq<Key>, respond: nat -> RetryResponse)
    requires AllExpected(expected, |expected|) == Keys(unique) && Lists(order, RetryKeys(BatchFailures(lines, expected)))
    requires !Clean(lines, expected)
    ensures RetryKeys(BatchFailures(lines, expected)) <= Keys(unique)
    ensures Collected(lines, expected, true, order, respond)
            <==> RetryKeys(BatchFailures(lines, expected)) != {} && RepairAnswered(|order|, Chunks(|order|), respond)
  {
    BatchIsAccounted(lines, expected);
    NothingListed(order, RetryKeys(BatchFailures(lines, expected)));
  }

  predicate FromLine(lines: seq<Line>, expected: Expected, k: Key, text: string) {
    exists i: nat | i < |lines| :: LastGiver(lines, expected, i, k) && LineTexts(lines[i], expected)[k] == text
  }

  predicate FromRepair(order: seq<Key>, respond: nat -> RetryResponse, k: Key, text: string) {
    exists i: nat | i < |order| :: order[i] == k && AliasText(respond, i) == Some(text)
  }

  // Every collected text answers its own source: it comes from the repair answer to the key's
  // alias if the key was retried, and else from the last line that gave the key a text.
  lemma TextOrigin(lines: seq<Line>, expected: Expected, repair: bool, order: seq<Key>, respond: nat -> RetryResponse, k: Key)
    requires Lists(order, RetryKeys(BatchFailures(lines, expected))) && Collected(lines, expected, repair, order, respond)
    requires k in CollectedTexts(lines, expected, order, respond)
    ensures var text := CollectedTexts(lines, expected, order, respond)[k];
            if k in order then FromRepair(order, respond, k, text) else FromLine(lines, expected, k, text)
  {
    if !Clean(lines, expected) {
      RepairGivesAliasTexts(order, respond);
    }
    if k in order {
      RetriedOnlyAfterFailure(lines, expected, k);
      var i: nat :| i < |order| && order[i] == k;
    } else {
      var i := LastGiverWins(lines, expected, k);
    }
  }

  lemma RetriedOnlyAfterFailure(lines: seq<Line>, expected: Expected, k: Key)
    requires k in RetryKeys(BatchFailures(lines, expected))
    ensures !Clean(lines, expected)
  {
  }

  // Sending the unique entries and reading the answers back: there is one non-blank text for
  // every unique entry exactly when nothing has failed or the repair is complete, so the count
  // check after the repair never fires.
  method CollectTexts(unique: Entries, lines: seq<Line>, repair: bool, respond: nat -> RetryResponse, keyLen: Key -> nat)
    returns (r: Result<Texts, CollectError>, ghost chunks: seq<Entries>, ghost order: seq<Key>)
    requires DistinctKeys(unique)
    ensures Sends(chunks, unique, keyLen) && Lists(order, RetryKeys(BatchFailures(lines, ExpectedKeys(chunks))))
    ensures r.Ok? <==> Collected(lines, ExpectedKeys(chunks), repair, order, respond)
    ensures r.Ok? ==> r.value == CollectedTexts(lines, ExpectedKeys(chunks), order, respond)
    ensures r.Ok? ==> r.value.Keys == Keys(unique) && NonBlankTexts(r.value)
    ensures r.Err? ==> r.error == FailedRequests(|BatchFailures(lines, ExpectedKeys(chunks))|) || r.error.Retry?
    ensures r.Err? ==> r.error.FailedRequests? == !repair
  {
    var sent := ChunkEntries(unique, keyLen);
    chunks := sent;
    SentKeys(sent, unique);
    var t, failures := ReadBatchTranslations(lines, ExpectedKeys(sent));
    r, order := RepairTexts(unique, lines, ExpectedKeys(sent), t, failures, repair, respond);
  }

  lemma SentKeys(chunks: seq<Entries>, unique: Entries)
    requires Flatten(chunks) == unique
    ensures AllExpected(ExpectedKeys(chunks), |ExpectedKeys(chunks)|) == Keys(unique)
  {
    ChunkKeys(chunks, |chunks|);
    assert chunks[..|chunks|] == chunks;
  }

  method RepairTexts(unique: Entries, ghost lines: seq<Line>, ghost expected: Expected, t: Texts, failures: Failures,
                     repair: bool, respond: nat -> RetryResponse)
    returns (r: Result<Texts, CollectError>, ghost order: seq<Key>)
    requires DistinctKeys(unique) && AllExpected(expected, |expected|) == Keys(unique)
    requires t == LinesTexts(lines, expected) && failures == BatchFailures(lines, expected)
    ensures Lists(order, RetryKeys(failures))
    ensures r.Ok? <==> Collected(lines, expected, repair, order, respond)
    ensures r.Ok? ==> r.value == CollectedTexts(lines, expected, order, respond)
    ensures r.Ok? ==> r.value.Keys == Keys(unique) && NonBlankTexts(r.value)
    ensures r.Err? ==> r.error == FailedRequests(|failures|) || r.error.Retry?
    ensures r.Err? ==> r.error.FailedRequests? == !repair
  {
    if failures == [] {
      order := [];
      CollectedIsComplete(lines, expected, repair, order, respond);
      r := CheckCount(unique, t);
      return;
    }
    if !repair {
      var listed := KeysInOrder(RetryKeys(failures));
      return Err(FailedRequests(|failures|)), listed;
    }
    var recovered, listed := RetryMissing(unique, failures, respond);
    order := listed;
    RepairFails(unique, lines, expected, order, respond);
    if recovered.Err? {
      return Err(Retry(recovered.error)), order;
    }
    CollectedIsComplete(lines, expected, repair, order, respond);
    r := CheckCount(unique, t + recovered.value);
  }

  // The count check after the repair: it would raise on a missing text, and never does.
  method CheckCount(unique: Entries, t: Texts) returns (r: Result<Texts, CollectError>)
    requires DistinctKeys(unique) && t.Keys == Keys(unique)
    ensures r == Ok(t)
  {
    CardinalityOfKeys(unique);
    assert |t| == |t.Keys|;
    r := if |t| != |unique| then Err(StillMissing) else Ok(t);
  }

  predicate SameSourceSameText(entries: Entries, final: Texts)
    requires Keys(entries) <= final.Keys
  {
    forall e, f | e in entries && f in entries && SourceOf(e) == SourceOf(f) ::
      e.key in final && f.key in final && final[e.key] == final[f.key]
  }

  // The texts of the entries are those collected for their sources.
  predicate FinalOf(entries: Entries, t: Texts, final: Texts) {
    final.Keys == Keys(entries) && forall e | e in entries :: e.key in final && SourceOf(e) in t && final[e.key] == t[SourceOf(e)]
  }

  // The localized catalogue is made of these texts.
  ghost predicate Assembled(cat: Catalog, final: Texts, output: Localized) {
    CategoriesLocalized(cat.categories, |cat.categories|, final, output.groupNames, output.categories)
    && LocalizedGroups(cat.groups, final) == Some(output.groups)
  }

  predicate AllNamed(cat: Catalog) {
    CategoriesNamed(cat) && GroupsNamed(cat)
  }

  // The whole collection succeeds if and only if the keys are distinct, the texts could be
  // collected and all categories and groups are named. Each entry then has the non-blank text
  // collected for its source, and the output is assembled from these texts.
  method Collect(cat: Catalog, lines: seq<Line>, repair: bool, respond: nat -> RetryResponse, keyLen: Key -> nat)
    returns (r: Result<Localized, CollectError>, final: Texts, ghost chunks: seq<Entries>, ghost order: seq<Key>)
    ensures r == Err(DuplicateKeys) <==> !DistinctKeys(AllEntries(cat))
    ensures r != Err(DuplicateKeys) ==>
              Sends(chunks, Unique(AllEntries(cat)), keyLen) && Lists(order, RetryKeys(BatchFailures(lines, ExpectedKeys(chunks))))
    ensures r.Ok? <==> r != Err(DuplicateKeys) && Collected(lines, ExpectedKeys(chunks), repair, order, respond) && AllNamed(cat)
    ensures r == Err(MissingKey) <==>
              r != Err(DuplicateKeys) && Collected(lines, ExpectedKeys(chunks), repair, order, respond) && !AllNamed(cat)
    ensures r.Ok? || r == Err(MissingKey) ==>
              && FinalOf(AllEntries(cat), CollectedTexts(lines, ExpectedKeys(chunks), order, respond), final)
              && NonBlankTexts(final) && SameSourceSameText(AllEntries(cat), final)
    ensures r.Ok? ==> Assembled(cat, final, r.value)
    ensures r != Err(StillMissing)
  {
    final, chunks, order := map[], [], [];
    var built := BuildEntries(cat);
    if built.None? {
      return Err(DuplicateKeys), final, [], [];
    }
    var entries := built.value;
    var resolved, unique := DeduplicateEntries(entries);
    UniqueCovers(entries);
    var texts;
    texts, chunks, order := CollectTexts(unique, lines, repair, respond, keyLen);
    if texts.Err? {
      return Err(texts.error), final, chunks, order;
    }
    r, final := Assemble(cat, entries, resolved, texts.value);
  }

  method Assemble(cat: Catalog, entries: Entries, resolved: seq<Resolved>, t: Texts) returns (r: Result<Localized, CollectError>, final: Texts)
    requires entries == AllEntries(cat) && DistinctKeys(entries) && AllResolved(entries, resolved) && NonBlankTexts(t)
    requires t.Keys == set e | e in entries :: SourceOf(e)
    ensures FinalOf(entries, t, final) && NonBlankTexts(final) && SameSourceSameText(entries, final)
    ensures r.Ok? <==> AllNamed(cat)
    ensures r.Err? ==> r.error == MissingKey
    ensures r.Ok? ==> Assembled(cat, final, r.value)
  {
    EntriesAreResolved(entries, resolved, t);
    final := Final(resolved, t);
    FinalCovers(entries, resolved, t);
    var output := BuildOutput(cat, final);
    AssemblyNeedsNames(cat, final);
    r := if output.Some? then Ok(output.value) else Err(MissingKey);
  }

  lemma EntriesAreResolved(entries: Entries, resolved: seq<Resolved>, t: Texts)
    requires DistinctKeys(entries) && AllResolved(entries, resolved)
    requires t.Keys == set e | e in entries :: SourceOf(e)
    ensures forall i | 0 <= i < |resolved| :: resolved[i].translationKey in t
    ensures forall i, j | 0 <= i < j < |resolved| :: resolved[i].entry.key != resolved[j].entry.key
  {
    forall i | 0 <= i < |resolved| ensures resolved[i].translationKey in t {
      assert entries[i] in entries;
    }
  }

  lemma FinalCovers(entries: Entries, resolved: seq<Resolved>, t: Texts)
    requires DistinctKeys(entries) && |resolved| == |entries| && NonBlankTexts(t)
    requires forall i | 0 <= i < |entries| :: resolved[i] == Resolved(entries[i], SourceOf(entries[i])) && SourceOf(entries[i]) in t
    ensures FinalOf(entries, t, Final(resolved, t)) && NonBlankTexts(Final(resolved, t))
    ensures SameSourceSameText(entries, Final(resolved, t))
  {
    var final := Final(resolved, t);
    forall e | e in entries ensures e.key in final && final[e.key] == t[SourceOf(e)] {
      var i :| 0 <= i < |entries| && entries[i] == e;
      assert resolved[i].entry.key in final;
    }
  }

  // Attribute texts are never missing: only names can be.
  lemma AttributesAreFound(cat: Catalog, t: Texts)
    requires t.Keys == Keys(AllEntries(cat))
    ensures forall g | g in cat.groups :: LocalizedAttributes(g, t).Some?
  {
    ExtractedKeys(cat);
    forall g | g in cat.groups ensures LocalizedAttributes(g, t).Some? {
      forall i | 0 <= i < |g.attributes| ensures LocalizeAttribute(g.id, g.attributes[i], t).Some? {
        CarriedIsLocalized(AllEntries(cat), g.id, g.attributes[i], t);
      }
      DictNeedsAll(g.attributes, AttributeId(), AttributeLocalizer(g.id, t), |g.attributes|);
    }
  }

  lemma FoundMeansNamed(cat: Catalog, t: Texts)
    requires t.Keys == Keys(AllEntries(cat))
    ensures (forall c | c in cat.categories :: CategoryFound(c, t)) && (forall g | g in cat.groups :: GroupKey(g.id) in t)
            <==> CategoriesNamed(cat) && GroupsNamed(cat)
  {
    ExtractedKeys(cat);
  }

  // Assembly finds every key exactly when all categories and groups it looks up are named.
  lemma AssemblyNeedsNames(cat: Catalog, t: Texts)
    requires t.Keys == Keys(AllEntries(cat))
    ensures AllFound(cat, t) <==> CategoriesNamed(cat) && GroupsNamed(cat)
  {
    AttributesAreFound(cat, t);
    FoundMeansNamed(cat, t);
  }
}
