// From the source catalogue to the localized one: where every text of the output comes from.
module TranslationOutput {
  import opened Common
  import opened Chunking
  import opened Translation
  import opened TranslationBatch
  import opened TranslationCollect

  // A raw text counts when anything is left of it between the blanks, and then as what is left.
  lemma NonEmptySays(left: string, s: string, right: string)
    requires AllSpace(left) && AllSpace(right) && Bare(s)
    ensures NonEmpty(Text(left + s + right)) == (if s == "" then None else Some(s)) && NonEmpty(NotText).None?
  {
    StripSays(left, s, right);
  }

  // ---- names ----

  // The first category of the group that names it, else the first group that does.
  function NameInCategories(categories: seq<Category>, id: int): Option<string> {
    if categories == [] then None
    else if categories[0].groupId == id && NonEmpty(categories[0].groupName).Some? then NonEmpty(categories[0].groupName)
    else NameInCategories(categories[1..], id)
  }

  function NameInGroups(groups: seq<Group>, id: int): Option<string> {
    if groups == [] then None
    else if groups[0].id == id && NonEmpty(groups[0].name).Some? then NonEmpty(groups[0].name)
    else NameInGroups(groups[1..], id)
  }

  function GroupNameOf(cat: Catalog, id: int): Option<string> {
    if NameInCategories(cat.categories, id).Some? then NameInCategories(cat.categories, id) else NameInGroups(cat.groups, id)
  }

  lemma {:induction false} NameInCategoriesAppend(front: seq<Category>, c: Category, id: int)
    ensures NameInCategories(front + [c], id)
            == if NameInCategories(front, id).Some? then NameInCategories(front, id)
               else if c.groupId == id then NonEmpty(c.groupName) else None
  {
    if front == [] {
      assert ([] + [c])[1..] == [];
    } else {
      assert (front + [c])[1..] == front[1..] + [c];
      NameInCategoriesAppend(front[1..], c, id);
    }
  }

  lemma {:induction false} NameInGroupsAppend(front: seq<Group>, g: Group, id: int)
    ensures NameInGroups(front + [g], id)
            == if NameInGroups(front, id).Some? then NameInGroups(front, id)
               else if g.id == id then NonEmpty(g.name) else None
  {
    if front == [] {
      assert ([] + [g])[1..] == [];
    } else {
      assert (front + [g])[1..] == front[1..] + [g];
      NameInGroupsAppend(front[1..], g, id);
    }
  }

  lemma {:induction false} NamedByFirstCategory(categories: seq<Category>, id: int)
    ensures id in NamedByCategories(categories) <==> NameInCategories(categories, id).Some?
    ensures NameInCategories(categories, id).Some? ==>
              Entry(GroupKey(id), NameInCategories(categories, id).value, GroupContext) in CategoryEntries(categories)
  {
    if categories != [] {
      var front, c := categories[..|categories| - 1], categories[|categories| - 1];
      assert front + [c] == categories;
      NamedByFirstCategory(front, id);
      NameInCategoriesAppend(front, c, id);
    }
  }

  lemma {:induction false} NamedByFirstGroup(groups: seq<Group>, seen: set<int>, id: int)
    ensures id in NamedByGroups(groups) <==> NameInGroups(groups, id).Some?
    ensures NameInGroups(groups, id).Some? && id !in seen ==>
              Entry(GroupKey(id), NameInGroups(groups, id).value, GroupContext) in GroupsEntries(groups, seen)
  {
    if groups != [] {
      var front, g := groups[..|groups| - 1], groups[|groups| - 1];
      assert front + [g] == groups;
      NamedByFirstGroup(front, seen, id);
      NameInGroupsAppend(front, g, id);
    }
  }

  lemma GroupNameIsExtracted(cat: Catalog, id: int)
    requires GroupNameOf(cat, id).Some?
    ensures Entry(GroupKey(id), GroupNameOf(cat, id).value, GroupContext) in AllEntries(cat)
  {
    NamedByFirstCategory(cat.categories, id);
    NamedByFirstGroup(cat.groups, NamedByCategories(cat.categories), id);
  }

  lemma {:induction false} CategoryIsExtracted(categories: seq<Category>, c: Category)
    requires c in categories && NonEmpty(c.name).Some?
    ensures Entry(CategoryKey(c.id), NonEmpty(c.name).value, CategoryContext) in CategoryEntries(categories)
  {
    var front, last := categories[..|categories| - 1], categories[|categories| - 1];
    assert categories == front + [last];
    if c != last {
      CategoryIsExtracted(front, c);
    }
  }

  lemma GroupKeyIsNamed(cat: Catalog, id: int)
    requires GroupKey(id) in Keys(AllEntries(cat))
    ensures GroupNameOf(cat, id).Some?
  {
    ExtractedKeys(cat);
    NamedByCategoriesMeans(cat.categories, id);
    NamedByGroupsMeans(cat.groups, id);
    NamedByFirstCategory(cat.categories, id);
    NamedByFirstGroup(cat.groups, {}, id);
  }

  // ---- the texts of the output ----

  // The text collected for a source string in its context.
  predicate TextOf(u: Texts, source: string, context: string, text: string) {
    SourceKey(source, context) in u && u[SourceKey(source, context)] == text
  }

  predicate AllowedTranslated(a: Attribute, u: Texts, allowed: seq<AllowedText>) {
    && |allowed| == |a.allowed|
    && forall i | 0 <= i < |a.allowed| ::
         if NonEmpty(a.allowed[i]).None? then allowed[i] == Kept(a.allowed[i])
         else allowed[i].Translated? && TextOf(u, NonEmpty(a.allowed[i]).value, AllowedContext, allowed[i].text)
  }

  predicate AttributeTranslated(a: Attribute, u: Texts, local: LocalAttribute) {
    && (forall f :: f in local.fields <==> f in a.fields && NonEmpty(a.fields[f]).Some?)
    && (forall f | f in local.fields :: TextOf(u, NonEmpty(a.fields[f]).value, FieldContext(f), local.fields[f]))
    && AllowedTranslated(a, u, local.allowed)
  }

  lemma EntryText(entries: Entries, u: Texts, final: Texts, e: Entry<Key>)
    requires FinalOf(entries, u, final) && e in entries
    ensures e.key in final && TextOf(u, e.text, e.context, final[e.key])
  {
    assert SourceOf(e) in u && final[e.key] == u[SourceOf(e)];
  }

  lemma AllowedIsTranslated(entries: Entries, u: Texts, final: Texts, g: int, a: Attribute, allowed: seq<AllowedText>)
    requires FinalOf(entries, u, final) && AttributeCarried(entries, g, a) && AllowedSays(g, a, final, allowed)
    ensures AllowedTranslated(a, u, allowed)
  {
    forall i | 0 <= i < |a.allowed| && NonEmpty(a.allowed[i]).Some?
      ensures allowed[i].Translated? && TextOf(u, NonEmpty(a.allowed[i]).value, AllowedContext, allowed[i].text)
    {
      assert Carries(entries, AllowedKey(g, a.id, i), a.allowed[i], AllowedContext);
      EntryText(entries, u, final, Entry(AllowedKey(g, a.id, i), NonEmpty(a.allowed[i]).value, AllowedContext));
    }
  }

  lemma AttributeIsTranslated(entries: Entries, u: Texts, final: Texts, g: int, a: Attribute, local: LocalAttribute)
    requires FinalOf(entries, u, final) && AttributeCarried(entries, g, a) && AttributeSays(g, a, final, local)
    ensures AttributeTranslated(a, u, local)
  {
    AllowedIsTranslated(entries, u, final, g, a, local.allowed);
    forall f | f in local.fields ensures TextOf(u, NonEmpty(a.fields[f]).value, FieldContext(f), local.fields[f]) {
      assert Carries(entries, FieldKey(g, a.id, f), a.fields[f], FieldContext(f));
      EntryText(entries, u, final, Entry(FieldKey(g, a.id, f), NonEmpty(a.fields[f]).value, FieldContext(f)));
    }
  }

  // Main result, for a collection that succeeded: under the id of the last group that carries it
  // and the id of its last attribute that does, the output has exactly the non-blank fields and all
  // allowed values in their order, each with the text collected for its own source string.
  lemma AttributeOutput(cat: Catalog, u: Texts, final: Texts, output: Localized, gid: int, aid: int)
    returns (g: nat, a: nat)
    requires FinalOf(AllEntries(cat), u, final) && Assembled(cat, final, output)
    requires gid in output.groups && aid in output.groups[gid].attributes
    ensures g < |cat.groups| && cat.groups[g].id == gid && forall m | g < m < |cat.groups| :: cat.groups[m].id != gid
    ensures a < |cat.groups[g].attributes| && cat.groups[g].attributes[a].id == aid
    ensures forall m | a < m < |cat.groups[g].attributes| :: cat.groups[g].attributes[m].id != aid
    ensures AttributeTranslated(cat.groups[g].attributes[a], u, output.groups[gid].attributes[aid])
  {
    g := GivenGroup(cat.groups, final, gid);
    var group := cat.groups[g];
    assert GroupSays(group, final, output.groups[gid]);
    a :| AttributeGiven(group, a, final, aid, output.groups[gid].attributes[aid]);
    ExtractedKeys(cat);
    assert group in cat.groups && group.attributes[a] in group.attributes;
    AttributeIsTranslated(AllEntries(cat), u, final, gid, group.attributes[a], output.groups[gid].attributes[aid]);
  }

  // Group and category names are the texts collected for the names in the catalogue, for a group
  // the first one that is not blank.
  lemma NameOutput(cat: Catalog, u: Texts, final: Texts, output: Localized, id: int)
    requires FinalOf(AllEntries(cat), u, final) && Assembled(cat, final, output)
    ensures id in output.groupNames ==>
              GroupNameOf(cat, id).Some? && TextOf(u, GroupNameOf(cat, id).value, GroupContext, output.groupNames[id])
    ensures id in output.groups ==>
              GroupNameOf(cat, id).Some? && TextOf(u, GroupNameOf(cat, id).value, GroupContext, output.groups[id].name)
    ensures forall c | c in cat.categories && c.id == id && NonEmpty(c.name).Some? ::
              id in output.categories && TextOf(u, NonEmpty(c.name).value, CategoryContext, output.categories[id])
  {
    if id in output.groupNames || id in output.groups {
      if id in output.groups {
        var g := GivenGroup(cat.groups, final, id);
        assert GroupSays(cat.groups[g], final, output.groups[id]);
      }
      GroupKeyIsNamed(cat, id);
      GroupNameIsExtracted(cat, id);
      EntryText(AllEntries(cat), u, final, Entry(GroupKey(id), GroupNameOf(cat, id).value, GroupContext));
    }
    forall c | c in cat.categories && c.id == id && NonEmpty(c.name).Some?
      ensures id in output.categories && TextOf(u, NonEmpty(c.name).value, CategoryContext, output.categories[id])
    {
      CategoryIsExtracted(cat.categories, c);
      EntryText(AllEntries(cat), u, final, Entry(CategoryKey(id), NonEmpty(c.name).value, CategoryContext));
    }
  }

  predicate HasAttributes(cat: Catalog, n: nat, id: int, local: LocalGroup) {
    && n < |cat.groups| && cat.groups[n].id == id
    && forall i | 0 <= i < |cat.groups[n].attributes| :: cat.groups[n].attributes[i].id in local.attributes
  }

  // Nothing is left out: every category, every group and every attribute has its place.
  lemma OutputIsComplete(cat: Catalog, final: Texts, output: Localized)
    requires Assembled(cat, final, output)
    ensures forall c | c in cat.categories :: c.groupId in output.groupNames && c.id in output.categories
    ensures forall g | g in cat.groups :: g.id in output.groups
    ensures forall id | id in output.groups :: exists n :: HasAttributes(cat, n, id, output.groups[id])
  {
    LocalizedGroupsSay(cat.groups, final);
    forall id | id in output.groups ensures exists n :: HasAttributes(cat, n, id, output.groups[id]) {
      var n := GivenGroup(cat.groups, final, id);
      assert GroupSays(cat.groups[n], final, output.groups[id]);
      assert HasAttributes(cat, n, id, output.groups[id]);
    }
  }
}
