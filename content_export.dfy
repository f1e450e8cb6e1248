/**
 * The export of one page as JSON for editing
 * (backend/src/api/content-export/controllers/content-export.ts, `exportPageBySlug`):
 * the page found by slug and locale becomes an object with the page's identity, its two
 * SEO texts with their length limits, and one record per section holding the current value
 * of every field an editor may rewrite.
 *
 * The CMS's pages are an input (the store the query runs over), and so is the time of
 * the export.
 */
module ContentExport {
  import opened Wrappers
  import opened Text

  /** A JavaScript value, as the CMS hands it over and as the export is sent back.
      A key mapped to `Undefined` is the same as a missing key. */
  datatype Js =
    | Undefined
    | Null
    | Bool(b: bool)
    | Num(n: int)
    | Str(s: string)
    | Arr(items: seq<Js>)
    | Obj(fields: map<string, Js>)

  /** `null` or `undefined`: reading a property of either throws */
  predicate Nullish(v: Js) {
    v == Undefined || v == Null
  }

  /** JavaScript truthiness */
  predicate JsTruthy(v: Js) {
    match v
    case Undefined => false
    case Null => false
    case Bool(b) => b
    case Num(n) => n != 0
    case Str(s) => s != []
    case _ => true
  }

  /** `v || d` */
  function Or(v: Js, d: Js): (r: Js)
    ensures JsTruthy(v) ==> r == v
    ensures !JsTruthy(v) ==> r == d
  {
    if JsTruthy(v) then v else d
  }

  /** `v[f]` of a value whose properties can be read; `undefined` when it has none */
  function Prop(v: Js, f: string): Js {
    if v.Obj? && f in v.fields then v.fields[f] else Undefined
  }

  /** `{ current_value: v }` */
  function CurrentValue(v: Js): Js {
    Obj(map["current_value" := v])
  }

  /** An evaluation that either throws or gives a value */
  datatype Attempt<T> = Throws | Done(value: T)

  /** The fields copied from every section */
  const BasicNames: seq<string> := ["title", "subtitle", "content", "buttonText", "buttonLink", "description"]

  /** The basic fields of a section: each one that is neither `undefined` nor `null`, as
      its current value, a falsy one as `''` */
  function BasicFields(names: seq<string>, section: Js): (m: map<string, Js>)
    ensures forall f :: f in m <==> f in names && !Nullish(Prop(section, f))
    ensures forall f :: f in m ==> m[f] == CurrentValue(Or(Prop(section, f), Str("")))
  {
    if names == [] then map[]
    else
      var f := names[|names| - 1];
      var m := BasicFields(names[..|names| - 1], section);
      assert forall g :: g in names <==> g in names[..|names| - 1] || g == f;
      if Nullish(Prop(section, f)) then m else m[f := CurrentValue(Or(Prop(section, f), Str("")))]
  }

  /** The fields of one item of a nested list: every name, as its current value or `''` */
  function ItemFields(names: seq<string>, item: Js): (m: map<string, Js>)
    ensures forall f :: f in m <==> f in names
    ensures forall f :: f in m ==> m[f] == CurrentValue(Or(Prop(item, f), Str("")))
  {
    if names == [] then map[]
    else
      var f := names[|names| - 1];
      assert forall g :: g in names <==> g in names[..|names| - 1] || g == f;
      ItemFields(names[..|names| - 1], item)[f := CurrentValue(Or(Prop(item, f), Str("")))]
  }

  /** The nested list of a component: the section's field, the export's field and the
      fields of each item copied as they are */
  datatype NestedList = NestedList(source: string, target: string, names: seq<string>)

  function NestedListOf(component: string): Option<NestedList> {
    if component == "sections.services-grid" then Some(NestedList("items", "services", ["title", "description"]))
    else if component == "sections.metrics-grid" then Some(NestedList("metrics", "metrics", ["number", "label"]))
    else if component == "sections.testimonial-carousel" then
      Some(NestedList("testimonial", "testimonials", ["name", "position", "company", "content", "rating"]))
    else if component == "sections.case-carousel" then
      Some(NestedList("cases", "cases", ["title", "description", "company", "industry", "result"]))
    else if component == "sections.playbook" then Some(NestedList("steps", "steps", ["title", "description"]))
    else None
  }

  /** The export of item `i` of a nested list. A service's icon is its URL, or `null`
      without an icon; a playbook step without a number is numbered from 1. */
  function ItemRecord(component: string, names: seq<string>, item: Js, i: nat): Js {
    var m := ItemFields(names, item);
    if component == "sections.services-grid" then
      var icon := Prop(item, "icon");
      Obj(m["icon" := if JsTruthy(icon) then CurrentValue(Or(Prop(icon, "url"), Str(""))) else Null])
    else if component == "sections.playbook" then
      Obj(m["number" := CurrentValue(Or(Prop(item, "number"), Str(NatToString(i + 1))))])
    else Obj(m)
  }

  /** The `map` over a nested list; an item that is `null` or `undefined` throws */
  function Items(component: string, names: seq<string>, items: seq<Js>): (r: Attempt<seq<Js>>)
    ensures r.Done? <==> forall i :: 0 <= i < |items| ==> !Nullish(items[i])
    ensures r.Done? ==> |r.value| == |items|
    ensures r.Done? ==> forall i :: 0 <= i < |items| ==> r.value[i] == ItemRecord(component, names, items[i], i)
  {
    if items == [] then Done([])
    else
      var n := |items|;
      assert forall i :: 0 <= i < n - 1 ==> items[..n - 1][i] == items[i];
      match Items(component, names, items[..n - 1])
      case Throws => Throws
      case Done(rs) =>
        if Nullish(items[n - 1]) then Throws
        else
          var extended := rs + [ItemRecord(component, names, items[n - 1], n - 1)];
          assert forall i :: 0 <= i < n - 1 ==> extended[i] == rs[i];
          Done(extended)
  }

  /** `section_<i + 1>_<component without its first "sections.">` */
  function SectionKey(index: nat, component: string): string {
    "section_" + NatToString(index + 1) + "_" + ReplaceFirst(component, "sections.", "")
  }

  /** The names the export adds to a section never clash with its basic fields */
  lemma ReservedNames(component: string)
    ensures "component_type" !in BasicNames
    ensures NestedListOf(component).Some? ==>
              NestedListOf(component).value.target !in BasicNames
              && NestedListOf(component).value.target != "component_type"
  {
  }

  /** The key and the record of section `index`. A section without a string `__component`
      throws. */
  function SectionRecord(section: Js, index: nat): (r: Attempt<(string, Js)>)
    ensures r.Done? <==> Prop(section, "__component").Str? && Nested(section).Done?
    ensures r.Done? ==> r.value.0 == SectionKey(index, Prop(section, "__component").s)
  {
    var component := Prop(section, "__component");
    if !component.Str? then Throws
    else
      var base := BasicFields(BasicNames, section)["component_type" := component];
      match Nested(section)
      case Throws => Throws
      case Done(extra) =>
        var fields := if extra.Some? then base[extra.value.0 := extra.value.1] else base;
        Done((SectionKey(index, component.s), Obj(fields)))
  }

  /** A section's record names its component, holds each basic field that is neither
      `undefined` nor `null` as its current value (`''` when falsy) and no other, and holds
      the nested list when the section has one */
  lemma SectionFields(section: Js, index: nat)
    requires SectionRecord(section, index).Done?
    ensures var record := SectionRecord(section, index).value.1;
            && record.Obj?
            && Prop(record, "component_type") == Prop(section, "__component")
            && (forall f :: f in BasicNames ==>
                  Prop(record, f) == (if Nullish(Prop(section, f)) then Undefined
                                      else CurrentValue(Or(Prop(section, f), Str("")))))
            && (Nested(section).value.Some? ==>
                  Prop(record, Nested(section).value.value.0) == Nested(section).value.value.1)
  {
    var component := Prop(section, "__component");
    ReservedNames(component.s);
    var basic := BasicFields(BasicNames, section);
    var extra := Nested(section).value;
    assert extra.Some? ==> extra.value.0 == NestedListOf(component.s).value.target;
    assert forall f :: f in BasicNames ==> f != "component_type" && (extra.Some? ==> f != extra.value.0);
  }

  /** The list a section's nested list is built from, `undefined` when its component has
      none */
  function NestedSource(section: Js): Js {
    var c := Prop(section, "__component");
    if c.Str? && NestedListOf(c.s).Some? then Prop(section, NestedListOf(c.s).value.source) else Undefined
  }

  /** The nested list a section adds, if any: built only when the section's field is an
      array, with one record per item; an item that is `null` or `undefined` throws */
  function Nested(section: Js): (r: Attempt<Option<(string, Js)>>)
    ensures !NestedSource(section).Arr? ==> r == Done(None)
    ensures NestedSource(section).Arr? ==>
              (r.Done? <==> forall i :: 0 <= i < |NestedSource(section).items| ==> !Nullish(NestedSource(section).items[i]))
    ensures NestedSource(section).Arr? && r.Done? ==>
              && r.value.Some? && r.value.value.0 == NestedListOf(Prop(section, "__component").s).value.target
              && r.value.value.1.Arr? && |r.value.value.1.items| == |NestedSource(section).items|
  {
    var component := Prop(section, "__component");
    if !component.Str? || NestedListOf(component.s).None? then Done(None)
    else
      var spec := NestedListOf(component.s).value;
      var list := Prop(section, spec.source);
      if !list.Arr? then Done(None)
      else
        match Items(component.s, spec.names, list.items)
        case Throws => Throws
        case Done(rs) => Done(Some((spec.target, Arr(rs))))
  }

  /** The sections of the export: each record stored under its key, in order */
  function ExportedSections(sections: seq<Js>): Attempt<map<string, Js>> {
    if sections == [] then Done(map[])
    else
      var n := |sections|;
      match ExportedSections(sections[..n - 1])
      case Throws => Throws
      case Done(m) =>
        match SectionRecord(sections[n - 1], n - 1)
        case Throws => Throws
        case Done(kv) => Done(m[kv.0 := kv.1])
  }

  /** The `forEach` over the sections, each storing its record into the export */
  method ExportSections(sections: seq<Js>) returns (r: Attempt<map<string, Js>>)
    ensures r == ExportedSections(sections)
  {
    var exported: map<string, Js> := map[];
    for i := 0 to |sections|
      invariant ExportedSections(sections[..i]) == Done(exported)
    {
      assert sections[..i + 1][..i] == sections[..i];
      var record := SectionRecord(sections[i], i);
      if record.Throws? {
        ThrowPersists(sections, i + 1);
        return Throws;
      }
      exported := exported[record.value.0 := record.value.1];
    }
    assert sections[..|sections|] == sections;
    r := Done(exported);
  }

  /** Once a section throws, the whole loop does */
  lemma {:induction false} ThrowPersists(sections: seq<Js>, i: nat)
    requires i <= |sections| && ExportedSections(sections[..i]).Throws?
    ensures ExportedSections(sections).Throws?
    decreases |sections| - i
  {
    if i < |sections| {
      assert sections[..i + 1][..i] == sections[..i];
      ThrowPersists(sections, i + 1);
    } else {
      assert sections[..i] == sections;
    }
  }

  /** The second of four concatenated pieces */
  lemma Second<T>(x: seq<T>, y: seq<T>, z: seq<T>, w: seq<T>)
    ensures |x| + |y| <= |x + y + z + w|
    ensures (x + y + z + w)[|x|..|x| + |y|] == y
  {
    assert (x + y + z + w)[|x|..|x| + |y|] == (x + y)[|x|..];
  }

  /** Sections get different keys: the number before the second `_` tells them apart */
  lemma SectionKeysDistinct(i: nat, a: string, j: nat, b: string)
    requires SectionKey(i, a) == SectionKey(j, b)
    ensures i == j
  {
    var ni := NatToString(i + 1);
    var nj := NatToString(j + 1);
    KeyNumbersEqual(ni, ReplaceFirst(a, "sections.", ""), nj, ReplaceFirst(b, "sections.", ""));
    assert ni == nj;
    DecimalOfNatToString(i + 1);
    DecimalOfNatToString(j + 1);
    assert i + 1 == DecimalValue(ni) == DecimalValue(nj) == j + 1;
  }

  /** Two keys `section_<n>_<r>` with numbers of digits agree on their numbers */
  lemma KeyNumbersEqual(ni: string, ra: string, nj: string, rb: string)
    requires forall k :: 0 <= k < |ni| ==> IsDigit(ni[k])
    requires forall k :: 0 <= k < |nj| ==> IsDigit(nj[k])
    requires "section_" + ni + "_" + ra == "section_" + nj + "_" + rb
    ensures ni == nj
  {
    var ki := "section_" + ni + "_" + ra;
    Second("section_", ni, "_", ra);
    Second("section_", nj, "_", rb);
    UnderscoreAfterNumber(ni, ra);
    UnderscoreAfterNumber(nj, rb);
    FindCharIs(ki, '_', 8, 8 + |ni|);
    FindCharIs(ki, '_', 8, 8 + |nj|);
    assert |ni| == |nj|;
  }

  /** The records of two different sections have different keys */
  lemma RecordKeysDiffer(a: Js, i: nat, b: Js, j: nat)
    requires i != j && SectionRecord(a, i).Done? && SectionRecord(b, j).Done?
    ensures SectionRecord(a, i).value.0 != SectionRecord(b, j).value.0
  {
    if SectionRecord(a, i).value.0 == SectionRecord(b, j).value.0 {
      SectionKeysDistinct(i, Prop(a, "__component").s, j, Prop(b, "__component").s);
    }
  }

  /** In `section_<n>_<r>`, the first `_` after the prefix is the one after the number */
  lemma UnderscoreAfterNumber(n: string, r: string)
    requires forall k :: 0 <= k < |n| ==> IsDigit(n[k])
    ensures var key := "section_" + n + "_" + r;
            && 8 + |n| < |key| && key[8 + |n|] == '_'
            && forall k :: 8 <= k < 8 + |n| ==> key[k] != '_'
  {
    var key := "section_" + n + "_" + r;
    forall k | 8 <= k < 8 + |n| ensures key[k] != '_' {
      assert key[k] == n[k - 8];
    }
  }

  /** The export of the sections fails exactly when some section throws */
  lemma {:induction false} SectionsDoneIff(sections: seq<Js>)
    ensures ExportedSections(sections).Done? <==>
            forall i :: 0 <= i < |sections| ==> SectionRecord(sections[i], i).Done?
    decreases |sections|
  {
    if sections != [] {
      var n := |sections|;
      var front := sections[..n - 1];
      assert forall i :: 0 <= i < n - 1 ==> front[i] == sections[i];
      SectionsDoneIff(front);
      var lastDone := SectionRecord(sections[n - 1], n - 1).Done?;
      assert ExportedSections(sections).Done? <==> ExportedSections(front).Done? && lastDone;
      if ExportedSections(sections).Done? {
        forall i | 0 <= i < n ensures SectionRecord(sections[i], i).Done? {
          if i < n - 1 {
            assert front[i] == sections[i];
          }
        }
      } else if lastDone {
        var i :| 0 <= i < n - 1 && !SectionRecord(front[i], i).Done?;
        assert front[i] == sections[i];
      }
    }
  }

  /** Every section is in the export, under its own key and with its own record, so the
      export has as many sections as the page */
  lemma {:induction false} SectionsAllKept(sections: seq<Js>)
    requires ExportedSections(sections).Done?
    ensures forall i :: 0 <= i < |sections| ==>
              && SectionRecord(sections[i], i).Done?
              && SectionRecord(sections[i], i).value.0 in ExportedSections(sections).value
              && ExportedSections(sections).value[SectionRecord(sections[i], i).value.0]
                 == SectionRecord(sections[i], i).value.1
    ensures |ExportedSections(sections).value| == |sections|
    decreases |sections|
  {
    SectionsDoneIff(sections);
    if sections != [] {
      var n := |sections|;
      var front := sections[..n - 1];
      assert forall i :: 0 <= i < n - 1 ==> front[i] == sections[i];
      SectionsAllKept(front);
      var last := SectionRecord(sections[n - 1], n - 1).value;
      forall i | 0 <= i < n - 1 ensures SectionRecord(front[i], i).value.0 != last.0 {
        RecordKeysDiffer(front[i], i, sections[n - 1], n - 1);
      }
      KeyIsNew(front, last.0);
      var m := ExportedSections(front).value;
      assert ExportedSections(sections).value == m[last.0 := last.1];
      forall i | 0 <= i < n
        ensures SectionRecord(sections[i], i).value.0 in ExportedSections(sections).value
        ensures ExportedSections(sections).value[SectionRecord(sections[i], i).value.0]
                == SectionRecord(sections[i], i).value.1
      {
        if i < n - 1 {
          assert front[i] == sections[i];
        }
      }
    }
  }

  /** A key no section has is not in the export */
  lemma {:induction false} KeyIsNew(sections: seq<Js>, k: string)
    requires ExportedSections(sections).Done?
    requires forall i :: 0 <= i < |sections| && SectionRecord(sections[i], i).Done? ==>
               SectionRecord(sections[i], i).value.0 != k
    ensures k !in ExportedSections(sections).value
    decreases |sections|
  {
    if sections != [] {
      var n := |sections|;
      assert forall i :: 0 <= i < n - 1 ==> sections[..n - 1][i] == sections[i];
      KeyIsNew(sections[..n - 1], k);
    }
  }

  /** A page of the CMS, with the fields the export reads */
  datatype Page = Page(slug: Js, locale: Js, title: Js, seo: Js, sections: Js)

  /** `findMany` filtered on the slug and the locale, in the store's order */
  function Query(store: seq<Page>, slug: string, locale: string): (found: seq<Page>)
    ensures forall p :: p in found <==> p in store && p.slug == Str(slug) && p.locale == Str(locale)
  {
    if store == [] then []
    else
      var n := |store|;
      var p := store[n - 1];
      assert forall q :: q in store <==> q in store[..n - 1] || q == p;
      Query(store[..n - 1], slug, locale) + (if p.slug == Str(slug) && p.locale == Str(locale) then [p] else [])
  }

  datatype ExportResponse =
    | NotFound(message: string)
    | BadRequest(message: string)
    | Exported(body: Js)

  /** `{ current_value: seo?.<field> || '', max_length: limit }` */
  function LimitedText(seo: Js, field: string, limit: nat): (t: Js)
    ensures Prop(t, "max_length") == Num(limit)
    ensures JsTruthy(Prop(seo, field)) ==> Prop(t, "current_value") == Prop(seo, field)
    ensures !JsTruthy(Prop(seo, field)) ==> Prop(t, "current_value") == Str("")
  {
    Obj(map["current_value" := Or(Prop(seo, field), Str("")), "max_length" := Num(limit)])
  }

  /** The sections of a page: none when it has none, an error when they are not a list */
  function PageSections(sections: Js): Attempt<map<string, Js>> {
    if !JsTruthy(sections) then Done(map[])
    else if sections.Arr? then ExportedSections(sections.items)
    else Throws
  }

  /** `page_info`: the page's identity and the time of the export */
  function PageInfo(page: Page, now: string): (info: Js)
    ensures Prop(info, "slug") == page.slug && Prop(info, "locale") == page.locale
    ensures Prop(info, "title") == page.title && Prop(info, "exported_at") == Str(now)
  {
    Obj(map["slug" := page.slug, "locale" := page.locale, "title" := page.title, "exported_at" := Str(now)])
  }

  /** The exported object */
  function ExportBody(page: Page, now: string, sections: map<string, Js>): (body: Js)
    ensures Prop(body, "page_info") == PageInfo(page, now)
    ensures Prop(Prop(body, "seo"), "meta_title") == LimitedText(page.seo, "metaTitle", 60)
    ensures Prop(Prop(body, "seo"), "meta_description") == LimitedText(page.seo, "metaDescription", 160)
    ensures Prop(body, "sections") == Obj(sections)
  {
    Obj(map[
      "page_info" := PageInfo(page, now),
      "seo" := Obj(map["meta_title" := LimitedText(page.seo, "metaTitle", 60),
                       "meta_description" := LimitedText(page.seo, "metaDescription", 160)]),
      "sections" := Obj(sections)])
  }

  /** `exportPageBySlug`, given whether the page query throws; the query's `locale` is
      `id` when it is not given */
  function ExportPageBySlug(queryThrows: bool, store: seq<Page>, slug: string, locale: Option<string>, now: string): (resp: ExportResponse)
    ensures resp.NotFound? <==>
              !queryThrows && forall p :: p in store ==> p.slug != Str(slug) || p.locale != Str(locale.GetOr("id"))
    ensures resp.NotFound? ==> resp.message == "Page not found"
    ensures resp.BadRequest? ==> resp.message == "Error exporting page"
    ensures resp.BadRequest? <==>
              var found := Query(store, slug, locale.GetOr("id"));
              queryThrows || (found != [] && PageSections(found[0].sections).Throws?)
    ensures resp.Exported? ==>
              var info := Prop(resp.body, "page_info");
              && Prop(info, "slug") == Str(slug) && Prop(info, "locale") == Str(locale.GetOr("id"))
              && Prop(info, "exported_at") == Str(now)
  {
    var found := Query(store, slug, locale.GetOr("id"));
    if queryThrows then
      BadRequest("Error exporting page")
    else if found == [] then
      NotFound("Page not found")
    else
      assert found[0] in found;
      var page := found[0];
      match PageSections(page.sections)
      case Throws => BadRequest("Error exporting page")
      case Done(sections) => Exported(ExportBody(page, now, sections))
  }

  /** The page exported: the first the query finds */
  function ExportedPage(store: seq<Page>, slug: string, locale: Option<string>): (page: Page)
    requires Query(store, slug, locale.GetOr("id")) != []
    ensures page in store && page.slug == Str(slug) && page.locale == Str(locale.GetOr("id"))
  {
    var found := Query(store, slug, locale.GetOr("id"));
    assert found[0] in found;
    found[0]
  }

  /** The SEO texts of an export carry the limits 60 and 160, and each is the page's text
      or `''` when the page has none */
  lemma SeoLimits(queryThrows: bool, store: seq<Page>, slug: string, locale: Option<string>, now: string)
    requires ExportPageBySlug(queryThrows, store, slug, locale, now).Exported?
    ensures Query(store, slug, locale.GetOr("id")) != []
    ensures var page := ExportedPage(store, slug, locale);
            var seo := Prop(ExportPageBySlug(queryThrows, store, slug, locale, now).body, "seo");
            && Prop(seo, "meta_title") == LimitedText(page.seo, "metaTitle", 60)
            && Prop(seo, "meta_description") == LimitedText(page.seo, "metaDescription", 160)
  {
    var found := Query(store, slug, locale.GetOr("id"));
    assert found[0] in found;
  }

  /** The export fails exactly when the page's sections are truthy but not a list, or some
      section throws */
  lemma PageSectionsThrow(sections: Js)
    ensures PageSections(sections).Throws? <==>
            JsTruthy(sections) &&
            (!sections.Arr? || exists i :: 0 <= i < |sections.items| && SectionRecord(sections.items[i], i).Throws?)
  {
    if sections.Arr? {
      SectionsDoneIff(sections.items);
    }
  }

  /** The sections of an export: none for a page without sections, otherwise one record
      per section of the page, each under its own key */
  lemma ExportedSectionsOfPage(queryThrows: bool, store: seq<Page>, slug: string, locale: Option<string>, now: string)
    requires ExportPageBySlug(queryThrows, store, slug, locale, now).Exported?
    ensures Query(store, slug, locale.GetOr("id")) != []
    ensures var page := ExportedPage(store, slug, locale);
            var exported := Prop(ExportPageBySlug(queryThrows, store, slug, locale, now).body, "sections");
            && exported.Obj?
            && (!JsTruthy(page.sections) ==> exported.fields == map[])
            && (page.sections.Arr? ==>
                  && |exported.fields| == |page.sections.items|
                  && forall i :: 0 <= i < |page.sections.items| ==>
                       && SectionRecord(page.sections.items[i], i).Done?
                       && Prop(exported, SectionRecord(page.sections.items[i], i).value.0)
                          == SectionRecord(page.sections.items[i], i).value.1)
  {
    var found := Query(store, slug, locale.GetOr("id"));
    assert found[0] in found;
    var page := found[0];
    if page.sections.Arr? && JsTruthy(page.sections) {
      SectionsAllKept(page.sections.items);
    }
  }

  /** A playbook step without a number is exported with its position, counted from 1 */
  lemma PlaybookStepNumber(names: seq<string>, step: Js, i: nat)
    requires !JsTruthy(Prop(step, "number"))
    ensures Prop(ItemRecord("sections.playbook", names, step, i), "number") == CurrentValue(Str(NatToString(i + 1)))
  {
  }

  /** A service without an icon is exported with the icon `null`, one with an icon with its
      URL */
  lemma ServiceIcon(names: seq<string>, item: Js, i: nat)
    ensures var icon := Prop(item, "icon");
            var exported := Prop(ItemRecord("sections.services-grid", names, item, i), "icon");
            && (!JsTruthy(icon) ==> exported == Null)
            && (JsTruthy(icon) ==> exported == CurrentValue(Or(Prop(icon, "url"), Str(""))))
  {
  }
}
