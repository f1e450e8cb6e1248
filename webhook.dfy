/**
 * The CMS webhook of the frontend (frontend/app/next-api/strapi-webhook/route.ts):
 * from the model and entry a change concerns, the list of site paths to revalidate,
 * and the count of revalidations that succeeded.
 *
 * Each revalidation request's outcome is an input (`fetchOk`, by position and path).
 */
module Webhook {
  import opened Wrappers
  import opened Text

  datatype WebhookEntry = WebhookEntry(slug: Option<string>)

  datatype Payload = Payload(event: string, model: string, entry: Option<WebhookEntry>)

  /** `entry?.slug`, when truthy */
  function EntrySlug(entry: Option<WebhookEntry>): Option<string> {
    if entry.Some? && Truthy(entry.value.slug) then entry.value.slug else None
  }

  /** The same page in both locales: the Indonesian path, then the English one */
  function Pair(idRest: string, enRest: string): seq<string> {
    ["/id" + idRest, "/en" + enRest]
  }

  /** The paths the `switch` adds for a model, after the two home pages */
  function ModelPaths(model: string, slug: Option<string>): seq<string> {
    match model
    case "page" =>
      if slug.Some? then Pair("/" + slug.value, "/" + slug.value) else []
    case "insight" =>
      (if slug.Some? then
         Pair("/wawasan/" + slug.value, "/insights/" + slug.value)
         + Pair("/wawasan/" + slug.value + "/amp", "/insights/" + slug.value + "/amp")
       else [])
      + Pair("/wawasan", "/insights")
    case "work" =>
      (if slug.Some? then Pair("/karya/" + slug.value, "/work/" + slug.value) else [])
      + Pair("/karya", "/work")
    case "global-strings" => Pair("", "")
    case "site-settings" => Pair("", "")
    case "testimonial" => Pair("", "")
    case _ => []
  }

  function RevalidationPaths(model: string, entry: Option<WebhookEntry>): seq<string> {
    Pair("", "") + ModelPaths(model, EntrySlug(entry))
  }

  /** The paths come in pairs, the Indonesian page first and the English one after it */
  predicate LocalePaired(paths: seq<string>) {
    || paths == []
    || (&& |paths| >= 2
        && StartsWith(paths[0], "/id") && StartsWith(paths[1], "/en")
        && LocalePaired(paths[2..]))
  }

  /** The fixed pairs, written out */
  lemma PairLiterals()
    ensures Pair("", "") == ["/id", "/en"]
    ensures Pair("/wawasan", "/insights") == ["/id/wawasan", "/en/insights"]
    ensures Pair("/karya", "/work") == ["/id/karya", "/en/work"]
  {
    assert "/id" + "" == "/id" && "/en" + "" == "/en";
    assert "/id" + "/wawasan" == "/id/wawasan" && "/en" + "/insights" == "/en/insights";
    assert "/id" + "/karya" == "/id/karya" && "/en" + "/work" == "/en/work";
  }

  /** The pairs with a slug, written out */
  lemma PairSlugs(v: string)
    ensures Pair("/" + v, "/" + v) == ["/id/" + v, "/en/" + v]
    ensures Pair("/wawasan/" + v, "/insights/" + v) == ["/id/wawasan/" + v, "/en/insights/" + v]
    ensures Pair("/wawasan/" + v + "/amp", "/insights/" + v + "/amp")
            == ["/id/wawasan/" + v + "/amp", "/en/insights/" + v + "/amp"]
    ensures Pair("/karya/" + v, "/work/" + v) == ["/id/karya/" + v, "/en/work/" + v]
  {
    assert "/id" + ("/" + v) == "/id/" + v && "/en" + ("/" + v) == "/en/" + v;
    assert "/id" + ("/wawasan/" + v) == "/id/wawasan/" + v;
    assert "/en" + ("/insights/" + v) == "/en/insights/" + v;
    assert "/id" + ("/wawasan/" + v + "/amp") == "/id/wawasan/" + v + "/amp";
    assert "/en" + ("/insights/" + v + "/amp") == "/en/insights/" + v + "/amp";
    assert "/id" + ("/karya/" + v) == "/id/karya/" + v && "/en" + ("/work/" + v) == "/en/work/" + v;
  }

  lemma PairIsPaired(idRest: string, enRest: string)
    ensures LocalePaired(Pair(idRest, enRest))
  {
    var p := Pair(idRest, enRest);
    assert p[0][..3] == "/id" && p[1][..3] == "/en";
    assert p[2..] == [];
  }

  lemma {:induction false} PairedAppend(x: seq<string>, y: seq<string>)
    requires LocalePaired(x) && LocalePaired(y)
    ensures LocalePaired(x + y)
    decreases |x|
  {
    if x == [] {
      assert x + y == y;
    } else {
      PairedAppend(x[2..], y);
      assert (x + y)[2..] == x[2..] + y;
    }
  }

  /** A paired list has an even length and alternates Indonesian and English paths */
  lemma {:induction false} PairedAlternates(paths: seq<string>)
    requires LocalePaired(paths)
    ensures |paths| % 2 == 0
    ensures forall k :: 0 <= k < |paths| ==> StartsWith(paths[k], if k % 2 == 0 then "/id" else "/en")
    decreases |paths|
  {
    if paths != [] {
      PairedAlternates(paths[2..]);
      forall k | 2 <= k < |paths|
        ensures StartsWith(paths[k], if k % 2 == 0 then "/id" else "/en")
      {
        assert paths[k] == paths[2..][k - 2];
      }
    }
  }

  /** The `switch` of `POST`, pushing onto `pathsToRevalidate` */
  method PathsToRevalidate(model: string, entry: Option<WebhookEntry>) returns (paths: seq<string>)
    ensures paths == RevalidationPaths(model, entry)
  {
    PairLiterals();
    if EntrySlug(entry).Some? {
      PairSlugs(EntrySlug(entry).value);
    }
    paths := [];
    paths := paths + ["/id"];
    paths := paths + ["/en"];
    var slug := EntrySlug(entry);
    match model {
    case "page" =>
      if slug.Some? {
        paths := paths + ["/id/" + slug.value];
        paths := paths + ["/en/" + slug.value];
      }
    case "insight" =>
      if slug.Some? {
        paths := paths + ["/id/wawasan/" + slug.value];
        paths := paths + ["/en/insights/" + slug.value];
        paths := paths + ["/id/wawasan/" + slug.value + "/amp"];
        paths := paths + ["/en/insights/" + slug.value + "/amp"];
      }
      paths := paths + ["/id/wawasan"];
      paths := paths + ["/en/insights"];
    case "work" =>
      if slug.Some? {
        paths := paths + ["/id/karya/" + slug.value];
        paths := paths + ["/en/work/" + slug.value];
      }
      paths := paths + ["/id/karya"];
      paths := paths + ["/en/work"];
    case "global-strings" =>
      paths := paths + ["/id"];
      paths := paths + ["/en"];
    case "site-settings" =>
      paths := paths + ["/id"];
      paths := paths + ["/en"];
    case "testimonial" =>
      paths := paths + ["/id"];
      paths := paths + ["/en"];
    case _ =>
    }
  }

  /** Every model's list alternates Indonesian and English paths, starting with the
      two home pages */
  lemma PathsArePaired(model: string, entry: Option<WebhookEntry>)
    ensures var paths := RevalidationPaths(model, entry);
            && |paths| >= 2 && paths[..2] == ["/id", "/en"]
            && |paths| % 2 == 0
            && forall k :: 0 <= k < |paths| ==> StartsWith(paths[k], if k % 2 == 0 then "/id" else "/en")
  {
    PairLiterals();
    ModelPathsPaired(model, EntrySlug(entry));
    PairIsPaired("", "");
    PairedAppend(Pair("", ""), ModelPaths(model, EntrySlug(entry)));
    PairedAlternates(RevalidationPaths(model, entry));
  }

  lemma ModelPathsPaired(model: string, slug: Option<string>)
    ensures LocalePaired(ModelPaths(model, slug))
  {
    if slug.Some? {
      var v := slug.value;
      PairIsPaired("/" + v, "/" + v);
      PairIsPaired("/wawasan/" + v, "/insights/" + v);
      PairIsPaired("/wawasan/" + v + "/amp", "/insights/" + v + "/amp");
      PairIsPaired("/karya/" + v, "/work/" + v);
      PairedAppend(Pair("/wawasan/" + v, "/insights/" + v), Pair("/wawasan/" + v + "/amp", "/insights/" + v + "/amp"));
      PairedAppend(Pair("/wawasan/" + v, "/insights/" + v) + Pair("/wawasan/" + v + "/amp", "/insights/" + v + "/amp"),
                   Pair("/wawasan", "/insights"));
      PairedAppend(Pair("/karya/" + v, "/work/" + v), Pair("/karya", "/work"));
    }
    PairIsPaired("/wawasan", "/insights");
    PairIsPaired("/karya", "/work");
    PairIsPaired("", "");
    PairedAppend([], Pair("/wawasan", "/insights"));
    PairedAppend([], Pair("/karya", "/work"));
  }

  /** A page with a slug adds exactly its two localized paths; without one, nothing */
  lemma PagePaths(entry: Option<WebhookEntry>)
    ensures var s := EntrySlug(entry);
            RevalidationPaths("page", entry)
              == ["/id", "/en"] + (if s.Some? then ["/id/" + s.value, "/en/" + s.value] else [])
  {
    PairLiterals();
    if EntrySlug(entry).Some? {
      PairSlugs(EntrySlug(entry).value);
    }
  }

  /** The listing pages of insights and works are revalidated even without a slug */
  lemma ListingsAlwaysRevalidated(entry: Option<WebhookEntry>)
    ensures var ps := RevalidationPaths("insight", entry);
            ps[|ps| - 2..] == ["/id/wawasan", "/en/insights"]
    ensures var ps := RevalidationPaths("work", entry);
            ps[|ps| - 2..] == ["/id/karya", "/en/work"]
  {
    PairLiterals();
    if EntrySlug(entry).Some? {
      PairSlugs(EntrySlug(entry).value);
    }
  }

  /** An unknown model revalidates the two home pages only; the global models repeat them */
  lemma HomeOnlyModels(model: string, entry: Option<WebhookEntry>)
    ensures (model !in {"page", "insight", "work", "global-strings", "site-settings", "testimonial"})
              ==> RevalidationPaths(model, entry) == ["/id", "/en"]
    ensures (model in {"global-strings", "site-settings", "testimonial"})
              ==> RevalidationPaths(model, entry) == ["/id", "/en", "/id", "/en"]
  {
    PairLiterals();
    if EntrySlug(entry).Some? {
      PairSlugs(EntrySlug(entry).value);
    }
  }

  /** `results.filter(r => r.success).length` */
  function SuccessCount(results: seq<bool>): (n: nat)
    ensures n <= |results|
  {
    if results == [] then 0 else (if results[0] then 1 else 0) + SuccessCount(results[1..])
  }

  /** The count is the number of successes: all of them exactly when every request succeeded,
      none exactly when every request failed */
  lemma {:induction false} SuccessCountBounds(results: seq<bool>)
    ensures SuccessCount(results) == |results| <==> forall k :: 0 <= k < |results| ==> results[k]
    ensures SuccessCount(results) == 0 <==> forall k :: 0 <= k < |results| ==> !results[k]
  {
    if results != [] {
      SuccessCountBounds(results[1..]);
      assert forall k :: 1 <= k < |results| ==> results[k] == results[1..][k - 1];
    }
  }

  /** The answer of `POST`; a body that is not JSON ends in the 500 answer */
  datatype WebhookResponse =
    | Processed(message: string, event: string, model: string, results: seq<(string, bool)>)
    | Failed500

  function WebhookPost(payload: Option<Payload>, fetchOk: (nat, string) -> bool): (r: WebhookResponse)
    ensures payload.None? <==> r.Failed500?
    ensures r.Processed? ==>
              && |r.results| == |RevalidationPaths(payload.value.model, payload.value.entry)|
              && r.event == payload.value.event && r.model == payload.value.model
              && forall k :: 0 <= k < |r.results| ==>
                   && r.results[k].0 == RevalidationPaths(payload.value.model, payload.value.entry)[k]
                   && r.results[k].1 == fetchOk(k, r.results[k].0)
  {
    match payload
    case None => Failed500
    case Some(p) =>
      var paths := RevalidationPaths(p.model, p.entry);
      var results := seq(|paths|, i requires 0 <= i < |paths| => (paths[i], fetchOk(i, paths[i])));
      var ok := seq(|results|, i requires 0 <= i < |results| => results[i].1);
      Processed("Revalidated " + NatToString(SuccessCount(ok)) + " of " + NatToString(|results|) + " paths",
                p.event, p.model, results)
  }
}
