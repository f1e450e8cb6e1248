/**
 * The cache-revalidation route of the frontend (frontend/app/next-api/revalidate/route.ts):
 * `POST` checks the configured secret, the caller's secret and the required fields in
 * that order, builds the cache tags of the changed content and revalidates each;
 * `GET` checks its query parameters and hands them to `POST`.
 *
 * The configured secret, the request body (`None` when it is not JSON) and whether
 * revalidating a tag throws are inputs.
 */
module Revalidate {
  import opened Wrappers
  import opened Text

  datatype Body = Body(model: Option<string>, slug: Option<string>, locale: Option<string>,
                       secret: Option<string>)

  datatype Response =
    | Error(status: nat, message: string)
    | Revalidated(tags: seq<string>)

  /** The cache tags of a change; only pages and insights have any */
  function CacheTags(model: string, slug: string, locale: Option<string>): (tags: seq<string>)
    ensures model == "page" ==> tags == ["page:" + slug + ":" + OrElse(locale, "id")]
    ensures model == "insight" ==>
              tags == ["insight:" + slug + ":" + OrElse(locale, "id"), "insights:" + OrElse(locale, "id")]
    ensures model != "page" && model != "insight" ==> tags == []
  {
    var loc := OrElse(locale, "id");
    if model == "page" then ["page:" + slug + ":" + loc]
    else if model == "insight" then ["insight:" + slug + ":" + loc, "insights:" + loc]
    else []
  }

  /** The tags kept by the loop: those whose revalidation did not throw, in order */
  function Kept(tags: seq<string>, throws: string -> bool): seq<string> {
    if tags == [] then []
    else Kept(tags[..|tags| - 1], throws) + (if throws(tags[|tags| - 1]) then [] else [tags[|tags| - 1]])
  }

  /** `a` is `b` with some elements left out, the rest in their order */
  predicate IsSubsequence(a: seq<string>, b: seq<string>)
    decreases |b|
  {
    if a == [] then true
    else if b == [] then false
    else if a[|a| - 1] == b[|b| - 1] then IsSubsequence(a[..|a| - 1], b[..|b| - 1])
    else IsSubsequence(a, b[..|b| - 1])
  }

  /** The loop over the tags, appending each one revalidated to `revalidatedTags` */
  method RevalidateTags(tags: seq<string>, throws: string -> bool) returns (revalidated: seq<string>)
    ensures revalidated == Kept(tags, throws)
  {
    revalidated := [];
    for i := 0 to |tags|
      invariant revalidated == Kept(tags[..i], throws)
    {
      assert tags[..i + 1][..i] == tags[..i];
      if !throws(tags[i]) {
        revalidated := revalidated + [tags[i]];
      }
    }
    assert tags[..|tags|] == tags;
  }

  /** The revalidated tags keep the order of the tags they come from */
  lemma {:induction false} KeptIsOrderedSubsequence(tags: seq<string>, throws: string -> bool)
    ensures IsSubsequence(Kept(tags, throws), tags)
    decreases |tags|
  {
    if tags != [] {
      var n := |tags|;
      var front := tags[..n - 1];
      var x := tags[n - 1];
      KeptIsOrderedSubsequence(front, throws);
      assert tags == front + [x];
      if !throws(x) {
        var k := Kept(tags, throws);
        assert k == Kept(front, throws) + [x];
        assert k[..|k| - 1] == Kept(front, throws);
      } else {
        assert Kept(tags, throws) == Kept(front, throws);
        SubsequenceOfLonger(Kept(front, throws), front, x);
      }
    }
  }

  /** A tag is revalidated exactly when it is one of the tags and did not throw */
  lemma {:induction false} KeptMembers(tags: seq<string>, throws: string -> bool, t: string)
    ensures t in Kept(tags, throws) <==> t in tags && !throws(t)
    decreases |tags|
  {
    if tags != [] {
      var n := |tags|;
      KeptMembers(tags[..n - 1], throws, t);
      assert tags == tags[..n - 1] + [tags[n - 1]];
    }
  }

  /** A subsequence stays one when the longer sequence grows */
  lemma {:induction false} SubsequenceOfLonger(a: seq<string>, b: seq<string>, x: string)
    requires IsSubsequence(a, b)
    ensures IsSubsequence(a, b + [x])
    decreases |b|, 1
  {
    var bx := b + [x];
    assert bx[..|bx| - 1] == b;
    if a != [] && a[|a| - 1] == x {
      SubsequenceDropLast(a, b);
    }
  }

  /** Leaving out the last element of a subsequence keeps it a subsequence */
  lemma {:induction false} SubsequenceDropLast(a: seq<string>, b: seq<string>)
    requires a != [] && IsSubsequence(a, b)
    ensures IsSubsequence(a[..|a| - 1], b)
    decreases |b|, 0
  {
    var front := b[..|b| - 1];
    assert front + [b[|b| - 1]] == b;
    if a[|a| - 1] == b[|b| - 1] {
      SubsequenceOfLonger(a[..|a| - 1], front, b[|b| - 1]);
    } else {
      SubsequenceDropLast(a, front);
      SubsequenceOfLonger(a[..|a| - 1], front, b[|b| - 1]);
    }
  }

  /** `POST`: the checks in order, then the tags and the loop */
  function Post(configured: Option<string>, body: Option<Body>, throws: string -> bool): (r: Response)
    ensures !Truthy(configured) ==> r == Error(500, "REVALIDATE_SECRET not configured")
    ensures Truthy(configured) && body.None? ==> r.Error? && r.status == 500
    ensures (Truthy(configured) && body.Some? && body.value.secret != configured)
              ==> r == Error(401, "Invalid secret")
    ensures (&& Truthy(configured) && body.Some? && body.value.secret == configured
             && (!Truthy(body.value.model) || !Truthy(body.value.slug)))
              ==> r == Error(400, "Missing required fields: model, slug")
    ensures r.Revalidated? ==>
              && Truthy(configured) && body.Some? && body.value.secret == configured
              && Truthy(body.value.model) && Truthy(body.value.slug)
              && r.tags == Kept(CacheTags(body.value.model.value, body.value.slug.value, body.value.locale), throws)
  {
    if !Truthy(configured) then Error(500, "REVALIDATE_SECRET not configured")
    else if body.None? then Error(500, "Internal server error")
    else
      var b := body.value;
      if b.secret != configured then Error(401, "Invalid secret")
      else if !Truthy(b.model) || !Truthy(b.slug) then Error(400, "Missing required fields: model, slug")
      else Revalidated(Kept(CacheTags(b.model.value, b.slug.value, b.locale), throws))
  }

  /** `GET`: the secret must be given and match, the model and slug must be given, and then
      the parameters go to `POST` as its body */
  function Get(configured: Option<string>, model: Option<string>, slug: Option<string>,
               locale: Option<string>, secret: Option<string>, throws: string -> bool): (r: Response)
    ensures !Truthy(secret) || secret != configured ==> r == Error(401, "Invalid or missing secret")
    ensures (Truthy(secret) && secret == configured && (!Truthy(model) || !Truthy(slug)))
              ==> r == Error(400, "Missing required query params: model, slug")
    ensures (Truthy(secret) && secret == configured && Truthy(model) && Truthy(slug))
              ==> r == Post(configured, Some(Body(model, slug, locale, secret)), throws)
  {
    if !Truthy(secret) || secret != configured then Error(401, "Invalid or missing secret")
    else if !Truthy(model) || !Truthy(slug) then Error(400, "Missing required query params: model, slug")
    else Post(configured, Some(Body(model, slug, locale, secret)), throws)
  }

  /** A request that passes `GET`'s checks passes all of `POST`'s: `GET` never reports a
      missing configuration and either rejects with 401 or 400 or revalidates */
  lemma GetPassesPost(configured: Option<string>, model: Option<string>, slug: Option<string>,
                      locale: Option<string>, secret: Option<string>, throws: string -> bool)
    ensures var r := Get(configured, model, slug, locale, secret, throws);
            r.Revalidated? || (r.Error? && (r.status == 401 || r.status == 400))
  {
  }

  /** Any other model is acknowledged with no tag revalidated */
  lemma OtherModelsRevalidateNothing(configured: Option<string>, b: Body, throws: string -> bool)
    requires Truthy(configured) && b.secret == configured && Truthy(b.model) && Truthy(b.slug)
    requires b.model.value != "page" && b.model.value != "insight"
    ensures Post(configured, Some(b), throws) == Revalidated([])
  {
  }
}
