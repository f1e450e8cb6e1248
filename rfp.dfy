/**
 * The contact-form route of the frontend (frontend/app/next-api/rfp-submissions/route.ts):
 * `POST` requires a name, an e-mail address and a message, checks the address against
 * `^[^\s@]+@[^\s@]+\.[^\s@]+$`, fills in the defaults of the submission and forwards it
 * to the CMS, answering in Indonesian or English.
 *
 * The request body (`None` when it is not JSON) and the CMS's answer are inputs.
 */
module Rfp {
  import opened Wrappers
  import opened Text

  /** The fields of the form the route reads */
  datatype RfpBody = RfpBody(
    name: Option<string>, email: Option<string>, message: Option<string>,
    company: Option<string>, goals: Option<string>, scope: Option<string>,
    budgetBand: Option<string>, timeline: Option<string>, locale: Option<string>)

  /** The record sent to the CMS; `None` stands for `null` */
  datatype RfpData = RfpData(
    name: string, email: string,
    company: Option<string>, goals: Option<string>, scope: Option<string>,
    budgetBand: Option<string>, timeline: Option<string>,
    message: string, locale: string, source: string, status: string)

  /** What the CMS does with the submission */
  datatype Upstream =
    | Accepted
    | Rejected(statusText: string)  // a response that is not ok
    | Unreachable(error: string)    // `fetch` throws, with this message

  datatype RfpResponse =
    | BadRequest(error: string)
    | ServerError(error: string)   // status 500, `success: false`
    | Sent(message: string)        // status 200, `success: true`

  /** The class `[^\s@]` */
  predicate EmailChar(c: char) {
    !IsSpace(c) && c != '@'
  }

  /** The address pattern, read left to right: a run of address characters, `@`, a run of
      address characters reaching the end, and in that run a `.` with at least one
      character before and after it (the backtracking of `[^\s@]+\.` can settle on any such
      dot, so the first dot after the first domain character decides) */
  predicate EmailMatches(e: string) {
    var at := Skip(e, 0, EmailChar);
    && 0 < at < |e| && e[at] == '@'
    && Skip(e, at + 1, EmailChar) == |e|
    && match FindChar(e, '.', at + 2)
       case None => false
       case Some(p) => p < |e| - 1
  }

  /** The address as the route's error message describes it: no whitespace, exactly one `@`
      with something before it, and a `.` after it that is neither the first nor the last
      character of the domain */
  ghost predicate WellFormedEmail(e: string) {
    exists at ::
      && 0 < at < |e| && e[at] == '@'
      && (forall k :: 0 <= k < |e| && k != at ==> EmailChar(e[k]))
      && (forall k :: 0 <= k < |e| ==> !IsSpace(e[k]))
      && (exists p :: at + 1 < p < |e| - 1 && e[p] == '.')
  }

  /** The scanner accepts exactly the well-formed addresses */
  lemma EmailMatchesIffWellFormed(e: string)
    ensures EmailMatches(e) <==> WellFormedEmail(e)
  {
    if EmailMatches(e) {
      var at := Skip(e, 0, EmailChar);
      var p := FindChar(e, '.', at + 2).value;
      assert at + 1 < p < |e| - 1 && e[p] == '.';
      assert forall k :: 0 <= k < |e| && k != at ==> EmailChar(e[k]);
    }
    if WellFormedEmail(e) {
      var at, p :| && 0 < at < |e| && e[at] == '@'
                   && (forall k :: 0 <= k < |e| && k != at ==> EmailChar(e[k]))
                   && at + 1 < p < |e| - 1 && e[p] == '.';
      SkipIs(e, 0, EmailChar, at);
      SkipIs(e, at + 1, EmailChar, |e|);
      assert FindChar(e, '.', at + 2).Some?;
    }
  }

  /** Some addresses on either side of the pattern */
  lemma EmailExamples()
    ensures EmailMatches("a@b.co")
    ensures !EmailMatches("a@b")
    ensures !EmailMatches("a@.co")
    ensures !EmailMatches("a@b.")
    ensures !EmailMatches("@b.co")
  {
    assert Skip("a@b.co", 0, EmailChar) == 1 by { SkipIs("a@b.co", 0, EmailChar, 1); }
    assert Skip("a@b.co", 2, EmailChar) == 6 by { SkipIs("a@b.co", 2, EmailChar, 6); }
    assert FindChar("a@b.co", '.', 3) == Some(3);
    assert Skip("a@.co", 0, EmailChar) == 1 by { SkipIs("a@.co", 0, EmailChar, 1); }
    assert Skip("a@.co", 2, EmailChar) == 5 by { SkipIs("a@.co", 2, EmailChar, 5); }
    assert FindChar("a@.co", '.', 3) == None;
    assert Skip("a@b.", 0, EmailChar) == 1 by { SkipIs("a@b.", 0, EmailChar, 1); }
    assert Skip("a@b.", 2, EmailChar) == 4 by { SkipIs("a@b.", 2, EmailChar, 4); }
    assert FindChar("a@b.", '.', 3) == Some(3);
    assert Skip("@b.co", 0, EmailChar) == 0;
  }

  /** `value || null` */
  function OrNull(v: Option<string>): (r: Option<string>)
    ensures r.Some? <==> Truthy(v)
    ensures r.Some? ==> r == v
  {
    if Truthy(v) then v else None
  }

  /** The submission record built from a form that passed the checks */
  function Payload(b: RfpBody): (d: RfpData)
    requires Truthy(b.name) && Truthy(b.email) && Truthy(b.message)
    ensures d.name == b.name.value && d.email == b.email.value && d.message == b.message.value
    ensures d.company == OrNull(b.company) && d.goals == OrNull(b.goals) && d.scope == OrNull(b.scope)
    ensures d.budgetBand == OrNull(b.budgetBand) && d.timeline == OrNull(b.timeline)
    ensures d.locale == OrElse(b.locale, "id")
    ensures d.source == "website_contact_form" && d.status == "new"
  {
    RfpData(b.name.value, b.email.value, OrNull(b.company), OrNull(b.goals), OrNull(b.scope),
            OrNull(b.budgetBand), OrNull(b.timeline), b.message.value, OrElse(b.locale, "id"),
            "website_contact_form", "new")
  }

  const IndonesianThanks := "Pesan Anda telah berhasil dikirim. Tim kami akan menghubungi Anda segera."
  const EnglishThanks := "Your message has been successfully sent. Our team will contact you shortly."

  /** The thank-you message: Indonesian only for the locale `id` as sent */
  function Thanks(locale: Option<string>): (m: string)
    ensures m == IndonesianThanks <==> locale == Some("id")
    ensures m == EnglishThanks <==> locale != Some("id")
  {
    if locale == Some("id") then IndonesianThanks else EnglishThanks
  }

  /** The checks of the form, in the route's order; `None` when it passes */
  function Rejection(b: RfpBody): (r: Option<string>)
    ensures (!Truthy(b.name) || !Truthy(b.email) || !Truthy(b.message))
              ==> r == Some("Name, email, and message are required")
    ensures (Truthy(b.name) && Truthy(b.email) && Truthy(b.message) && !EmailMatches(b.email.value))
              ==> r == Some("Invalid email format")
    ensures r.None? <==> Truthy(b.name) && Truthy(b.email) && Truthy(b.message) && EmailMatches(b.email.value)
  {
    if !Truthy(b.name) || !Truthy(b.email) || !Truthy(b.message) then Some("Name, email, and message are required")
    else if !EmailMatches(b.email.value) then Some("Invalid email format")
    else None
  }

  /** `POST`, given the CMS's answer to the forwarded `Payload` */
  function Post(body: Option<RfpBody>, upstream: Upstream): (r: RfpResponse)
    ensures body.None? ==> r.ServerError?
    ensures body.Some? && Rejection(body.value).Some? ==> r == BadRequest(Rejection(body.value).value)
    ensures (body.Some? && Rejection(body.value).None? && upstream.Rejected?)
              ==> r == ServerError("Failed to submit RFP: " + upstream.statusText)
    ensures (body.Some? && Rejection(body.value).None? && upstream.Unreachable?)
              ==> r == ServerError(upstream.error)
    ensures r.Sent? <==> body.Some? && Rejection(body.value).None? && upstream.Accepted?
    ensures r.Sent? ==> r.message == Thanks(body.value.locale)
  {
    match body
    case None => ServerError("Unexpected end of JSON input")
    case Some(b) =>
      match Rejection(b)
      case Some(e) => BadRequest(e)
      case None =>
        match upstream
        case Rejected(t) => ServerError("Failed to submit RFP: " + t)
        case Unreachable(e) => ServerError(e)
        case Accepted => Sent(Thanks(b.locale))
  }

  /** Whatever the CMS answers, a submission is confirmed only for a complete form with a
      well-formed address */
  lemma SentOnlyWellFormed(b: RfpBody, upstream: Upstream)
    requires Post(Some(b), upstream).Sent?
    ensures Truthy(b.name) && Truthy(b.message) && Truthy(b.email)
    ensures WellFormedEmail(b.email.value)
  {
    EmailMatchesIffWellFormed(b.email.value);
  }

  /** A form without a locale is stored as Indonesian but thanked in English */
  lemma MissingLocale(b: RfpBody)
    requires Truthy(b.name) && Truthy(b.email) && Truthy(b.message) && EmailMatches(b.email.value)
    requires b.locale.None?
    ensures Payload(b).locale == "id"
    ensures Post(Some(b), Accepted) == Sent(EnglishThanks)
  {
  }
}
