/** The contact page (src/app/contact/page.tsx): a four-field message form
    with a simulated submission, the three "Get in Touch" entries and the
    social links built from the stored contact record. */
module ContactPage {
  import opened Wrappers
  import opened Types
  import opened Seqs

  datatype FormData = FormData(name: string, email: string, subject: string, message: string)

  /** The `name` attributes of the form's inputs. */
  datatype FormField = NameField | EmailField | SubjectField | MessageField

  function FieldValue(d: FormData, f: FormField): string
  {
    match f
    case NameField => d.name
    case EmailField => d.email
    case SubjectField => d.subject
    case MessageField => d.message
  }

  const BlankForm := FormData("", "", "", "")

  /** `submitted` switches the card from the form to the thank-you note. */
  datatype Page = Page(form: FormData, isSubmitting: bool, submitted: bool)

  const Initial := Page(BlankForm, false, false)

  /** `handleChange`: `{ ...prev, [e.target.name]: e.target.value }`. */
  function HandleChange(p: Page, f: FormField, value: string): (r: Page)
    ensures r.isSubmitting == p.isSubmitting && r.submitted == p.submitted
    ensures FieldValue(r.form, f) == value
    ensures forall g :: g != f ==> FieldValue(r.form, g) == FieldValue(p.form, g)
  {
    var d := p.form;
    var d' := match f
      case NameField => d.(name := value)
      case EmailField => d.(email := value)
      case SubjectField => d.(subject := value)
      case MessageField => d.(message := value)
    ;
    p.(form := d')
  }

  /** A later change to a field overrides an earlier one, and changes to
      different fields commute. */
  lemma {:induction false} ChangesCommute(p: Page, f: FormField, g: FormField, u: string, v: string)
    ensures HandleChange(HandleChange(p, f, u), f, v) == HandleChange(p, f, v)
    ensures f != g ==> HandleChange(HandleChange(p, f, u), g, v) == HandleChange(HandleChange(p, g, v), f, u)
  {
  }

  /** The submit button is disabled while a submission is in flight. */
  predicate SubmitEnabled(p: Page)
  {
    !p.isSubmitting
  }

  /** `handleSubmit` up to its `await`: the form is marked as sending. */
  function BeginSubmit(p: Page): (r: Page)
    ensures r.isSubmitting && !SubmitEnabled(r)
    ensures r.form == p.form && r.submitted == p.submitted
  {
    p.(isSubmitting := true)
  }

  /** `handleSubmit` after the delay: sending ends, the thank-you note
      shows and every field is cleared. */
  function FinishSubmit(p: Page): (r: Page)
    ensures !r.isSubmitting && r.submitted
    ensures forall f :: FieldValue(r.form, f) == ""
  {
    Page(BlankForm, false, true)
  }

  /** The whole submission, from the click to the end of the delay. */
  function HandleSubmit(p: Page): (r: Page)
    ensures SubmitEnabled(r) && r.submitted
    ensures forall f :: FieldValue(r.form, f) == ""
  {
    FinishSubmit(BeginSubmit(p))
  }

  /** "Send Another Message": back to the form, fields untouched. */
  function SendAnother(p: Page): (r: Page)
    ensures !r.submitted && r.form == p.form && r.isSubmitting == p.isSubmitting
  {
    p.(submitted := false)
  }

  /** One user event on the form. */
  datatype FormEvent = Change(field: FormField, value: string) | Submit

  function Handle(p: Page, e: FormEvent): Page
  {
    match e
    case Change(f, v) => HandleChange(p, f, v)
    case Submit => HandleSubmit(p)
  }

  function HandleAll(p: Page, es: seq<FormEvent>): Page
    decreases |es|
  {
    if es == [] then p else HandleAll(Handle(p, es[0]), es[1..])
  }

  /** Whatever was typed and sent, once a message has gone through, Send
      Another shows the empty form the page started with. */
  lemma {:induction false} SendAnotherStartsOver(p: Page, es: seq<FormEvent>)
    ensures SendAnother(HandleSubmit(HandleAll(p, es))) == Initial
  {
    var q := HandleSubmit(HandleAll(p, es));
    assert q.form == BlankForm by {
      assert forall f :: FieldValue(q.form, f) == "";
      assert FieldValue(q.form, NameField) == "" && FieldValue(q.form, EmailField) == "";
      assert FieldValue(q.form, SubjectField) == "" && FieldValue(q.form, MessageField) == "";
    }
  }

  /** Editing alone never leaves the form, submits or blocks the button. */
  lemma {:induction false} ChangesKeepFlags(p: Page, es: seq<FormEvent>)
    requires forall i :: 0 <= i < |es| ==> es[i].Change?
    ensures HandleAll(p, es).submitted == p.submitted
    ensures HandleAll(p, es).isSubmitting == p.isSubmitting
    decreases |es|
  {
    if es != [] {
      ChangesKeepFlags(Handle(p, es[0]), es[1..]);
    }
  }

  /** How a template literal shows an optional string: an absent value
      becomes the text `undefined`. */
  function Interpolate(s: Option<string>): string
  {
    match s
    case Some(v) => v
    case None => "undefined"
  }

  /** What JSX shows for an optional string: nothing when absent. */
  function Shown(s: Option<string>): string
  {
    s.GetOr("")
  }

  /** A "Get in Touch" entry: `href` is `null` for plain text. */
  datatype Method = Method(caption: string, value: string, href: Option<string>)

  /** A method is a link when its `href` is truthy. */
  predicate IsLink(m: Method)
  {
    m.href.Some? && m.href.value != ""
  }

  const MethodCaptions := ["Email", "Phone", "Location"]

  /** `contactMethods` as written: the phone link interpolates the phone
      number even when there is none. */
  function ContactMethods(c: Contact): (r: seq<Method>)
    ensures |r| == |MethodCaptions|
    ensures forall i :: 0 <= i < |r| ==> r[i].caption == MethodCaptions[i]
    ensures forall i :: 0 <= i < |r| ==> (IsLink(r[i]) <==> r[i].caption != "Location")
  {
    [ Method("Email", c.email, Some("mailto:" + c.email)),
      Method("Phone", Shown(c.phone), Some("tel:" + Interpolate(c.phone))),
      Method("Location", c.location, None) ]
  }

  /** With no phone stored, the Phone entry is a link to `tel:undefined`
      whose visible text is empty. */
  lemma {:induction false} MissingPhoneLinksToUndefined(c: Contact)
    requires c.phone.None?
    ensures var m := ContactMethods(c)[1];
      IsLink(m) && m.href == Some("tel:undefined") && m.value == ""
  {
    assert "tel:" + "undefined" == "tel:undefined";
  }

  /** `contactMethods` with the phone as a link only when a non-empty number
      is stored. */
  function ContactMethodsCorrected(c: Contact): (r: seq<Method>)
    ensures |r| == |MethodCaptions|
    ensures forall i :: 0 <= i < |r| ==> r[i].caption == MethodCaptions[i]
    ensures IsLink(r[0]) && !IsLink(r[2])
    ensures IsLink(r[1]) <==> c.phone.Some? && c.phone.value != ""
    ensures forall i :: 0 <= i < |r| && r[i].caption != "Email" && IsLink(r[i]) ==> r[i].value != ""
    ensures c.phone.Some? && c.phone.value != "" ==> r == ContactMethods(c)
  {
    var phone := match c.phone
      case Some(v) => if v != "" then Method("Phone", v, Some("tel:" + v)) else Method("Phone", v, None)
      case None => Method("Phone", "", None);
    [ Method("Email", c.email, Some("mailto:" + c.email)),
      phone,
      Method("Location", c.location, None) ]
  }

  /** A social link; an absent `href` is `undefined`. */
  datatype Link = Link(caption: string, href: Option<string>)

  predicate HasHref(l: Link)
  {
    l.href.Some? && l.href.value != ""
  }

  /** The three candidates, in the order the page lists them. */
  function Candidates(c: Contact): seq<Link>
  {
    [Link("GitHub", c.github), Link("LinkedIn", c.linkedin), Link("Email", Some("mailto:" + c.email))]
  }

  /** `socialLinks`: the candidates with a truthy `href`. */
  function SocialLinks(c: Contact): (r: seq<Link>)
    ensures 1 <= |r| <= 3
    ensures r[|r| - 1] == Link("Email", Some("mailto:" + c.email))
    ensures forall i :: 0 <= i < |r| ==> HasHref(r[i])
    ensures IsSubsequence(r, Candidates(c))
    ensures forall l :: l in Candidates(c) && HasHref(l) ==> l in r
  {
    var cs := Candidates(c);
    FilteredLinks(cs);
    Filter(cs, HasHref)
  }

  /** Filtering three candidates whose last one has an `href`: that one
      closes the list, the order is kept and no linked candidate is lost. */
  lemma {:induction false} FilteredLinks(cs: seq<Link>)
    requires |cs| == 3 && HasHref(cs[2])
    ensures var r := Filter(cs, HasHref);
      && 1 <= |r| <= 3
      && r[|r| - 1] == cs[2]
      && IsSubsequence(r, cs)
      && forall l :: l in cs && HasHref(l) ==> l in r
  {
    LastLinkKept(cs);
    FilterIsSubsequence(cs, HasHref);
    LinkedCandidatesKept(cs);
  }

  /** Every candidate with an `href` survives the filter. */
  lemma {:induction false} LinkedCandidatesKept(cs: seq<Link>)
    ensures forall l :: l in cs && HasHref(l) ==> l in Filter(cs, HasHref)
  {
    forall l | l in cs && HasHref(l)
      ensures l in Filter(cs, HasHref)
    {
      FilterMember(cs, HasHref, l);
    }
  }

  /** A last candidate with an `href` always passes the filter, so it closes
      the list. */
  lemma {:induction false} LastLinkKept(cs: seq<Link>)
    requires |cs| == 3 && HasHref(cs[2])
    ensures Filter(cs, HasHref) == Filter(cs[..2], HasHref) + [cs[2]]
  {
    assert cs == cs[..2] + [cs[2]];
    FilterAppend(cs[..2], [cs[2]], HasHref);
    assert [cs[2]][1..] == [];
    assert Filter([cs[2]], HasHref) == [cs[2]];
  }

  /** The GitHub and LinkedIn links appear exactly when their handles are
      stored and non-empty. */
  lemma {:induction false} SocialLinkShown(c: Contact)
    ensures Link("GitHub", c.github) in SocialLinks(c) <==> c.github.Some? && c.github.value != ""
    ensures Link("LinkedIn", c.linkedin) in SocialLinks(c) <==> c.linkedin.Some? && c.linkedin.value != ""
  {
    var cs := Candidates(c);
    FilterMember(cs, HasHref, Link("GitHub", c.github));
    FilterMember(cs, HasHref, Link("LinkedIn", c.linkedin));
    assert Link("GitHub", c.github) in cs;
    assert Link("LinkedIn", c.linkedin) in cs;
  }
}
