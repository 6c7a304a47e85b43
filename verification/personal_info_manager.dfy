/** The personal-information editor (src/components/personal-info-manager.tsx):
    a draft of the personal details and contact record, seeded from the
    props once, edited field by field, handed to the parent on Save and
    reset to the props on Cancel. */
module PersonalInfoManager {
  import opened Wrappers
  import opened Types
  import opened Text

  datatype Form = Form(personalInfo: PersonalInfo, contact: Contact)

  datatype Manager = Manager(isEditing: bool, form: Form)

  /** The text inputs of the personal section. */
  datatype PersonalField = Name | Title | Tagline | Bio | Avatar | Resume

  /** The inputs of the contact section; there is none for Instagram. */
  datatype ContactField = Email | Phone | Location | Github | Linkedin | Website | Twitter

  function PersonalText(pi: PersonalInfo, f: PersonalField): string
  {
    match f
    case Name => pi.name
    case Title => pi.title
    case Tagline => pi.tagline
    case Bio => pi.bio
    case Avatar => pi.avatar
    case Resume => pi.resume
  }

  /** A contact field's value; the two required fields are always present. */
  function ContactValue(c: Contact, f: ContactField): Option<string>
  {
    match f
    case Email => Some(c.email)
    case Phone => c.phone
    case Location => Some(c.location)
    case Github => c.github
    case Linkedin => c.linkedin
    case Website => c.website
    case Twitter => c.twitter
  }

  /** The state on mount: not editing, the draft a copy of the props. */
  function Init(pi: PersonalInfo, c: Contact): (r: Manager)
    ensures !r.isEditing && r.form.personalInfo == pi && r.form.contact == c
  {
    Manager(false, Form(pi, c))
  }

  /** "Edit Info": the draft is NOT re-seeded from the props, so edits made
      to the parent's data since mount (or since the last Cancel) are not
      shown. */
  function EnterEdit(m: Manager): (r: Manager)
    ensures r.isEditing && r.form == m.form
  {
    m.(isEditing := true)
  }

  function SetPersonalText(pi: PersonalInfo, f: PersonalField, v: string): (r: PersonalInfo)
    ensures forall g :: PersonalText(r, g) == if g == f then v else PersonalText(pi, g)
    ensures r.yearsOfExperience == pi.yearsOfExperience
  {
    match f
    case Name => pi.(name := v)
    case Title => pi.(title := v)
    case Tagline => pi.(tagline := v)
    case Bio => pi.(bio := v)
    case Avatar => pi.(avatar := v)
    case Resume => pi.(resume := v)
  }

  /** `updatePersonalInfo` for a text input. */
  function UpdatePersonalInfo(m: Manager, f: PersonalField, v: string): (r: Manager)
    ensures r.isEditing == m.isEditing && r.form.contact == m.form.contact
    ensures PersonalText(r.form.personalInfo, f) == v
    ensures forall g :: g != f ==> PersonalText(r.form.personalInfo, g) == PersonalText(m.form.personalInfo, g)
    ensures r.form.personalInfo.yearsOfExperience == m.form.personalInfo.yearsOfExperience
  {
    m.(form := m.form.(personalInfo := SetPersonalText(m.form.personalInfo, f, v)))
  }

  /** `parseInt(value) || 0`: a number prefix, with NaN and 0 both falsy. */
  function YearsFromInput(text: string): (r: int)
    ensures r == 0 <==> ParseInt(text).None? || ParseInt(text) == Some(0)
    ensures r != 0 ==> ParseInt(text) == Some(r)
  {
    match ParseInt(text)
    case None => 0
    case Some(n) => if n != 0 then n else 0
  }

  /** A decimal numeral typed into the years input is stored as its value. */
  lemma {:induction false} YearsOfNumeral(n: nat)
    ensures YearsFromInput(DecimalString(n)) == n
  {
    ParseIntOfDecimal(n);
  }

  /** An empty input (what the browser reports for a non-number) stores 0. */
  lemma {:induction false} YearsOfEmptyInput()
    ensures YearsFromInput("") == 0
  {
    assert TrimStart("") == "";
  }

  /** `updatePersonalInfo('yearsOfExperience', parseInt(value) || 0)`. */
  function UpdateYears(m: Manager, text: string): (r: Manager)
    ensures r.isEditing == m.isEditing && r.form.contact == m.form.contact
    ensures r.form.personalInfo == m.form.personalInfo.(yearsOfExperience := YearsFromInput(text))
  {
    m.(form := m.form.(personalInfo := m.form.personalInfo.(yearsOfExperience := YearsFromInput(text))))
  }

  function SetContactValue(c: Contact, f: ContactField, v: string): (r: Contact)
    ensures forall g :: ContactValue(r, g) == if g == f then Some(v) else ContactValue(c, g)
    ensures r.instagram == c.instagram
  {
    match f
    case Email => c.(email := v)
    case Phone => c.(phone := Some(v))
    case Location => c.(location := v)
    case Github => c.(github := Some(v))
    case Linkedin => c.(linkedin := Some(v))
    case Website => c.(website := Some(v))
    case Twitter => c.(twitter := Some(v))
  }

  /** `updateContact`: the field becomes present even when emptied. */
  function UpdateContact(m: Manager, f: ContactField, v: string): (r: Manager)
    ensures r.isEditing == m.isEditing && r.form.personalInfo == m.form.personalInfo
    ensures ContactValue(r.form.contact, f) == Some(v)
    ensures forall g :: g != f ==> ContactValue(r.form.contact, g) == ContactValue(m.form.contact, g)
    ensures r.form.contact.instagram == m.form.contact.instagram
  {
    m.(form := m.form.(contact := SetContactValue(m.form.contact, f, v)))
  }

  /** `handleSave`: the parent receives the draft; editing ends. */
  function HandleSave(m: Manager): (r: (Manager, Form))
    ensures !r.0.isEditing && r.0.form == m.form && r.1 == m.form
  {
    (m.(isEditing := false), m.form)
  }

  /** `handleCancel`: the draft is re-seeded from the current props. */
  function HandleCancel(m: Manager, pi: PersonalInfo, c: Contact): (r: Manager)
    ensures !r.isEditing && r.form == Form(pi, c)
  {
    Manager(false, Form(pi, c))
  }

  /** One edit of the form. */
  datatype FormEdit =
    | EditPersonal(field: PersonalField, text: string)
    | EditYears(input: string)
    | EditContact(contactField: ContactField, value: string)

  function ApplyEdit(m: Manager, e: FormEdit): (r: Manager)
    ensures r.isEditing == m.isEditing
  {
    match e
    case EditPersonal(f, v) => UpdatePersonalInfo(m, f, v)
    case EditYears(t) => UpdateYears(m, t)
    case EditContact(f, v) => UpdateContact(m, f, v)
  }

  function ApplyEdits(m: Manager, es: seq<FormEdit>): (r: Manager)
    ensures r.isEditing == m.isEditing
    decreases |es|
  {
    if es == [] then m else ApplyEdits(ApplyEdit(m, es[0]), es[1..])
  }

  /** No edit touches the Instagram handle, which the form has no input for. */
  lemma {:induction false} EditsKeepInstagram(m: Manager, es: seq<FormEdit>)
    ensures ApplyEdits(m, es).form.contact.instagram == m.form.contact.instagram
    decreases |es|
  {
    if es != [] {
      EditsKeepInstagram(ApplyEdit(m, es[0]), es[1..]);
    }
  }

  /** Whatever was typed, Cancel followed by Edit shows the props again. */
  lemma {:induction false} CancelDiscardsEdits(pi: PersonalInfo, c: Contact, es: seq<FormEdit>)
    ensures var m := ApplyEdits(EnterEdit(Init(pi, c)), es);
      EnterEdit(HandleCancel(m, pi, c)).form == Form(pi, c)
  {
  }
}
