/** `createJobSchema`: the field rules a job-creation body must meet.

    A body field is absent, a string, or some other JSON value. The schema
    checks every field and reports every failing one (as the schema library
    collects all issues); the handler only looks at whether the parse
    failed. Whether a string is an email address is decided by the
    validation library and is a parameter here. */
module JobSchema {
  import opened Values
  import opened Store

  datatype FormValue = Absent | Text(text: string) | NonText

  datatype JobForm = JobForm(
    title: FormValue,
    company: FormValue,
    location: FormValue,
    jobType: FormValue,
    description: FormValue,
    contact: FormValue,
    address: FormValue)

  /** The parsed body, with unknown keys dropped. */
  datatype JobData = JobData(
    title: string,
    company: string,
    location: Option<string>,
    jobType: JobType,
    description: string,
    contact: string,
    address: string)

  datatype Field = TitleField | CompanyField | LocationField | TypeField | DescriptionField | ContactField | AddressField

  /** `z.string().min(1)`. */
  predicate NonEmptyText(v: FormValue) {
    v.Text? && |v.text| >= 1
  }

  /** The rule each field must meet. */
  predicate FieldOk(form: JobForm, f: Field, isEmail: string -> bool)
  {
    match f
    case TitleField => NonEmptyText(form.title)
    case CompanyField => NonEmptyText(form.company)
    case LocationField => form.location.Absent? || form.location.Text?
    case TypeField => form.jobType.Text? && ParseJobType(form.jobType.text).Some?
    case DescriptionField => NonEmptyText(form.description)
    case ContactField => form.contact.Text? && isEmail(form.contact.text)
    case AddressField => form.address.Text?
  }

  /** The fields in schema order. */
  const Fields := [TitleField, CompanyField, LocationField, TypeField, DescriptionField, ContactField, AddressField]

  /** The body is acceptable when every field meets its rule. */
  predicate Acceptable(form: JobForm, isEmail: string -> bool)
  {
    forall f: Field :: FieldOk(form, f, isEmail)
  }

  /** The failing fields among `fields`, in order. */
  function Failing(form: JobForm, fields: seq<Field>, isEmail: string -> bool): (bad: seq<Field>)
    ensures forall f :: f in bad <==> f in fields && !FieldOk(form, f, isEmail)
  {
    if |fields| == 0 then []
    else (if FieldOk(form, fields[0], isEmail) then [] else [fields[0]]) + Failing(form, fields[1..], isEmail)
  }

  /** Every field is listed in `Fields`. */
  lemma FieldListed(f: Field)
    ensures f in Fields
  {
    assert f == Fields[0] || f == Fields[1] || f == Fields[2] || f == Fields[3]
      || f == Fields[4] || f == Fields[5] || f == Fields[6];
  }

  /** Every field is listed in `Fields`, so no failing field in the list
      means every rule holds. */
  lemma AllFieldsListed(form: JobForm, isEmail: string -> bool)
    ensures |Failing(form, Fields, isEmail)| == 0 <==> Acceptable(form, isEmail)
  {
    if |Failing(form, Fields, isEmail)| == 0 {
      forall f: Field ensures FieldOk(form, f, isEmail) {
        FieldListed(f);
      }
    } else {
      assert !FieldOk(form, Failing(form, Fields, isEmail)[0], isEmail);
    }
  }

  /** An acceptable body's fields, one rule at a time. */
  lemma AcceptableFields(form: JobForm, isEmail: string -> bool)
    requires Acceptable(form, isEmail)
    ensures NonEmptyText(form.title) && NonEmptyText(form.company) && NonEmptyText(form.description)
    ensures form.jobType.Text? && ParseJobType(form.jobType.text).Some?
    ensures form.contact.Text? && isEmail(form.contact.text)
    ensures form.address.Text?
  {
    assert FieldOk(form, TitleField, isEmail) && FieldOk(form, CompanyField, isEmail);
    assert FieldOk(form, TypeField, isEmail) && FieldOk(form, DescriptionField, isEmail);
    assert FieldOk(form, ContactField, isEmail) && FieldOk(form, AddressField, isEmail);
  }

  datatype ParseResult = Parsed(data: JobData) | Invalid(issues: seq<Field>)

  /** `createJobSchema.parse`: the parsed data when every rule holds, and
      otherwise the list of fields that break theirs. */
  function ParseJobForm(form: JobForm, isEmail: string -> bool): (r: ParseResult)
    ensures r.Parsed? <==> Acceptable(form, isEmail)
    ensures r.Invalid? ==> |r.issues| >= 1 && forall f :: f in r.issues <==> !FieldOk(form, f, isEmail)
    ensures r.Parsed? ==>
      && form.title == Text(r.data.title) && |r.data.title| >= 1
      && form.company == Text(r.data.company) && |r.data.company| >= 1
      && (if form.location.Text? then r.data.location == Some(form.location.text) else r.data.location.None?)
      && form.jobType == Text(JobTypeName(r.data.jobType))
      && form.description == Text(r.data.description) && |r.data.description| >= 1
      && form.contact == Text(r.data.contact) && isEmail(r.data.contact)
      && form.address == Text(r.data.address)
  {
    var bad := Failing(form, Fields, isEmail);
    AllFieldsListed(form, isEmail);
    if |bad| > 0 then
      assert forall f: Field :: f in Fields by {
        forall f: Field ensures f in Fields { FieldListed(f); }
      }
      Invalid(bad)
    else
      AcceptableFields(form, isEmail);
      var jobType := ParseJobType(form.jobType.text).value;
      Parsed(JobData(
        form.title.text, form.company.text,
        if form.location.Text? then Some(form.location.text) else None,
        jobType, form.description.text, form.contact.text, form.address.text))
  }

  /** The address must be present but may be empty; the location may be
      left out. */
  lemma AddressMayBeEmptyLocationMayBeAbsent(form: JobForm, isEmail: string -> bool)
    requires Acceptable(form, isEmail)
    ensures Acceptable(form.(address := Text(""), location := Absent), isEmail)
    ensures !Acceptable(form.(address := Absent), isEmail)
  {
    var relaxed := form.(address := Text(""), location := Absent);
    forall f: Field ensures FieldOk(relaxed, f, isEmail) {
      assert FieldOk(form, f, isEmail);
    }
    assert !FieldOk(form.(address := Absent), AddressField, isEmail);
  }
}
