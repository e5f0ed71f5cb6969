/**
 * The public submission form (src/components/TestimonialForm.jsx): validation, then
 * one new, never-featured record appended to the stored list.
 */
module TestimonialFormUI {
  import opened Wrappers
  import opened JsBuiltins
  import opened TestimonialStore
  import opened LocalStorage
  import opened FormErrors

  /** The form's state; unlike the admin form it has no `featured` box and no id. */
  datatype Submission = Submission(
    name: string,
    company: string,
    role: string,
    content: string,
    rating: int,
    avatar: string)

  const EmptySubmission: Submission := Submission("", "", "", "", 5, DefaultAvatar)

  /** The text inputs, by their `name` attribute; errors are keyed by the same names. */
  datatype Field = Name | Company | Role | Content

  const NameRequired: string := "Name is required"
  const CompanyRequired: string := "Company is required"
  const RoleRequired: string := "Role is required"
  const ContentRequired: string := "Testimonial content is required"
  const ContentTooShort: string := "Please write at least 20 characters"

  /** The shortest accepted testimonial, in UTF-16 code units after trimming. */
  const MinContentLength: nat := 20

  /** What `validateForm` accepts. */
  predicate Acceptable(f: Submission) {
    && !IsBlank(f.name) && !IsBlank(f.company) && !IsBlank(f.role)
    && Utf16Length(Trim(f.content)) >= MinContentLength
  }

  /**
   * `validateForm`'s error map, built by the same chain of conditional writes: the
   * length check runs after the emptiness check and overwrites its message.
   */
  function Validate(f: Submission): (errors: map<Field, string>)
    ensures Name in errors <==> IsBlank(f.name)
    ensures Company in errors <==> IsBlank(f.company)
    ensures Role in errors <==> IsBlank(f.role)
    ensures Content in errors <==> Utf16Length(Trim(f.content)) < MinContentLength
    ensures Name in errors ==> errors[Name] == NameRequired
    ensures Company in errors ==> errors[Company] == CompanyRequired
    ensures Role in errors ==> errors[Role] == RoleRequired
    ensures Content in errors ==> errors[Content] == ContentTooShort
    ensures errors == map[] <==> Acceptable(f)
  {
    var e0: map<Field, string> := map[];
    var e1 := if IsBlank(f.name) then e0[Name := NameRequired] else e0;
    var e2 := if IsBlank(f.company) then e1[Company := CompanyRequired] else e1;
    var e3 := if IsBlank(f.role) then e2[Role := RoleRequired] else e2;
    var e4 := if IsBlank(f.content) then e3[Content := ContentRequired] else e3;
    var e5 := if Utf16Length(Trim(f.content)) < MinContentLength then e4[Content := ContentTooShort] else e4;
    assert Name in e5 ==> e5 != map[];
    assert Company in e5 ==> e5 != map[];
    assert Role in e5 ==> e5 != map[];
    assert Content in e5 ==> e5 != map[];
    e5
  }

  /** Empty content is too short as well, so the "required" message for content is never shown. */
  lemma BlankContentIsTooShort(f: Submission)
    requires IsBlank(f.content)
    ensures Content in Validate(f) && Validate(f)[Content] == ContentTooShort
  {
  }

  /** `{ id: Date.now(), ...formData, featured: false }` */
  function NewSubmission(now: int, f: Submission): (t: Testimonial)
    ensures !t.featured && t.id == now
    ensures t.name == f.name && t.company == f.company && t.role == f.role && t.content == f.content
    ensures t.rating == f.rating && t.avatar == f.avatar
  {
    Testimonial(now, f.name, f.company, f.role, f.content, f.rating, f.avatar, false)
  }

  class TestimonialForm {
    const store: Store
    var formData: Submission
    var isSubmitting: bool
    var isSubmitted: bool
    var errors: map<Field, string>

    constructor (store: Store)
      ensures this.store == store
      ensures formData == EmptySubmission && !isSubmitting && !isSubmitted && errors == map[]
    {
      this.store := store;
      formData := EmptySubmission;
      isSubmitting := false;
      isSubmitted := false;
      errors := map[];
    }

    /** `handleInputChange`: store the value; clear that field's error, and no other. */
    method HandleInputChange(field: Field, value: string)
      modifies this`formData, this`errors
      ensures formData == match field
                          case Name => old(formData).(name := value)
                          case Company => old(formData).(company := value)
                          case Role => old(formData).(role := value)
                          case Content => old(formData).(content := value)
      ensures errors == ClearError(old(errors), field)
    {
      formData := match field
                  case Name => formData.(name := value)
                  case Company => formData.(company := value)
                  case Role => formData.(role := value)
                  case Content => formData.(content := value);
      errors := ClearError(errors, field);
    }

    /** One of the avatar buttons, by its position among the options. */
    method PickAvatar(choice: nat)
      requires choice < |AvatarOptions|
      modifies this`formData
      ensures formData == old(formData).(avatar := AvatarOptions[choice])
    {
      formData := formData.(avatar := AvatarOptions[choice]);
    }

    /** One of the five star buttons. */
    method PickRating(stars: int)
      requires IsRating(stars)
      modifies this`formData
      ensures formData == old(formData).(rating := stars)
    {
      formData := formData.(rating := stars);
    }

    /** `validateForm`: show the error map and report whether it is empty. */
    method ValidateForm() returns (ok: bool)
      modifies this`errors
      ensures errors == Validate(old(formData))
      ensures ok <==> Acceptable(old(formData))
    {
      errors := Validate(formData);
      ok := errors == map[];
    }

    /**
     * `handleSubmit`. An invalid form only shows its errors. A valid one appends one
     * new record to what storage holds, writes the list back, hands that same list
     * to `onTestimonialAdded` when the parent gave one (the result here), shows the
     * success message and empties the form. The form is not shown once submitted.
     */
    method HandleSubmit(now: int, hasCallback: bool) returns (handed: Option<seq<Testimonial>>)
      requires !isSubmitted
      modifies this, store
      ensures errors == Validate(old(formData))
      ensures var updated := RecordsOrEmpty(old(store.items), StorageKey) + [NewSubmission(now, old(formData))];
        if Acceptable(old(formData)) then
          && store.items == old(store.items)[StorageKey := Records(updated)]
          && handed == (if hasCallback then Some(updated) else None)
          && formData == EmptySubmission && isSubmitted && !isSubmitting
        else
          && store.items == old(store.items) && handed == None
          && formData == old(formData) && !isSubmitted && isSubmitting == old(isSubmitting)
    {
      var submitted := formData;
      var ok := ValidateForm();
      if !ok {
        handed := None;
        return;
      }
      isSubmitting := true;
      var existing := RecordsOrEmpty(store.items, StorageKey);
      var updated := existing + [NewSubmission(now, submitted)];
      store.SetItem(StorageKey, Records(updated));
      handed := if hasCallback then Some(updated) else None;
      isSubmitted := true;
      formData := EmptySubmission;
      isSubmitting := false;
    }

    /** The five-second timer that hides the success message. */
    method HideSuccess()
      modifies this`isSubmitted
      ensures !isSubmitted
    {
      isSubmitted := false;
    }
  }

  /** A well-formed stored list stays well formed when a submission from the form controls is added. */
  lemma SubmissionKeepsWellFormed(list: seq<Testimonial>, now: int, f: Submission)
    requires AllWellFormed(list) && IsRating(f.rating) && f.avatar in AvatarOptions
    ensures AllWellFormed(list + [NewSubmission(now, f)])
  {
    var r := list + [NewSubmission(now, f)];
    forall i | 0 <= i < |r| ensures WellFormed(r[i]) {
      if i < |list| {
        assert r[i] == list[i];
      }
    }
  }
}
