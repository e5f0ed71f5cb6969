/**
 * The contact page (src/pages/Contact.jsx): field validation with an unanchored
 * e-mail pattern, the submit outcome (the delivery itself is an input), the
 * fifteen-second countdown meant to enable "Send Another Message", and the
 * five-second timeout that closes the success screen first, so that as written
 * the button is never clickable.
 */
module ContactPage {
  import opened Wrappers
  import opened JsBuiltins
  import opened FormErrors

  datatype ContactForm = ContactForm(
    name: string,
    email: string,
    subject: string,
    phone: string,
    message: string)

  const EmptyForm: ContactForm := ContactForm("", "", "", "", "")

  /** The inputs, by their `name` attribute; errors are keyed by the same names. */
  datatype Field = Name | Email | Subject | Phone | Message

  const NameRequired: string := "Name is required"
  const EmailRequired: string := "Email is required"
  const EmailInvalid: string := "Email is invalid"
  const SubjectRequired: string := "Subject is required"
  const MessageRequired: string := "Message is required"
  const MessageTooShort: string := "Message must be at least 10 characters"

  /** The shortest accepted message, in UTF-16 code units and NOT trimmed. */
  const MinMessageLength: nat := 10

  /** Seconds the success screen counts down before "Send Another Message" is enabled. */
  const CountdownStart: int := 15

  /**
   * `/\S+@\S+\.\S+/` matches with its `@` at `at` and its `.` at `dot`: a non-space
   * just before the `@`, a non-empty run of non-spaces up to the `.`, and a
   * non-space right after it. Longer `\S+` runs only extend these outwards.
   */
  predicate EmailMatchAt(s: string, at: int, dot: int) {
    && 1 <= at && at + 1 < dot && dot + 1 < |s|
    && !IsSpace(s[at - 1]) && s[at] == '@'
    && (forall k :: at < k < dot ==> !IsSpace(s[k]))
    && s[dot] == '.' && !IsSpace(s[dot + 1])
  }

  /** `/\S+@\S+\.\S+/.test(s)`: the pattern is not anchored, so a match anywhere counts. */
  predicate LooksLikeEmail(s: string) {
    exists at, dot | 0 <= at < dot < |s| :: EmailMatchAt(s, at, dot)
  }

  /** The site's own address passes the check. */
  lemma OwnAddressLooksLikeEmail()
    ensures LooksLikeEmail("inaratech2025@gmail.com")
  {
    var s := "inaratech2025@gmail.com";
    assert EmailMatchAt(s, 13, 19);
  }

  /** Every `user@domain.tld` whose three parts are non-empty runs of non-spaces passes. */
  lemma SimpleAddressLooksLikeEmail(user: string, domain: string, tld: string)
    requires user != [] && domain != [] && tld != []
    requires forall k :: 0 <= k < |user| ==> !IsSpace(user[k])
    requires forall k :: 0 <= k < |domain| ==> !IsSpace(domain[k])
    requires forall k :: 0 <= k < |tld| ==> !IsSpace(tld[k])
    ensures LooksLikeEmail(user + "@" + domain + "." + tld)
  {
    var s := user + "@" + domain + "." + tld;
    var at, dot := |user|, |user| + 1 + |domain|;
    assert s[at - 1] == user[at - 1];
    forall k | at < k < dot
      ensures !IsSpace(s[k])
    {
      assert s[k] == domain[k - at - 1];
    }
    assert s[dot + 1] == tld[0];
    assert EmailMatchAt(s, at, dot);
  }

  /** Without an `@` nothing matches. */
  lemma NoAtSign(s: string)
    requires forall k :: 0 <= k < |s| ==> s[k] != '@'
    ensures !LooksLikeEmail(s)
  {
  }

  /** Because the pattern is unanchored, surrounding text never hides a match. */
  lemma MatchSurvivesContext(p: string, s: string, q: string)
    requires LooksLikeEmail(s)
    ensures LooksLikeEmail(p + s + q)
  {
    var at, dot :| 0 <= at < dot < |s| && EmailMatchAt(s, at, dot);
    var t := p + s + q;
    forall k | |p| + at < k < |p| + dot
      ensures !IsSpace(t[k])
    {
      assert t[k] == s[k - |p|];
    }
    assert EmailMatchAt(t, |p| + at, |p| + dot);
  }

  /** Anything that matches has a non-space, so the "required" check never hides an "invalid" one. */
  lemma EmailMatchIsNotBlank(s: string)
    requires LooksLikeEmail(s)
    ensures !IsBlank(s)
  {
    var at, dot :| 0 <= at < dot < |s| && EmailMatchAt(s, at, dot);
    BlankIffAllSpace(s);
    assert !IsSpace(s[at]);
  }

  /** What `validateForm` accepts; the phone number is never checked. */
  predicate Acceptable(f: ContactForm) {
    && !IsBlank(f.name)
    && !IsBlank(f.email) && LooksLikeEmail(f.email)
    && !IsBlank(f.subject)
    && !IsBlank(f.message) && Utf16Length(f.message) >= MinMessageLength
  }

  /** `validateForm`'s error map: at most one message per field, chosen by an if/else-if chain. */
  function Validate(f: ContactForm): (errors: map<Field, string>)
    ensures Name in errors <==> IsBlank(f.name)
    ensures Email in errors <==> IsBlank(f.email) || !LooksLikeEmail(f.email)
    ensures Subject in errors <==> IsBlank(f.subject)
    ensures Message in errors <==> IsBlank(f.message) || Utf16Length(f.message) < MinMessageLength
    ensures Phone !in errors
    ensures Name in errors ==> errors[Name] == NameRequired
    ensures Email in errors ==> errors[Email] == if IsBlank(f.email) then EmailRequired else EmailInvalid
    ensures Subject in errors ==> errors[Subject] == SubjectRequired
    ensures Message in errors ==> errors[Message] == if IsBlank(f.message) then MessageRequired else MessageTooShort
    ensures errors == map[] <==> Acceptable(f)
  {
    var e0: map<Field, string> := map[];
    var e1 := if IsBlank(f.name) then e0[Name := NameRequired] else e0;
    var e2 :=
      if IsBlank(f.email) then e1[Email := EmailRequired]
      else if !LooksLikeEmail(f.email) then e1[Email := EmailInvalid]
      else e1;
    var e3 := if IsBlank(f.subject) then e2[Subject := SubjectRequired] else e2;
    var e4 :=
      if IsBlank(f.message) then e3[Message := MessageRequired]
      else if Utf16Length(f.message) < MinMessageLength then e3[Message := MessageTooShort]
      else e3;
    assert Name in e4 ==> e4 != map[];
    assert Email in e4 ==> e4 != map[];
    assert Subject in e4 ==> e4 != map[];
    assert Message in e4 ==> e4 != map[];
    e4
  }

  /** The message length is measured before trimming: padding with spaces reaches the minimum. */
  lemma PaddedMessageIsLongEnough(f: ContactForm)
    requires !IsBlank(f.message) && |f.message| >= MinMessageLength
    ensures Message !in Validate(f)
  {
  }

  /** The success screen's timer state: seconds left, whether reset is allowed, whether the interval runs. */
  datatype Countdown = Countdown(timeLeft: int, canReset: bool, ticking: bool)

  /** The state the `isSubmitted` effect starts: fifteen seconds, reset disabled, interval running. */
  const Started: Countdown := Countdown(CountdownStart, false, true)

  /**
   * One interval callback: the tick that sees one second or less left enables the
   * reset button, stops the interval and shows 0; every other tick counts down.
   */
  function Tick(c: Countdown): (d: Countdown)
    ensures !c.ticking ==> d == c
    ensures c.ticking && c.timeLeft > 1 ==> d == c.(timeLeft := c.timeLeft - 1)
    ensures c.ticking && c.timeLeft <= 1 ==> d == Countdown(0, true, false)
  {
    if !c.ticking then c
    else if c.timeLeft <= 1 then Countdown(0, true, false)
    else c.(timeLeft := c.timeLeft - 1)
  }

  /** `n` interval callbacks in a row. */
  function Ticks(c: Countdown, n: nat): (d: Countdown)
    decreases n
  {
    if n == 0 then c else Ticks(Tick(c), n - 1)
  }

  /**
   * Fewer than fifteen ticks leave the button disabled and show the seconds left;
   * the fifteenth and every later one leave it enabled with the interval stopped.
   */
  lemma {:induction false} CountdownEnablesResetAfterFifteen(n: nat)
    ensures n < 15 ==> Ticks(Started, n) == Countdown(15 - n, false, true)
    ensures n >= 15 ==> Ticks(Started, n) == Countdown(0, true, false)
  {
    CountdownFrom(15, n);
  }

  /** Counting down from `t` seconds takes exactly `t` ticks, and then the state no longer changes. */
  lemma {:induction false} CountdownFrom(t: int, n: nat)
    requires t >= 1
    ensures n < t ==> Ticks(Countdown(t, false, true), n) == Countdown(t - n, false, true)
    ensures n >= t ==> Ticks(Countdown(t, false, true), n) == Countdown(0, true, false)
  {
    if n > 0 {
      if t == 1 {
        StoppedStaysStopped(n - 1);
      } else {
        CountdownFrom(t - 1, n - 1);
      }
    }
  }

  /** Once the interval has stopped, further ticks change nothing. */
  lemma {:induction false} StoppedStaysStopped(n: nat)
    ensures Ticks(Countdown(0, true, false), n) == Countdown(0, true, false)
  {
    if n > 0 {
      StoppedStaysStopped(n - 1);
    }
  }

  /** Seconds after a delivered submission until `setTimeout` closes the success screen. */
  const AutoHideSeconds: nat := 5

  /** The success area: whether it is on screen, and its countdown. */
  datatype SuccessScreen = SuccessScreen(shown: bool, clock: Countdown)

  /** "Send Another Message" is rendered only on the success screen and enabled only by the countdown. */
  predicate ResetClickable(s: SuccessScreen) {
    s.shown && s.clock.canReset
  }

  /** The ticks that run before a close due at second `h`: those of the seconds before it. */
  function TicksBeforeClose(h: nat): nat {
    if h == 0 then 0 else h - 1
  }

  /**
   * The success area `t` whole seconds after delivery, when the screen closes itself
   * after `hideAfter` seconds (`None`: never). The close is scheduled in the
   * submit handler, before the render whose effect starts the interval, so it
   * comes due before the tick of the same second; closing runs the effect's
   * cleanup, and the countdown stops where it was.
   */
  function ScreenAt(hideAfter: Option<nat>, t: nat): (s: SuccessScreen)
    ensures s.shown <==> hideAfter.None? || t < hideAfter.value
    ensures s.shown ==> s.clock == Ticks(Started, t)
    ensures !s.shown ==> !s.clock.ticking && s.clock.timeLeft == Ticks(Started, TicksBeforeClose(hideAfter.value)).timeLeft
  {
    if hideAfter.Some? && hideAfter.value <= t
    then SuccessScreen(false, Ticks(Started, TicksBeforeClose(hideAfter.value)).(ticking := false))
    else SuccessScreen(true, Ticks(Started, t))
  }

  /** The button can be clicked exactly from the fifteenth second on, while the screen is still up. */
  lemma ResetClickableAt(hideAfter: Option<nat>, t: nat)
    ensures ResetClickable(ScreenAt(hideAfter, t)) <==>
      CountdownStart <= t && (hideAfter.None? || t < hideAfter.value)
  {
    CountdownEnablesResetAfterFifteen(t);
  }

  /** Some moment has the button clickable exactly when the screen stays up longer than the countdown. */
  lemma ResetReachableIff(hideAfter: nat)
    ensures (exists t: nat :: ResetClickable(ScreenAt(Some(hideAfter), t))) <==> hideAfter > CountdownStart
  {
    if hideAfter > CountdownStart {
      ResetClickableAt(Some(hideAfter), CountdownStart as nat);
    } else {
      forall t: nat
        ensures !ResetClickable(ScreenAt(Some(hideAfter), t))
      {
        ResetClickableAt(Some(hideAfter), t);
      }
    }
  }

  /** As written: the five-second close comes first, so at no moment can the button be clicked. */
  lemma ResetNeverClickableAsWritten(t: nat)
    ensures !ResetClickable(ScreenAt(Some(AutoHideSeconds), t))
  {
    ResetClickableAt(Some(AutoHideSeconds), t);
  }

  /** Without the early close the button becomes clickable exactly when the countdown reaches 0. */
  lemma ResetClickableWithoutAutoHide(t: nat)
    ensures ResetClickable(ScreenAt(None, t)) <==> t >= CountdownStart
  {
    ResetClickableAt(None, t);
  }

  class Contact {
    var formData: ContactForm
    var isSubmitting: bool
    var isSubmitted: bool
    var errors: map<Field, string>
    var canReset: bool
    var timeLeft: int
    /** Whether the countdown interval is scheduled. */
    var ticking: bool

    /** The countdown fields, as one value. */
    function Clock(): Countdown
      reads this
    {
      Countdown(timeLeft, canReset, ticking)
    }

    /**
     * What every handler keeps: the interval runs only on the success screen while
     * reset is still disabled, and the success screen without a running interval
     * has reset enabled at 0 seconds.
     */
    ghost predicate Valid()
      reads this
    {
      && 0 <= timeLeft <= CountdownStart
      && (ticking ==> isSubmitted && !canReset && timeLeft >= 1)
      && (isSubmitted && !ticking ==> canReset && timeLeft == 0)
      && (canReset ==> timeLeft == 0)
      && (isSubmitting ==> !isSubmitted)
    }

    constructor ()
      ensures Valid()
      ensures formData == EmptyForm && errors == map[]
      ensures !isSubmitting && !isSubmitted && !canReset && timeLeft == CountdownStart && !ticking
    {
      formData := EmptyForm;
      isSubmitting := false;
      isSubmitted := false;
      errors := map[];
      canReset := false;
      timeLeft := CountdownStart;
      ticking := false;
    }

    /** `handleChange`: store the value; blank that field's message, and no other. */
    method HandleChange(field: Field, value: string)
      modifies this`formData, this`errors
      ensures formData == match field
                          case Name => old(formData).(name := value)
                          case Email => old(formData).(email := value)
                          case Subject => old(formData).(subject := value)
                          case Phone => old(formData).(phone := value)
                          case Message => old(formData).(message := value)
      ensures errors == ClearError(old(errors), field)
    {
      formData := match field
                  case Name => formData.(name := value)
                  case Email => formData.(email := value)
                  case Subject => formData.(subject := value)
                  case Phone => formData.(phone := value)
                  case Message => formData.(message := value);
      errors := ClearError(errors, field);
    }

    /** `validateForm`: show the error map and report whether it is empty. */
    method ValidateForm() returns (ok: bool)
      modifies this`errors
      ensures errors == Validate(old(formData))
      ensures ok <==> Acceptable(old(formData))
    {
      errors := Validate(formData);
      ok := errors == map[];
    }

    /**
     * `handleSubmit` up to the request: an invalid form stops with its errors shown;
     * a valid one is marked as sending. The form is only on screen, and its button
     * only enabled, while nothing is submitted or sending.
     */
    method HandleSubmit() returns (sending: bool)
      requires Valid() && !isSubmitted && !isSubmitting
      modifies this`errors, this`isSubmitting
      ensures Valid()
      ensures sending <==> Acceptable(old(formData))
      ensures errors == Validate(old(formData))
      ensures isSubmitting == sending
    {
      sending := ValidateForm();
      if sending {
        isSubmitting := true;
      }
    }

    /**
     * The request settles. Delivered: the form and its errors are cleared and the
     * success screen opens, whose effect starts the countdown. Not delivered: only the
     * sending mark is dropped and everything typed stays.
     */
    method Settle(delivered: bool)
      requires Valid() && isSubmitting
      modifies this
      ensures Valid() && !isSubmitting
      ensures delivered ==> && isSubmitted && formData == EmptyForm && errors == map[]
                            && Clock() == Started
      ensures !delivered ==> && !isSubmitted && formData == old(formData) && errors == old(errors)
                             && Clock() == old(Clock())
    {
      isSubmitting := false;
      if delivered {
        isSubmitted := true;
        formData := EmptyForm;
        errors := map[];
        canReset := false;
        timeLeft := CountdownStart;
        ticking := true;
      }
    }

    /** One interval callback. */
    method OnTick()
      requires Valid()
      modifies this`timeLeft, this`canReset, this`ticking
      ensures Valid()
      ensures Clock() == Tick(old(Clock()))
    {
      if ticking {
        if timeLeft <= 1 {
          canReset := true;
          ticking := false;
          timeLeft := 0;
        } else {
          timeLeft := timeLeft - 1;
        }
      }
    }

    /** The five-second timeout: the success screen closes and the effect's cleanup stops the interval. */
    method AutoHide()
      requires Valid()
      modifies this`isSubmitted, this`ticking
      ensures Valid()
      ensures !isSubmitted && !ticking
    {
      isSubmitted := false;
      ticking := false;
    }

    /**
     * "Send Another Message", enabled only once the countdown is over: back to a
     * fresh form. With the five-second close in place no run reaches this handler.
     */
    method ResetForm()
      requires Valid() && isSubmitted && canReset
      modifies this
      ensures Valid()
      ensures !isSubmitted && !isSubmitting && formData == EmptyForm && errors == map[]
      ensures Clock() == Countdown(CountdownStart, false, false)
    {
      isSubmitted := false;
      formData := EmptyForm;
      errors := map[];
      canReset := false;
      timeLeft := CountdownStart;
      ticking := false;
    }
  }

  /**
   * A delivered submission as the page runs it: four interval ticks, then the
   * five-second close, which was scheduled before the interval and so comes due
   * before its fifth tick. The screen is gone with reset still disabled and the
   * interval cleared, so `ResetForm`'s precondition is never met.
   */
  method DeliveredThenClosed(c: Contact)
    requires c.Valid() && c.isSubmitting
    modifies c
    ensures c.Valid() && !c.isSubmitted && !c.canReset && !c.ticking
    ensures c.timeLeft == CountdownStart - (AutoHideSeconds - 1)
  {
    c.Settle(true);
    var i: nat := 0;
    while i < AutoHideSeconds - 1
      invariant i <= AutoHideSeconds - 1
      invariant c.Valid() && c.isSubmitted
      invariant c.Clock() == Countdown(CountdownStart - i, false, true)
    {
      c.OnTick();
      i := i + 1;
    }
    c.AutoHide();
  }
}
