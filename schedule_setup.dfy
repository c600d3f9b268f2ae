/**
 * The company-wide schedule: the validation of work and break times, and the
 * edit / save / cancel machine that only ever adopts settings validation accepts.
 */
module ScheduleSetup {

  /**
   * A time input's value as `new Date("2000-01-01T<value>:00")` reads it: minutes since
   * midnight, or a value it cannot read (an emptied input gives an Invalid Date).
   */
  datatype TimeValue = At(minutes: int) | Unparsed

  datatype Settings = Settings(workStart: TimeValue, workEnd: TimeValue, breakStart: TimeValue, breakDuration: nat)

  /** 08:00 to 17:00 with a 60-minute break at 12:00. */
  const DefaultSettings := Settings(At(480), At(1020), At(720), 60)

  datatype Field = WorkStartTime | WorkEndTime | BreakStartTime | BreakDuration

  /** Date comparison `a < b`: false whenever either side is an Invalid Date. */
  predicate Before(a: TimeValue, b: TimeValue) {
    a.At? && b.At? && a.minutes < b.minutes
  }

  /** Date comparison `a <= b`: false whenever either side is an Invalid Date. */
  predicate AtOrBefore(a: TimeValue, b: TimeValue) {
    a.At? && b.At? && a.minutes <= b.minutes
  }

  /** The end of the break: its start plus the duration in minutes. */
  function BreakEnd(s: Settings): TimeValue {
    match s.breakStart
    case At(m) => At(m + s.breakDuration)
    case Unparsed => Unparsed
  }

  /** The three checks `validateSettings` makes, one per field it can flag. */
  predicate HasError(s: Settings, f: Field) {
    match f
    case WorkStartTime => false
    case WorkEndTime => AtOrBefore(s.workEnd, s.workStart)
    case BreakStartTime => Before(s.breakStart, s.workStart) || Before(s.workEnd, s.breakStart)
    case BreakDuration => Before(s.workEnd, BreakEnd(s))
  }

  function Message(f: Field): string {
    match f
    case WorkStartTime => ""
    case WorkEndTime => "Work end time must be after work start time"
    case BreakStartTime => "Break start time must be between work start and end times"
    case BreakDuration => "Break duration extends beyond work end time"
  }

  /** Validation finds nothing wrong. */
  predicate Accepted(s: Settings) {
    forall f: Field :: !HasError(s, f)
  }

  /** The intended rule on readable times: work ends after it starts and the break lies inside it. */
  predicate IsValid(s: Settings) {
    && s.workStart.At? && s.workEnd.At? && s.breakStart.At?
    && s.workStart.minutes < s.workEnd.minutes
    && s.workStart.minutes <= s.breakStart.minutes
    && s.breakStart.minutes + s.breakDuration <= s.workEnd.minutes
  }

  /** `validateSettings`: one message per failed check, filled in check by check. */
  method ValidateSettings(s: Settings) returns (errors: map<Field, string>)
    ensures forall f :: f in errors <==> HasError(s, f)
    ensures forall f :: f in errors ==> errors[f] == Message(f)
  {
    errors := map[];
    if AtOrBefore(s.workEnd, s.workStart) {
      errors := errors[WorkEndTime := Message(WorkEndTime)];
    }
    if Before(s.breakStart, s.workStart) || Before(s.workEnd, s.breakStart) {
      errors := errors[BreakStartTime := Message(BreakStartTime)];
    }
    if Before(s.workEnd, BreakEnd(s)) {
      errors := errors[BreakDuration := Message(BreakDuration)];
    }
  }

  /** With every time readable, validation accepts exactly the settings whose break lies inside the working day. */
  lemma AcceptedIffValid(s: Settings)
    requires s.workStart.At? && s.workEnd.At? && s.breakStart.At?
    ensures Accepted(s) <==> IsValid(s)
  {
    if !IsValid(s) {
      if s.workEnd.minutes <= s.workStart.minutes {
        assert HasError(s, WorkEndTime);
      } else if s.breakStart.minutes < s.workStart.minutes {
        assert HasError(s, BreakStartTime);
      } else {
        assert HasError(s, BreakDuration);
      }
    }
  }

  /** A check reports an error exactly when its condition holds on readable times. */
  lemma ErrorConditions(s: Settings)
    requires s.workStart.At? && s.workEnd.At? && s.breakStart.At?
    ensures HasError(s, WorkEndTime) <==> s.workEnd.minutes <= s.workStart.minutes
    ensures HasError(s, BreakStartTime) <==>
              s.breakStart.minutes < s.workStart.minutes || s.breakStart.minutes > s.workEnd.minutes
    ensures HasError(s, BreakDuration) <==> s.breakStart.minutes + s.breakDuration > s.workEnd.minutes
  {
  }

  /** The defaults pass validation. */
  lemma DefaultsAccepted()
    ensures IsValid(DefaultSettings) && Accepted(DefaultSettings)
  {
    AcceptedIffValid(DefaultSettings);
  }

  /**
   * An emptied end-time input is not caught: every comparison with an Invalid Date is false,
   * so validation accepts a schedule that has no end time.
   */
  lemma EmptiedEndTimeAccepted()
    ensures Accepted(Settings(At(480), Unparsed, At(720), 60))
    ensures !IsValid(Settings(At(480), Unparsed, At(720), 60))
  {
  }

  /** The page: the settings in force, the form being edited, edit mode, and the shown errors. */
  class ScheduleSetupPage {
    var currentSettings: Settings
    var formSettings: Settings
    var isEditing: bool
    var errors: map<Field, string>

    /** The settings in force always passed validation. */
    ghost predicate Valid()
      reads this
    {
      Accepted(currentSettings)
    }

    constructor ()
      ensures Valid()
      ensures currentSettings == DefaultSettings && formSettings == DefaultSettings
      ensures !isEditing && errors == map[]
    {
      currentSettings := DefaultSettings;
      formSettings := DefaultSettings;
      isEditing := false;
      errors := map[];
      DefaultsAccepted();
    }

    /** `handleEdit`: start from the settings in force; earlier errors stay on screen. */
    method HandleEdit()
      requires Valid()
      modifies this
      ensures Valid()
      ensures formSettings == currentSettings == old(currentSettings) && isEditing
      ensures errors == old(errors)
    {
      formSettings := currentSettings;
      isEditing := true;
    }

    /** Typing into the form; the inputs are enabled only in edit mode. */
    method EditForm(s: Settings)
      requires Valid() && isEditing
      modifies this
      ensures Valid()
      ensures formSettings == s
      ensures currentSettings == old(currentSettings) && isEditing && errors == old(errors)
    {
      formSettings := s;
    }

    /** `handleSave`: adopt the form only if it passes validation; otherwise show why not. */
    method HandleSave()
      requires Valid()
      modifies this
      ensures Valid()
      ensures formSettings == old(formSettings)
      ensures Accepted(old(formSettings)) ==> currentSettings == old(formSettings) && !isEditing && errors == map[]
      ensures !Accepted(old(formSettings)) ==>
                currentSettings == old(currentSettings) && isEditing == old(isEditing) &&
                errors != map[] &&
                (forall f :: f in errors <==> HasError(old(formSettings), f)) &&
                (forall f :: f in errors ==> errors[f] == Message(f))
    {
      var validationErrors := ValidateSettings(formSettings);
      if validationErrors != map[] {
        errors := validationErrors;
        return;
      }
      assert Accepted(formSettings);
      currentSettings := formSettings;
      isEditing := false;
      errors := map[];
    }

    /** `handleCancel`: drop the edits, leave edit mode, clear the errors. */
    method HandleCancel()
      requires Valid()
      modifies this
      ensures Valid()
      ensures formSettings == currentSettings == old(currentSettings)
      ensures !isEditing && errors == map[]
    {
      formSettings := currentSettings;
      isEditing := false;
      errors := map[];
    }
  }
}
