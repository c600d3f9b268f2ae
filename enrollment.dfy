/**
 * The enrollment wizard: the step derived from the URL and written back to it, the
 * captured biometric modalities, and the two gates that enable the forward buttons.
 */
module Enrollment {
  import opened Seqs
  import opened Text

  datatype Step = Demographics | Biometrics | Review

  datatype Modality = Fingerprint | Photo | Iris

  /** The step's name as it appears in the URL. */
  function StepName(s: Step): string {
    match s
    case Demographics => "demographics"
    case Biometrics => "biometrics"
    case Review => "review"
  }

  /** The URL `handleStepChange` navigates to: `/enroll/<step>`. */
  function StepPath(s: Step): (p: string)
    ensures StartsWith(p, "/enroll/")
  {
    "/enroll/" + StepName(s)
  }

  /** `getStepFromPath`: "/biometrics" is looked for first, then "/review"; anything else is the first step. */
  function StepFromPath(path: string): (s: Step)
    ensures s == Biometrics <==> Contains(path, "/biometrics")
    ensures s == Review <==> !Contains(path, "/biometrics") && Contains(path, "/review")
  {
    if Contains(path, "/biometrics") then Biometrics
    else if Contains(path, "/review") then Review
    else Demographics
  }

  /** The path a step navigates to reads back as that step, so the URL and the step agree. */
  lemma {:induction false} PathRoundTrip(s: Step)
    ensures StepFromPath(StepPath(s)) == s
  {
    match s
    case Demographics =>
      NotInStepPath(Demographics, "/biometrics");
      NotInStepPath(Demographics, "/review");
    case Biometrics =>
      assert "/" + StepName(Biometrics) == "/biometrics";
      InStepPath(Biometrics);
    case Review =>
      NotInStepPath(Review, "/biometrics");
      assert "/" + StepName(Review) == "/review";
      InStepPath(Review);
  }

  /** A step's path contains "/" followed by the step's name. */
  lemma {:induction false} InStepPath(s: Step)
    ensures Contains(StepPath(s), "/" + StepName(s))
  {
    var p := StepPath(s);
    assert p[7..7 + |"/" + StepName(s)|] == "/" + StepName(s);
    assert OccursAt(p, "/" + StepName(s), 7);
    ContainsAt(p, "/" + StepName(s));
  }

  /**
   * A needle "/x..." occurs in `/enroll/<name>` only where the path has a '/', that is at 0 or 7;
   * at 0 it would have to start with "/e", at 7 with "/" and the step's name.
   */
  lemma {:induction false} NotInStepPath(s: Step, needle: string)
    requires needle == "/biometrics" || needle == "/review"
    requires needle != "/" + StepName(s)
    ensures !Contains(StepPath(s), needle)
  {
    var p := StepPath(s);
    ContainsAt(p, needle);
    forall i | OccursAt(p, needle, i) ensures false {
      SlashAt(p, needle, i, StepName(s));
    }
  }

  /** Where a needle starting with "/" plus a lower-case letter other than 'e' occurs in `/enroll/` + `rest`. */
  lemma SlashAt(p: string, needle: string, i: int, rest: string)
    requires p == "/enroll/" + rest && |needle| >= 2 && needle[0] == '/' && needle[1] != 'e'
    requires forall k :: 0 <= k < |rest| ==> rest[k] != '/'
    requires OccursAt(p, needle, i)
    ensures i == 7 && p[8..] == rest && needle[1..] == p[8..8 + |needle| - 1]
  {
    assert p[i..i + |needle|][0] == p[i] == '/';
    assert p[i..i + |needle|][1] == p[i + 1];
    assert i == 0 || i == 7;
    assert i == 7;
    assert needle[1..] == p[i..i + |needle|][1..];
  }

  /** A path naming both steps shows biometrics: that test comes first. */
  lemma BiometricsWinsOverReview()
    ensures StepFromPath("/enroll/review/biometrics") == Biometrics
  {
    assert OccursAt("/enroll/review/biometrics", "/biometrics", 14);
    ContainsAt("/enroll/review/biometrics", "/biometrics");
  }

  /** A record path such as `/enroll/42` opens the first step. */
  lemma {:induction false} RecordPathOpensDemographics(id: string)
    requires forall k :: 0 <= k < |id| ==> '0' <= id[k] <= '9'
    ensures StepFromPath("/enroll/" + id) == Demographics
  {
    var p := "/enroll/" + id;
    ContainsAt(p, "/biometrics");
    ContainsAt(p, "/review");
    forall i | OccursAt(p, "/biometrics", i) ensures false {
      SlashAt(p, "/biometrics", i, id);
    }
    forall i | OccursAt(p, "/review", i) ensures false {
      SlashAt(p, "/review", i, id);
    }
  }

  /** `steps.findIndex(step => step.id === currentStep)`. */
  function StepIndex(s: Step): (i: nat)
    ensures i < 3
  {
    match s
    case Demographics => 0
    case Biometrics => 1
    case Review => 2
  }

  /** `steps[i]`: the step shown at position `i` of the progress bar. */
  function StepAt(i: nat): Step
    requires i < 3
  {
    if i == 0 then Demographics else if i == 1 then Biometrics else Review
  }

  /** The progress bar lists every step once: index and step determine each other. */
  lemma StepIndexRoundTrip(s: Step, i: nat)
    requires i < 3
    ensures StepAt(StepIndex(s)) == s
    ensures StepIndex(StepAt(i)) == i
  {
  }

  /** "Step n of 3": the number shown for the current step. */
  function StepNumber(s: Step): (n: nat)
    ensures 1 <= n <= 3 && n == StepIndex(s) + 1
  {
    StepIndex(s) + 1
  }

  /** `handleBiometricCapture`: a modality not yet captured goes at the end; a repeat changes nothing. */
  function Capture(captured: seq<Modality>, m: Modality): (r: seq<Modality>)
    ensures m in r
    ensures m in captured ==> r == captured
    ensures m !in captured ==> r == captured + [m]
  {
    if m in captured then captured else captured + [m]
  }

  /** Capturing keeps the list free of duplicates and only ever extends it. */
  lemma CaptureKeepsNoDup(captured: seq<Modality>, m: Modality)
    requires NoDup(captured)
    ensures NoDup(Capture(captured, m))
    ensures captured <= Capture(captured, m)
  {
  }

  /** Pressing Capture, Recapture or Retake twice is the same as pressing it once. */
  lemma CaptureIdempotent(captured: seq<Modality>, m: Modality)
    ensures Capture(Capture(captured, m), m) == Capture(captured, m)
  {
  }

  /** A duplicate-free list of modalities has at most three entries. */
  lemma {:induction false} AtMostThreeCaptured(captured: seq<Modality>)
    requires NoDup(captured)
    ensures |captured| <= 3
  {
    var s := set i | 0 <= i < |captured| :: captured[i];
    NoDupSetSize(captured);
    assert forall x :: x in s ==> x == Fingerprint || x == Photo || x == Iris;
    assert s <= {Fingerprint, Photo, Iris};
    assert |{Fingerprint, Photo, Iris}| == 3;
    SubsetSize(s, {Fingerprint, Photo, Iris});
  }

  lemma {:induction false} NoDupSetSize(l: seq<Modality>)
    requires NoDup(l)
    ensures |set i | 0 <= i < |l| :: l[i]| == |l|
    decreases |l|
  {
    if |l| > 0 {
      var pre := l[..|l| - 1];
      NoDupSetSize(pre);
      assert (set i | 0 <= i < |l| :: l[i]) == (set i | 0 <= i < |pre| :: pre[i]) + {l[|l| - 1]};
      assert l[|l| - 1] !in (set i | 0 <= i < |pre| :: pre[i]);
    }
  }

  lemma {:induction false} SubsetSize(a: set<Modality>, b: set<Modality>)
    requires a <= b
    ensures |a| <= |b|
    decreases b
  {
    if a != {} {
      var x :| x in a;
      SubsetSize(a - {x}, b - {x});
    }
  }

  /** Each capture in turn, as the buttons are pressed. */
  function CaptureAll(captured: seq<Modality>, presses: seq<Modality>): (r: seq<Modality>)
    ensures captured <= r
    decreases |presses|
  {
    if |presses| == 0 then captured else CaptureAll(Capture(captured, presses[0]), presses[1..])
  }

  /** After any presses the list holds exactly what it held plus what was pressed, each once. */
  lemma {:induction false} CaptureAllContents(captured: seq<Modality>, presses: seq<Modality>, m: Modality)
    requires NoDup(captured)
    ensures NoDup(CaptureAll(captured, presses))
    ensures m in CaptureAll(captured, presses) <==> m in captured || m in presses
    decreases |presses|
  {
    if |presses| > 0 {
      CaptureKeepsNoDup(captured, presses[0]);
      CaptureAllContents(Capture(captured, presses[0]), presses[1..], m);
      assert presses == [presses[0]] + presses[1..];
    }
  }

  /** `isBiometricsComplete`: at least two modalities captured. */
  predicate IsBiometricsComplete(captured: seq<Modality>) {
    |captured| >= 2
  }

  /** The iris scanner's button is disabled ("Scanner Offline"); the other two can be pressed. */
  predicate CaptureEnabled(m: Modality) {
    m != Iris
  }

  /**
   * Through the enabled buttons, starting from nothing, the biometric step is complete
   * exactly when both the fingerprint and the photo have been captured.
   */
  lemma {:induction false} UiCompletionNeedsFingerprintAndPhoto(presses: seq<Modality>)
    requires forall i :: 0 <= i < |presses| ==> CaptureEnabled(presses[i])
    ensures IsBiometricsComplete(CaptureAll([], presses)) <==> Fingerprint in presses && Photo in presses
  {
    var l := CaptureAll([], presses);
    CaptureAllContents([], presses, Fingerprint);
    CaptureAllContents([], presses, Photo);
    CaptureAllContents([], presses, Iris);
    assert Iris !in l;
    if Fingerprint in presses && Photo in presses {
      var i :| 0 <= i < |l| && l[i] == Fingerprint;
      var j :| 0 <= j < |l| && l[j] == Photo;
      assert i != j;
    }
    if IsBiometricsComplete(l) {
      assert l[0] != l[1] && l[0] != Iris && l[1] != Iris;
      assert l[0] in presses && l[1] in presses;
    }
  }

  /** The demographic form; only the first three fields are required by the forward gate. */
  datatype DemographicData = DemographicData(
    firstName: string,
    lastName: string,
    dateOfBirth: string,
    gender: string,
    address: string,
    phoneNumber: string,
    email: string,
    idNumber: string)

  const EmptyForm := DemographicData("", "", "", "", "", "", "", "")

  /** "Continue to Biometrics" is enabled iff first name, last name and date of birth are filled in. */
  predicate CanContinueToBiometrics(d: DemographicData) {
    d.firstName != "" && d.lastName != "" && d.dateOfBirth != ""
  }

  /** Gender and address carry a "*" label but the gate ignores them. */
  lemma GenderAndAddressNotChecked(d: DemographicData, gender: string, address: string)
    ensures CanContinueToBiometrics(d) == CanContinueToBiometrics(d.(gender := gender, address := address))
    ensures CanContinueToBiometrics(DemographicData("A", "B", "2000-01-01", "", "", "", "", ""))
    ensures !CanContinueToBiometrics(EmptyForm)
  {
  }

  /** The wizard page: the URL, the step shown, the captured modalities and the form. */
  class Wizard {
    var path: string
    var currentStep: Step
    var captured: seq<Modality>
    var data: DemographicData

    /** The step always agrees with the URL and no modality is listed twice. */
    ghost predicate Valid()
      reads this
    {
      currentStep == StepFromPath(path) && NoDup(captured)
    }

    /** Mounting the page at `path`: the step is read from the URL; nothing is captured yet. */
    constructor (path: string)
      ensures Valid()
      ensures this.path == path && currentStep == StepFromPath(path)
      ensures captured == [] && data == EmptyForm
    {
      this.path := path;
      currentStep := StepFromPath(path);
      captured := [];
      data := EmptyForm;
    }

    /** `handleStepChange`: set the step and navigate to its path. */
    method HandleStepChange(step: Step)
      requires Valid()
      modifies this
      ensures Valid()
      ensures currentStep == step && path == StepPath(step)
      ensures captured == old(captured) && data == old(data)
    {
      PathRoundTrip(step);
      currentStep := step;
      path := StepPath(step);
    }

    /** Navigation by the browser (the effect on `location.pathname`): the step follows the URL, ungated. */
    method Navigate(newPath: string)
      requires Valid()
      modifies this
      ensures Valid()
      ensures path == newPath && currentStep == StepFromPath(newPath)
      ensures captured == old(captured) && data == old(data)
    {
      path := newPath;
      currentStep := StepFromPath(newPath);
    }

    /** Typing in the form. */
    method EditForm(d: DemographicData)
      requires Valid()
      modifies this
      ensures Valid()
      ensures data == d && path == old(path) && currentStep == old(currentStep) && captured == old(captured)
    {
      data := d;
    }

    /** `handleBiometricCapture`, behind Capture/Recapture/Take Photo/Retake. */
    method HandleBiometricCapture(m: Modality)
      requires Valid()
      modifies this
      ensures Valid()
      ensures captured == Capture(old(captured), m)
      ensures old(captured) <= captured
      ensures path == old(path) && currentStep == old(currentStep) && data == old(data)
    {
      CaptureKeepsNoDup(captured, m);
      captured := Capture(captured, m);
    }

    /** "Continue to Biometrics": moves on only when the button is enabled. */
    method ContinueToBiometrics() returns (moved: bool)
      requires Valid() && currentStep == Demographics
      modifies this
      ensures Valid()
      ensures moved <==> CanContinueToBiometrics(old(data))
      ensures currentStep == (if moved then Biometrics else Demographics)
      ensures !moved ==> path == old(path)
      ensures captured == old(captured) && data == old(data)
    {
      moved := CanContinueToBiometrics(data);
      if moved {
        HandleStepChange(Biometrics);
      }
    }

    /** "Continue to Review": moves on only when at least two modalities are captured. */
    method ContinueToReview() returns (moved: bool)
      requires Valid() && currentStep == Biometrics
      modifies this
      ensures Valid()
      ensures moved <==> IsBiometricsComplete(old(captured))
      ensures currentStep == (if moved then Review else Biometrics)
      ensures !moved ==> path == old(path)
      ensures captured == old(captured) && data == old(data)
    {
      moved := IsBiometricsComplete(captured);
      if moved {
        HandleStepChange(Review);
      }
    }
  }
}
