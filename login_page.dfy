/**
 * The two-step login: a student ID, then a six-slot one-time code. Each
 * handler runs as one sequential step; the simulated network delay is not
 * modelled.
 */
module LoginPage {
  import opened JsRuntime
  import App

  datatype Step = IdStep | OtpStep

  const MissingIdError: string := "Please enter your Student ID"
  const IncompleteOtpError: string := "Please enter the complete 6-digit OTP"
  const MaskedContact: string := "ra***@niu.edu.in / ******7890"

  /** Six empty slots. */
  const EmptyOtp: seq<string> := ["", "", "", "", "", ""]

  /** The total length of the pieces, which is the length of their join with "". */
  function TotalLength(parts: seq<string>): nat
  {
    if |parts| == 0 then 0 else |parts[0]| + TotalLength(parts[1..])
  }

  lemma {:induction false} JoinEmptyLength(parts: seq<string>)
    ensures |Join(parts, "")| == TotalLength(parts)
  {
    if |parts| > 1 {
      JoinEmptyLength(parts[1..]);
      assert TotalLength(parts[1..]) == |Join(parts[1..], "")|;
    } else if |parts| == 1 {
      assert parts[1..] == [];
    }
  }

  /** Slots of at most one character fill the total length |parts| exactly when none is empty. */
  lemma {:induction false} FullWhenNoSlotEmpty(parts: seq<string>)
    requires forall i :: 0 <= i < |parts| ==> |parts[i]| <= 1
    ensures TotalLength(parts) <= |parts|
    ensures TotalLength(parts) == |parts| <==> forall i :: 0 <= i < |parts| ==> |parts[i]| == 1
  {
    if |parts| > 0 {
      FullWhenNoSlotEmpty(parts[1..]);
      if forall i :: 0 <= i < |parts[1..]| ==> |parts[1..][i]| == 1 {
        forall i | 0 <= i < |parts| && i > 0 ensures |parts[i]| == 1 {
          assert parts[i] == parts[1..][i - 1];
        }
      }
    }
  }

  /** otp.join('') has six characters exactly when every slot holds one. */
  lemma OtpCompleteIff(otp: seq<string>)
    requires |otp| == 6 && forall i :: 0 <= i < 6 ==> |otp[i]| <= 1
    ensures |Join(otp, "")| == 6 <==> forall i :: 0 <= i < 6 ==> otp[i] != ""
  {
    JoinEmptyLength(otp);
    FullWhenNoSlotEmpty(otp);
  }

  class LoginForm {
    var step: Step
    var studentId: string
    var otp: seq<string>
    var isLoading: bool
    var error: string
    var maskedContact: string

    /** Six slots of at most one character each. */
    predicate Valid()
      reads this
    {
      |otp| == 6 && forall i :: 0 <= i < 6 ==> |otp[i]| <= 1
    }

    constructor ()
      ensures Valid()
      ensures step == IdStep && studentId == "" && otp == EmptyOtp
      ensures !isLoading && error == "" && maskedContact == ""
    {
      step := IdStep;
      studentId := "";
      otp := EmptyOtp;
      isLoading := false;
      error := "";
      maskedContact := "";
    }

    /** The ID field's onChange: what is typed is stored upper-cased. */
    method TypeStudentId(typed: string)
      modifies this`studentId
      ensures studentId == ToUpperCase(typed)
    {
      studentId := ToUpperCase(typed);
    }

    /**
     * handleSendOtp: an ID that is blank after trimming is refused with an
     * error and the step stays; otherwise the masked contact is shown and the
     * form moves to the code step. The error is cleared first in both cases.
     */
    method SendOtp()
      modifies this`error, this`isLoading, this`maskedContact, this`step
      ensures AllWhitespace(studentId) ==>
                error == MissingIdError && step == old(step)
                && maskedContact == old(maskedContact) && isLoading == old(isLoading)
      ensures !AllWhitespace(studentId) ==>
                error == "" && step == OtpStep && maskedContact == MaskedContact && !isLoading
    {
      TrimEmptyIff(studentId);
      error := "";
      if Trim(studentId) == "" {
        error := MissingIdError;
        return;
      }
      isLoading := true;
      maskedContact := MaskedContact;
      isLoading := false;
      step := OtpStep;
    }

    /** handleOtpChange: a value longer than one character is ignored; otherwise only slot `index` changes. */
    method OtpChange(index: nat, value: string)
      requires Valid() && index < 6
      modifies this`otp
      ensures Valid()
      ensures |value| > 1 ==> otp == old(otp)
      ensures |value| <= 1 ==> otp == old(otp)[index := value]
    {
      if |value| > 1 {
        return;
      }
      otp := otp[index := value];
    }

    /** A slot's onChange: the typed text is reduced to its digits before handleOtpChange. */
    method TypeOtp(index: nat, typed: string)
      requires Valid() && index < 6
      modifies this`otp
      ensures Valid()
      ensures forall i :: 0 <= i < 6 ==> AllDigits(otp[i]) || otp[i] == old(otp)[i]
      ensures |StripNonDigits(typed)| <= 1 ==> otp == old(otp)[index := StripNonDigits(typed)]
      ensures |StripNonDigits(typed)| > 1 ==> otp == old(otp)
    {
      OtpChange(index, StripNonDigits(typed));
    }

    /**
     * handleOtpPaste: the first min(6, length) pasted characters go into
     * slots 0, 1, ... in order, unfiltered; later slots keep their contents.
     */
    method Paste(text: string)
      requires Valid()
      modifies this`otp
      ensures Valid()
      ensures forall i :: 0 <= i < 6 ==>
                otp[i] == if i < |text| then [text[i]] else old(otp)[i]
    {
      var pasted := if |text| < 6 then text else text[..6];
      var newOtp := otp;
      var index := 0;
      while index < |pasted|
        invariant 0 <= index <= |pasted| <= 6
        invariant |newOtp| == 6
        invariant forall i :: 0 <= i < 6 ==> newOtp[i] == if i < index then [text[i]] else otp[i]
      {
        if index < 6 {
          newOtp := newOtp[index := [pasted[index]]];
        }
        index := index + 1;
      }
      otp := newOtp;
    }

    /**
     * handleVerifyOtp: a code whose join is not six characters long is refused
     * with an error; any six characters log in, whatever they are.
     */
    method VerifyOtp(app: App.PortalApp)
      requires Valid()
      modifies this`error, this`isLoading, app`isAuthenticated
      ensures Valid()
      ensures (exists i :: 0 <= i < 6 && otp[i] == "") ==>
                error == IncompleteOtpError && app.isAuthenticated == old(app.isAuthenticated)
                && isLoading == old(isLoading)
      ensures (forall i :: 0 <= i < 6 ==> otp[i] != "") ==>
                error == "" && app.isAuthenticated && !isLoading
    {
      OtpCompleteIff(otp);
      error := "";
      var otpValue := Join(otp, "");
      if |otpValue| != 6 {
        error := IncompleteOtpError;
        return;
      }
      isLoading := true;
      isLoading := false;
      app.OnLoginSuccess();
    }

    /** handleBack: back to the ID step with empty slots and no error; the ID is kept. */
    method Back()
      modifies this`step, this`otp, this`error
      ensures Valid()
      ensures step == IdStep && otp == EmptyOtp && error == ""
    {
      step := IdStep;
      otp := EmptyOtp;
      error := "";
    }

    /** "Resend OTP": only the slots are cleared. */
    method Resend()
      modifies this`otp
      ensures Valid()
      ensures otp == EmptyOtp
    {
      otp := EmptyOtp;
    }
  }
}
