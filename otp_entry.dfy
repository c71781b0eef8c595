/**
  The code-entry buffer of the OTP verification screen: six one-digit
  slots (`code`), the complete code typed or pasted so far (`fullOtp`),
  and the index of the focused slot.

  Typing edits one slot and recomputes `fullOtp` from the slots; pasting
  (or auto-fill) of six or more digits sets `fullOtp` only, and the
  screen's effect on `fullOtp` then spreads its first six digits over the
  slots. The invariant kept by every handler is `Consistent`: `fullOtp`
  and the slots tell the same code.
*/
module OtpEntry {
  import opened Js
  import AuthSlice

  const NumInputs := 6

  /** A slot holds nothing or exactly one decimal digit. */
  predicate IsSlot(s: string)
  {
    s == "" || (|s| == 1 && IsDigit(s[0]))
  }

  ghost predicate SlotsOk(code: seq<string>)
  {
    forall i :: 0 <= i < |code| ==> IsSlot(code[i])
  }

  /** Six empty slots. */
  function Cleared(): seq<string>
  {
    seq(NumInputs, _ => "")
  }

  /** `code.join('')`. */
  function Join(code: seq<string>): string
  {
    if code == [] then "" else code[0] + Join(code[1..])
  }

  /** `s.slice(-1)`: the last character of `s`, or "" when there is none. */
  function SliceLast(s: string): string
  {
    if s == "" then "" else s[|s| - 1..]
  }

  /** What a keystroke leaves in its slot: the last digit of the text, or
      "" when the text holds no digit at all. */
  function LastDigit(text: string): (r: string)
    ensures IsSlot(r)
    ensures r == "" <==> forall i :: 0 <= i < |text| ==> !IsDigit(text[i])
    ensures r != "" ==> exists i :: (0 <= i < |text| && r == [text[i]] &&
      forall j :: i < j < |text| ==> !IsDigit(text[j]))
  {
    LastOfDigits(text);
    SliceLast(StripNonDigits(text))
  }

  lemma LastOfDigits(text: string)
    ensures var r := SliceLast(StripNonDigits(text));
      (r == "" <==> forall i :: 0 <= i < |text| ==> !IsDigit(text[i])) &&
      (r != "" ==> exists i :: (0 <= i < |text| && r == [text[i]] &&
        forall j :: i < j < |text| ==> !IsDigit(text[j])))
  {
    var digits := StripNonDigits(text);
    if digits == "" {
      forall i | 0 <= i < |text| ensures !IsDigit(text[i]) { assert text[i] in text; }
    } else {
      assert digits == Filter(text, IsDigit);
      var i := FilterLast(text, IsDigit);
      assert [text[i]] == SliceLast(digits);
    }
  }

  /** A change of text counts as a paste when it is longer than one
      character and holds at least six digits. */
  predicate IsPaste(text: string)
  {
    |text| > 1 && |StripNonDigits(text)| >= NumInputs
  }

  /** Joining one-digit-or-empty slots yields digits only, at most one per
      slot; when no slot is empty, exactly slot `i`'s digit at position `i`,
      and when every slot is empty, the empty string. */
  lemma {:induction false} JoinOfSlots(code: seq<string>)
    requires SlotsOk(code)
    ensures AllDigits(Join(code)) && |Join(code)| <= |code|
    ensures |Join(code)| == |code| <==> forall i :: 0 <= i < |code| ==> code[i] != ""
    ensures (forall i :: 0 <= i < |code| ==> code[i] != "") ==>
      forall i :: 0 <= i < |code| ==> code[i] == [Join(code)[i]]
    ensures (forall i :: 0 <= i < |code| ==> code[i] == "") ==> Join(code) == ""
  {
    if code != [] {
      var rest := code[1..];
      JoinOfSlots(rest);
      assert forall i :: 1 <= i < |code| ==> code[i] == rest[i - 1];
      if |Join(code)| == |code| {
        assert code[0] != "" && |Join(rest)| == |rest|;
      }
      if forall i :: 0 <= i < |code| ==> code[i] != "" {
        forall i | 0 <= i < |code| ensures code[i] == [Join(code)[i]] {
          if i > 0 { assert Join(code)[i] == Join(rest)[i - 1]; }
        }
      }
    }
  }

  /** The buffer invariant: six well-formed slots, a digits-only `fullOtp`,
      and the two agree. Once `fullOtp` has six or more digits, slot `i`
      holds its `i`-th digit (later digits are ignored); below six digits,
      `fullOtp` is the slots joined. */
  ghost predicate Consistent(code: seq<string>, fullOtp: string)
  {
    |code| == NumInputs && SlotsOk(code) && AllDigits(fullOtp) &&
    if |fullOtp| >= NumInputs then forall i :: 0 <= i < NumInputs ==> code[i] == [fullOtp[i]]
    else fullOtp == Join(code)
  }

  /** After a single-slot edit, `fullOtp := code.join('')` re-establishes
      the invariant, whatever the slots held before. */
  lemma EditKeepsConsistent(code: seq<string>, index: nat, slot: string)
    requires |code| == NumInputs && SlotsOk(code) && index < NumInputs && IsSlot(slot)
    ensures Consistent(code[index := slot], Join(code[index := slot]))
  {
    JoinOfSlots(code[index := slot]);
  }

  /** Under the invariant, "every slot is filled" and "`fullOtp` has six
      digits" coincide, and six filled slots spell out `fullOtp`'s first six
      digits. */
  lemma {:induction false} FilledSlotsSpellFullOtp(code: seq<string>, fullOtp: string)
    requires Consistent(code, fullOtp)
    ensures (forall i :: 0 <= i < NumInputs ==> code[i] != "") <==> |fullOtp| >= NumInputs
    ensures |fullOtp| >= NumInputs ==> fullOtp[..NumInputs] == Join(code)
  {
    JoinOfSlots(code);
    if |fullOtp| >= NumInputs {
      assert forall i :: 0 <= i < NumInputs ==> code[i] != "" by {
        forall i | 0 <= i < NumInputs ensures code[i] != "" { assert code[i] == [fullOtp[i]]; }
      }
      var j := Join(code);
      assert |j| == NumInputs;
      forall i | 0 <= i < NumInputs ensures fullOtp[i] == j[i] {
        assert code[i] == [j[i]] && code[i] == [fullOtp[i]];
      }
    }
  }

  /** Two slot sequences that both spell the first six digits of `fullOtp`
      are the same. */
  lemma SameDigitsSameSlots(a: seq<string>, b: seq<string>, fullOtp: string)
    requires |fullOtp| >= NumInputs && |a| == |b| == NumInputs
    requires forall i :: 0 <= i < NumInputs ==> a[i] == [fullOtp[i]]
    requires forall i :: 0 <= i < NumInputs ==> b[i] == [fullOtp[i]]
    ensures a == b
  {
  }

  lemma ConsistentFacts(code: seq<string>, fullOtp: string)
    ensures Consistent(code, fullOtp) ==>
      ((forall i :: 0 <= i < |code| ==> code[i] != "") <==> |fullOtp| >= NumInputs) &&
      (|fullOtp| >= NumInputs ==> fullOtp[..NumInputs] == Join(code))
  {
    if Consistent(code, fullOtp) {
      FilledSlotsSpellFullOtp(code, fullOtp);
    }
  }

  /** The slots the effect builds from a code of six or more digits. */
  function Spread(fullOtp: string): (code: seq<string>)
    requires |fullOtp| >= NumInputs
    ensures |code| == NumInputs
    ensures forall i :: 0 <= i < NumInputs ==> code[i] == [fullOtp[i]]
  {
    seq(NumInputs, i requires 0 <= i < NumInputs => [fullOtp[i]])
  }

  /** Slots and code after one `onChangeText` event: the handler, then the
      effect, which React runs only when `fullOtp` has changed. */
  function AfterChange(code: seq<string>, fullOtp: string, text: string, index: nat): (r: (seq<string>, string))
    requires |code| == NumInputs && index < NumInputs
    ensures |r.0| == NumInputs
    ensures r.1 == if IsPaste(text) then StripNonDigits(text) else Join(code[index := LastDigit(text)])
  {
    var (c, f) :=
      if IsPaste(text) then (code, StripNonDigits(text))
      else (code[index := LastDigit(text)], Join(code[index := LastDigit(text)]));
    if f != fullOtp && |f| >= NumInputs then (Spread(f), f) else (c, f)
  }

  /** Where the slots come from after a text change: when `fullOtp` changed
      to six or more digits, slot `i` holds its `i`-th digit; otherwise every
      slot other than `index` is as before. */
  lemma AfterChangeSlots(code: seq<string>, fullOtp: string, text: string, index: nat)
    requires |code| == NumInputs && index < NumInputs
    ensures var (c, f) := AfterChange(code, fullOtp, text, index);
      (f != fullOtp && |f| >= NumInputs ==> forall i :: 0 <= i < NumInputs ==> c[i] == [f[i]]) &&
      (f == fullOtp || |f| < NumInputs ==> forall i :: 0 <= i < NumInputs && i != index ==> c[i] == code[i])
  {
  }

  /** Every text change keeps the buffer consistent. A paste makes
      `fullOtp` all of its digits; any other change lands in slot `index`
      alone, and `fullOtp` follows the slots. */
  lemma AfterChangeKeepsConsistent(code: seq<string>, fullOtp: string, text: string, index: nat)
    requires Consistent(code, fullOtp) && index < NumInputs
    ensures Consistent(AfterChange(code, fullOtp, text, index).0, AfterChange(code, fullOtp, text, index).1)
    ensures !IsPaste(text) ==>
      var edited := code[index := LastDigit(text)];
      AfterChange(code, fullOtp, text, index) == (edited, Join(edited))
  {
    var (c, f) := AfterChange(code, fullOtp, text, index);
    if !IsPaste(text) {
      var edited := code[index := LastDigit(text)];
      EditKeepsConsistent(code, index, LastDigit(text));
      if f != fullOtp && |f| >= NumInputs {
        SameDigitsSameSlots(edited, c, f);
      }
    }
  }

  /** The handler's result followed by the effect, stated over values: when
      the slots and code after `handleChange` are `c1` and `f1`, and the
      effect then leaves the slots `c2`, the pair is `AfterChange` and the
      invariant holds again. */
  lemma HandlerThenEffect(c0: seq<string>, f0: string, text: string, index: nat,
                          c1: seq<string>, f1: string, c2: seq<string>)
    requires Consistent(c0, f0) && index < NumInputs
    requires IsPaste(text) ==> c1 == c0 && f1 == StripNonDigits(text)
    requires !IsPaste(text) ==> c1 == c0[index := LastDigit(text)] && f1 == Join(c1)
    requires c2 == if f1 != f0 && |f1| >= NumInputs then Spread(f1) else c1
    ensures (c2, f1) == AfterChange(c0, f0, text, index)
    ensures Consistent(c2, f1)
  {
    AfterChangeKeepsConsistent(c0, f0, text, index);
  }

  /** The buffer the screen keeps in its state. */
  class OtpBuffer {
    /** The phone number the code was sent to (a route parameter). */
    const phone: string
    var code: array<string>
    var fullOtp: string
    var focus: nat

    /** Six well-formed slots, a digits-only `fullOtp`, focus on a slot:
        what holds between a handler and the effect that follows it. */
    ghost predicate WellFormed()
      reads this, code
    {
      code.Length == NumInputs && SlotsOk(code[..]) && AllDigits(fullOtp) && focus < NumInputs
    }

    ghost predicate Valid()
      reads this, code
    {
      WellFormed() && Consistent(code[..], fullOtp)
    }

    /** Six empty slots, no code, focus on the first slot. */
    constructor (phone: string)
      ensures Valid() && fresh(code)
      ensures this.phone == phone && code[..] == Cleared() && fullOtp == "" && focus == 0
    {
      this.phone := phone;
      code := new string[NumInputs](_ => "");
      fullOtp := "";
      focus := 0;
      new;
      assert code[..] == Cleared();
      JoinOfSlots(code[..]);
    }

    /** `allFilled`: every slot non-empty, or `fullOtp` already six digits
        long. Under the invariant this is "`fullOtp` holds a complete code". */
    function AllFilled(): (r: bool)
      reads this, code
      ensures Valid() ==> (r <==> |fullOtp| >= NumInputs)
    {
      ConsistentFacts(code[..], fullOtp);
      (forall i :: 0 <= i < code.Length ==> code[i] != "") || |fullOtp| >= NumInputs
    }

    /** The code `handleVerify` submits: `fullOtp`, or the slots joined when
        `fullOtp` is empty. Under the invariant the fallback is never
        needed, and a complete code starts with the six slot digits (any
        further pasted digits follow). */
    function SubmittedOtp(): (otp: string)
      reads this, code
      ensures Valid() ==> otp == fullOtp
      ensures Valid() && AllFilled() ==> |otp| >= NumInputs && otp[..NumInputs] == Join(code[..])
    {
      ConsistentFacts(code[..], fullOtp);
      if fullOtp != "" then fullOtp else Join(code[..])
    }

    /** `handleChange(text, index)` up to the re-render: a paste sets
        `fullOtp` to all of its digits and touches nothing else; any other
        text puts its last digit (or "") into slot `index`, recomputes
        `fullOtp` from the slots and moves the focus forward when a digit
        was entered and the slot is not the last. */
    method HandleChange(text: string, index: nat)
      requires WellFormed() && index < NumInputs
      modifies this
      ensures WellFormed()
      ensures IsPaste(text) ==>
        code == old(code) && fullOtp == StripNonDigits(text) && focus == old(focus)
      ensures !IsPaste(text) ==>
        code[..] == old(code[..])[index := LastDigit(text)] && fullOtp == Join(code[..]) &&
        focus == if StripNonDigits(text) != "" && index < NumInputs - 1 then index + 1 else old(focus)
    {
      var digits := StripNonDigits(text);
      if |text| > 1 && |digits| >= NumInputs {
        fullOtp := digits;
        return;
      }
      var slots := code[..];
      var newCode := new string[NumInputs](i requires 0 <= i < NumInputs => slots[i]);
      var last := SliceLast(digits);
      assert last == LastDigit(text);
      newCode[index] := last;
      assert newCode[..] == slots[index := last];
      code := newCode;
      JoinOfSlots(code[..]);
      fullOtp := Join(code[..]);
      if digits != "" && index < NumInputs - 1 {
        focus := index + 1;
      }
    }

    /** The effect run when `fullOtp` changes: once it holds six or more
        digits, a fresh set of slots is filled with its first six. */
    method DistributeFullOtp()
      requires WellFormed()
      modifies this
      ensures WellFormed() && fullOtp == old(fullOtp) && focus == old(focus)
      ensures |fullOtp| >= NumInputs ==> fresh(code) && forall i :: 0 <= i < NumInputs ==> code[i] == [fullOtp[i]]
      ensures |fullOtp| < NumInputs ==> code == old(code)
    {
      if fullOtp != "" && |fullOtp| >= NumInputs {
        var otpArray := fullOtp[..NumInputs];
        var newCode := new string[NumInputs](_ => "");
        for i := 0 to NumInputs
          modifies newCode
          invariant forall k :: 0 <= k < i ==> newCode[k] == if k < |otpArray| then [otpArray[k]] else ""
        {
          newCode[i] := if i < |otpArray| then [otpArray[i]] else "";
        }
        code := newCode;
      }
    }

    /** One `onChangeText` event: the handler, then the effect when the
        handler changed `fullOtp`. */
    method OnChangeText(text: string, index: nat)
      requires Valid() && index < NumInputs
      modifies this
      ensures Valid()
      ensures (code[..], fullOtp) == AfterChange(old(code[..]), old(fullOtp), text, index)
      ensures focus == if !IsPaste(text) && StripNonDigits(text) != "" && index < NumInputs - 1
                       then index + 1 else old(focus)
    {
      var before := fullOtp;
      ghost var c0 := code[..];
      HandleChange(text, index);
      ghost var c1 := code[..];
      if fullOtp != before {
        DistributeFullOtp();
        if |fullOtp| >= NumInputs {
          assert code[..] == Spread(fullOtp);
        }
      }
      HandlerThenEffect(c0, before, text, index, c1, fullOtp, code[..]);
    }

    /** `handleKeyPress`: Backspace on an empty slot other than the first
        moves the focus one slot back. */
    method HandleKeyPress(key: string, index: nat)
      requires Valid() && index < NumInputs
      modifies this`focus
      ensures Valid()
      ensures focus == if key == "Backspace" && code[index] == "" && index > 0 then index - 1 else old(focus)
    {
      if key == "Backspace" && code[index] == "" && index > 0 {
        focus := index - 1;
      }
    }

    /** `handleVerify`, reachable only while the Verify button is enabled
        (every slot filled, no call loading): dispatches `validateOtp` with
        the phone and the submitted code; navigates on success, alerts the
        rejection otherwise. */
    method HandleVerify(auth: AuthSlice.AuthState, outcome: AuthSlice.CallOutcome)
      returns (request: AuthSlice.Request, navigated: bool, alert: Option<string>)
      requires Valid() && AllFilled() && auth.status != AuthSlice.Loading
      modifies auth
      ensures request == AuthSlice.RequestFor(AuthSlice.ValidateOtp, AuthSlice.ThunkArg(Str(phone), Str(fullOtp)))
      ensures request.mobileNumber == Str(phone)
      ensures auth.Record() == AuthSlice.Run(old(auth.Record()),
        AuthSlice.Lifecycle(AuthSlice.ValidateOtp, AuthSlice.ThunkArg(Str(phone), Str(fullOtp)), outcome))
      ensures navigated <==> outcome.Resolved?
      ensures outcome.Resolved? ==> alert == None
      ensures outcome.Errored? ==>
        alert == Some("Verification failed \U{2014} " + ToJsString(AuthSlice.Unwrapped(outcome)))
    {
      var otp := SubmittedOtp();
      var ok;
      request, ok := auth.Call(AuthSlice.ValidateOtp, AuthSlice.ThunkArg(Str(phone), Str(otp)), outcome);
      if ok {
        navigated, alert := true, None;
      } else {
        navigated := false;
        alert := Some("Verification failed \U{2014} " + ToJsString(AuthSlice.Unwrapped(outcome)));
      }
    }

    /** `handleResend`, reachable while no call is loading: dispatches
        `generateOtp` for the phone; on success every slot and `fullOtp` are
        cleared, on failure the buffer is left as it was. */
    method HandleResend(auth: AuthSlice.AuthState, outcome: AuthSlice.CallOutcome)
      returns (request: AuthSlice.Request, alert: string)
      requires Valid() && auth.status != AuthSlice.Loading
      modifies this, auth
      ensures request == AuthSlice.RequestFor(AuthSlice.GenerateOtp, AuthSlice.ThunkArg(Str(phone), Undefined))
      ensures request.mobileNumber == Str(phone)
      ensures Valid() && focus == old(focus)
      ensures auth.Record() == AuthSlice.Run(old(auth.Record()),
        AuthSlice.Lifecycle(AuthSlice.GenerateOtp, AuthSlice.ThunkArg(Str(phone), Undefined), outcome))
      ensures outcome.Resolved? ==>
        code[..] == Cleared() && fullOtp == "" && alert == "Code resent to " + phone
      ensures outcome.Errored? ==>
        code == old(code) && code[..] == old(code[..]) && fullOtp == old(fullOtp) &&
        alert == "Resend failed \U{2014} " + ToJsString(AuthSlice.Unwrapped(outcome))
    {
      var ok;
      request, ok := auth.Call(AuthSlice.GenerateOtp, AuthSlice.ThunkArg(Str(phone), Undefined), outcome);
      if ok {
        alert := "Code resent to " + phone;
        code := new string[NumInputs](_ => "");
        fullOtp := "";
        assert code[..] == Cleared();
        JoinOfSlots(code[..]);
      } else {
        alert := "Resend failed \U{2014} " + ToJsString(AuthSlice.Unwrapped(outcome));
      }
    }
  }
}
