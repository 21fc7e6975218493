// The one-time-code page (src/pages/VerifyOTP.tsx): six single-character
// cells filled by typing or pasting, a 60-second resend countdown, and, on a
// complete code, the promotion of the pending registration or claim into its
// stored list. Any six-character code is accepted (the check is simulated in
// the application); input focus, toasts and the 1.5-second delay before the
// promotion are not modelled, the delay being taken as elapsed.

module VerifyOtp {
  import opened Wrappers
  import Js
  import Browser

  const CellCount: nat := 6
  const ResendSeconds: int := 60
  const VerifiedStatus: string := "verified_pending_payment"
  const PaymentPath: string := "/payment"

  /** Where a verified code leads: the payment page, told through the navigation state
      which flow (`register` or `claim`) the code page was opened for. */
  datatype Navigation = Navigation(destination: string, flowType: Option<string>)

  /** `/^\d*$/` */
  predicate AllDigits(s: string)
  {
    forall i :: 0 <= i < |s| ==> Js.IsDigit(s[i])
  }

  /** `otp.join("")` */
  function Code(cells: seq<string>): string
  {
    if cells == [] then "" else cells[0] + Code(cells[1..])
  }

  predicate WellFormed(cells: seq<string>)
  {
    |cells| == CellCount && forall j :: 0 <= j < |cells| ==> |cells[j]| <= 1
  }

  /** The joined code of cells holding at most one character each is as long as the
      number of filled cells; so it has six characters exactly when no cell is empty. */
  lemma {:induction false} CodeLength(cells: seq<string>)
    requires forall j :: 0 <= j < |cells| ==> |cells[j]| <= 1
    ensures |Code(cells)| <= |cells|
    ensures |Code(cells)| == |cells| <==> forall j :: 0 <= j < |cells| ==> cells[j] != ""
  {
    if cells != [] {
      CodeLength(cells[1..]);
      assert forall j :: 1 <= j < |cells| ==> cells[j] == cells[1..][j - 1];
    }
  }

  /** The cells after pasting `chars` at `index`: one character per cell from `index`
      on, as far as the last cell; the other cells keep their content. */
  function Pasted(cells: seq<string>, index: nat, chars: string): (r: seq<string>)
    requires |cells| == CellCount && index < CellCount
    ensures |r| == CellCount && (WellFormed(cells) ==> WellFormed(r))
    ensures forall j :: 0 <= j < index ==> r[j] == cells[j]
    ensures forall j :: index + |chars| <= j < CellCount ==> r[j] == cells[j]
    ensures forall j :: index <= j < CellCount && j < index + |chars| ==> r[j] == [chars[j - index]]
  {
    seq(CellCount, j requires 0 <= j < CellCount =>
      if index <= j < index + |chars| then [chars[j - index]] else cells[j])
  }

  /** `getTagihan()`: the amount shown for the flow that led to this page. */
  function TagihanLabel(flowType: Option<string>): (shown: string)
    ensures shown == "Rp 20.000" <==> flowType == Some("claim")
    ensures shown != "Rp 20.000" ==> shown == "Rp 50.000"
  {
    if flowType == Some("claim") then "Rp 20.000" else "Rp 50.000"
  }

  class OtpPage {
    var otp: seq<string>
    var resendTimer: int
    var canResend: bool
    /** The `type` of the navigation state, absent without one. */
    const flowType: Option<string>

    /** Six cells of at most one character, a countdown between 0 and 60, and resending
        offered only once the countdown has run out. */
    predicate Valid()
      reads this
    {
      WellFormed(otp) && 0 <= resendTimer <= ResendSeconds && (canResend ==> resendTimer == 0)
    }

    constructor(flowType: Option<string>)
      ensures otp == ["", "", "", "", "", ""] && resendTimer == ResendSeconds && !canResend
      ensures this.flowType == flowType
      ensures Valid()
    {
      otp := ["", "", "", "", "", ""];
      resendTimer := ResendSeconds;
      canResend := false;
      this.flowType := flowType;
    }

    /** `handleChange(index, value)` from the cell at `index`. A value longer than one
        character is a paste: its first six characters are written from `index` on. A
        shorter value is written only when it is empty or a digit. */
    method HandleChange(index: nat, value: string)
      requires Valid() && index < CellCount
      modifies this
      ensures |value| > 1 ==> otp == Pasted(old(otp), index, Js.SliceFirst(value, CellCount))
      ensures |value| <= 1 && !AllDigits(value) ==> otp == old(otp)
      ensures |value| <= 1 && AllDigits(value) ==> otp == old(otp)[index := value]
      ensures resendTimer == old(resendTimer) && canResend == old(canResend)
      ensures Valid()
    {
      if |value| > 1 {
        var pasted := Js.SliceFirst(value, CellCount);
        var newOtp := otp;
        var i := 0;
        while i < |pasted|
          invariant 0 <= i <= |pasted|
          invariant |newOtp| == CellCount
          invariant forall j :: 0 <= j < CellCount ==>
                      newOtp[j] == if index <= j < index + i then [pasted[j - index]] else otp[j]
        {
          if index + i < CellCount {
            newOtp := newOtp[index + i := [pasted[i]]];
          }
          i := i + 1;
        }
        otp := newOtp;
        return;
      }
      if !AllDigits(value) {
        return;
      }
      otp := otp[index := value];
    }

    /** `handleVerify()`, followed by the simulated check's callback: an incomplete code
        is refused with nothing changed; a complete one moves the pending record of the
        flow, when there is one, to the end of its list with the verified status, and
        leads to the payment page, handing the flow type on as navigation state. */
    method HandleVerify(store: Browser.Store, now: string) returns (next: Option<Navigation>)
      requires Valid()
      modifies store
      ensures |Code(otp)| != CellCount ==>
                next == None &&
                store.pendingRegistration == old(store.pendingRegistration) &&
                store.registrations == old(store.registrations) &&
                store.pendingClaim == old(store.pendingClaim) && store.claims == old(store.claims)
      ensures |Code(otp)| == CellCount ==> next == Some(Navigation(PaymentPath, flowType))
      ensures |Code(otp)| == CellCount && flowType == Some("register") &&
              old(store.pendingRegistration).Some? ==>
                store.registrations == old(store.registrations) +
                  [old(store.pendingRegistration).value.(status := VerifiedStatus, verifiedAt := Some(now))] &&
                store.pendingRegistration == None
      ensures |Code(otp)| == CellCount && flowType == Some("claim") && old(store.pendingClaim).Some? ==>
                store.claims == old(store.claims) +
                  [old(store.pendingClaim).value.(status := VerifiedStatus, verifiedAt := Some(now))] &&
                store.pendingClaim == None
      ensures flowType != Some("register") ==>
                store.pendingRegistration == old(store.pendingRegistration) &&
                store.registrations == old(store.registrations)
      ensures flowType != Some("claim") ==>
                store.pendingClaim == old(store.pendingClaim) && store.claims == old(store.claims)
      ensures old(store.pendingRegistration).None? ==>
                store.pendingRegistration == None && store.registrations == old(store.registrations)
      ensures old(store.pendingClaim).None? ==> store.pendingClaim == None && store.claims == old(store.claims)
      ensures store.payments == old(store.payments)
    {
      if |Code(otp)| != CellCount {
        return None;
      }
      if flowType == Some("register") {
        if store.pendingRegistration.Some? {
          var data := store.pendingRegistration.value.(status := VerifiedStatus, verifiedAt := Some(now));
          store.registrations := store.registrations + [data];
          store.pendingRegistration := None;
        }
      } else if flowType == Some("claim") {
        if store.pendingClaim.Some? {
          var data := store.pendingClaim.value.(status := VerifiedStatus, verifiedAt := Some(now));
          store.claims := store.claims + [data];
          store.pendingClaim := None;
        }
      }
      return Some(Navigation(PaymentPath, flowType));
    }

    /** One run of the countdown effect: a second passes while the countdown is above
        zero, and at zero resending becomes possible. */
    method Tick()
      requires Valid()
      modifies this
      ensures old(resendTimer) > 0 ==> resendTimer == old(resendTimer) - 1 && canResend == old(canResend)
      ensures old(resendTimer) == 0 ==> resendTimer == 0 && canResend
      ensures otp == old(otp)
      ensures Valid()
    {
      if resendTimer > 0 {
        resendTimer := resendTimer - 1;
      } else {
        canResend := true;
      }
    }

    /** `handleResend()`: only once resending is possible; restarts the countdown. */
    method HandleResend()
      requires Valid()
      modifies this
      ensures old(canResend) ==> resendTimer == ResendSeconds && !canResend
      ensures !old(canResend) ==> resendTimer == old(resendTimer) && canResend == old(canResend)
      ensures otp == old(otp)
      ensures Valid()
    {
      if !canResend {
        return;
      }
      canResend := false;
      resendTimer := ResendSeconds;
    }
  }

  /** The verify button and the verify handler both refuse a code with an empty cell,
      and accept one with all six cells filled. */
  lemma CompleteIffNoEmptyCell(cells: seq<string>)
    requires WellFormed(cells)
    ensures |Code(cells)| == CellCount <==> forall j :: 0 <= j < CellCount ==> cells[j] != ""
  {
    CodeLength(cells);
  }

  /** Pasting six characters into the first cell fills every cell, in order. */
  lemma PasteFromFirstCellFillsAll(cells: seq<string>, value: string)
    requires WellFormed(cells) && |value| >= CellCount
    ensures var r := Pasted(cells, 0, Js.SliceFirst(value, CellCount));
            forall j :: 0 <= j < CellCount ==> r[j] == [value[j]]
    ensures Code(Pasted(cells, 0, Js.SliceFirst(value, CellCount))) == value[..CellCount]
  {
    var r := Pasted(cells, 0, Js.SliceFirst(value, CellCount));
    assert r == [[value[0]], [value[1]], [value[2]], [value[3]], [value[4]], [value[5]]];
    assert Code(r[5..]) == [value[5]];
    assert Code(r[4..]) == [value[4], value[5]];
    assert Code(r[3..]) == [value[3], value[4], value[5]];
    assert Code(r[2..]) == [value[2], value[3], value[4], value[5]];
    assert Code(r[1..]) == [value[1], value[2], value[3], value[4], value[5]];
  }
}
