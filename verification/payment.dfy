// The transfer-confirmation page (src/pages/Payment.tsx): the amount owed for
// the flow that led here, a proof-of-transfer upload capped at 5 MB, and a
// submit handler that appends the confirmation to the stored payments. The
// clipboard copy, the image preview, toasts and the 1.5-second delay before
// leaving the page are not modelled, the delay being taken as elapsed.

module Payment {
  import opened Wrappers
  import Js
  import Browser
  import VerifyOtp
  import ClaimAccount
  import Register

  const MaxProofBytes: nat := 5 * 1024 * 1024
  const PendingStatus: string := "pending_confirmation"
  const PaymentPendingPath: string := "/payment-pending"
  const ClaimFee: int := 20000
  const RegisterFee: int := 50000

  /** The chosen proof file: its name and size in bytes. */
  datatype ProofFile = ProofFile(name: string, size: nat)

  /** How a submit ends: refused for a blank sender name, refused for a missing proof, or
      recorded with the page moving on to `destination`. */
  datatype SubmitOutcome = MissingSender | MissingProof | Submitted(destination: string)

  /** The flow of the page: the `type` of the navigation state, "register" without one. */
  function FlowType(state: Option<string>): (flow: string)
    ensures state.None? ==> flow == "register"
    ensures state.Some? ==> flow == state.value
  {
    if state.Some? then state.value else "register"
  }

  /** `tagihan`: the discounted activation fee for a legacy claim, the normal fee otherwise. */
  function Tagihan(flowType: string): (amount: int)
    ensures amount == ClaimFee <==> flowType == "claim"
    ensures amount == RegisterFee <==> flowType != "claim"
  {
    if flowType == "claim" then ClaimFee else RegisterFee
  }

  /** The record appended for a submission. */
  function PaymentRecord(id: int, flowType: string, senderName: string, proof: ProofFile,
                         now: string): (p: Browser.PaymentRecord)
    ensures p.id == id && p.flowType == flowType && p.senderName == senderName
    ensures p.amount == Tagihan(flowType) && p.proofFileName == proof.name
    ensures p.status == PendingStatus && p.submittedAt == now
  {
    Browser.PaymentRecord(id, flowType, senderName, Tagihan(flowType), proof.name, PendingStatus, now)
  }

  class PaymentPage {
    var senderName: string
    var proofFile: Option<ProofFile>
    const flowType: string

    /** A chosen proof is never larger than 5 MB. */
    predicate Valid()
      reads this
    {
      proofFile.Some? ==> proofFile.value.size <= MaxProofBytes
    }

    constructor(state: Option<string>)
      ensures senderName == "" && proofFile == None && flowType == FlowType(state)
      ensures Valid()
    {
      senderName := "";
      proofFile := None;
      flowType := FlowType(state);
    }

    method EditSenderName(name: string)
      requires Valid()
      modifies this
      ensures senderName == name && proofFile == old(proofFile) && Valid()
    {
      senderName := name;
    }

    /** `handleFileChange(e)`: no file chosen changes nothing; a file over 5 MB is refused
        and the earlier choice kept; any other file becomes the proof. */
    method HandleFileChange(file: Option<ProofFile>)
      requires Valid()
      modifies this
      ensures file.Some? && file.value.size <= MaxProofBytes ==> proofFile == file
      ensures file.None? || file.value.size > MaxProofBytes ==> proofFile == old(proofFile)
      ensures senderName == old(senderName) && Valid()
    {
      if file.Some? {
        if file.value.size > MaxProofBytes {
          return;
        }
        proofFile := file;
      }
    }

    /** `handleSubmit()`: a sender name that trims to nothing (`Js.TrimEmptyIff`: one made
        of whitespace only) is refused first, then a missing proof; otherwise the
        confirmation, with the sender name as typed, is appended to the stored payments. */
    method HandleSubmit(store: Browser.Store, freshId: int, now: string) returns (outcome: SubmitOutcome)
      requires Valid()
      modifies store
      ensures outcome == MissingSender <==> Js.AllWhitespace(senderName)
      ensures outcome == MissingProof <==> !Js.AllWhitespace(senderName) && proofFile.None?
      ensures outcome.Submitted? ==>
                outcome.destination == PaymentPendingPath &&
                store.payments == old(store.payments) +
                  [PaymentRecord(freshId, flowType, senderName, proofFile.value, now)]
      ensures !outcome.Submitted? ==> store.payments == old(store.payments)
      ensures store.pendingRegistration == old(store.pendingRegistration)
      ensures store.registrations == old(store.registrations)
      ensures store.pendingClaim == old(store.pendingClaim) && store.claims == old(store.claims)
    {
      if Js.AllWhitespace(senderName) {
        return MissingSender;
      }
      if proofFile.None? {
        return MissingProof;
      }
      store.payments := store.payments + [PaymentRecord(freshId, flowType, senderName, proofFile.value, now)];
      return Submitted(PaymentPendingPath);
    }
  }

  /** The payment page opened with the flow type the code page hands on asks for the
      amount the code page announced: the discounted fee exactly for a claim. */
  lemma FeeFollowsCodePage(flowType: Option<string>)
    ensures VerifyOtp.TagihanLabel(flowType) == "Rp 20.000" <==> Tagihan(FlowType(flowType)) == ClaimFee
    ensures VerifyOtp.TagihanLabel(flowType) == "Rp 50.000" <==> Tagihan(FlowType(flowType)) == RegisterFee
  {
  }

  /** The amount asked here is the one the claim or registration record carries, and the
      one the code page announced for the same flow. */
  lemma FeeAgreesAcrossPages(record: Browser.LegacyRecord, password: string, form: Register.Form,
                             id: int, now: string)
    ensures Tagihan("claim") == ClaimAccount.PendingClaim(record, password, now).tagihan
    ensures Tagihan("register") == Register.PendingRecord(form, id, now).tagihan
    ensures VerifyOtp.TagihanLabel(Some("claim")) == "Rp 20.000" && Tagihan("claim") == 20000
    ensures VerifyOtp.TagihanLabel(Some("register")) == "Rp 50.000" && Tagihan("register") == 50000
  {
  }
}
