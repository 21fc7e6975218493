// The browser's `localStorage` as the registration, claim and payment pages use
// it: one field per key. The JSON encoding of the stored values is not
// modelled; a list key that was never written reads as the empty list, as
// `JSON.parse(localStorage.getItem(key) || "[]")` does.

module Browser {
  import opened Wrappers

  /** A new institution's sign-up, as saved by the registration page
      (the form's fields followed by the fields added on submit). */
  datatype Registration = Registration(
    namaPesantren: string, namaPengasuh: string, namaMedia: string, email: string,
    phone: string, city: string, regional: string, regionalCode: string, password: string,
    agreeTerms: bool, id: int, originSource: string, tagihan: int, status: string,
    createdAt: string, verifiedAt: Option<string>)

  /** An entry of the legacy membership database searched by the claim page. */
  datatype LegacyRecord = LegacyRecord(id: int, email: string, phone: string, pesantren: string,
                                       namaMedia: string)

  /** A claim of a legacy account, as saved by the claim page. */
  datatype Claim = Claim(record: LegacyRecord, newPassword: string, originSource: string,
                         tagihan: int, status: string, claimedAt: string, verifiedAt: Option<string>)

  /** A transfer confirmation, as saved by the payment page. */
  datatype PaymentRecord = PaymentRecord(id: int, flowType: string, senderName: string, amount: int,
                                         proofFileName: string, status: string, submittedAt: string)

  class Store {
    /** `mpj_pending_registration` */
    var pendingRegistration: Option<Registration>
    /** `mpj_registrations` */
    var registrations: seq<Registration>
    /** `mpj_pending_claim` */
    var pendingClaim: Option<Claim>
    /** `mpj_claims` */
    var claims: seq<Claim>
    /** `mpj_payments` */
    var payments: seq<PaymentRecord>

    /** A browser profile where none of the keys has been written. */
    constructor()
      ensures pendingRegistration == None && registrations == []
      ensures pendingClaim == None && claims == [] && payments == []
    {
      pendingRegistration := None;
      registrations := [];
      pendingClaim := None;
      claims := [];
      payments := [];
    }
  }
}
