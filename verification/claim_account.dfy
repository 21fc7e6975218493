// The legacy-account claim page (src/pages/ClaimAccount.tsx): a three-step
// screen (search, preview, confirm) over a fixed list of legacy records, with
// the found record's contact details masked on the preview, and a confirm
// handler that saves the claim for the one-time-code step. The simulated
// search and save delays are taken as elapsed.

module ClaimAccount {
  import opened Wrappers
  import Js
  import Browser

  datatype Step = Search | Preview | Confirm

  /** The three legacy records the page searches. */
  const LegacyData: seq<Browser.LegacyRecord> := [
    Browser.LegacyRecord(1, "alhikmah@mpj.com", "081234567890", "PP Al Hikmah", "Media Al Hikmah"),
    Browser.LegacyRecord(2, "annur@mpj.com", "082345678901", "PP An Nur", "Media An Nur"),
    Browser.LegacyRecord(3, "darussalam@mpj.com", "083456789012", "PP Darussalam", "Darussalam Media")
  ]

  const MinPasswordLength: int := 6
  const VerifyOtpPath: string := "/verify-otp"

  /** Where a confirmed claim goes: the code page, told through the navigation state that
      the flow is a claim and which email and phone the code is sent to. */
  datatype Navigation = Navigation(destination: string, flowType: string, email: string, phone: string)

  /** The preview's `maskEmail(email)`: the first two characters of the part before the
      first '@', "***@", and the part between the first and a second '@'; an address
      without '@' shows "undefined" there, as the template prints a missing element. */
  function MaskEmail(email: string): (r: string)
    ensures '@' !in email ==> r == Js.SliceFirst(email, 2) + "***@undefined"
  {
    var parts := Js.Split(email, '@');
    assert '@' !in email ==> parts == [email] by {
      if '@' !in email {
        Js.SplitNoSep(email, '@');
      }
    }
    var domain := if |parts| > 1 then parts[1] else "undefined";
    Js.SliceFirst(parts[0], 2) + "***@" + domain
  }

  /** For an address with one '@', the mask keeps the whole domain and at most two
      characters of the local part. */
  lemma MaskEmailOneAt(local: string, domain: string)
    requires '@' !in local && '@' !in domain
    ensures MaskEmail(local + "@" + domain) == Js.SliceFirst(local, 2) + "***@" + domain
  {
    Js.SplitTwo(local, domain, '@');
  }

  /** The preview's `maskPhone(phone)`: no length check, so a number of seven characters
      or fewer shows some characters twice. */
  function MaskPhone(phone: string): (r: string)
    ensures var shown := if |phone| < 4 then |phone| else 4;
            |r| == shown + 4 + (if |phone| < 3 then |phone| else 3) &&
            r[..shown] == phone[..shown] && r[shown..shown + 4] == "****" &&
            r[shown + 4..] == phone[|phone| - (|r| - shown - 4)..]
  {
    Js.SliceFirst(phone, 4) + "****" + Js.SliceLast(phone, 3)
  }

  /** `mockLegacyData.find(...)`: the first record whose email or phone is the query. */
  function Find(records: seq<Browser.LegacyRecord>, query: string): (r: Option<Browser.LegacyRecord>)
    ensures r.Some? ==> r.value in records && (r.value.email == query || r.value.phone == query)
    ensures r.None? <==> forall i :: 0 <= i < |records| ==> records[i].email != query && records[i].phone != query
  {
    if records == [] then None
    else if records[0].email == query || records[0].phone == query then Some(records[0])
    else Find(records[1..], query)
  }

  /** The record found is the first match: no earlier record matches. */
  lemma {:induction false} FindIsFirst(records: seq<Browser.LegacyRecord>, query: string)
    requires Find(records, query).Some?
    ensures exists k :: 0 <= k < |records| && records[k] == Find(records, query).value &&
              forall i :: 0 <= i < k ==> records[i].email != query && records[i].phone != query
  {
    if records[0].email == query || records[0].phone == query {
      assert records[0] == Find(records, query).value;
    } else {
      var tail := records[1..];
      FindIsFirst(tail, query);
      var k :| 0 <= k < |tail| && tail[k] == Find(tail, query).value &&
               forall i :: 0 <= i < k ==> tail[i].email != query && tail[i].phone != query;
      assert records[k + 1] == tail[k];
      forall i | 0 <= i < k + 1 ensures records[i].email != query && records[i].phone != query {
        if i > 0 { assert records[i] == tail[i - 1]; }
      }
    }
  }

  /** The claim saved for a record and a password. */
  function PendingClaim(record: Browser.LegacyRecord, password: string, now: string): (c: Browser.Claim)
    ensures c.record == record && c.newPassword == password
    ensures c.originSource == "claim" && c.tagihan == 20000 && c.status == "pending_otp"
    ensures c.claimedAt == now && c.verifiedAt == None
  {
    Browser.Claim(record, password, "claim", 20000, "pending_otp", now, None)
  }

  class ClaimPage {
    var step: Step
    var searchQuery: string
    var foundData: Option<Browser.LegacyRecord>
    var newPassword: string
    /** The records searched: the legacy list. */
    const records: seq<Browser.LegacyRecord>

    /** A record is held exactly while past the search step, and it is a searched record. */
    predicate Valid()
      reads this
    {
      (step == Search <==> foundData.None?) && (foundData.Some? ==> foundData.value in records)
    }

    constructor()
      ensures step == Search && searchQuery == "" && foundData == None && newPassword == ""
      ensures records == LegacyData
      ensures Valid()
    {
      records := LegacyData;
      step := Search;
      searchQuery := "";
      foundData := None;
      newPassword := "";
    }

    method EditQuery(query: string)
      requires Valid() && step == Search
      modifies this
      ensures searchQuery == query && step == old(step) && foundData == old(foundData)
      ensures newPassword == old(newPassword) && Valid()
    {
      searchQuery := query;
    }

    method EditPassword(password: string)
      requires Valid() && step == Confirm
      modifies this
      ensures newPassword == password && step == old(step) && foundData == old(foundData)
      ensures searchQuery == old(searchQuery) && Valid()
    {
      newPassword := password;
    }

    /** `handleSearch()`: a query that trims to nothing (`Js.TrimEmptyIff`: one made of
        whitespace only) is refused; otherwise the first legacy record whose
        email or phone equals the query exactly (untrimmed) moves the page to the preview. */
    method HandleSearch()
      requires Valid() && step == Search
      modifies this
      ensures Js.AllWhitespace(searchQuery) ==> step == Search && foundData == None
      ensures !Js.AllWhitespace(searchQuery) && Find(records, searchQuery).Some? ==>
                step == Preview && foundData == Find(records, searchQuery)
      ensures Find(records, searchQuery).None? ==> step == Search && foundData == None
      ensures searchQuery == old(searchQuery) && newPassword == old(newPassword)
      ensures Valid()
    {
      if Js.AllWhitespace(searchQuery) {
        return;
      }
      var found := Find(records, searchQuery);
      if found.Some? {
        foundData := found;
        step := Preview;
      }
    }

    /** "Bukan, Cari Lagi": back to an empty search. */
    method NotMine()
      requires Valid() && step == Preview
      modifies this
      ensures step == Search && foundData == None && searchQuery == ""
      ensures newPassword == old(newPassword) && Valid()
    {
      step := Search;
      foundData := None;
      searchQuery := "";
    }

    /** "Ya, Ini Saya": on to the password step, with the same record. */
    method ItIsMine()
      requires Valid() && step == Preview
      modifies this
      ensures step == Confirm && foundData == old(foundData) && searchQuery == old(searchQuery)
      ensures newPassword == old(newPassword) && Valid()
    {
      step := Confirm;
    }

    /** "Kembali": back to the preview of the same record. */
    method Back()
      requires Valid() && step == Confirm
      modifies this
      ensures step == Preview && foundData == old(foundData) && searchQuery == old(searchQuery)
      ensures newPassword == old(newPassword) && Valid()
    {
      step := Preview;
    }

    /** `handleConfirm()`: a password of fewer than six characters is refused; otherwise the
        claim is saved as the pending claim and the page moves on to the code step, carrying
        the flow type "claim" and the found record's email and phone in the navigation state. */
    method HandleConfirm(store: Browser.Store, now: string) returns (next: Option<Navigation>)
      requires Valid() && step == Confirm
      modifies store
      ensures |newPassword| < MinPasswordLength <==> next.None?
      ensures next.None? ==> store.pendingClaim == old(store.pendingClaim)
      ensures next.Some? ==>
                next == Some(Navigation(VerifyOtpPath, "claim", foundData.value.email, foundData.value.phone)) &&
                store.pendingClaim == Some(PendingClaim(foundData.value, newPassword, now))
      ensures store.pendingRegistration == old(store.pendingRegistration)
      ensures store.registrations == old(store.registrations) && store.claims == old(store.claims)
      ensures store.payments == old(store.payments)
    {
      if newPassword == "" || |newPassword| < MinPasswordLength {
        return None;
      }
      store.pendingClaim := Some(PendingClaim(foundData.value, newPassword, now));
      return Some(Navigation(VerifyOtpPath, "claim", foundData.value.email, foundData.value.phone));
    }
  }
}
