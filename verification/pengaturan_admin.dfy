// The super admin's settings screen (src/components/dashboard/PengaturanAdmin.tsx):
// the profile form and the password form, whose checks run in a fixed order.
// Nothing is written anywhere: a save only reports success or the first failed
// check, and a successful password change empties the form.

module PengaturanAdmin {
  import Js

  datatype Profile = Profile(name: string, email: string, avatar: string)

  /** The three password fields. */
  datatype Passwords = Passwords(current: string, next: string, confirm: string)

  datatype Field = Current | Next | Confirm

  /** Whether each password field shows its text. */
  datatype Shown = Shown(current: bool, next: bool, confirm: bool)

  const InitialProfile: Profile := Profile("Super Admin", "admin@mpj.id", "")
  const NoPasswords: Passwords := Passwords("", "", "")
  const MinPasswordLength: nat := 8

  datatype SaveOutcome = EmptyName | ProfileSaved

  /** `handleSaveProfile()`: only an empty name is refused. */
  function SaveProfile(profile: Profile): (outcome: SaveOutcome)
    ensures outcome == EmptyName <==> profile.name == ""
    ensures outcome == ProfileSaved <==> |profile.name| > 0
  {
    if profile.name == "" then EmptyName else ProfileSaved
  }

  /** The avatar fallback: the name's first character in capitals, nothing for an empty
      name. */
  function AvatarInitial(name: string): (initial: string)
    ensures name == "" <==> initial == ""
    ensures name != "" ==> initial == [Js.UpperChar(name[0])]
    ensures forall i :: 0 <= i < |initial| ==> !('a' <= initial[i] <= 'z')
  {
    Js.Upper(Js.SliceFirst(name, 1))
  }

  datatype PasswordOutcome = Incomplete | Mismatch | TooShort | Changed

  /** The checks of `handleChangePassword()`, in their order: a missing field first, then
      a confirmation that differs, then a new password that is too short. */
  function CheckPasswords(p: Passwords): (outcome: PasswordOutcome)
    ensures outcome == Incomplete <==> p.current == "" || p.next == "" || p.confirm == ""
    ensures outcome == Mismatch <==> outcome != Incomplete && p.next != p.confirm
    ensures outcome == TooShort <==> outcome !in {Incomplete, Mismatch} && |p.next| < MinPasswordLength
  {
    if p.current == "" || p.next == "" || p.confirm == "" then Incomplete
    else if p.next != p.confirm then Mismatch
    else if |p.next| < MinPasswordLength then TooShort
    else Changed
  }

  /** A change goes through exactly when the current password is given and the new one is
      confirmed and at least eight characters long: the non-empty checks on the new and
      confirmation fields are implied by the other two. */
  lemma ChangedIff(p: Passwords)
    ensures CheckPasswords(p) == Changed <==>
              p.current != "" && p.next == p.confirm && |p.next| >= MinPasswordLength
  {
  }

  /** A short confirmed password is refused as too short only when the current password is
      given; otherwise the missing field is what is reported. */
  lemma ShortReportedAfterMissing(p: Passwords)
    requires p.next == p.confirm && 0 < |p.next| < MinPasswordLength
    ensures CheckPasswords(p) == (if p.current == "" then Incomplete else TooShort)
  {
  }

  class SettingsPage {
    var profile: Profile
    var passwords: Passwords
    var shown: Shown

    constructor()
      ensures profile == InitialProfile && passwords == NoPasswords && shown == Shown(false, false, false)
    {
      profile := InitialProfile;
      passwords := NoPasswords;
      shown := Shown(false, false, false);
    }

    method EditName(name: string)
      modifies this
      ensures profile == old(profile).(name := name)
      ensures passwords == old(passwords) && shown == old(shown)
    {
      profile := profile.(name := name);
    }

    /** Typing in one password field leaves the other two as they were. */
    method EditPassword(field: Field, value: string)
      modifies this
      ensures field == Current ==> passwords == old(passwords).(current := value)
      ensures field == Next ==> passwords == old(passwords).(next := value)
      ensures field == Confirm ==> passwords == old(passwords).(confirm := value)
      ensures profile == old(profile) && shown == old(shown)
    {
      match field
      case Current => passwords := passwords.(current := value);
      case Next => passwords := passwords.(next := value);
      case Confirm => passwords := passwords.(confirm := value);
    }

    /** The eye button of one field flips whether that field shows its text. */
    method ToggleShown(field: Field)
      modifies this
      ensures field == Current ==> shown == old(shown).(current := !old(shown).current)
      ensures field == Next ==> shown == old(shown).(next := !old(shown).next)
      ensures field == Confirm ==> shown == old(shown).(confirm := !old(shown).confirm)
      ensures profile == old(profile) && passwords == old(passwords)
    {
      match field
      case Current => shown := shown.(current := !shown.current);
      case Next => shown := shown.(next := !shown.next);
      case Confirm => shown := shown.(confirm := !shown.confirm);
    }

    /** `handleChangePassword()`: the fields are emptied exactly when the change goes
        through. */
    method HandleChangePassword() returns (outcome: PasswordOutcome)
      modifies this
      ensures outcome == CheckPasswords(old(passwords))
      ensures passwords == (if outcome == Changed then NoPasswords else old(passwords))
      ensures profile == old(profile) && shown == old(shown)
    {
      outcome := CheckPasswords(passwords);
      if outcome == Changed {
        passwords := NoPasswords;
      }
    }
  }
}
