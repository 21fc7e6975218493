// The in-memory audit trail of administrative actions (src/lib/audit-log.ts):
// a module-level list, newest entry first, capped at 100 entries, with
// read-only filters and display helpers. Entry ids and timestamps come from
// the clock and a random generator and are taken here as parameters; the
// console echo of each entry is left out.

module AuditLog {
  import opened Wrappers
  import Js
  import Seqs
  import AccessGate

  /** The sixteen declared audit actions. */
  datatype Action =
    | ClaimApproved | ClaimRejected | ClaimRegionalApproved
    | PaymentVerified | PaymentRejected | NipIssued | NiamIssued
    | AdminAdded | AdminRemoved | RoleChanged
    | PesantrenUpdated | CrewUpdated | CrewDeleted | PesantrenDeleted
    | SettingsUpdated | PriceChanged

  datatype TargetType = Claim | Payment | Pesantren | Crew | Admin | System

  /** What the caller supplies: every field of an entry except its id and timestamp. */
  datatype EntryFields = EntryFields(
    actorId: string, actorName: string, actorRole: AccessGate.Role, action: Action,
    targetType: TargetType, targetId: string, targetName: string, details: string,
    regionId: Option<string>, regionName: Option<string>)

  datatype Entry = Entry(id: string, timestamp: string, fields: EntryFields)

  const Capacity: nat := 100

  /** The part of an action's wire name before its last underscore: what was acted on. */
  function Subject(a: Action): string
  {
    match a
    case ClaimApproved => "claim"
    case ClaimRejected => "claim"
    case ClaimRegionalApproved => "claim_regional"
    case PaymentVerified => "payment"
    case PaymentRejected => "payment"
    case NipIssued => "nip"
    case NiamIssued => "niam"
    case AdminAdded => "admin"
    case AdminRemoved => "admin"
    case RoleChanged => "role"
    case PesantrenUpdated => "pesantren"
    case CrewUpdated => "crew"
    case CrewDeleted => "crew"
    case PesantrenDeleted => "pesantren"
    case SettingsUpdated => "settings"
    case PriceChanged => "price"
  }

  /** The part of an action's wire name after its last underscore: what happened to it. */
  function Verb(a: Action): string
  {
    match a
    case ClaimApproved => "approved"
    case ClaimRejected => "rejected"
    case ClaimRegionalApproved => "approved"
    case PaymentVerified => "verified"
    case PaymentRejected => "rejected"
    case NipIssued => "issued"
    case NiamIssued => "issued"
    case AdminAdded => "added"
    case AdminRemoved => "removed"
    case RoleChanged => "changed"
    case PesantrenUpdated => "updated"
    case CrewUpdated => "updated"
    case CrewDeleted => "deleted"
    case PesantrenDeleted => "deleted"
    case SettingsUpdated => "updated"
    case PriceChanged => "changed"
  }

  /** The action's wire name (`claim_approved`, `price_changed`, ...), the string the badge
      colour is chosen from. */
  function ActionKey(a: Action): (key: string)
    ensures key != ""
  {
    Subject(a) + "_" + Verb(a)
  }

  /** A number that tells the sixteen wire names apart: the name's length and its fourth
      character from the end. */
  function KeyTag(key: string): int
  {
    if |key| < 4 then -1 else |key| * 128 + (key[|key| - 4] as int)
  }

  /** Each action's tag, worked out. */
  lemma {:induction false} TagOfKey(a: Action)
    ensures KeyTag(ActionKey(a)) == match a
      case ClaimApproved => 1903
      case ClaimRejected => 1891
      case ClaimRegionalApproved => 3055
      case PaymentVerified => 2150
      case PaymentRejected => 2147
      case NipIssued => 1395
      case NiamIssued => 1523
      case AdminAdded => 1508
      case AdminRemoved => 1775
      case RoleChanged => 1646
      case PesantrenUpdated => 2273
      case CrewUpdated => 1633
      case CrewDeleted => 1637
      case PesantrenDeleted => 2277
      case SettingsUpdated => 2145
      case PriceChanged => 1774
  {
    var v := Verb(a);
    assert ActionKey(a)[|ActionKey(a)| - 4] == v[|v| - 4];
  }

  /** Distinct actions have distinct wire names. */
  lemma ActionKeyInjective(a: Action, b: Action)
    ensures ActionKey(a) == ActionKey(b) ==> a == b
  {
    TagOfKey(a);
    TagOfKey(b);
  }

  /** The Indonesian label table of `formatActionLabel`. */
  function Label(a: Action): string
  {
    match a
    case ClaimApproved => "Klaim Disetujui"
    case ClaimRejected => "Klaim Ditolak"
    case ClaimRegionalApproved => "Klaim Disetujui Regional"
    case PaymentVerified => "Pembayaran Diverifikasi"
    case PaymentRejected => "Pembayaran Ditolak"
    case NipIssued => "NIP Diterbitkan"
    case NiamIssued => "NIAM Diterbitkan"
    case AdminAdded => "Admin Ditambahkan"
    case AdminRemoved => "Admin Dihapus"
    case RoleChanged => "Role Diubah"
    case PesantrenUpdated => "Data Pesantren Diperbarui"
    case CrewUpdated => "Data Kru Diperbarui"
    case CrewDeleted => "Kru Dihapus"
    case PesantrenDeleted => "Pesantren Dihapus"
    case SettingsUpdated => "Pengaturan Diperbarui"
    case PriceChanged => "Harga Diubah"
  }

  /** `formatActionLabel(action)`: the table's label, or the action's own name when the
      label is missing or empty. */
  function FormatActionLabel(a: Action): (text: string)
    ensures text != ""
  {
    if Label(a) != "" then Label(a) else ActionKey(a)
  }

  /** Every declared action has a label of its own: the fallback to the raw action name
      is never taken. */
  lemma LabelsTotal(a: Action)
    ensures FormatActionLabel(a) == Label(a) && FormatActionLabel(a) != ActionKey(a)
  {
    // labels start with a capital letter, wire names with a lower-case one
    assert ActionKey(a)[0] == Subject(a)[0];
    assert 'A' <= Label(a)[0] <= 'Z' && 'a' <= Subject(a)[0] <= 'z';
  }

  const GreenBadge: string := "bg-green-100 text-green-700"
  const RedBadge: string := "bg-red-100 text-red-700"
  const BlueBadge: string := "bg-blue-100 text-blue-700"
  const PurpleBadge: string := "bg-purple-100 text-purple-700"
  const GrayBadge: string := "bg-gray-100 text-gray-700"

  predicate Positive(key: string)
  {
    Js.Contains(key, "approved") || Js.Contains(key, "verified") || Js.Contains(key, "issued")
  }

  predicate Negative(key: string)
  {
    Js.Contains(key, "rejected") || Js.Contains(key, "deleted") || Js.Contains(key, "removed")
  }

  predicate Edit(key: string)
  {
    Js.Contains(key, "updated") || Js.Contains(key, "changed")
  }

  /** `getActionBadgeColor(action)`, a chain of substring tests on the action's name. */
  function BadgeColor(key: string): (color: string)
    ensures Positive(key) ==> color == GreenBadge
    ensures !Positive(key) && Negative(key) ==> color == RedBadge
    ensures !Positive(key) && !Negative(key) && Edit(key) ==> color == BlueBadge
    ensures !Positive(key) && !Negative(key) && !Edit(key) && Js.Contains(key, "added") ==> color == PurpleBadge
    ensures color == GrayBadge <==>
              !Positive(key) && !Negative(key) && !Edit(key) && !Js.Contains(key, "added")
  {
    if Positive(key) then GreenBadge
    else if Negative(key) then RedBadge
    else if Edit(key) then BlueBadge
    else if Js.Contains(key, "added") then PurpleBadge
    else GrayBadge
  }

  /** An action's wire name contains its verb. */
  lemma KeyHoldsVerb(a: Action)
    ensures Js.Contains(ActionKey(a), Verb(a))
  {
    var p := Subject(a) + "_";
    assert (p + Verb(a))[|p|..|p| + |Verb(a)|] == Verb(a);
    assert Js.OccursAt(p + Verb(a), Verb(a), |p|);
  }

  /** Every declared action names one of the coloured outcomes, so none is shown gray. */
  lemma NoActionIsGray(a: Action)
    ensures BadgeColor(ActionKey(a)) != GrayBadge
  {
    KeyHoldsVerb(a);
  }

  /** The approval of a claim is shown green even at regional level, and a verified
      payment green: the positive words are tested first. */
  lemma ApprovalsAreGreen()
    ensures BadgeColor(ActionKey(ClaimRegionalApproved)) == GreenBadge
    ensures BadgeColor(ActionKey(PaymentVerified)) == GreenBadge
    ensures BadgeColor(ActionKey(NipIssued)) == GreenBadge
  {
    KeyHoldsVerb(ClaimRegionalApproved);
    KeyHoldsVerb(PaymentVerified);
    KeyHoldsVerb(NipIssued);
  }

  /** The store behind the module-level `auditLogs` array. */
  class Store {
    var logs: seq<Entry>

    /** Never more than 100 entries. */
    predicate Valid()
      reads this
    {
      |logs| <= Capacity
    }

    constructor()
      ensures logs == [] && Valid()
    {
      logs := [];
    }

    /** `logAuditEntry(fields)`: stamps the fields, puts the entry first, and keeps only
        the 100 newest entries. */
    method LogAuditEntry(fields: EntryFields, freshId: string, now: string) returns (e: Entry)
      requires Valid()
      modifies this
      ensures e == Entry(freshId, now, fields)
      ensures logs == if |old(logs)| < Capacity then [e] + old(logs) else [e] + old(logs)[..Capacity - 1]
      ensures Valid()
    {
      e := Entry(freshId, now, fields);
      logs := [e] + logs;
      if |logs| > Capacity {
        logs := logs[..Capacity];
      }
    }

    /** `getAuditLogs()`: a new array holding the stored entries, which the caller may
        change without touching the store. */
    method GetAuditLogs() returns (copy: array<Entry>)
      ensures fresh(copy) && copy[..] == logs
    {
      var stored := logs;
      copy := new Entry[|stored|](i => if 0 <= i < |stored| then stored[i] else Entry("", "", Blank));
    }

    /** `getAuditLogsByAction(action)` */
    function ByAction(action: Action): (r: seq<Entry>)
      reads this
      ensures forall e :: e in r <==> e in logs && e.fields.action == action
      ensures |r| == Seqs.CountIf(logs, (e: Entry) => e.fields.action == action)
      ensures Seqs.IsSubsequence(r, logs)
    {
      var keep := (e: Entry) => e.fields.action == action;
      Seqs.FilterMembers(logs, keep);
      Seqs.FilterLength(logs, keep);
      Seqs.FilterIsSubsequence(logs, keep);
      Seqs.Filter(logs, keep)
    }

    /** `getAuditLogsByActor(actorId)` */
    function ByActor(actorId: string): (r: seq<Entry>)
      reads this
      ensures forall e :: e in r <==> e in logs && e.fields.actorId == actorId
      ensures |r| == Seqs.CountIf(logs, (e: Entry) => e.fields.actorId == actorId)
      ensures Seqs.IsSubsequence(r, logs)
    {
      var keep := (e: Entry) => e.fields.actorId == actorId;
      Seqs.FilterMembers(logs, keep);
      Seqs.FilterLength(logs, keep);
      Seqs.FilterIsSubsequence(logs, keep);
      Seqs.Filter(logs, keep)
    }

    /** `getAuditLogsByRegion(regionId)`: entries without a region never match. */
    function ByRegion(regionId: string): (r: seq<Entry>)
      reads this
      ensures forall e :: e in r <==> e in logs && e.fields.regionId == Some(regionId)
      ensures |r| == Seqs.CountIf(logs, (e: Entry) => e.fields.regionId == Some(regionId))
      ensures Seqs.IsSubsequence(r, logs)
    {
      var keep := (e: Entry) => e.fields.regionId == Some(regionId);
      Seqs.FilterMembers(logs, keep);
      Seqs.FilterLength(logs, keep);
      Seqs.FilterIsSubsequence(logs, keep);
      Seqs.Filter(logs, keep)
    }

    /** `clearAuditLogs()` */
    method Clear()
      modifies this
      ensures logs == [] && Valid()
    {
      logs := [];
    }
  }

  /** A placeholder value for array initialisation. */
  const Blank: EntryFields :=
    EntryFields("", "", AccessGate.User, ClaimApproved, System, "", "", "", None, None)

  /** After a new entry is logged, filtering by its action finds it first, ahead of the
      earlier matches that survive the cap. */
  lemma {:induction false} NewestMatchFirst(old_logs: seq<Entry>, e: Entry)
    ensures var keep := (x: Entry) => x.fields.action == e.fields.action;
            var kept := if |old_logs| < Capacity then old_logs else old_logs[..Capacity - 1];
            Seqs.Filter([e] + kept, keep) == [e] + Seqs.Filter(kept, keep)
  {
    var keep := (x: Entry) => x.fields.action == e.fields.action;
    var kept := if |old_logs| < Capacity then old_logs else old_logs[..Capacity - 1];
    Seqs.FilterConcat([e], kept, keep);
  }
}
