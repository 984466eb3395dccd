/** The family admin page (apps/web/app/room/admin/page.tsx): its member
    mapping and the optimistic updates of `updateRole` and `removeMember`.
    The database writes, the confirmation dialog and the reload after a
    failed write are outside the model. */
module RoomAdmin {
  import opened Wrappers
  import opened Text
  import opened Seqs
  import opened CoreTypes
  import TreeActions

  /** The page's mapping of a member row: names come only from the linked
      profile, with "Ukjent" and "" as fallbacks. */
  function MapRow(row: MemberRow): (m: Member)
    ensures m.id == row.id && m.userId == row.userId && m.role == row.role
    ensures Truthy(ProfileFirstName(row.profile)) ==> m.firstName == ProfileFirstName(row.profile).value
    ensures !Truthy(ProfileFirstName(row.profile)) ==> m.firstName == "Ukjent"
    ensures Truthy(ProfileLastName(row.profile)) ==> m.lastName == ProfileLastName(row.profile).value
    ensures !Truthy(ProfileLastName(row.profile)) ==> m.lastName == ""
    ensures m.avatarUrl == (if row.profile.Some? then row.profile.value.avatarUrl else None)
    ensures m.email == (if row.profile.Some? then row.profile.value.email else None)
    ensures m == NamedMember(m.id, m.firstName, m.lastName)
                   .(userId := m.userId, role := m.role, avatarUrl := m.avatarUrl, email := m.email)
  {
    NamedMember(row.id, OrDefault(ProfileFirstName(row.profile), "Ukjent"),
                OrDefault(ProfileLastName(row.profile), ""))
      .(userId := row.userId, role := row.role,
        avatarUrl := if row.profile.Some? then row.profile.value.avatarUrl else None,
        email := if row.profile.Some? then row.profile.value.email else None)
  }

  /** `allMembers.map(...)`: one member per row, in order. */
  function MapRows(rows: seq<MemberRow>): (ms: seq<Member>)
    ensures |ms| == |rows|
    ensures forall i :: 0 <= i < |rows| ==> ms[i] == MapRow(rows[i]) && ms[i].id == rows[i].id
  {
    seq(|rows|, i requires 0 <= i < |rows| => MapRow(rows[i]))
  }

  /** For a row without name columns the admin page and the tree show the
      same names. */
  lemma AdminNamesAgreeWithTree(row: MemberRow)
    requires !Truthy(row.firstName) && !Truthy(row.lastName)
    ensures MapRow(row).firstName == TreeActions.MapMemberToUI(row).firstName
    ensures MapRow(row).lastName == TreeActions.MapMemberToUI(row).lastName
  {
  }

  /** `updateRole`'s optimistic update: the member with that id gets the new
      role and every other member stays as it is. */
  function UpdateRole(ms: seq<Member>, memberId: Id, newRole: string): (r: seq<Member>)
    ensures |r| == |ms|
    ensures forall i :: 0 <= i < |ms| && ms[i].id == memberId ==> r[i] == ms[i].(role := Some(newRole))
    ensures forall i :: 0 <= i < |ms| && ms[i].id != memberId ==> r[i] == ms[i]
  {
    seq(|ms|, i requires 0 <= i < |ms| => if ms[i].id == memberId then ms[i].(role := Some(newRole)) else ms[i])
  }

  /** Setting a role is idempotent, and a later role for the same member
      replaces an earlier one. */
  lemma UpdateRoleLastWins(ms: seq<Member>, memberId: Id, first: string, second: string)
    ensures UpdateRole(UpdateRole(ms, memberId, first), memberId, second) == UpdateRole(ms, memberId, second)
  {
  }

  /** The test `m => m.id !== memberId`. */
  function IdIsNot(memberId: Id): Member -> bool {
    (m: Member) => m.id != memberId
  }

  /** `removeMember`'s optimistic update: exactly the members with that id
      go, the rest keep their order. */
  function RemoveMember(ms: seq<Member>, memberId: Id): (r: seq<Member>)
    ensures forall m :: m in r <==> m in ms && m.id != memberId
    ensures IsSubsequence(r, ms)
    ensures forall m :: multiset(r)[m] == if m.id != memberId then multiset(ms)[m] else 0
  {
    FilterMultiset(ms, IdIsNot(memberId));
    FilterIsSubsequence(ms, IdIsNot(memberId));
    Filter(ms, IdIsNot(memberId))
  }

  /** Removing an id nobody has changes nothing. */
  lemma RemoveUnknownMember(ms: seq<Member>, memberId: Id)
    requires forall i :: 0 <= i < |ms| ==> ms[i].id != memberId
    ensures RemoveMember(ms, memberId) == ms
  {
    FilterKeepsAll(ms, IdIsNot(memberId));
  }
}
