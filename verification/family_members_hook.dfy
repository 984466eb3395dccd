/** The `useFamilyMembers` hook (apps/web/hooks/use-family-members.ts): the
    mapping from its `family_members` query rows to family members. Finding
    the family and running the query are left to the caller. */
module FamilyMembersHook {
  import opened Wrappers
  import opened Text
  import opened CoreTypes
  import TreeActions

  /** One row of the hook's result: the row's own columns win, the linked
      profile (`user`) fills in the user id, the names and the avatar, and
      "Ukjent" / "" are the last resorts for the names. */
  function MapRow(row: MemberRow): (m: Member)
    ensures m.id == row.id && m.role == row.role && m.bio == Some("")
    ensures Truthy(row.userId) ==> m.userId == row.userId
    ensures !Truthy(row.userId) ==> m.userId == (if row.profile.Some? then row.profile.value.id else None)
    ensures Truthy(row.firstName) ==> m.firstName == row.firstName.value
    ensures !Truthy(row.firstName) && Truthy(ProfileFirstName(row.profile)) ==>
              m.firstName == ProfileFirstName(row.profile).value
    ensures !Truthy(row.firstName) && !Truthy(ProfileFirstName(row.profile)) ==> m.firstName == "Ukjent"
    ensures Truthy(row.lastName) ==> m.lastName == row.lastName.value
    ensures !Truthy(row.lastName) && Truthy(ProfileLastName(row.profile)) ==>
              m.lastName == ProfileLastName(row.profile).value
    ensures !Truthy(row.lastName) && !Truthy(ProfileLastName(row.profile)) ==> m.lastName == ""
    ensures Truthy(row.avatarUrl) ==> m.avatarUrl == row.avatarUrl
    ensures !Truthy(row.avatarUrl) ==> m.avatarUrl == (if row.profile.Some? then row.profile.value.avatarUrl else None)
    ensures m == NamedMember(m.id, m.firstName, m.lastName)
                   .(userId := m.userId, role := m.role, avatarUrl := m.avatarUrl, bio := m.bio)
  {
    var profileId := if row.profile.Some? then row.profile.value.id else None;
    var profileAvatar := if row.profile.Some? then row.profile.value.avatarUrl else None;
    NamedMember(row.id,
                OrDefault(OrElse(row.firstName, ProfileFirstName(row.profile)), "Ukjent"),
                OrDefault(OrElse(row.lastName, ProfileLastName(row.profile)), ""))
      .(userId := OrElse(row.userId, profileId), role := row.role,
        avatarUrl := OrElse(row.avatarUrl, profileAvatar), bio := Some(""))
  }

  /** The hook's `data.map(...)`: one member per row, in order. */
  function MapRows(rows: seq<MemberRow>): (ms: seq<Member>)
    ensures |ms| == |rows|
    ensures forall i :: 0 <= i < |rows| ==> ms[i] == MapRow(rows[i]) && ms[i].id == rows[i].id
  {
    seq(|rows|, i requires 0 <= i < |rows| => MapRow(rows[i]))
  }

  /** The hook and the tree's server mapping name every row alike: both take
      the row's columns first and the profile's full name second. They differ
      in the user id, which only the hook completes from the profile. */
  lemma HookNamesAgreeWithTree(row: MemberRow)
    ensures MapRow(row).firstName == TreeActions.MapMemberToUI(row).firstName
    ensures MapRow(row).lastName == TreeActions.MapMemberToUI(row).lastName
    ensures Truthy(row.userId) ==> MapRow(row).userId == TreeActions.MapMemberToUI(row).userId
  {
  }
}
