/** The server actions of the family tree
    (apps/web/components/family-tree/actions.ts): mapping database rows to
    UI records, and the pure part of `addFamilyMember` — which member to
    insert and which relationship rows to create for a relation word such as
    "father" or "wife". The database calls become parameters. */
module TreeActions {
  import opened Wrappers
  import opened Text
  import opened CoreTypes

  // ---------------------------------------------------------------------
  // Row mapping

  /** `mapMemberToUI`: the row's own name columns win; otherwise the linked
      profile's full name is split at its first space; "Ukjent" and "" are the
      last resorts. The gender defaults to "other"; avatar and email fall back
      to the profile's; the other columns are copied. */
  function MapMemberToUI(row: MemberRow): (m: Member)
    ensures m.id == row.id && m.userId == row.userId
    ensures Truthy(row.firstName) ==> m.firstName == row.firstName.value
    ensures !Truthy(row.firstName) && Truthy(ProfileFirstName(row.profile)) ==>
              m.firstName == ProfileFirstName(row.profile).value
    ensures !Truthy(row.firstName) && !Truthy(ProfileFirstName(row.profile)) ==>
              m.firstName == "Ukjent"
    ensures Truthy(row.lastName) ==> m.lastName == row.lastName.value
    ensures !Truthy(row.lastName) && row.profile.Some? && row.profile.value.fullName.Some? ==>
              m.lastName == AfterFirstPart(row.profile.value.fullName.value, ' ')
    ensures !Truthy(row.lastName) && !(row.profile.Some? && row.profile.value.fullName.Some?) ==>
              m.lastName == ""
    ensures m.firstName != ""
    ensures m.gender == Some(if Truthy(row.gender) then row.gender.value else "other")
    ensures Truthy(row.avatarUrl) ==> m.avatarUrl == row.avatarUrl
    ensures !Truthy(row.avatarUrl) ==>
              m.avatarUrl == (if row.profile.Some? && Truthy(row.profile.value.avatarUrl)
                              then row.profile.value.avatarUrl else None)
    ensures m.avatarUrl.None? || m.avatarUrl.value != ""
    ensures Truthy(row.email) ==> m.email == row.email
    ensures !Truthy(row.email) ==> m.email == (if row.profile.Some? then row.profile.value.email else None)
    ensures m.middleName == row.middleName && m.role == row.role && m.title == row.title
    ensures m.birthDate == row.birthDate && m.deathDate == row.deathDate && m.birthPlace == row.birthPlace
    ensures m.isDeceased == row.isDeceased && m.phone == row.phone && m.bio.None?
    ensures m.address == row.address && m.city == row.city && m.zipCode == row.zipCode
  {
    var profileAvatar := if row.profile.Some? then row.profile.value.avatarUrl else None;
    var profileEmail := if row.profile.Some? then row.profile.value.email else None;
    Member(
      id := row.id,
      userId := row.userId,
      firstName := OrDefault(OrElse(row.firstName, ProfileFirstName(row.profile)), "Ukjent"),
      middleName := row.middleName,
      lastName := OrDefault(OrElse(row.lastName, ProfileLastName(row.profile)), ""),
      title := row.title,
      gender := Some(OrDefault(row.gender, "other")),
      birthDate := row.birthDate,
      birthPlace := row.birthPlace,
      deathDate := row.deathDate,
      isDeceased := row.isDeceased,
      avatarUrl := OrElse(OrElse(row.avatarUrl, profileAvatar), None),
      bio := None,
      address := row.address,
      zipCode := row.zipCode,
      city := row.city,
      email := OrElse(row.email, profileEmail),
      phone := row.phone,
      role := row.role)
  }

  /** A member with no name columns takes both names from a profile full name
      that has a space: the first word, then the rest, reassembling it. */
  lemma ProfileNamesFillMember(row: MemberRow)
    requires !Truthy(row.firstName) && !Truthy(row.lastName)
    requires row.profile.Some? && row.profile.value.fullName.Some?
    requires var n := row.profile.value.fullName.value;
             ' ' in n && n[0] != ' ' && n[|n| - 1] != ' '
    ensures MapMemberToUI(row).firstName + " " + MapMemberToUI(row).lastName
            == row.profile.value.fullName.value
  {
    var n := row.profile.value.fullName.value;
    FirstPartSplitsAtFirstSeparator(n, ' ');
  }

  /** `mapRelationshipToUI`: a field-for-field copy of the row. */
  function MapRelationshipToUI(row: RelationshipRow): (r: Relationship)
    ensures r.id == row.id && r.fromId == row.fromId && r.toId == row.toId && r.kind == row.kind
  {
    Relationship(row.id, row.fromId, row.toId, row.kind)
  }

  /** The result of `getFamilyTreeData`: each row mapped, one for one, in order. */
  datatype TreeData = TreeData(members: seq<Member>, relationships: seq<Relationship>)

  function GetFamilyTreeData(memberRows: seq<MemberRow>, relationshipRows: seq<RelationshipRow>)
    : (d: TreeData)
    ensures |d.members| == |memberRows| && |d.relationships| == |relationshipRows|
    ensures forall i :: 0 <= i < |memberRows| ==> d.members[i] == MapMemberToUI(memberRows[i])
    ensures forall i :: 0 <= i < |relationshipRows| ==>
              d.relationships[i] == MapRelationshipToUI(relationshipRows[i])
  {
    TreeData(
      seq(|memberRows|, i requires 0 <= i < |memberRows| => MapMemberToUI(memberRows[i])),
      seq(|relationshipRows|, i requires 0 <= i < |relationshipRows| =>
            MapRelationshipToUI(relationshipRows[i])))
  }

  // ---------------------------------------------------------------------
  // Relation words

  /** What the new member is to the relative it is attached to. */
  datatype Role = ParentOfRelative | ChildOfRelative | PartnerOfRelative | SiblingOfRelative

  const ParentWords: set<string> := {"father", "mother", "parent"}
  const ChildWords: set<string> := {"son", "daughter", "child"}
  const PartnerWords: set<string> := {"partner", "husband", "wife", "spouse"}
  const SiblingWords: set<string> := {"brother", "sister", "sibling"}

  /** The server's `switch` on the relation word. A word it does not list
      keeps the defaults, which make the new member a child of the relative. */
  function ServerRole(word: string): (r: Role)
    ensures r == ParentOfRelative <==> word in ParentWords
    ensures r == PartnerOfRelative <==> word in PartnerWords
    ensures r == SiblingOfRelative <==> word in SiblingWords
    ensures word in ChildWords ==> r == ChildOfRelative
  {
    if word in ParentWords then ParentOfRelative
    else if word in ChildWords then ChildOfRelative
    else if word in PartnerWords then PartnerOfRelative
    else if word in SiblingWords then SiblingOfRelative
    else ChildOfRelative
  }

  /** A directed, typed edge between two member ids. */
  datatype EdgeSpec = EdgeSpec(fromId: Id, toId: Id, kind: RelKind)

  /** The stored edge for a role: a parent edge runs from parent to child;
      partner and sibling edges run from the relative to the new member. */
  function EdgeFor(role: Role, relativeId: Id, memberId: Id): (e: EdgeSpec)
    ensures e.kind != Child
    ensures (e.fromId == memberId && e.toId == relativeId) ||
            (e.fromId == relativeId && e.toId == memberId)
  {
    match role
    case ParentOfRelative => EdgeSpec(memberId, relativeId, Parent)
    case ChildOfRelative => EdgeSpec(relativeId, memberId, Parent)
    case PartnerOfRelative => EdgeSpec(relativeId, memberId, Spouse)
    case SiblingOfRelative => EdgeSpec(relativeId, memberId, Sibling)
  }

  /** Reads an edge back from the new member's point of view: the role it
      plays and the id at the other end. */
  function RoleOf(e: EdgeSpec, memberId: Id): Option<(Role, Id)> {
    match e.kind
    case Parent =>
      if e.fromId == memberId then Some((ParentOfRelative, e.toId))
      else if e.toId == memberId then Some((ChildOfRelative, e.fromId))
      else None
    case Spouse => if e.toId == memberId then Some((PartnerOfRelative, e.fromId)) else None
    case Sibling => if e.toId == memberId then Some((SiblingOfRelative, e.fromId)) else None
    case Child => None
  }

  /** `EdgeFor` and `RoleOf` are inverse: an edge loses neither the role nor the
      relative, and every readable edge is the edge of its role. */
  lemma EdgeRoleRoundTrip(role: Role, relativeId: Id, memberId: Id, e: EdgeSpec)
    requires relativeId != memberId
    ensures RoleOf(EdgeFor(role, relativeId, memberId), memberId) == Some((role, relativeId))
    ensures RoleOf(e, memberId).Some? ==>
              EdgeFor(RoleOf(e, memberId).value.0, RoleOf(e, memberId).value.1, memberId) == e
  {
  }

  // ---------------------------------------------------------------------
  // addFamilyMember

  /** One relationship to create: the relative, the relation word, and the
      optional relationship status ("gift", …). */
  datatype RelationRequest = RelationRequest(relativeId: Id, relationType: string, status: Option<string>)

  /** The `data` argument of `addFamilyMember`. */
  datatype AddMemberData = AddMemberData(
    fields: Patch,
    relationType: Option<string>,
    relativeId: Option<Id>,
    existingMemberId: Option<Id>,
    relationshipStatus: Option<string>,
    additionalRelationships: Option<seq<RelationRequest>>)

  function Additional(data: AddMemberData): seq<RelationRequest> {
    data.additionalRelationships.GetOr([])
  }

  /** Whether the submission names a primary relationship. */
  predicate HasPrimary(data: AddMemberData) {
    Truthy(data.relationType) && Truthy(data.relativeId)
  }

  /** `relationshipsToCreate`: the primary relationship, when both its word
      and its relative are given, followed by the additional ones in order. */
  function RelationshipsToCreate(data: AddMemberData): (r: seq<RelationRequest>)
    ensures var k := if HasPrimary(data) then 1 else 0;
            |r| == k + |Additional(data)| &&
            (forall i :: 0 <= i < |Additional(data)| ==> r[k + i] == Additional(data)[i])
    ensures HasPrimary(data) ==>
              r[0] == RelationRequest(data.relativeId.value, data.relationType.value,
                                      data.relationshipStatus)
  {
    (if HasPrimary(data)
     then [RelationRequest(data.relativeId.value, data.relationType.value, data.relationshipStatus)]
     else [])
    + Additional(data)
  }

  /** One `relationships` insert. */
  datatype EdgeInsert = EdgeInsert(familyId: Id, edge: EdgeSpec, status: Option<string>)

  /** The inserts for the requests; none when the member id is falsy (the loop
      `continue`s on every request). */
  function EdgeInserts(familyId: Id, requests: seq<RelationRequest>, memberId: Id): (r: seq<EdgeInsert>)
    ensures memberId == "" ==> r == []
    ensures memberId != "" ==> |r| == |requests|
    ensures memberId != "" ==> forall i :: 0 <= i < |requests| ==>
              r[i].familyId == familyId && r[i].status == requests[i].status &&
              r[i].edge == EdgeFor(ServerRole(requests[i].relationType), requests[i].relativeId, memberId)
  {
    if memberId == "" then []
    else seq(|requests|, i requires 0 <= i < |requests| =>
               EdgeInsert(familyId,
                          EdgeFor(ServerRole(requests[i].relationType), requests[i].relativeId, memberId),
                          requests[i].status))
  }

  /** An inserted field: the value of a present key, `undefined` otherwise. */
  function Flat<T>(f: Field<T>): Option<T> {
    if f.Some? then f.value else None
  }

  /** The `family_members` row the insert creates and reads back: the
      submitted fields, the role "member", no linked user or profile. */
  function InsertedRow(id: Id, fields: Patch): MemberRow {
    MemberRow(
      id := id, userId := None, firstName := fields.firstName, lastName := fields.lastName,
      middleName := Flat(fields.middleName), role := Some("member"),
      avatarUrl := Flat(fields.avatarUrl), gender := Flat(fields.gender),
      birthDate := Flat(fields.birthDate), deathDate := Flat(fields.deathDate),
      birthPlace := Flat(fields.birthPlace), isDeceased := Flat(fields.isDeceased),
      address := Flat(fields.address), city := Flat(fields.city), zipCode := Flat(fields.zipCode),
      email := Flat(fields.email), phone := Flat(fields.phone), title := Flat(fields.title),
      profile := None)
  }

  /** Reading an inserted member back through `mapMemberToUI` returns the
      submitted names, gender and dates. */
  lemma InsertedMemberReadsBack(id: Id, fields: Patch)
    requires Truthy(fields.firstName) && Truthy(fields.lastName) && Truthy(Flat(fields.gender))
    ensures var m := MapMemberToUI(InsertedRow(id, fields));
            m.id == id && m.firstName == fields.firstName.value &&
            m.lastName == fields.lastName.value && m.gender == Flat(fields.gender) &&
            m.birthDate == Flat(fields.birthDate) && m.deathDate == Flat(fields.deathDate) &&
            m.role == Some("member")
  {
  }

  /** What `addFamilyMember` does to the store: the member row to insert (if
      any), the id every relationship is attached to, and the relationship
      inserts in order. */
  datatype AddPlan = AddPlan(insertedRow: Option<MemberRow>, memberId: Id, edges: seq<EdgeInsert>)

  datatype AddOutcome = MemberInsertFailed(message: string) | Planned(plan: AddPlan)

  /** `addFamilyMember(familyId, data)`. `created` is the database's answer to
      the member insert: the new id, or the error message. It is consulted
      only when no existing member is being linked. */
  function AddFamilyMember(familyId: Id, data: AddMemberData, created: Result<Id, string>)
    : (r: AddOutcome)
    ensures Truthy(data.existingMemberId) ==>
              r.Planned? && r.plan.insertedRow.None? && r.plan.memberId == data.existingMemberId.value
    ensures !Truthy(data.existingMemberId) && created.Failure? ==>
              r == MemberInsertFailed(created.error)
    ensures !Truthy(data.existingMemberId) && created.Success? ==>
              r.Planned? && r.plan.memberId == created.value &&
              r.plan.insertedRow == Some(InsertedRow(created.value, data.fields))
    ensures r.Planned? ==>
              r.plan.edges == EdgeInserts(familyId, RelationshipsToCreate(data), r.plan.memberId)
  {
    if Truthy(data.existingMemberId) then
      var id := data.existingMemberId.value;
      Planned(AddPlan(None, id, EdgeInserts(familyId, RelationshipsToCreate(data), id)))
    else
      match created
      case Failure(message) => MemberInsertFailed(message)
      case Success(id) =>
        Planned(AddPlan(Some(InsertedRow(id, data.fields)), id,
                        EdgeInserts(familyId, RelationshipsToCreate(data), id)))
  }

  /** Every planned relationship joins the new (or linked) member to the
      relative its request names, and the primary relationship comes first. */
  lemma PlannedEdgesJoinMemberToRelatives(familyId: Id, data: AddMemberData, created: Result<Id, string>)
    requires AddFamilyMember(familyId, data, created).Planned?
    ensures var plan := AddFamilyMember(familyId, data, created).plan;
            var reqs := RelationshipsToCreate(data);
            plan.memberId != "" ==>
              |plan.edges| == |reqs| &&
              (forall i :: 0 <= i < |reqs| ==>
                 var e := plan.edges[i].edge;
                 (e.fromId == plan.memberId && e.toId == reqs[i].relativeId) ||
                 (e.fromId == reqs[i].relativeId && e.toId == plan.memberId)) &&
              (HasPrimary(data) ==>
                 plan.edges[0].edge ==
                 EdgeFor(ServerRole(data.relationType.value), data.relativeId.value, plan.memberId))
  {
  }

  /** The row the database returns for a relationship insert, given the id it
      generates. */
  function StoredRelationship(e: EdgeInsert, id: Id): RelationshipRow {
    RelationshipRow(id, e.edge.fromId, e.edge.toId, e.edge.kind)
  }

  /** Every relationship the action reports as created touches the member. */
  lemma CreatedRelationshipsTouchMember(familyId: Id, data: AddMemberData, created: Result<Id, string>,
                                        i: nat, generatedId: Id)
    requires AddFamilyMember(familyId, data, created).Planned?
    requires i < |AddFamilyMember(familyId, data, created).plan.edges|
    ensures var plan := AddFamilyMember(familyId, data, created).plan;
            Touches(MapRelationshipToUI(StoredRelationship(plan.edges[i], generatedId)), plan.memberId)
  {
  }

  /** An inserted relationship, stored and read back through
      `mapRelationshipToUI`, still says which relation word it was made for:
      read from the member's side it gives the word's role and the relative. */
  lemma InsertedEdgeReadsBack(familyId: Id, requests: seq<RelationRequest>, memberId: Id,
                              i: nat, generatedId: Id)
    requires memberId != "" && i < |requests|
    requires requests[i].relativeId != memberId
    ensures var e := EdgeInserts(familyId, requests, memberId)[i];
            var r := MapRelationshipToUI(StoredRelationship(e, generatedId));
            r.id == generatedId &&
            RoleOf(EdgeSpec(r.fromId, r.toId, r.kind), memberId) ==
              Some((ServerRole(requests[i].relationType), requests[i].relativeId))
  {
    var e := EdgeInserts(familyId, requests, memberId)[i];
    EdgeRoleRoundTrip(ServerRole(requests[i].relationType), requests[i].relativeId, memberId, e.edge);
  }
}
