/** The records shared by the web application (packages/core/src/types.ts):
    family members and the edges between them, chat messages and
    conversations, and feed posts with their media. Identifiers and
    ISO-8601 timestamps are plain strings. */
module CoreTypes {
  import opened Wrappers
  import opened Text

  type Id = string

  /** A person in the family tree. Every field but the id and the two names
      is optional, as in the TypeScript interface. */
  datatype Member = Member(
    id: Id,
    userId: Option<Id>,
    firstName: string,
    middleName: Option<string>,
    lastName: string,
    title: Option<string>,
    gender: Option<string>,
    birthDate: Option<string>,
    birthPlace: Option<string>,
    deathDate: Option<string>,
    isDeceased: Option<bool>,
    avatarUrl: Option<string>,
    bio: Option<string>,
    address: Option<string>,
    zipCode: Option<string>,
    city: Option<string>,
    email: Option<string>,
    phone: Option<string>,
    role: Option<string>)

  /** A member with only its identity and names set. */
  function NamedMember(id: Id, firstName: string, lastName: string): (m: Member)
    ensures m.id == id && m.firstName == firstName && m.lastName == lastName
    ensures m.title.None? && m.middleName.None? && m.birthDate.None? && m.deathDate.None?
  {
    Member(id, None, firstName, None, lastName, None, None, None, None, None, None,
           None, None, None, None, None, None, None, None)
  }

  /** One optional key of a `Partial<FamilyMember>` over an optional field:
      `None` when the key is absent, `Some(v)` when it is present, where `v`
      may itself be `None` (the key holds `undefined`). */
  type Field<T> = Option<Option<T>>

  /** `Partial<FamilyMember>`: each present key overrides, each absent one
      keeps what it is merged onto. */
  datatype Patch = Patch(
    id: Option<Id>,
    userId: Field<Id>,
    firstName: Option<string>,
    middleName: Field<string>,
    lastName: Option<string>,
    title: Field<string>,
    gender: Field<string>,
    birthDate: Field<string>,
    birthPlace: Field<string>,
    deathDate: Field<string>,
    isDeceased: Field<bool>,
    avatarUrl: Field<string>,
    bio: Field<string>,
    address: Field<string>,
    zipCode: Field<string>,
    city: Field<string>,
    email: Field<string>,
    phone: Field<string>,
    role: Field<string>)

  /** `{}`: the patch with no keys. */
  const EmptyPatch := Patch(None, None, None, None, None, None, None, None, None, None,
                            None, None, None, None, None, None, None, None, None)

  /** A present key wins over the current value. */
  function Over<T>(p: Option<T>, current: T): T {
    if p.Some? then p.value else current
  }

  /** `{ ...m, ...p }`: every key present in `p` replaces the member's field,
      every other field is kept. */
  function ApplyPatch(m: Member, p: Patch): (r: Member)
    ensures p == EmptyPatch ==> r == m
  {
    Member(
      Over(p.id, m.id), Over(p.userId, m.userId), Over(p.firstName, m.firstName),
      Over(p.middleName, m.middleName), Over(p.lastName, m.lastName),
      Over(p.title, m.title), Over(p.gender, m.gender),
      Over(p.birthDate, m.birthDate), Over(p.birthPlace, m.birthPlace),
      Over(p.deathDate, m.deathDate), Over(p.isDeceased, m.isDeceased),
      Over(p.avatarUrl, m.avatarUrl), Over(p.bio, m.bio),
      Over(p.address, m.address), Over(p.zipCode, m.zipCode),
      Over(p.city, m.city), Over(p.email, m.email), Over(p.phone, m.phone),
      Over(p.role, m.role))
  }

  /** A whole member seen as a partial one: every key is present. */
  function ToPatch(m: Member): Patch {
    Patch(
      Some(m.id), Some(m.userId), Some(m.firstName), Some(m.middleName), Some(m.lastName),
      Some(m.title), Some(m.gender), Some(m.birthDate), Some(m.birthPlace), Some(m.deathDate),
      Some(m.isDeceased), Some(m.avatarUrl), Some(m.bio), Some(m.address), Some(m.zipCode),
      Some(m.city), Some(m.email), Some(m.phone), Some(m.role))
  }

  /** Spreading a whole member over any member yields that member. */
  lemma ApplyOwnPatch(base: Member, m: Member)
    ensures ApplyPatch(base, ToPatch(m)) == m
  {
  }

  /** A stored edge: `parent` runs from the parent to the child, `spouse` and
      `sibling` are symmetric in meaning but stored with a fixed direction.
      `child` exists in the type but nothing in the model stores it. */
  datatype RelKind = Parent | Child | Spouse | Sibling

  datatype Relationship = Relationship(id: Id, fromId: Id, toId: Id, kind: RelKind)

  /** The relationship touches member `id` at either end. */
  predicate Touches(r: Relationship, id: Id) {
    r.fromId == id || r.toId == id
  }

  /** Every relationship endpoint is the id of a member: no dangling edges. */
  ghost predicate ReferentiallyClosed(members: seq<Member>, relationships: seq<Relationship>) {
    forall r :: r in relationships ==>
      (exists m :: m in members && m.id == r.fromId) &&
      (exists m :: m in members && m.id == r.toId)
  }

  datatype Message = Message(
    id: Id, conversationId: Option<Id>, senderId: Id, content: string,
    timestamp: string, read: bool)

  datatype Conversation = Conversation(
    id: Id, familyId: Option<Id>, isGroup: Option<bool>, name: Option<string>,
    participantIds: seq<Id>, messages: seq<Message>, updatedAt: string)

  datatype MediaTag = MediaTag(x: real, y: real, userId: Id)

  datatype MediaKind = Image | Video

  datatype PostMedia = PostMedia(kind: MediaKind, url: string, tags: Option<seq<MediaTag>>)

  datatype Comment = Comment(
    id: Id, postId: Option<Id>, authorId: Id, content: string, timestamp: string,
    author: Option<Member>)

  datatype Post = Post(
    id: Id, familyId: Option<Id>, authorId: Id, title: Option<string>, content: string,
    imageUrl: Option<string>, media: Option<seq<PostMedia>>, location: Option<string>,
    timestamp: string, author: Option<Member>, likes: seq<Id>, comments: seq<Comment>)

  /** A linked `profiles` row as the queries select it. */
  datatype Profile = Profile(
    id: Option<Id>, fullName: Option<string>, avatarUrl: Option<string>, email: Option<string>)

  // ---------------------------------------------------------------------
  // Database rows as the queries return them

  /** A `family_members` row with its linked profile (absent when no user is
      linked or the query did not join it). */
  datatype MemberRow = MemberRow(
    id: Id,
    userId: Option<Id>,
    firstName: Option<string>,
    lastName: Option<string>,
    middleName: Option<string>,
    role: Option<string>,
    avatarUrl: Option<string>,
    gender: Option<string>,
    birthDate: Option<string>,
    deathDate: Option<string>,
    birthPlace: Option<string>,
    isDeceased: Option<bool>,
    address: Option<string>,
    city: Option<string>,
    zipCode: Option<string>,
    email: Option<string>,
    phone: Option<string>,
    title: Option<string>,
    profile: Option<Profile>)

  /** A `relationships` row. */
  datatype RelationshipRow = RelationshipRow(id: Id, fromId: Id, toId: Id, kind: RelKind)

  /** `profile?.full_name?.split(" ")[0]`. */
  function ProfileFirstName(profile: Option<Profile>): (r: Option<string>)
    ensures r.Some? <==> profile.Some? && profile.value.fullName.Some?
    ensures r.Some? ==> ' ' !in r.value
  {
    if profile.Some? && profile.value.fullName.Some? then
      FirstPartSplitsAtFirstSeparator(profile.value.fullName.value, ' ');
      Some(FirstPart(profile.value.fullName.value, ' '))
    else None
  }

  /** `profile?.full_name?.split(" ").slice(1).join(" ")`. */
  function ProfileLastName(profile: Option<Profile>): (r: Option<string>)
    ensures r.Some? <==> profile.Some? && profile.value.fullName.Some?
  {
    if profile.Some? && profile.value.fullName.Some?
    then Some(AfterFirstPart(profile.value.fullName.value, ' '))
    else None
  }

  /** The two profile-derived names reassemble the full name whenever it
      contains a space. */
  lemma ProfileNamesReassemble(profile: Option<Profile>)
    requires profile.Some? && profile.value.fullName.Some?
    requires ' ' in profile.value.fullName.value
    ensures ProfileFirstName(profile).value + " " + ProfileLastName(profile).value
            == profile.value.fullName.value
  {
    FirstPartSplitsAtFirstSeparator(profile.value.fullName.value, ' ');
  }
}
