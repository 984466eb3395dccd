/** The feed's server actions (apps/web/components/feed/actions.ts): turning a
    `posts` row with its joined author and comments into a `Post`, and the row
    `createPost` stores. The database and the session are parameters. */
module FeedActions {
  import opened Wrappers
  import opened Text
  import opened CoreTypes

  /** A joined `profiles` row: `id, full_name, avatar_url`. */
  datatype AuthorRow = AuthorRow(id: Id, fullName: string, avatarUrl: Option<string>)

  /** A `comments` row with its joined author. */
  datatype CommentRow = CommentRow(
    id: Id, postId: Id, authorId: Id, content: string, createdAt: string, author: Option<AuthorRow>)

  /** A `posts` row with its joined author and comments. */
  datatype PostRow = PostRow(
    id: Id, familyId: Id, authorId: Id, content: string, imageUrl: Option<string>,
    media: Option<seq<PostMedia>>, createdAt: string,
    author: Option<AuthorRow>, comments: Option<seq<CommentRow>>)

  /** A joined profile as a family member: the first word of the full name
      and the remaining words, the profile id doubling as the user id. */
  function MapAuthor(a: AuthorRow): (m: Member)
    ensures m.id == a.id && m.userId == Some(a.id)
    ensures ' ' !in m.firstName
    ensures ' ' in a.fullName ==> m.firstName + " " + m.lastName == a.fullName
    ensures ' ' !in a.fullName ==> m.firstName == a.fullName && m.lastName == ""
    ensures m.role == Some("member") && m.avatarUrl == a.avatarUrl
    ensures m == NamedMember(m.id, m.firstName, m.lastName)
                   .(userId := m.userId, role := m.role, avatarUrl := m.avatarUrl)
  {
    FirstPartSplitsAtFirstSeparator(a.fullName, ' ');
    NamedMember(a.id, FirstPart(a.fullName, ' '), AfterFirstPart(a.fullName, ' '))
      .(userId := Some(a.id), role := Some("member"), avatarUrl := a.avatarUrl)
  }

  function MapComment(c: CommentRow): (r: Comment)
    ensures r.id == c.id && r.postId == Some(c.postId) && r.authorId == c.authorId
    ensures r.content == c.content && r.timestamp == c.createdAt
    ensures r.author.Some? <==> c.author.Some?
    ensures c.author.Some? ==> r.author == Some(MapAuthor(c.author.value))
  {
    Comment(c.id, Some(c.postId), c.authorId, c.content, c.createdAt,
            if c.author.Some? then Some(MapAuthor(c.author.value)) else None)
  }

  /** The media a post shows: the stored list when non-empty, otherwise a
      single image made from a legacy `image_url`, otherwise none. */
  function EffectiveMedia(row: PostRow): (m: seq<PostMedia>)
    ensures row.media.Some? && |row.media.value| > 0 ==> m == row.media.value
    ensures !(row.media.Some? && |row.media.value| > 0) && Truthy(row.imageUrl) ==>
              m == [PostMedia(Image, row.imageUrl.value, None)]
    ensures !(row.media.Some? && |row.media.value| > 0) && !Truthy(row.imageUrl) ==> m == []
  {
    if row.media.Some? && |row.media.value| > 0 then row.media.value
    else if Truthy(row.imageUrl) then [PostMedia(Image, row.imageUrl.value, None)]
    else []
  }

  /** `mapPostToUI`: no title, location or likes; comments one-to-one and in
      order (none when the join is missing). */
  function MapPostToUI(row: PostRow): (p: Post)
    ensures p.id == row.id && p.familyId == Some(row.familyId) && p.authorId == row.authorId
    ensures p.content == row.content && p.imageUrl == row.imageUrl && p.timestamp == row.createdAt
    ensures p.media == Some(EffectiveMedia(row))
    ensures p.likes == []
    ensures p.title.None? && p.location.None?
    ensures p.author.Some? <==> row.author.Some?
    ensures row.author.Some? ==> p.author == Some(MapAuthor(row.author.value))
    ensures row.comments.None? ==> p.comments == []
    ensures row.comments.Some? ==>
              |p.comments| == |row.comments.value| &&
              forall i :: 0 <= i < |p.comments| ==> p.comments[i] == MapComment(row.comments.value[i])
  {
    var comments := if row.comments.Some? then
                      seq(|row.comments.value|, i requires 0 <= i < |row.comments.value| => MapComment(row.comments.value[i]))
                    else [];
    Post(row.id, Some(row.familyId), row.authorId, None, row.content, row.imageUrl,
         Some(EffectiveMedia(row)), None, row.createdAt,
         if row.author.Some? then Some(MapAuthor(row.author.value)) else None,
         [], comments)
  }

  // ---------------------------------------------------------------------
  // createPost

  /** The legacy `image_url` column: the first media item's url, or null. */
  function ImageUrlFor(media: seq<PostMedia>): (u: Option<string>)
    ensures u.None? <==> |media| == 0
    ensures u.Some? ==> u.value == media[0].url
  {
    if |media| > 0 then Some(media[0].url) else None
  }

  /** The fields `createPost` inserts. */
  datatype NewPostRow = NewPostRow(familyId: Id, authorId: Id, content: string, imageUrl: Option<string>, media: seq<PostMedia>)

  /** `createPost` for the signed-in `user` (absent when nobody is signed
      in): the row to insert, or the error it throws. */
  function CreatePost(familyId: Id, content: string, media: seq<PostMedia>, user: Option<Id>): (r: Result<NewPostRow, string>)
    ensures r.Failure? <==> user.None?
    ensures r.Failure? ==> r.error == "Not authenticated"
    ensures r.Success? ==>
              r.value.familyId == familyId && r.value.authorId == user.value &&
              r.value.content == content && r.value.media == media &&
              r.value.imageUrl == ImageUrlFor(media)
  {
    if user.None? then Failure("Not authenticated")
    else Success(NewPostRow(familyId, user.value, content, ImageUrlFor(media), media))
  }

  /** The inserted row as `getPosts` later reads it back, with the id and
      creation time the database assigns and no comments yet. */
  function Stored(n: NewPostRow, id: Id, createdAt: string, author: Option<AuthorRow>): PostRow {
    PostRow(id, n.familyId, n.authorId, n.content, n.imageUrl, Some(n.media), createdAt, author, None)
  }

  /** A post created with some media reads back with exactly that media, and
      one created without media reads back with none: the legacy
      `image_url` fallback never invents or loses an image. */
  lemma CreatedPostReadsBack(familyId: Id, content: string, media: seq<PostMedia>, user: Id,
                             id: Id, createdAt: string, author: Option<AuthorRow>)
    ensures var n := CreatePost(familyId, content, media, Some(user)).value;
            var p := MapPostToUI(Stored(n, id, createdAt, author));
            p.media == Some(media) && p.content == content && p.authorId == user &&
            p.familyId == Some(familyId) && p.comments == []
  {
  }

  /** A legacy row with only `image_url` shows that one image. */
  lemma LegacyImageShown(row: PostRow)
    requires row.media.None? || row.media == Some([])
    requires row.imageUrl.Some? && row.imageUrl.value != ""
    ensures MapPostToUI(row).media == Some([PostMedia(Image, row.imageUrl.value, None)])
  {
  }
}
