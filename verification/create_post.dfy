/** The post composer (apps/web/components/feed/create-post.tsx): the
    Markdown-style formatting buttons, the post guard and reset, photo tags
    and removing a preview. The textarea's selection is passed in. */
module CreatePost {
  import opened Wrappers
  import opened Text
  import opened CoreTypes

  /** The composer's React state. */
  datatype Composer = Composer(
    expanded: bool, title: string, content: string, location: string,
    media: seq<PostMedia>, taggingIndex: Option<nat>)

  /** The arguments of `onPost`. */
  datatype PostRequest = PostRequest(content: string, title: string, media: seq<PostMedia>, location: string)

  // ---------------------------------------------------------------------
  // formatText

  /** The marker a toolbar command wraps the selection in; unknown commands
      wrap it in nothing. */
  function Marker(command: string): (m: string)
    ensures command == "bold" ==> m == "**"
    ensures command == "italic" ==> m == "*"
    ensures command == "underline" ==> m == "__"
    ensures command !in {"bold", "italic", "underline"} ==> m == ""
  {
    if command == "bold" then "**"
    else if command == "italic" then "*"
    else if command == "underline" then "__"
    else ""
  }

  /** `formatText(command)` on `content` with the selection `start..end`:
      the text before and after the selection is kept and the selection is
      wrapped in the command's marker on both sides. Indices follow
      `substring`'s clamping; the textarea always supplies an ordered,
      in-range selection. */
  function FormatText(content: string, start: int, end: int, command: string): (r: string)
    ensures 0 <= start <= end <= |content| ==>
              var m := Marker(command);
              |r| == |content| + 2 * |m| &&
              r[..start] == content[..start] &&
              r[|r| - (|content| - end)..] == content[end..] &&
              r[start..|r| - (|content| - end)] == m + content[start..end] + m
  {
    var selected := Substring(content, start, end);
    var formatted := Marker(command) + selected + Marker(command);
    Substring(content, 0, start) + formatted + Substring(content, end, |content|)
  }

  /** Slicing a five-part concatenation back into its parts. */
  lemma SliceGlued(a: string, m: string, b: string, c: string)
    ensures var r := a + m + b + m + c;
            r[..|a|] == a && r[|a| + |m|..|a| + |m| + |b|] == b && r[|r| - |c|..] == c
  {
    var r := a + m + b + m + c;
    assert r == a + (m + b + m + c);
    assert r == (a + m) + b + (m + c);
    assert r == (a + m + b + m) + c;
  }

  /** For an ordered, in-range selection, the formatted text is the five
      pieces: before, marker, selection, marker, after. */
  lemma FormatTextGlued(content: string, start: int, end: int, command: string)
    requires 0 <= start <= end <= |content|
    ensures var m := Marker(command);
            FormatText(content, start, end, command)
            == content[..start] + m + content[start..end] + m + content[end..]
  {
    assert Substring(content, start, end) == content[start..end];
    assert Substring(content, 0, start) == content[..start];
    assert Substring(content, end, |content|) == content[end..];
  }

  /** The three pieces of a text around a selection make up the text. */
  lemma PiecesMakeText(content: string, start: int, end: int)
    requires 0 <= start <= end <= |content|
    ensures content[..start] + content[start..end] + content[end..] == content
  {
    assert content[..end] == content[..start] + content[start..end];
    assert content == content[..end] + content[end..];
  }

  /** Removing the markers again recovers the original text: formatting loses
      nothing. */
  lemma FormatTextRoundTrip(content: string, start: int, end: int, command: string)
    requires 0 <= start <= end <= |content|
    ensures var r := FormatText(content, start, end, command);
            var k := |Marker(command)|;
            r[..start] + r[start + k..end + k] + r[end + 2 * k..] == content
  {
    var m := Marker(command);
    var a, b, c := content[..start], content[start..end], content[end..];
    FormatTextGlued(content, start, end, command);
    StripMarkers(a, m, b, c);
    PiecesMakeText(content, start, end);
  }

  /** Cutting both copies of `m` out of `a + m + b + m + c`. */
  lemma StripMarkers(a: string, m: string, b: string, c: string)
    ensures var r := a + m + b + m + c;
            r[..|a|] + r[|a| + |m|..|a| + |b| + |m|] + r[|a| + |b| + 2 * |m|..] == a + b + c
  {
    SliceGlued(a, m, b, c);
  }


  // ---------------------------------------------------------------------
  // handlePost

  /** `handlePost`: nothing happens for an all-white-space text without
      media; otherwise the post is handed on and the composer is emptied and
      collapsed. The tag picker's state is not touched. */
  function HandlePost(s: Composer): (r: (Composer, Option<PostRequest>))
    ensures IsBlank(s.content) && |s.media| == 0 ==> r == (s, None)
    ensures !(IsBlank(s.content) && |s.media| == 0) ==>
              r.1 == Some(PostRequest(s.content, s.title, s.media, s.location)) &&
              r.0 == Composer(false, "", "", "", [], s.taggingIndex)
  {
    TrimEmptyIffBlank(s.content);
    if Trim(s.content) == "" && |s.media| == 0 then (s, None)
    else
      (s.(title := "", content := "", location := "", media := [], expanded := false),
       Some(PostRequest(s.content, s.title, s.media, s.location)))
  }

  /** A post just made cannot be made again: the emptied composer refuses. */
  lemma PostingTwiceIsRefused(s: Composer)
    requires !IsBlank(s.content) || |s.media| > 0
    ensures HandlePost(s).1.Some? && HandlePost(HandlePost(s).0).1.None?
  {
  }

  // ---------------------------------------------------------------------
  // handleAddTag / remove preview

  /** `handleAddTag(index, x, y, userId)`: the tag is appended to that media
      item's tags (created empty when missing) and the picker closes. An index
      with no media item fails, as `newMedia[index].tags` throws. */
  function AddTag(s: Composer, index: int, x: real, y: real, userId: Id): (r: Option<Composer>)
    ensures r.Some? <==> 0 <= index < |s.media|
    ensures r.Some? ==>
              var t := r.value;
              |t.media| == |s.media| && t.taggingIndex.None? &&
              t.media[index].kind == s.media[index].kind && t.media[index].url == s.media[index].url &&
              t.media[index].tags == Some(s.media[index].tags.GetOr([]) + [MediaTag(x, y, userId)]) &&
              (forall i :: 0 <= i < |s.media| && i != index ==> t.media[i] == s.media[i]) &&
              t.content == s.content && t.title == s.title && t.location == s.location
    ensures r.Some? ==> r.value == s.(media := r.value.media, taggingIndex := None)
  {
    if 0 <= index < |s.media| then
      var item := s.media[index];
      var tagged := item.(tags := Some(item.tags.GetOr([]) + [MediaTag(x, y, userId)]));
      Some(s.(media := s.media[index := tagged], taggingIndex := None))
    else None
  }

  /** The number of tags on one item; an item without a tag list has none. */
  function TagCount(m: PostMedia): nat {
    |m.tags.GetOr([])|
  }

  /** The number of tags on all items. */
  function TotalTags(media: seq<PostMedia>): nat
    decreases |media|
  {
    if |media| == 0 then 0 else TagCount(media[0]) + TotalTags(media[1..])
  }

  /** Replacing one item changes the total by the difference at that item. */
  lemma {:induction false} TotalTagsOneChanged(a: seq<PostMedia>, b: seq<PostMedia>, idx: int)
    requires |a| == |b| && 0 <= idx < |a|
    requires forall i :: 0 <= i < |a| && i != idx ==> a[i] == b[i]
    ensures TotalTags(b) + TagCount(a[idx]) == TotalTags(a) + TagCount(b[idx])
    decreases |a|
  {
    if idx == 0 {
      assert a[1..] == b[1..] by {
        forall i | 0 <= i < |a| - 1 ensures a[1..][i] == b[1..][i] {
          assert a[i + 1] == b[i + 1];
        }
      }
    } else {
      TotalTagsOneChanged(a[1..], b[1..], idx - 1);
    }
  }

  /** Tagging adds exactly one tag to the post as a whole. */
  lemma AddTagAddsOneTag(s: Composer, index: int, x: real, y: real, userId: Id)
    requires 0 <= index < |s.media|
    ensures TotalTags(AddTag(s, index, x, y, userId).value.media) == TotalTags(s.media) + 1
  {
    var t := AddTag(s, index, x, y, userId).value;
    TotalTagsOneChanged(s.media, t.media, index);
  }

  /** `handleImageUpload` once the file has been read: the image, untagged,
      goes after the others. */
  function AddImage(s: Composer, url: string): (t: Composer)
    ensures |t.media| == |s.media| + 1
    ensures t.media[..|s.media|] == s.media && t.media[|s.media|] == PostMedia(Image, url, Some([]))
    ensures t.content == s.content && t.title == s.title && t.location == s.location
    ensures t == s.(media := t.media)
  {
    s.(media := s.media + [PostMedia(Image, url, Some([]))])
  }

  /** `media.filter((_, i) => i !== idx)`, scanning from position `offset`. */
  function DropIndex(media: seq<PostMedia>, idx: int, offset: nat): (r: seq<PostMedia>)
    ensures idx < offset || idx >= offset + |media| ==> r == media
    ensures offset <= idx < offset + |media| ==>
              |r| == |media| - 1 &&
              (forall i :: 0 <= i < idx - offset ==> r[i] == media[i]) &&
              (forall i :: idx - offset <= i < |r| ==> r[i] == media[i + 1])
    decreases |media|
  {
    if |media| == 0 then []
    else (if offset == idx then [] else [media[0]]) + DropIndex(media[1..], idx, offset + 1)
  }

  /** The preview's remove button: drops item `idx`, keeping the rest in order. */
  function RemoveMedia(s: Composer, idx: int): (t: Composer)
    ensures 0 <= idx < |s.media| ==>
              t.media == s.media[..idx] + s.media[idx + 1..]
    ensures !(0 <= idx < |s.media|) ==> t == s
    ensures t.content == s.content && t.title == s.title
    ensures t == s.(media := t.media)
  {
    var r := DropIndex(s.media, idx, 0);
    assert 0 <= idx < |s.media| ==> r == s.media[..idx] + s.media[idx + 1..];
    s.(media := r)
  }

  /** Removing the image just added undoes the upload. */
  lemma RemoveUndoesAdd(s: Composer, url: string)
    ensures RemoveMedia(AddImage(s, url), |s.media|) == s
  {
    var t := AddImage(s, url);
    assert t.media[..|s.media|] + t.media[|s.media| + 1..] == s.media;
  }
}
