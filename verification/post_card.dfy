/** The post card (apps/web/components/feed/post-card.tsx): the local like
    toggle, the relative time label and the media collage layout. */
module PostCard {
  import opened Wrappers
  import opened CoreTypes

  // ---------------------------------------------------------------------
  // Likes

  /** The card's `liked` / `likesCount` state. */
  datatype LikeState = LikeState(liked: bool, count: int)

  /** A fresh card: not liked, counting the post's stored likes. */
  function InitialLikes(p: Post): (s: LikeState)
    ensures !s.liked && s.count == |p.likes|
  {
    LikeState(false, |p.likes|)
  }

  /** `handleLike`: flips `liked` and moves the count one step with it. */
  function ToggleLike(s: LikeState): (t: LikeState)
    ensures t.liked == !s.liked
    ensures t.count == if s.liked then s.count - 1 else s.count + 1
  {
    if s.liked then LikeState(false, s.count - 1) else LikeState(true, s.count + 1)
  }

  /** Liking and unliking is an involution. */
  lemma ToggleTwice(s: LikeState)
    ensures ToggleLike(ToggleLike(s)) == s
  {
  }

  /** `n` presses of the heart button. */
  function Presses(s: LikeState, n: nat): (t: LikeState)
    decreases n
  {
    if n == 0 then s else Presses(ToggleLike(s), n - 1)
  }

  /** However often the button is pressed, the count shown is the stored
      count plus one exactly when the card is currently liked, and the card
      is liked after an odd number of presses. */
  lemma {:induction false} PressesKeepCount(p: Post, n: nat)
    ensures var t := Presses(InitialLikes(p), n);
            t.count == |p.likes| + (if t.liked then 1 else 0) &&
            t.liked == (n % 2 == 1)
  {
    PressesFrom(|p.likes|, false, n);
  }

  lemma {:induction false} PressesFrom(base: int, liked: bool, n: nat)
    ensures var t := Presses(LikeState(liked, base + (if liked then 1 else 0)), n);
            t.count == base + (if t.liked then 1 else 0) &&
            t.liked == (liked != (n % 2 == 1))
    decreases n
  {
    if n > 0 {
      var s := LikeState(liked, base + (if liked then 1 else 0));
      assert ToggleLike(s) == LikeState(!liked, base + (if !liked then 1 else 0));
      PressesFrom(base, !liked, n - 1);
    }
  }

  // ---------------------------------------------------------------------
  // timeAgo

  /** The label `timeAgo` renders, before it is turned into text. */
  datatype Age = JustNow | MinutesAgo(minutes: int) | HoursAgo(hours: int) | OnDate

  /** Whole seconds between two instants given in milliseconds:
      `Math.floor(ms / 1000)`. */
  function DiffSeconds(nowMs: int, thenMs: int): (d: int)
    ensures d * 1000 <= nowMs - thenMs < d * 1000 + 1000
  {
    (nowMs - thenMs) / 1000
  }

  /** `timeAgo` on a difference of `d` whole seconds: under a minute "just
      now", under an hour whole minutes, under a day whole hours, and the
      calendar date otherwise. A timestamp in the future counts as just now. */
  function AgeOf(d: int): (a: Age)
    ensures a == JustNow <==> d < 60
    ensures a.MinutesAgo? <==> 60 <= d < 3600
    ensures a.MinutesAgo? ==> 1 <= a.minutes <= 59 && a.minutes * 60 <= d < a.minutes * 60 + 60
    ensures a.HoursAgo? <==> 3600 <= d < 86400
    ensures a.HoursAgo? ==> 1 <= a.hours <= 23 && a.hours * 3600 <= d < a.hours * 3600 + 3600
    ensures a == OnDate <==> 86400 <= d
  {
    if d < 60 then JustNow
    else if d < 3600 then MinutesAgo(d / 60)
    else if d < 86400 then HoursAgo(d / 3600)
    else OnDate
  }

  /** Coarseness of a label, for comparing labels of different ages. */
  function Rank(a: Age): nat {
    match a
    case JustNow => 0
    case MinutesAgo(_) => 1
    case HoursAgo(_) => 2
    case OnDate => 3
  }

  /** An older post never gets a fresher label: labels are monotone in the
      age, and so are the minutes and hours they show. */
  lemma AgeMonotone(d1: int, d2: int)
    requires d1 <= d2
    ensures Rank(AgeOf(d1)) <= Rank(AgeOf(d2))
    ensures AgeOf(d1).MinutesAgo? && AgeOf(d2).MinutesAgo? ==> AgeOf(d1).minutes <= AgeOf(d2).minutes
    ensures AgeOf(d1).HoursAgo? && AgeOf(d2).HoursAgo? ==> AgeOf(d1).hours <= AgeOf(d2).hours
  {
  }

  // ---------------------------------------------------------------------
  // The media collage

  /** One rendered image of the collage. */
  datatype Tile = Tile(url: string, spansTwoColumns: bool, naturalAspect: bool, overflow: Option<int>)

  /** The collage grid: its column count and its tiles. */
  datatype Gallery = Gallery(columns: nat, tiles: seq<Tile>)

  function Min(a: int, b: int): int { if a <= b then a else b }

  /** The tile for `media[idx]` of a post with `count` media items. */
  function TileFor(m: PostMedia, idx: nat, count: nat): Tile {
    Tile(m.url, count == 3 && idx == 0, count == 1, if count > 4 && idx == 3 then Some(count - 4) else None)
  }

  /** The collage of a post: none without media; otherwise one column for a
      single item and two for more, at most the first four items, the first
      spanning both columns when there are exactly three, a lone item in its
      natural aspect, and the fourth tile covered by "+n" for the n items not
      shown. */
  function Collage(media: Option<seq<PostMedia>>): (g: Option<Gallery>)
    ensures g.None? <==> media.None? || |media.value| == 0
    ensures g.Some? ==>
              var n := |media.value|;
              var ts := g.value.tiles;
              (g.value.columns == if n == 1 then 1 else 2) &&
              |ts| == Min(n, 4) &&
              (forall i :: 0 <= i < |ts| ==> ts[i].url == media.value[i].url) &&
              (forall i :: 0 <= i < |ts| ==> (ts[i].spansTwoColumns <==> n == 3 && i == 0)) &&
              (forall i :: 0 <= i < |ts| ==> (ts[i].naturalAspect <==> n == 1)) &&
              (forall i :: 0 <= i < |ts| ==> (ts[i].overflow.Some? <==> n > 4 && i == 3))
  {
    if media.None? || |media.value| == 0 then None
    else
      var n := |media.value|;
      var shown := media.value[..Min(n, 4)];
      Some(Gallery(if n == 1 then 1 else 2, seq(|shown|, i requires 0 <= i < |shown| => TileFor(shown[i], i, n))))
  }

  /** What the "+n" badge adds up to: the tiles shown plus the number on the
      badge account for every media item exactly once. */
  function Accounted(g: Gallery): int {
    |g.tiles| + (if |g.tiles| == 4 && g.tiles[3].overflow.Some? then g.tiles[3].overflow.value else 0)
  }

  lemma CollageAccountsForAll(media: seq<PostMedia>)
    requires |media| > 0
    ensures Collage(Some(media)).Some?
    ensures Accounted(Collage(Some(media)).value) == |media|
  {
  }
}
