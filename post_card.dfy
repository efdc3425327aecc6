/** PostCard: one post of the gallery. Its like and follow handlers issue exactly one
    mutation for a logged-in viewer; the rest is which label, button and layout it shows. */
module PostView {
  import opened Wrappers
  import opened Backend
  import opened Text
  import opened Session
  import opened Linkify
  import opened Queries

  /** `userPrincipal?.toString() === post.author.toString()`: false for a logged-out viewer. */
  predicate IsOwnPost(identity: Option<Principal>, author: Principal) {
    identity == Some(author)
  }

  /** The Follow button is rendered for a logged-in viewer on someone else's post. */
  predicate FollowButtonShown(identity: Option<Principal>, author: Principal) {
    !IsOwnPost(identity, author) && identity.Some?
  }

  lemma FollowButtonShownIff(identity: Option<Principal>, author: Principal)
    ensures FollowButtonShown(identity, author) <==> exists p :: identity == Some(p) && p != author
  {
    if FollowButtonShown(identity, author) {
      var p := identity.value;
      assert identity == Some(p) && p != author;
    }
  }

  const LogInToLike := "Please log in to like posts"

  const LogInToFollow := "Please log in to follow users"

  /** `handleLike`: refused with a toast for a logged-out viewer, otherwise `likePost(post.id)`. */
  function LikeRequest(identity: Option<Principal>, post: NftPost): (r: Result<Mutation, string>)
    ensures r.Err? <==> identity.None?
    ensures r.Err? ==> r.error == LogInToLike
    ensures r.Ok? ==> r.value.LikePost? && r.value.postId == post.id
  {
    if identity.None? then Err(LogInToLike) else Ok(LikePost(post.id))
  }

  /** `handleFollowToggle`: refused with a toast for a logged-out viewer, otherwise
      `unfollowUser(post.author)` when the viewer follows the author and
      `followUser(post.author)` when not (an undefined `isFollowing` counts as not). */
  function FollowRequest(identity: Option<Principal>, post: NftPost, isFollowing: Option<bool>): (r: Result<Mutation, string>)
    ensures r.Err? <==> identity.None?
    ensures r.Err? ==> r.error == LogInToFollow
  {
    if identity.None? then Err(LogInToFollow)
    else if isFollowing.GetOr(false) then Ok(UnfollowUser(post.author))
    else Ok(FollowUser(post.author))
  }

  /** A like that goes through marks stale the like count of the liked post and every
      liked flag of that post, and nothing else: the likes of any other post stay cached. */
  lemma LikeRefreshesOnlyThisPost(identity: Option<Principal>, post: NftPost, entries: map<QueryKey, Entry>, q: Query)
    requires LikeRequest(identity, post).Ok?
    requires KeyOf(q) in entries
    ensures MarkAllStale(entries, Invalidations(LikeRequest(identity, post).value))[KeyOf(q)].stale
      <== (q.PostLikes? || q.HasUserLiked?) && q.postId == post.id
    ensures MarkAllStale(entries, Invalidations(LikeRequest(identity, post).value))[KeyOf(q)] == entries[KeyOf(q)]
      <== !((q.PostLikes? || q.HasUserLiked?) && q.postId == post.id)
  {
    SettledWriteRefreshes(entries, LikeRequest(identity, post).value, q);
  }

  /** The toggle always targets the post's author and flips the relation the viewer sees:
      it unfollows exactly when the button reads "Following". Either way the
      is-following flag of the author is read again once it succeeds. */
  lemma FollowToggleFlips(identity: Option<Principal>, post: NftPost, isFollowing: Option<bool>, entries: map<QueryKey, Entry>)
    requires FollowRequest(identity, post, isFollowing).Ok?
    ensures var m := FollowRequest(identity, post, isFollowing).value;
      (m.UnfollowUser? || m.FollowUser?) && m.target == post.author
      && (m.UnfollowUser? <==> FollowLabel(false, false, isFollowing) == "Following")
    ensures var m := FollowRequest(identity, post, isFollowing).value;
      KeyOf(IsFollowing(Some(post.author))) in entries ==>
        MarkAllStale(entries, Invalidations(m))[KeyOf(IsFollowing(Some(post.author)))].stale
  {
    SettledWriteRefreshes(entries, FollowRequest(identity, post, isFollowing).value, IsFollowing(Some(post.author)));
  }

  /** The follow button's text: "..." while either mutation is pending. */
  function FollowLabel(followPending: bool, unfollowPending: bool, isFollowing: Option<bool>): string {
    if followPending || unfollowPending then "..."
    else if isFollowing.GetOr(false) then "Following"
    else "Follow"
  }

  /** The largest magnitude below which `Number(likeCount)` is the exact count (2^53);
      past it the label shows a rounded number. */
  const MaxExactCount := 0x20_0000_0000_0000

  predicate ExactCount(n: int) {
    -MaxExactCount <= n <= MaxExactCount
  }

  /** `{n} {n === 1 ? 'Like' : 'Likes'}` and the same for comments. */
  function LikesLabel(likeCount: Option<int>): string {
    var n := likeCount.GetOr(0);
    IntToString(n) + " " + (if n == 1 then "Like" else "Likes")
  }

  function CommentsLabel(post: NftPost): string {
    var n := |post.comments|;
    IntToString(n) + " " + (if n == 1 then "Comment" else "Comments")
  }

  /** The noun is singular exactly for a count of one: a label ends in "s" iff its count is
      not 1, and an unknown like count shows as "0 Likes". */
  lemma CountLabels(likeCount: Option<int>, post: NftPost)
    ensures likeCount.None? ==> LikesLabel(likeCount) == "0 Likes"
    ensures var l := LikesLabel(likeCount);
      |l| > 0 && (l[|l| - 1] == 's' <==> likeCount.GetOr(0) != 1)
    ensures var l := CommentsLabel(post);
      |l| > 0 && (l[|l| - 1] == 's' <==> |post.comments| != 1)
  {
    assert IntToString(0) == "0";
  }

  /** A likes label determines its count: distinct counts that `Number` shows exactly give
      distinct labels. */
  lemma LikesLabelInjective(m: int, n: int)
    requires ExactCount(m) && ExactCount(n)
    ensures LikesLabel(Some(m)) == LikesLabel(Some(n)) ==> m == n
  {
    if LikesLabel(Some(m)) == LikesLabel(Some(n)) {
      LabelDeterminesNumber(m, n);
      IntToStringInjective(m, n);
    }
  }

  lemma LabelDeterminesNumber(m: int, n: int)
    requires ExactCount(m) && ExactCount(n)
    requires LikesLabel(Some(m)) == LikesLabel(Some(n))
    ensures IntToString(m) == IntToString(n)
  {
    LabelNumber(m);
    LabelNumber(n);
    var a, b, l := IntToString(m), IntToString(n), LikesLabel(Some(m));
    assert |a| == |b|;
    assert a == l[..|a|];
  }

  /** The number at the head of a likes label, for a count `Number` shows exactly, is
      recovered from the label. */
  lemma LabelNumber(n: int)
    requires ExactCount(n)
    ensures LikesLabel(Some(n))[..|IntToString(n)|] == IntToString(n)
    ensures forall k :: 0 <= k < |IntToString(n)| ==> LikesLabel(Some(n))[k] != ' '
    ensures |IntToString(n)| < |LikesLabel(Some(n))| && LikesLabel(Some(n))[|IntToString(n)|] == ' '
  {
    DecimalHasNoSpace(n);
  }

  lemma DecimalHasNoSpace(n: int)
    ensures forall k :: 0 <= k < |IntToString(n)| ==> IntToString(n)[k] != ' '
  {
    DigitsHaveNoSpace(if n < 0 then -n else n);
  }

  lemma {:induction false} DigitsHaveNoSpace(n: nat)
    ensures forall k :: 0 <= k < |NatToDigits(n)| ==> NatToDigits(n)[k] != ' '
  {
    if n >= 10 {
      DigitsHaveNoSpace(n / 10);
    }
  }

  /** How the images are laid out: one image full width, any other number (none included)
      as a two-column grid with one cell per image in order, labelled "NFT 1", "NFT 2", … */
  datatype Cell = Cell(image: ExternalBlob, alt: string)

  datatype Layout = Single(image: ExternalBlob) | Grid(cells: seq<Cell>)

  function GridCells(images: seq<ExternalBlob>, from: nat): (cells: seq<Cell>)
    ensures |cells| == |images|
    ensures forall i :: 0 <= i < |images| ==> cells[i] == Cell(images[i], "NFT " + IntToString(from + i + 1))
  {
    if images == [] then [] else [Cell(images[0], "NFT " + IntToString(from + 1))] + GridCells(images[1..], from + 1)
  }

  function ImageLayout(post: NftPost): (l: Layout)
    ensures l.Single? <==> |post.images| == 1
    ensures l.Single? ==> l.image == post.images[0]
    ensures l.Grid? ==>
      |l.cells| == |post.images| && (forall i :: 0 <= i < |post.images| ==> l.cells[i].image == post.images[i])
  {
    if |post.images| == 1 then Single(post.images[0]) else Grid(GridCells(post.images, 0))
  }

  /** Every grid cell has its own label. */
  lemma GridLabelsDistinct(post: NftPost)
    requires ImageLayout(post).Grid?
    ensures forall i, j :: 0 <= i < j < |post.images| ==> ImageLayout(post).cells[i].alt != ImageLayout(post).cells[j].alt
  {
    var cells := ImageLayout(post).cells;
    forall i, j | 0 <= i < j < |post.images| ensures cells[i].alt != cells[j].alt {
      var a, b := IntToString(i + 1), IntToString(j + 1);
      if cells[i].alt == cells[j].alt {
        assert "NFT " + a == "NFT " + b;
        assert a == ("NFT " + a)[4..] && b == ("NFT " + b)[4..];
        IntToStringInjective(i + 1, j + 1);
      }
    }
  }

  /** The caption block: rendered (with its links) exactly when the description is not
      the empty string; a whitespace-only description is still rendered. */
  function Caption(post: NftPost): (c: Option<seq<Node>>)
    ensures c.Some? <==> post.metadata.description != ""
  {
    if post.metadata.description != "" then Some(Render(post.metadata.description)) else None
  }

  /** The caption shows the whole description, character for character. */
  lemma CaptionShowsDescription(post: NftPost)
    requires post.metadata.description != ""
    ensures Visible(Caption(post).value) == post.metadata.description
  {
    RenderLossless(post.metadata.description);
  }

  /** The author's name: their username, or 'User' while the profile is unknown or
      missing; never empty. */
  function AuthorName(authorProfile: Option<Option<UserProfile>>): (name: string)
    ensures name != []
    ensures authorProfile.None? || authorProfile.value.None? ==> name == "User"
    ensures (authorProfile.Some? && authorProfile.value.Some? && authorProfile.value.value.username != []) ==>
      name == authorProfile.value.value.username
  {
    DisplayName(authorProfile.GetOr(None))
  }

  /** The state a card keeps. */
  class Card {
    var showComments: bool

    constructor ()
      ensures !showComments
    {
      showComments := false;
    }

    /** The comments button; the comment section is rendered exactly while this is set. */
    method ToggleComments()
      modifies this
      ensures showComments == !old(showComments)
    {
      showComments := !showComments;
    }

    /** `handleLike` run to completion: the mutation settles through the shared cache and
        its error, already reported by the mutation, is swallowed. */
    method HandleLike(cache: QueryCache, identity: Option<Principal>, post: NftPost, hasActor: bool, backend: Outcome)
      returns (toast: Toast)
      modifies cache
      ensures identity.None? ==> toast == ErrorToast(LogInToLike) && cache.entries == old(cache.entries)
      ensures identity.Some? ==>
        var o := Settled(hasActor, backend);
        (o.Resolved? ==> cache.entries == MarkAllStale(old(cache.entries), Invalidations(LikePost(post.id))) && toast == NoToast)
        && (o.Rejected? ==> cache.entries == old(cache.entries) && toast == ErrorToast(FailurePrefix(LikePost(post.id)) + o.message))
    {
      var request := LikeRequest(identity, post);
      if request.Err? {
        return ErrorToast(request.error);
      }
      var _, t := cache.Settle(request.value, hasActor, backend);
      toast := t;
    }

    /** `handleFollowToggle` run to completion. */
    method HandleFollowToggle(cache: QueryCache, identity: Option<Principal>, post: NftPost, isFollowing: Option<bool>,
                              hasActor: bool, backend: Outcome) returns (toast: Toast)
      modifies cache
      ensures identity.None? ==> toast == ErrorToast(LogInToFollow) && cache.entries == old(cache.entries)
      ensures identity.Some? ==>
        var m := FollowRequest(identity, post, isFollowing).value;
        var o := Settled(hasActor, backend);
        (o.Resolved? ==> cache.entries == MarkAllStale(old(cache.entries), Invalidations(m)) && toast == SuccessToast(SuccessMessage(m).value))
        && (o.Rejected? ==> cache.entries == old(cache.entries) && toast == ErrorToast(FailurePrefix(m) + o.message))
    {
      var request := FollowRequest(identity, post, isFollowing);
      if request.Err? {
        return ErrorToast(request.error);
      }
      var _, t := cache.Settle(request.value, hasActor, backend);
      toast := t;
    }
  }
}
