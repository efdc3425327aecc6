/** App: the page shell. It decides whether the admin panel is shown, when the profile
    setup dialog opens by itself, and what the "All Posts" and "Following" tabs list. */
module AppView {
  import opened Wrappers
  import opened Backend
  import opened Session
  import opened Queries

  /** `userRole === 'admin'`; an undefined role is not admin. */
  predicate IsAdmin(role: Option<UserRole>) {
    role == Some(Admin)
  }

  /** The admin panel is rendered for an authenticated administrator only. */
  predicate AdminPanelShown(authenticated: bool, role: Option<UserRole>) {
    authenticated && IsAdmin(role)
  }

  /** Without an actor the role query is disabled, so `userRole` stays undefined and the
      admin panel is hidden; a query function run anyway (a manual refetch) answers the
      'guest' fallback, which hides the panel too. */
  lemma NoActorNoAdminPanel(authenticated: bool, isFetching: bool)
    ensures !Enabled(CallerRole, false, isFetching)
    ensures !AdminPanelShown(authenticated, None)
    ensures FallsBack(CallerRole, false) && Fallback(CallerRole) == Ok(Role(Guest))
    ensures !AdminPanelShown(authenticated, Some(Fallback(CallerRole).value.role))
  {
  }

  /** The effect's condition: logged in, the caller-profile query no longer loading, fetched,
      and its answer `null`. */
  predicate ShowProfileSetup(authenticated: bool, profileLoading: bool, isFetched: bool, profile: ProfileData) {
    authenticated && !profileLoading && isFetched && profile == NoProfile
  }

  /** The setup dialog only opens once the caller-profile query has really answered `null`
      with an actor: never while the actor is being fetched, never without an actor, never
      while the answer is still undefined or is a profile. */
  lemma ProfileSetupNeedsAnswer(authenticated: bool, actorFetching: bool, hasActor: bool,
                                queryLoading: bool, queryFetched: bool, profile: ProfileData)
    requires ShowProfileSetup(authenticated, CallerProfileStatus(actorFetching, hasActor, queryLoading, queryFetched).0,
                              CallerProfileStatus(actorFetching, hasActor, queryLoading, queryFetched).1, profile)
    ensures !actorFetching && hasActor && queryFetched && !queryLoading
    ensures profile == NoProfile
  {
    CallerProfileStatusSound(actorFetching, hasActor, queryLoading, queryFetched);
  }

  /** The state App keeps. */
  class Shell {
    var showProfileSetup: bool

    constructor ()
      ensures !showProfileSetup
    {
      showProfileSetup := false;
    }

    /** The effect that runs when any of its four inputs changes: it opens the dialog when
        the condition holds and closes it otherwise. */
    method SyncProfileSetup(authenticated: bool, profileLoading: bool, isFetched: bool, profile: ProfileData)
      modifies this
      ensures showProfileSetup == ShowProfileSetup(authenticated, profileLoading, isFetched, profile)
    {
      if authenticated && !profileLoading && isFetched && profile == NoProfile {
        showProfileSetup := true;
      } else {
        showProfileSetup := false;
      }
    }

    /** The dialog's `onOpenChange`. */
    method SetShowProfileSetup(open: bool)
      modifies this
      ensures showProfileSetup == open
    {
      showProfileSetup := open;
    }
  }

  /** `following.some(f => f.toString() === post.author.toString())`. */
  predicate Follows(following: seq<Principal>, author: Principal) {
    exists i :: 0 <= i < |following| && following[i] == author
  }

  /** `posts?.filter(([_, post]) => ...) || []`. */
  function FollowingPosts(posts: Option<seq<PostEntry>>, following: seq<Principal>): (r: seq<PostEntry>)
    ensures posts.None? ==> r == []
  {
    if posts.None? then [] else FilterFollowed(posts.value, following)
  }

  function FilterFollowed(posts: seq<PostEntry>, following: seq<Principal>): seq<PostEntry> {
    if posts == [] then []
    else if Follows(following, posts[0].1.author) then [posts[0]] + FilterFollowed(posts[1..], following)
    else FilterFollowed(posts[1..], following)
  }

  /** The filter keeps exactly the posts whose author is followed. */
  lemma {:induction false} FilterFollowedMembers(posts: seq<PostEntry>, following: seq<Principal>)
    ensures forall e :: e in FilterFollowed(posts, following) <==> e in posts && Follows(following, e.1.author)
  {
    if posts != [] {
      FilterFollowedMembers(posts[1..], following);
      assert posts == [posts[0]] + posts[1..];
    }
  }

  /** ... each no more often than it occurs, and none when nobody is followed. */
  lemma {:induction false} FilterFollowedCounts(posts: seq<PostEntry>, following: seq<Principal>)
    ensures multiset(FilterFollowed(posts, following)) <= multiset(posts)
    ensures following == [] ==> FilterFollowed(posts, following) == []
  {
    if posts != [] {
      FilterFollowedCounts(posts[1..], following);
      assert posts == [posts[0]] + posts[1..];
    }
  }

  lemma NewestFirstTail(posts: seq<PostEntry>)
    requires posts != [] && NewestFirst(posts)
    ensures NewestFirst(posts[1..])
    ensures forall e :: e in posts[1..] ==> Timestamp(posts[0]) >= Timestamp(e)
  {
    var tail := posts[1..];
    forall i, j | 0 <= i < j < |tail| ensures Timestamp(tail[i]) >= Timestamp(tail[j]) {
      assert tail[i] == posts[i + 1] && tail[j] == posts[j + 1];
    }
    forall e | e in tail ensures Timestamp(posts[0]) >= Timestamp(e) {
      var k :| 0 <= k < |tail| && tail[k] == e;
      assert posts[k + 1] == e;
    }
  }

  /** ... and keeps them in their order, so a newest-first list stays newest first. */
  lemma {:induction false} FilterFollowedNewest(posts: seq<PostEntry>, following: seq<Principal>)
    requires NewestFirst(posts)
    ensures NewestFirst(FilterFollowed(posts, following))
  {
    if posts != [] {
      NewestFirstTail(posts);
      FilterFollowedNewest(posts[1..], following);
      if Follows(following, posts[0].1.author) {
        var rest := FilterFollowed(posts[1..], following);
        FilterFollowedMembers(posts[1..], following);
        var r := [posts[0]] + rest;
        forall i, j | 0 <= i < j < |r| ensures Timestamp(r[i]) >= Timestamp(r[j]) {
          assert r[j] == rest[j - 1];
          if 0 < i {
            assert r[i] == rest[i - 1];
          } else {
            assert rest[j - 1] in rest;
          }
        }
      }
    }
  }

  /** Each entry is kept exactly as often as it occurs when its author is followed, and
      never otherwise. */
  lemma {:induction false} FilterFollowedMultiplicity(posts: seq<PostEntry>, following: seq<Principal>)
    ensures forall e :: multiset(FilterFollowed(posts, following))[e] ==
                        if Follows(following, e.1.author) then multiset(posts)[e] else 0
  {
    if posts != [] {
      FilterFollowedMultiplicity(posts[1..], following);
      assert posts == [posts[0]] + posts[1..];
    }
  }

  /** The positions of `posts` whose author is followed, in increasing order. */
  function KeptIndices(posts: seq<PostEntry>, following: seq<Principal>): (idx: seq<int>)
    ensures |idx| == |FilterFollowed(posts, following)|
    ensures forall k :: 0 <= k < |idx| ==> 0 <= idx[k] < |posts|
  {
    if posts == [] then []
    else (if Follows(following, posts[0].1.author) then [0] else []) + Shift(KeptIndices(posts[1..], following))
  }

  /** Every position one further on, as the tail's positions become the list's. */
  function Shift(s: seq<int>): (r: seq<int>)
    ensures |r| == |s|
    ensures forall k :: 0 <= k < |s| ==> r[k] == s[k] + 1
  {
    seq(|s|, k requires 0 <= k < |s| => s[k] + 1)
  }

  lemma ShiftMembers(s: seq<int>, j: int)
    ensures j + 1 in Shift(s) <==> j in s
  {
    if j + 1 in Shift(s) {
      var k :| 0 <= k < |s| && Shift(s)[k] == j + 1;
    }
    if j in s {
      var k :| 0 <= k < |s| && s[k] == j;
      assert Shift(s)[k] == j + 1;
    }
  }

  /** The kept positions hold the filter's entries, in the filter's order ... */
  lemma {:induction false} KeptIndicesPick(posts: seq<PostEntry>, following: seq<Principal>)
    ensures forall k :: 0 <= k < |KeptIndices(posts, following)| ==>
      FilterFollowed(posts, following)[k] == posts[KeptIndices(posts, following)[k]]
  {
    if posts != [] {
      var tail := posts[1..];
      KeptIndicesPick(tail, following);
      var idx, rest := KeptIndices(posts, following), KeptIndices(tail, following);
      var r, rt := FilterFollowed(posts, following), FilterFollowed(tail, following);
      var d := if Follows(following, posts[0].1.author) then 1 else 0;
      forall k | d <= k < |idx| ensures r[k] == posts[idx[k]] {
        assert idx[k] == Shift(rest)[k - d] == rest[k - d] + 1;
        assert r[k] == rt[k - d] == tail[rest[k - d]];
      }
    }
  }

  /** ... increase strictly ... */
  lemma {:induction false} KeptIndicesIncrease(posts: seq<PostEntry>, following: seq<Principal>)
    ensures forall k, l :: 0 <= k < l < |KeptIndices(posts, following)| ==>
      KeptIndices(posts, following)[k] < KeptIndices(posts, following)[l]
  {
    if posts != [] {
      KeptIndicesIncrease(posts[1..], following);
      var idx, rest := KeptIndices(posts, following), KeptIndices(posts[1..], following);
      var d := if Follows(following, posts[0].1.author) then 1 else 0;
      forall k, l | 0 <= k < l < |idx| ensures idx[k] < idx[l] {
        assert idx[l] == Shift(rest)[l - d];
        if k >= d {
          assert idx[k] == Shift(rest)[k - d];
        }
      }
    }
  }

  /** ... and are exactly the positions whose author is followed. */
  lemma {:induction false} KeptIndicesExact(posts: seq<PostEntry>, following: seq<Principal>)
    ensures forall i :: 0 <= i < |posts| ==> (i in KeptIndices(posts, following) <==> Follows(following, posts[i].1.author))
  {
    if posts != [] {
      var tail := posts[1..];
      KeptIndicesExact(tail, following);
      var rest := KeptIndices(tail, following);
      var head: seq<int> := if Follows(following, posts[0].1.author) then [0] else [];
      assert KeptIndices(posts, following) == head + Shift(rest);
      forall i | 0 <= i < |posts| ensures (i in KeptIndices(posts, following) <==> Follows(following, posts[i].1.author)) {
        if i == 0 {
          assert 0 !in Shift(rest);
        } else {
          ShiftMembers(rest, i - 1);
          assert posts[i] == tail[i - 1];
        }
      }
    }
  }

  /** `filter` keeps the order: the Following list is the sub-sequence of the posts at
      exactly the positions whose author is followed. */
  lemma FilterFollowedSubsequence(posts: seq<PostEntry>, following: seq<Principal>)
    ensures exists idx: seq<int> ::
      |idx| == |FilterFollowed(posts, following)|
      && (forall k :: 0 <= k < |idx| ==> 0 <= idx[k] < |posts| && FilterFollowed(posts, following)[k] == posts[idx[k]])
      && (forall k, l :: 0 <= k < l < |idx| ==> idx[k] < idx[l])
      && (forall i :: 0 <= i < |posts| ==> (i in idx <==> Follows(following, posts[i].1.author)))
  {
    var idx := KeptIndices(posts, following);
    KeptIndicesPick(posts, following);
    KeptIndicesIncrease(posts, following);
    KeptIndicesExact(posts, following);
  }

  /** What the "Following" tab shows. */
  datatype FollowingView =
    | LogInMessage
    | FollowSomeone
    | NoPostsYet
    | Gallery(posts: seq<PostEntry>)

  function FollowingTab(authenticated: bool, posts: Option<seq<PostEntry>>, following: Option<seq<Principal>>): FollowingView {
    var followed := following.GetOr([]);
    var shown := FollowingPosts(posts, followed);
    if !authenticated then LogInMessage
    else if |shown| == 0 then (if |followed| == 0 then FollowSomeone else NoPostsYet)
    else Gallery(shown)
  }

  /** The tab's four cases: a logged-out viewer is asked to log in; a viewer who follows
      nobody is asked to follow someone; a viewer whose followed users have no post among
      those loaded is told so; otherwise the gallery lists only followed authors' posts,
      newest first when the list is. */
  lemma FollowingTabCases(authenticated: bool, posts: Option<seq<PostEntry>>, following: Option<seq<Principal>>)
    ensures FollowingTab(authenticated, posts, following) == LogInMessage <==> !authenticated
    ensures FollowingTab(authenticated, posts, following) == FollowSomeone <==>
      authenticated && following.GetOr([]) == []
    ensures FollowingTab(authenticated, posts, following) == NoPostsYet <==>
      authenticated && following.GetOr([]) != []
      && (posts.None? || forall e :: e in posts.value ==> !Follows(following.GetOr([]), e.1.author))
    ensures FollowingTab(authenticated, posts, following).Gallery? ==>
      FollowingTab(authenticated, posts, following).posts != []
      && posts.Some?
      && (forall e :: e in FollowingTab(authenticated, posts, following).posts ==>
            e in posts.value && Follows(following.GetOr([]), e.1.author))
      && (NewestFirst(posts.value) ==> NewestFirst(FollowingTab(authenticated, posts, following).posts))
  {
    if posts.Some? {
      FilterFollowedMembers(posts.value, following.GetOr([]));
      FilterFollowedCounts(posts.value, following.GetOr([]));
      if NewestFirst(posts.value) {
        FilterFollowedNewest(posts.value, following.GetOr([]));
      }
      var shown := FilterFollowed(posts.value, following.GetOr([]));
      if shown != [] {
        assert shown[0] in shown;
      }
    }
  }

  /** The "Following" trigger is disabled for a logged-out viewer; the "All Posts" tab
      lists every loaded post, or none while the list is undefined. */
  predicate FollowingTriggerDisabled(authenticated: bool) {
    !authenticated
  }

  function AllTab(posts: Option<seq<PostEntry>>): seq<PostEntry> {
    posts.GetOr([])
  }

  /** The posts area: a spinner while the posts query loads, otherwise the two tabs. */
  datatype PostsArea = Spinner | Tabs(all: seq<PostEntry>, followingDisabled: bool, following: FollowingView)

  function RenderPostsArea(postsLoading: bool, authenticated: bool, posts: Option<seq<PostEntry>>,
                           following: Option<seq<Principal>>): PostsArea {
    if postsLoading then Spinner
    else Tabs(AllTab(posts), FollowingTriggerDisabled(authenticated), FollowingTab(authenticated, posts, following))
  }

  /** Every post the "Following" tab shows is also in the "All Posts" tab, and a logged-out
      viewer gets the disabled trigger and the log-in message together. */
  lemma FollowingWithinAll(postsLoading: bool, authenticated: bool, posts: Option<seq<PostEntry>>,
                           following: Option<seq<Principal>>)
    requires !postsLoading
    ensures RenderPostsArea(postsLoading, authenticated, posts, following).Tabs?
    ensures var area := RenderPostsArea(postsLoading, authenticated, posts, following);
      (area.followingDisabled <==> area.following == LogInMessage)
      && (area.following.Gallery? ==> forall e :: e in area.following.posts ==> e in area.all)
  {
    FollowingTabCases(authenticated, posts, following);
  }
}
