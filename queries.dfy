/** useQueries: every read is a keyed query whose function falls back to a default when
    no actor (backend connection) is available; every write is a mutation that, once it
    succeeds, marks a fixed set of key prefixes stale in the shared query cache. */
module Queries {
  import opened Wrappers
  import opened Backend
  import opened Text

  /** One element of `getAllPosts()`: `[id, post]`. */
  type PostEntry = (int, NftPost)

  /** The reads of the hooks module, with the arguments their keys carry. */
  datatype Query =
    | AllPosts
    | GetPost(maybePostId: Option<int>)
    | GetComment(commentId: Option<int>)
    | CallerRole
    | CallerProfile
    | UserProfileOf(principalText: Option<string>)
    | PostLikes(postId: int)
    | HasUserLiked(postId: int, user: Option<Principal>)
    | IsFollowing(target: Option<Principal>)
    | Following

  /** An element of a query key: a string, or `undefined`/`null` for a missing argument. */
  datatype KeyPart = Part(text: string) | Nil

  type QueryKey = seq<KeyPart>

  function OptionalId(id: Option<int>): KeyPart {
    if id.Some? then Part(IntToString(id.value)) else Nil
  }

  function OptionalText(s: Option<string>): KeyPart {
    if s.Some? then Part(s.value) else Nil
  }

  /** The name that heads the key of each read. */
  function Name(q: Query): string {
    match q
    case AllPosts => "posts"
    case GetPost(_) => "post"
    case GetComment(_) => "comment"
    case CallerRole => "userRole"
    case CallerProfile => "currentUserProfile"
    case UserProfileOf(_) => "userProfile"
    case PostLikes(_) => "postLikes"
    case HasUserLiked(_, _) => "hasUserLiked"
    case IsFollowing(_) => "isFollowing"
    case Following => "following"
  }

  /** The `queryKey` of each read: the read's name, then one element per argument, in
      order, which is `undefined` exactly when the argument is missing; ids appear as their
      decimal text. */
  function KeyOf(q: Query): (k: QueryKey)
    ensures |k| >= 1 && k[0] == Part(Name(q))
    ensures |k| == 1 <==> q.AllPosts? || q.CallerRole? || q.CallerProfile? || q.Following?
    ensures q.GetPost? ==> (|k| == 2 && (k[1] == Nil <==> q.maybePostId.None?)
      && (q.maybePostId.Some? ==> k[1] == Part(IntToString(q.maybePostId.value))))
    ensures q.GetComment? ==> (|k| == 2 && (k[1] == Nil <==> q.commentId.None?)
      && (q.commentId.Some? ==> k[1] == Part(IntToString(q.commentId.value))))
    ensures q.UserProfileOf? ==> (|k| == 2 && (k[1] == Nil <==> q.principalText.None?)
      && (q.principalText.Some? ==> k[1] == Part(q.principalText.value)))
    ensures q.PostLikes? ==> |k| == 2 && k[1] == Part(IntToString(q.postId))
    ensures q.HasUserLiked? ==> (|k| == 3 && k[1] == Part(IntToString(q.postId))
      && (k[2] == Nil <==> q.user.None?) && (q.user.Some? ==> k[2] == Part(q.user.value)))
    ensures q.IsFollowing? ==> (|k| == 2 && (k[1] == Nil <==> q.target.None?)
      && (q.target.Some? ==> k[1] == Part(q.target.value)))
  {
    match q
    case AllPosts => [Part("posts")]
    case GetPost(id) => [Part("post"), OptionalId(id)]
    case GetComment(id) => [Part("comment"), OptionalId(id)]
    case CallerRole => [Part("userRole")]
    case CallerProfile => [Part("currentUserProfile")]
    case UserProfileOf(p) => [Part("userProfile"), OptionalText(p)]
    case PostLikes(id) => [Part("postLikes"), Part(IntToString(id))]
    case HasUserLiked(id, user) => [Part("hasUserLiked"), Part(IntToString(id)), OptionalText(user)]
    case IsFollowing(target) => [Part("isFollowing"), OptionalText(target)]
    case Following => [Part("following")]
  }

  /** Distinct reads have distinct keys, so no two reads share a cache entry. */
  lemma KeyOfInjective(q1: Query, q2: Query)
    ensures KeyOf(q1) == KeyOf(q2) ==> q1 == q2
  {
    if KeyOf(q1) == KeyOf(q2) {
      var k := KeyOf(q1);
      assert Name(q1) == Name(q2);
      if q1.GetPost? && q1.maybePostId.Some? && q2.maybePostId.Some? {
        IntToStringInjective(q1.maybePostId.value, q2.maybePostId.value);
      } else if q1.GetComment? && q1.commentId.Some? && q2.commentId.Some? {
        IntToStringInjective(q1.commentId.value, q2.commentId.value);
      } else if q1.PostLikes? || q1.HasUserLiked? {
        IntToStringInjective(q1.postId, q2.postId);
      }
    }
  }

  /** A query's `enabled` option: an actor, not fetching one, and its argument present
      (`!!principalString` also refuses the empty string). */
  predicate Enabled(q: Query, hasActor: bool, isFetching: bool) {
    match q
    case AllPosts => hasActor && !isFetching
    case GetPost(id) => hasActor && !isFetching && id.Some?
    case GetComment(id) => hasActor && !isFetching && id.Some?
    case CallerRole => hasActor && !isFetching
    case CallerProfile => hasActor && !isFetching
    case UserProfileOf(p) => hasActor && !isFetching && p.Some? && p.value != ""
    case PostLikes(_) => hasActor && !isFetching
    case HasUserLiked(_, user) => hasActor && !isFetching && user.Some?
    case IsFollowing(target) => hasActor && !isFetching && target.Some?
    case Following => hasActor && !isFetching
  }

  /** What each read returns. */
  datatype QueryData =
    | Posts(posts: seq<PostEntry>)
    | MaybePost(post: Option<NftPost>)
    | MaybeComment(comment: Option<Comment>)
    | Role(role: UserRole)
    | MaybeProfile(profile: Option<UserProfile>)
    | Count(count: int)
    | Flag(flag: bool)
    | Principals(principals: seq<Principal>)

  /** The backend's answer to a read has the read's result type. */
  predicate Fits(q: Query, d: QueryData) {
    match q
    case AllPosts => d.Posts?
    case GetPost(_) => d.MaybePost?
    case GetComment(_) => d.MaybeComment?
    case CallerRole => d.Role?
    case CallerProfile => d.MaybeProfile?
    case UserProfileOf(_) => d.MaybeProfile?
    case PostLikes(_) => d.Count?
    case HasUserLiked(_, _) => d.Flag?
    case IsFollowing(_) => d.Flag?
    case Following => d.Principals?
  }

  /** The first test of each `queryFn`: no actor, or a missing argument. */
  predicate FallsBack(q: Query, hasActor: bool) {
    match q
    case GetPost(id) => !hasActor || id.None?
    case GetComment(id) => !hasActor || id.None?
    case UserProfileOf(p) => !hasActor || p.None? || p.value == ""
    case HasUserLiked(_, user) => !hasActor || user.None?
    case IsFollowing(target) => !hasActor || target.None?
    case _ => !hasActor
  }

  const ActorNotAvailable := "Actor not available"

  /** What a `queryFn` returns instead of calling the backend. */
  function Fallback(q: Query): (r: Result<QueryData, string>)
    ensures r.Err? <==> q == CallerProfile
    ensures r.Ok? ==> Fits(q, r.value)
  {
    match q
    case AllPosts => Ok(Posts([]))
    case GetPost(_) => Ok(MaybePost(None))
    case GetComment(_) => Ok(MaybeComment(None))
    case CallerRole => Ok(Role(Guest))
    case CallerProfile => Err(ActorNotAvailable)
    case UserProfileOf(_) => Ok(MaybeProfile(None))
    case PostLikes(_) => Ok(Count(0))
    case HasUserLiked(_, _) => Ok(Flag(false))
    case IsFollowing(_) => Ok(Flag(false))
    case Following => Ok(Principals([]))
  }

  /** An enabled query never takes its fallback. Without an actor every query is disabled
      and its data stays undefined; the defaults are only returned when a query function
      runs outside its `enabled` condition (a manual refetch). */
  lemma EnabledReachesBackend(q: Query, hasActor: bool, isFetching: bool)
    requires Enabled(q, hasActor, isFetching)
    ensures !FallsBack(q, hasActor)
  {
  }

  /** Run without an actor, the query function of every read but the caller's profile
      returns an empty value (the read itself is disabled then): no
      posts, no principals, no post/comment/profile, the guest role, no likes, not liked,
      not following. */
  lemma NoActorDefaults(q: Query)
    ensures FallsBack(q, false)
    ensures q != CallerProfile ==> Fallback(q).Ok?
    ensures Fallback(q) == Ok(Posts([])) || Fallback(q) == Ok(Principals([]))
      || Fallback(q) == Ok(MaybePost(None)) || Fallback(q) == Ok(MaybeComment(None))
      || Fallback(q) == Ok(MaybeProfile(None)) || Fallback(q) == Ok(Role(Guest))
      || Fallback(q) == Ok(Count(0)) || Fallback(q) == Ok(Flag(false))
      || Fallback(q) == Err(ActorNotAvailable)
  {
  }

  function Timestamp(e: PostEntry): int {
    e.1.timestamp
  }

  /** Newest first: timestamps never increase along the list. */
  predicate NewestFirst(s: seq<PostEntry>) {
    forall i, j :: 0 <= i < j < |s| ==> Timestamp(s[i]) >= Timestamp(s[j])
  }

  /** Exchanges `a[j - 1]` and `a[j]`. */
  method SwapDown(a: array<PostEntry>, j: int)
    requires 0 < j < a.Length
    modifies a
    ensures a[..] == old(a[..])[j - 1 := old(a[j])][j := old(a[j - 1])]
    ensures multiset(a[..]) == multiset(old(a[..]))
  {
    a[j - 1], a[j] := a[j], a[j - 1];
  }

  /** Moves `a[i]` towards the front past every strictly older entry, so that `a[..i + 1]`
      is newest first when `a[..i]` was. */
  method InsertNewest(a: array<PostEntry>, i: int)
    requires 0 <= i < a.Length
    requires NewestFirst(a[..i])
    modifies a
    ensures NewestFirst(a[..i + 1])
    ensures a[i + 1..] == old(a[i + 1..])
    ensures multiset(a[..]) == multiset(old(a[..]))
  {
    var j := i;
    while j > 0 && Timestamp(a[j - 1]) < Timestamp(a[j])
      invariant 0 <= j <= i
      invariant forall x, y :: 0 <= x < y <= i && x != j && y != j ==> Timestamp(a[x]) >= Timestamp(a[y])
      invariant forall y :: j < y <= i ==> Timestamp(a[j]) > Timestamp(a[y])
      invariant a[i + 1..] == old(a[i + 1..])
      invariant multiset(a[..]) == multiset(old(a[..]))
    {
      SwapDown(a, j);
      j := j - 1;
    }
  }

  /** `posts.sort((a, b) => Number(b[1].timestamp - a[1].timestamp))`, in place. The
      comparator's sign is that of the timestamp difference, so the array ends sorted by
      decreasing timestamp; `sort` is stable, and so is this insertion sort, which moves an
      entry only past strictly older ones. */
  method SortNewestFirst(a: array<PostEntry>)
    modifies a
    ensures NewestFirst(a[..])
    ensures multiset(a[..]) == multiset(old(a[..]))
  {
    var i := 0;
    while i < a.Length
      invariant 0 <= i <= a.Length
      invariant NewestFirst(a[..i])
      invariant multiset(a[..]) == multiset(old(a[..]))
    {
      InsertNewest(a, i);
      i := i + 1;
    }
    assert a[..i] == a[..];
  }

  /** `useGetAllPosts`'s query function: `[]` without an actor, otherwise the backend's
      list sorted newest first. */
  method FetchAllPosts(hasActor: bool, fetched: seq<PostEntry>) returns (posts: seq<PostEntry>)
    ensures !hasActor ==> posts == []
    ensures hasActor ==> NewestFirst(posts) && multiset(posts) == multiset(fetched)
  {
    if !hasActor {
      return [];
    }
    var a := new PostEntry[|fetched|](i requires 0 <= i < |fetched| => fetched[i]);
    assert a[..] == fetched;
    SortNewestFirst(a);
    posts := a[..];
  }

  /** A read's query function: `answer` is what the backend call would return. */
  method RunQuery(q: Query, hasActor: bool, answer: QueryData) returns (r: Result<QueryData, string>)
    requires Fits(q, answer)
    ensures FallsBack(q, hasActor) ==> r == Fallback(q)
    ensures !FallsBack(q, hasActor) && !q.AllPosts? ==> r == Ok(answer)
    ensures !FallsBack(q, hasActor) && q.AllPosts? ==>
      r.Ok? && r.value.Posts? && NewestFirst(r.value.posts) && multiset(r.value.posts) == multiset(answer.posts)
  {
    if FallsBack(q, hasActor) {
      return Fallback(q);
    }
    if q.AllPosts? {
      var posts := FetchAllPosts(hasActor, answer.posts);
      return Ok(Posts(posts));
    }
    return Ok(answer);
  }

  /** `useGetCallerUserProfile`'s `isLoading` and `isFetched`. */
  function CallerProfileStatus(actorFetching: bool, hasActor: bool, queryLoading: bool, queryFetched: bool): (bool, bool) {
    (actorFetching || queryLoading, hasActor && queryFetched)
  }

  /** The caller's profile reads as loading while the actor is being fetched, and never
      as fetched without an actor. */
  lemma CallerProfileStatusSound(actorFetching: bool, hasActor: bool, queryLoading: bool, queryFetched: bool)
    ensures actorFetching ==> CallerProfileStatus(actorFetching, hasActor, queryLoading, queryFetched).0
    ensures !hasActor ==> !CallerProfileStatus(actorFetching, hasActor, queryLoading, queryFetched).1
    ensures CallerProfileStatus(actorFetching, hasActor, queryLoading, queryFetched).1 ==> queryFetched
  {
  }

  /** The writes of the hooks module. */
  datatype Mutation =
    | CreatePost
    | AddComment
    | DeletePost(postId: int)
    | DeleteComment(commentId: int)
    | SaveProfile(profile: UserProfile)
    | LikePost(postId: int)
    | FollowUser(target: Principal)
    | UnfollowUser(target: Principal)

  /** The key prefixes each `onSuccess` passes to `invalidateQueries`, in order. */
  function Invalidations(m: Mutation): seq<QueryKey> {
    match m
    case CreatePost => [[Part("posts")]]
    case AddComment => [[Part("posts")], [Part("comment")]]
    case DeletePost(_) => [[Part("posts")]]
    case DeleteComment(_) => [[Part("posts")], [Part("comment")]]
    case SaveProfile(_) => [[Part("currentUserProfile")]]
    case LikePost(id) => [[Part("postLikes"), Part(IntToString(id))], [Part("hasUserLiked"), Part(IntToString(id))]]
    case FollowUser(_) => [[Part("following")], [Part("isFollowing")]]
    case UnfollowUser(_) => [[Part("following")], [Part("isFollowing")]]
  }

  /** The query library's default key matching: a filter key matches every key it is a prefix of. */
  predicate IsPrefix(p: QueryKey, k: QueryKey) {
    |p| <= |k| && k[..|p|] == p
  }

  predicate InvalidatedBy(m: Mutation, k: QueryKey) {
    exists i :: 0 <= i < |Invalidations(m)| && IsPrefix(Invalidations(m)[i], k)
  }

  /** Which reads each write makes stale: the post list for post and comment writes, every
      comment for comment writes, the caller's profile for a profile save, the like count
      and the liked flags of the one post liked, and the following list and every
      is-following flag (whatever its target) for a follow or unfollow. */
  predicate Affects(m: Mutation, q: Query) {
    match m
    case CreatePost => q.AllPosts?
    case DeletePost(_) => q.AllPosts?
    case AddComment => q.AllPosts? || q.GetComment?
    case DeleteComment(_) => q.AllPosts? || q.GetComment?
    case SaveProfile(_) => q.CallerProfile?
    case LikePost(id) => (q.PostLikes? || q.HasUserLiked?) && q.postId == id
    case FollowUser(_) => q.Following? || q.IsFollowing?
    case UnfollowUser(_) => q.Following? || q.IsFollowing?
  }

  lemma PrefixOfKey(p: QueryKey, q: Query)
    requires |p| >= 1
    requires IsPrefix(p, KeyOf(q))
    ensures p[0] == KeyOf(q)[0]
    ensures |p| >= 2 ==> p[1] == KeyOf(q)[1]
  {
    assert KeyOf(q)[..|p|][0] == KeyOf(q)[0];
    if |p| >= 2 {
      assert KeyOf(q)[..|p|][1] == KeyOf(q)[1];
    }
  }

  /** The prefixes a write invalidates cover exactly the reads in `Affects`: in
      particular a like leaves the keys of every other post fresh, because distinct ids
      have distinct decimal texts. */
  lemma InvalidationTable(m: Mutation, q: Query)
    ensures InvalidatedBy(m, KeyOf(q)) <==> Affects(m, q)
  {
    var ps := Invalidations(m);
    var k := KeyOf(q);
    if Affects(m, q) {
      var second := (m.LikePost? && q.HasUserLiked?) || ((m.AddComment? || m.DeleteComment?) && q.GetComment?)
                    || ((m.FollowUser? || m.UnfollowUser?) && q.IsFollowing?);
      var p := ps[if second then 1 else 0];
      assert k[..|p|] == p;
    } else {
      forall i | 0 <= i < |ps| ensures !IsPrefix(ps[i], k) {
        if IsPrefix(ps[i], k) {
          PrefixOfKey(ps[i], q);
          if m.LikePost? {
            IntToStringInjective(m.postId, q.postId);
          }
        }
      }
    }
  }

  /** A cache entry: the last data fetched and whether it has been invalidated since. */
  datatype Entry = Entry(data: QueryData, stale: bool)

  /** `invalidateQueries({ queryKey: prefix })` on a snapshot of the cache. */
  function MarkStale(entries: map<QueryKey, Entry>, prefix: QueryKey): (r: map<QueryKey, Entry>)
    ensures r.Keys == entries.Keys
  {
    map k | k in entries :: if IsPrefix(prefix, k) then entries[k].(stale := true) else entries[k]
  }

  /** Invalidating each prefix of `ps` in turn. */
  function MarkAllStale(entries: map<QueryKey, Entry>, ps: seq<QueryKey>): (r: map<QueryKey, Entry>)
    ensures r.Keys == entries.Keys
  {
    if ps == [] then entries else MarkStale(MarkAllStale(entries, ps[..|ps| - 1]), ps[|ps| - 1])
  }

  predicate MatchesSome(ps: seq<QueryKey>, k: QueryKey) {
    exists i :: 0 <= i < |ps| && IsPrefix(ps[i], k)
  }

  /** Invalidating a list of prefixes marks stale exactly the entries under one of them,
      keeps their data, and leaves every other entry as it was. */
  lemma {:induction false} MarkAllStaleSpec(entries: map<QueryKey, Entry>, ps: seq<QueryKey>)
    ensures forall k :: k in entries ==>
      MarkAllStale(entries, ps)[k] == if MatchesSome(ps, k) then entries[k].(stale := true) else entries[k]
  {
    if ps != [] {
      var init := ps[..|ps| - 1];
      MarkAllStaleSpec(entries, init);
      forall k | k in entries
        ensures MarkAllStale(entries, ps)[k] == if MatchesSome(ps, k) then entries[k].(stale := true) else entries[k]
      {
        if MatchesSome(init, k) {
          var i :| 0 <= i < |init| && IsPrefix(init[i], k);
          assert IsPrefix(ps[i], k);
        }
        if MatchesSome(ps, k) && !IsPrefix(ps[|ps| - 1], k) {
          var i :| 0 <= i < |ps| && IsPrefix(ps[i], k);
          assert IsPrefix(init[i], k);
        }
      }
    }
  }

  /** A toast, or none. */
  datatype Toast = NoToast | SuccessToast(text: string) | ErrorToast(text: string)

  function SuccessMessage(m: Mutation): Option<string> {
    match m
    case CreatePost => Some("Post created successfully!")
    case AddComment => Some("Comment added!")
    case DeletePost(_) => Some("Post deleted")
    case DeleteComment(_) => Some("Comment deleted")
    case SaveProfile(_) => Some("Profile saved successfully!")
    case LikePost(_) => None
    case FollowUser(_) => Some("User followed!")
    case UnfollowUser(_) => Some("User unfollowed")
  }

  function FailurePrefix(m: Mutation): string {
    match m
    case CreatePost => "Failed to create post: "
    case AddComment => "Failed to add comment: "
    case DeletePost(_) => "Failed to delete post: "
    case DeleteComment(_) => "Failed to delete comment: "
    case SaveProfile(_) => "Failed to save profile: "
    case LikePost(_) => "Failed to update like: "
    case FollowUser(_) => "Failed to follow user: "
    case UnfollowUser(_) => "Failed to unfollow user: "
  }

  /** How a `mutationFn` settles: it throws "Actor not available" without an actor,
      otherwise it settles as the backend call does. */
  function Settled(hasActor: bool, backend: Outcome): (o: Outcome)
    ensures !hasActor ==> o == Rejected(ActorNotAvailable)
  {
    if hasActor then backend else Rejected(ActorNotAvailable)
  }

  /** The shared query cache. */
  class QueryCache {
    var entries: map<QueryKey, Entry>

    constructor ()
      ensures entries == map[]
    {
      entries := map[];
    }

    /** A query function's successful result is stored fresh under its key. */
    method Store(k: QueryKey, data: QueryData)
      modifies this
      ensures entries == old(entries)[k := Entry(data, false)]
    {
      entries := entries[k := Entry(data, false)];
    }

    /** Whether the next read of `k` goes to the backend. */
    predicate NeedsFetch(k: QueryKey)
      reads this
    {
      k !in entries || entries[k].stale
    }

    /** `queryClient.invalidateQueries({ queryKey: prefix })`. */
    method Invalidate(prefix: QueryKey)
      modifies this
      ensures entries == MarkStale(old(entries), prefix)
    {
      entries := MarkStale(entries, prefix);
    }

    /** A mutation settles: on success its `onSuccess` invalidates its prefixes one after
        the other and toasts; on failure `onError` toasts the message and the cache is
        left alone. */
    method Settle(m: Mutation, hasActor: bool, backend: Outcome) returns (outcome: Outcome, toast: Toast)
      modifies this
      ensures outcome == Settled(hasActor, backend)
      ensures outcome.Resolved? ==> entries == MarkAllStale(old(entries), Invalidations(m))
      ensures outcome.Resolved? ==> toast == if SuccessMessage(m).Some? then SuccessToast(SuccessMessage(m).value) else NoToast
      ensures outcome.Rejected? ==> entries == old(entries) && toast == ErrorToast(FailurePrefix(m) + outcome.message)
    {
      outcome := Settled(hasActor, backend);
      if outcome.Rejected? {
        return outcome, ErrorToast(FailurePrefix(m) + outcome.message);
      }
      var ps := Invalidations(m);
      var i := 0;
      while i < |ps|
        invariant 0 <= i <= |ps|
        invariant entries == MarkAllStale(old(entries), ps[..i])
      {
        assert ps[..i + 1][..i] == ps[..i];
        Invalidate(ps[i]);
        i := i + 1;
      }
      assert ps[..i] == ps;
      toast := if SuccessMessage(m).Some? then SuccessToast(SuccessMessage(m).value) else NoToast;
    }
  }

  /** After a write succeeds, every read it affects goes back to the backend and every
      other read keeps its cached entry unchanged. */
  lemma SettledWriteRefreshes(entries: map<QueryKey, Entry>, m: Mutation, q: Query)
    ensures Affects(m, q) && KeyOf(q) in entries ==> MarkAllStale(entries, Invalidations(m))[KeyOf(q)].stale
    ensures !Affects(m, q) && KeyOf(q) in entries ==> MarkAllStale(entries, Invalidations(m))[KeyOf(q)] == entries[KeyOf(q)]
  {
    MarkAllStaleSpec(entries, Invalidations(m));
    InvalidationTable(m, q);
  }
}
