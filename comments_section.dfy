/** CommentsSection: the top-level comment form of a post and the list of its root threads. */
module Comments {
  import opened Wrappers
  import opened Backend
  import opened Session
  import opened Text
  import opened CommentTree

  /** `canComment`. */
  predicate CanComment(v: Viewer) {
    IsAuthenticated(v) && HasCompleteProfile(v)
  }

  /** The comment input is disabled while a comment is pending or when the viewer cannot
      comment; the send button also when the text is blank. */
  predicate InputDisabled(v: Viewer, pending: bool) {
    pending || !CanComment(v)
  }

  predicate SendDisabled(v: Viewer, pending: bool, text: string) {
    pending || IsBlank(text) || !CanComment(v)
  }

  /** Only a viewer who passes both checks can comment, and then the send button is
      enabled exactly when nothing is pending and the text has a non-whitespace character. */
  lemma SendEnabledIff(v: Viewer, pending: bool, text: string)
    ensures CanComment(v) <==> CheckViewer(v) == None
    ensures !SendDisabled(v, pending, text) <==> CheckViewer(v) == None && !pending && !AllSpace(text)
    ensures CheckViewer(v) == None && SendDisabled(v, pending, text) ==> pending || AllSpace(text)
  {
    BlankIffAllSpace(text);
  }

  /** `commentIds.map((commentId) => <CommentThread commentId={commentId} postId={postId} isAdmin={isAdmin} />)`:
      every root thread starts at depth 0. */
  function RenderRoots(store: Store, names: Profiles, ids: seq<int>, postId: int, isAdmin: bool,
                       ghost rank: map<int, nat>): (ts: seq<Thread>)
    requires Ranked(store, rank)
    ensures |ts| == |ids|
    ensures forall i :: 0 <= i < |ids| ==> ts[i].id == ids[i] && (ts[i].Shown? <==> ids[i] in store)
    ensures forall i :: 0 <= i < |ids| && ts[i].Shown? ==> ts[i].depth == 0 && ts[i].postId == postId
  {
    if ids == [] then []
    else [RenderThread(store, names, ids[0], postId, isAdmin, 0, rank)] + RenderRoots(store, names, ids[1..], postId, isAdmin, rank)
  }

  /** Each root id is rendered once, in order, as the same thread `CommentThread` renders
      for it at depth 0. */
  lemma {:induction false} RootsAreThreads(store: Store, names: Profiles, ids: seq<int>, postId: int, isAdmin: bool,
                                           rank: map<int, nat>)
    requires Ranked(store, rank)
    ensures forall i :: 0 <= i < |ids| ==>
      RenderRoots(store, names, ids, postId, isAdmin, rank)[i] == RenderThread(store, names, ids[i], postId, isAdmin, 0, rank)
  {
    if ids != [] {
      RootsAreThreads(store, names, ids[1..], postId, isAdmin, rank);
      var ts := RenderRoots(store, names, ids, postId, isAdmin, rank);
      assert ts[1..] == RenderRoots(store, names, ids[1..], postId, isAdmin, rank);
      forall i | 1 <= i < |ids| ensures ts[i] == RenderThread(store, names, ids[i], postId, isAdmin, 0, rank) {
        assert ts[i] == ts[1..][i - 1] && ids[i] == ids[1..][i - 1];
      }
    }
  }

  /** The state of the top-level comment form. */
  class CommentBox {
    var commentText: string

    constructor ()
      ensures commentText == ""
    {
      commentText := "";
    }

    method EditComment(text: string)
      modifies this
      ensures commentText == text
    {
      commentText := text;
    }

    /** `handleSubmit` for a post: `outcome` is how `addComment` settled. */
    method HandleSubmit(v: Viewer, postId: int, outcome: Outcome) returns (r: ReplyResult)
      modifies this
      ensures !IsAuthenticated(v) ==> r == Refused("Please log in to comment")
      ensures IsAuthenticated(v) && !HasCompleteProfile(v) ==> r == Refused("Please complete your profile before commenting")
      ensures HasCompleteProfile(v) && IsBlank(old(commentText)) ==> r == Ignored
      ensures HasCompleteProfile(v) && !IsBlank(old(commentText)) ==>
        r == Sent(AddCommentRequest(postId, Trim(old(commentText)), None), outcome)
      ensures commentText == if r.Sent? && outcome.Resolved? then "" else old(commentText)
    {
      var check := CheckViewer(v);
      if check == Some(NotLoggedIn) {
        return Refused("Please log in to comment");
      }
      if check == Some(IncompleteProfile) {
        return Refused("Please complete your profile before commenting");
      }
      if IsBlank(commentText) {
        return Ignored;
      }
      var request := AddCommentRequest(postId, Trim(commentText), None);
      if outcome.Resolved? {
        commentText := "";
      }
      return Sent(request, outcome);
    }
  }

  /** A comment or reply that is sent carries text that is already trimmed and not empty. */
  lemma SentContentTrimmed(text: string)
    requires !IsBlank(text)
    ensures Trim(Trim(text)) == Trim(text) && Trim(text) != []
  {
    TrimIdempotent(text);
  }
}
