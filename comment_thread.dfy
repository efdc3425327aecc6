/** CommentThread: a comment id renders as the comment and, below it, one thread per id
    in its `replies`, one level deeper; an id that does not resolve renders nothing. The
    Reply button is offered only above depth 3. The reply form's guards and state. */
module CommentTree {
  import opened Wrappers
  import opened Backend
  import opened Session
  import opened Text

  const MaxDepth := 3

  /** The comments the `['comment', id]` queries resolve to; an id missing here resolves to
      `null` (not found, or deleted meanwhile). */
  type Store = map<int, Comment>

  /** The profiles the `['userProfile', author]` queries resolve to. */
  type Profiles = map<Principal, UserProfile>

  /** The replies graph has no cycle: some ranking of the resolved comments strictly
      decreases along every reply edge that resolves. The backend is trusted to keep
      comment trees acyclic; the client never checks it. */
  ghost predicate Ranked(store: Store, rank: map<int, nat>) {
    (forall id :: id in store ==> id in rank)
    && forall id, k :: id in store && 0 <= k < |store[id].replies| && store[id].replies[k] in store ==>
         store[id].replies[k] in rank && rank[store[id].replies[k]] < rank[id]
  }

  lemma RepliesRankLower(store: Store, rank: map<int, nat>, id: int)
    requires Ranked(store, rank) && id in store
    ensures id in rank
    ensures forall i :: 0 <= i < |store[id].replies| && store[id].replies[i] in store ==>
      store[id].replies[i] in rank && rank[store[id].replies[i]] < rank[id]
  {
  }

  /** One rendered `CommentThread`: nothing (`return null`), or the comment with its
      author's name, its depth, whether the Reply button and the delete control are shown,
      and its reply threads. */
  datatype Thread =
    | Nothing(id: int)
    | Shown(id: int, postId: int, depth: nat, content: string, authorName: string,
            replyButton: bool, deletable: bool, replies: seq<Thread>)

  function Lookup(names: Profiles, who: Principal): Option<UserProfile> {
    if who in names then Some(names[who]) else None
  }

  /** `<CommentThread commentId={id} postId={postId} isAdmin={isAdmin} depth={depth} />`. */
  function RenderThread(store: Store, names: Profiles, id: int, postId: int, isAdmin: bool, depth: nat,
                        ghost rank: map<int, nat>): (t: Thread)
    requires Ranked(store, rank)
    ensures t.id == id
    ensures t.Shown? <==> id in store
    ensures t.Shown? ==> t.depth == depth && t.postId == postId && |t.replies| == |store[id].replies|
    decreases if id in store then rank[id] + 1 else 0, 0
  {
    if id !in store then Nothing(id)
    else
      var c := store[id];
      RepliesRankLower(store, rank, id);
      Shown(id, postId, depth, c.content, DisplayName(Lookup(names, c.author)),
            depth < MaxDepth, isAdmin, RenderReplies(store, names, c.replies, postId, isAdmin, depth + 1, rank, rank[id]))
  }

  /** `comment.replies.map((replyId) => <CommentThread ... depth={depth + 1} />)`; `bound`
      is the rank of the parent, above the rank of every resolved reply. */
  function RenderReplies(store: Store, names: Profiles, ids: seq<int>, postId: int, isAdmin: bool, depth: nat,
                         ghost rank: map<int, nat>, ghost bound: nat): (ts: seq<Thread>)
    requires Ranked(store, rank)
    requires forall i :: 0 <= i < |ids| && ids[i] in store ==> ids[i] in rank && rank[ids[i]] < bound
    ensures |ts| == |ids|
    ensures forall i :: 0 <= i < |ids| ==> ts[i].id == ids[i] && (ts[i].Shown? <==> ids[i] in store)
    ensures forall i :: 0 <= i < |ids| && ts[i].Shown? ==> ts[i].depth == depth && ts[i].postId == postId
    ensures forall i :: 0 <= i < |ids| ==> ts[i] == RenderThread(store, names, ids[i], postId, isAdmin, depth, rank)
    decreases bound, |ids| + 1
  {
    if ids == [] then []
    else [RenderThread(store, names, ids[0], postId, isAdmin, depth, rank)]
         + RenderReplies(store, names, ids[1..], postId, isAdmin, depth, rank, bound)
  }

  /** A thread and every thread below it, parents first. */
  function Subtree(t: Thread): seq<Thread>
    decreases t, 1
  {
    match t
    case Nothing(_) => [t]
    case Shown(_, _, _, _, _, _, _, replies) => [t] + Subtrees(replies)
  }

  function Subtrees(ts: seq<Thread>): seq<Thread>
    decreases ts, 0
  {
    if ts == [] then [] else Subtree(ts[0]) + Subtrees(ts[1..])
  }

  /** What every shown thread below a render of `ids` satisfies. */
  ghost predicate WellRendered(store: Store, below: seq<Thread>, postId: int, depth: nat, rank: map<int, nat>, bound: nat)
    requires Ranked(store, rank)
  {
    forall m :: m in below && m.Shown? ==>
      m.id in store && rank[m.id] < bound && m.depth >= depth && m.postId == postId
      && m.replyButton == (m.depth < MaxDepth)
  }

  lemma {:induction false} RenderRepliesFacts(store: Store, names: Profiles, ids: seq<int>, postId: int, isAdmin: bool,
                                              depth: nat, rank: map<int, nat>, bound: nat)
    requires Ranked(store, rank)
    requires forall i :: 0 <= i < |ids| && ids[i] in store ==> ids[i] in rank && rank[ids[i]] < bound
    ensures WellRendered(store, Subtrees(RenderReplies(store, names, ids, postId, isAdmin, depth, rank, bound)),
                         postId, depth, rank, bound)
    decreases bound, |ids| + 1
  {
    var ts := RenderReplies(store, names, ids, postId, isAdmin, depth, rank, bound);
    if ids != [] {
      var head := RenderThread(store, names, ids[0], postId, isAdmin, depth, rank);
      var tail := RenderReplies(store, names, ids[1..], postId, isAdmin, depth, rank, bound);
      assert ts[0] == head && ts[1..] == tail;
      assert Subtrees(ts) == Subtree(head) + Subtrees(tail);
      RenderRepliesFacts(store, names, ids[1..], postId, isAdmin, depth, rank, bound);
      if ids[0] in store {
        RenderThreadFacts(store, names, ids[0], postId, isAdmin, depth, rank);
      }
    }
  }

  lemma {:induction false} RenderThreadFacts(store: Store, names: Profiles, id: int, postId: int, isAdmin: bool,
                                             depth: nat, rank: map<int, nat>)
    requires Ranked(store, rank)
    requires id in store
    ensures WellRendered(store, Subtree(RenderThread(store, names, id, postId, isAdmin, depth, rank)),
                         postId, depth, rank, rank[id] + 1)
    ensures WellRendered(store, Subtrees(RenderThread(store, names, id, postId, isAdmin, depth, rank).replies),
                         postId, depth + 1, rank, rank[id])
    decreases rank[id] + 1, 0
  {
    var c := store[id];
    RepliesRankLower(store, rank, id);
    RenderRepliesFacts(store, names, c.replies, postId, isAdmin, depth + 1, rank, rank[id]);
  }

  /** Rendering a thread resolves the whole reply tree below it without revisiting an
      ancestor: every comment shown below a comment has a different id and a greater
      depth; every shown comment is rendered with the root's `postId`; the Reply button
      appears exactly on the comments above depth 3, and replies below that depth are
      still shown. */
  lemma ThreadTree(store: Store, names: Profiles, id: int, postId: int, isAdmin: bool, depth: nat, rank: map<int, nat>)
    requires Ranked(store, rank)
    ensures id !in store ==> Subtree(RenderThread(store, names, id, postId, isAdmin, depth, rank)) == [Nothing(id)]
    ensures forall m :: m in Subtree(RenderThread(store, names, id, postId, isAdmin, depth, rank)) && m.Shown? ==>
      m.id in store && m.postId == postId && m.depth >= depth && m.replyButton == (m.depth < MaxDepth)
    ensures id in store ==>
      forall m :: m in Subtrees(RenderThread(store, names, id, postId, isAdmin, depth, rank).replies) && m.Shown? ==>
        m.id != id && m.depth > depth
  {
    if id in store {
      RenderThreadFacts(store, names, id, postId, isAdmin, depth, rank);
    }
  }

  /** The Reply button: present at depth 2, absent at depth 3 and below. */
  lemma ReplyButtonBoundary(store: Store, names: Profiles, id: int, postId: int, isAdmin: bool, rank: map<int, nat>)
    requires Ranked(store, rank) && id in store
    ensures RenderThread(store, names, id, postId, isAdmin, 2, rank).replyButton
    ensures forall d: nat :: d >= 3 ==> !RenderThread(store, names, id, postId, isAdmin, d, rank).replyButton
  {
  }

  /** The state a thread's reply form keeps. */
  class ReplyForm {
    var showReplyForm: bool
    var replyText: string

    constructor ()
      ensures !showReplyForm && replyText == ""
    {
      showReplyForm := false;
      replyText := "";
    }

    /** The Reply button; it only exists above depth 3. */
    method ToggleReplyForm(depth: nat)
      requires depth < MaxDepth
      modifies this`showReplyForm
      ensures showReplyForm == !old(showReplyForm)
    {
      showReplyForm := !showReplyForm;
    }

    method EditReply(text: string)
      modifies this`replyText
      ensures replyText == text
    {
      replyText := text;
    }

    /** `handleReply` on the thread of `commentId`: `outcome` is how `addComment` settled. */
    method HandleReply(v: Viewer, commentId: int, postId: int, outcome: Outcome) returns (r: ReplyResult)
      modifies this`showReplyForm, this`replyText
      ensures !IsAuthenticated(v) ==> r == Refused("Please log in to reply")
      ensures IsAuthenticated(v) && !HasCompleteProfile(v) ==> r == Refused("Please complete your profile before replying")
      ensures HasCompleteProfile(v) && IsBlank(old(replyText)) ==> r == Ignored
      ensures HasCompleteProfile(v) && !IsBlank(old(replyText)) ==>
        r == Sent(AddCommentRequest(postId, Trim(old(replyText)), Some(commentId)), outcome)
      ensures r.Sent? && outcome.Resolved? ==> replyText == "" && !showReplyForm
      ensures !(r.Sent? && outcome.Resolved?) ==>
        replyText == old(replyText) && showReplyForm == old(showReplyForm)
    {
      var check := CheckViewer(v);
      if check == Some(NotLoggedIn) {
        return Refused("Please log in to reply");
      }
      if check == Some(IncompleteProfile) {
        return Refused("Please complete your profile before replying");
      }
      if IsBlank(replyText) {
        return Ignored;
      }
      var request := AddCommentRequest(postId, Trim(replyText), Some(commentId));
      if outcome.Resolved? {
        replyText := "";
        showReplyForm := false;
      }
      return Sent(request, outcome);
    }
  }

  /** How a reply or comment submit ended: a toast, a silent return, or a request sent. */
  datatype ReplyResult = Refused(message: string) | Ignored | Sent(request: AddCommentRequest, outcome: Outcome)

  /** The area under the Reply button: nothing while the form is hidden, otherwise the
      log-in prompt, the profile prompt or the form. */
  function ReplyArea(showReplyForm: bool, v: Viewer): Option<Prompt> {
    if showReplyForm then Some(PromptFor(v)) else None
  }

  /** `canReply`; the reply input is disabled while a reply is pending or when the viewer
      cannot reply, and the send button also when the text is blank. */
  predicate ReplyInputDisabled(v: Viewer, pending: bool) {
    pending || !(IsAuthenticated(v) && HasCompleteProfile(v))
  }

  predicate ReplySendDisabled(v: Viewer, pending: bool, text: string) {
    pending || IsBlank(text) || !(IsAuthenticated(v) && HasCompleteProfile(v))
  }

  /** An enabled send button means the reply passes every check of `handleReply`. */
  lemma ReplySendEnabledSubmits(v: Viewer, pending: bool, text: string)
    requires !ReplySendDisabled(v, pending, text)
    ensures CheckViewer(v) == None && !IsBlank(text) && !AllSpace(text)
  {
    BlankIffAllSpace(text);
  }

  /** The reply area agrees with `handleReply`'s checks: it is empty exactly while the form
      is hidden, shows the log-in prompt exactly for a viewer the handler would refuse as
      logged out, the profile prompt only for one it would refuse for the profile, and the
      form with a failing check only while a `null` profile reloads. The reply input is
      enabled exactly when both checks pass and nothing is pending. */
  lemma ReplyAreaAgrees(showReplyForm: bool, v: Viewer, pending: bool)
    ensures ReplyArea(showReplyForm, v).None? <==> !showReplyForm
    ensures ReplyArea(showReplyForm, v) == Some(LogInPrompt) <==> showReplyForm && CheckViewer(v) == Some(NotLoggedIn)
    ensures ReplyArea(showReplyForm, v) == Some(ProfilePrompt) ==> CheckViewer(v) == Some(IncompleteProfile)
    ensures ReplyArea(showReplyForm, v) == Some(Composer) && CheckViewer(v).Some? ==>
      v.profile == NoProfile && v.profileLoading
    ensures !ReplyInputDisabled(v, pending) <==> CheckViewer(v) == None && !pending
  {
    PromptPrecedence(v);
    PromptAgreesWithCheck(v);
  }
}
