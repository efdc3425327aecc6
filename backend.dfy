/** Optional values and results, as the components use `null`/`undefined` and thrown errors. */
module Wrappers {
  datatype Option<+T> = None | Some(value: T) {
    function GetOr(default: T): T {
      match this
      case Some(v) => v
      case None => default
    }
  }

  datatype Result<+T, +E> = Ok(value: T) | Err(error: E)
}

/** The records exchanged with the remote backend (the interface of src/frontend/src/backend.d.ts).
    The backend itself is not part of this model: its answers are parameters of the operations. */
module Backend {
  import opened Wrappers

  /** A principal is identified by its textual form; every comparison in the client is `toString() === toString()`. */
  type Principal = string

  /** Nanoseconds, a bigint. */
  type Time = int

  /** An image blob: created from the bytes of a file, or referring to a URL. */
  datatype ExternalBlob = FromBytes(bytes: seq<bv8>) | FromURL(url: string)

  datatype PostMetadata = PostMetadata(description: string, author: Option<Principal>)

  datatype Comment = Comment(
    id: int,
    content: string,
    author: Principal,
    timestamp: Time,
    replies: seq<int>,
    parentId: Option<int>,
    postId: int)

  datatype NftPost = NftPost(
    id: int,
    metadata: PostMetadata,
    author: Principal,
    timestamp: Time,
    comments: seq<int>,
    images: seq<ExternalBlob>)

  datatype UserProfile = UserProfile(username: string, email: string)

  datatype UserRole = Admin | User | Guest

  /** The arguments of `addComment(postId, content, parentId)`; a top-level comment has no parent. */
  datatype AddCommentRequest = AddCommentRequest(postId: int, content: string, parentId: Option<int>)

  /** How a call to the backend settled: it resolved, or it rejected with a message. */
  datatype Outcome = Resolved | Rejected(message: string)
}
