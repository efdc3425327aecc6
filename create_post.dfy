/** CreatePostDialog: the image selection (at most four previews), the ordered checks of
    a submit, the request it sends, and the dialog's open/close guard. */
module CreatePost {
  import opened Wrappers
  import opened Backend
  import opened Session
  import opened Text

  const MaxImages := 4

  const TooManyImages := "Maximum 4 images allowed per post"

  /** A file chosen in the file input. */
  datatype File = File(name: string, bytes: seq<bv8>)

  /** A selected image: the file and the data URL the file reader produced for it. */
  datatype ImagePreview = ImagePreview(file: File, preview: string)

  datatype CreatePostRequest = CreatePostRequest(metadata: PostMetadata, images: seq<ExternalBlob>)

  /** The checks of `handleSubmit`, each with its toast. */
  datatype SubmitError = LogInRequired | ProfileRequired | CaptionRequired | ImageRequired

  function Message(e: SubmitError): string {
    match e
    case LogInRequired => "Please log in to create a post"
    case ProfileRequired => "Please complete your profile before posting"
    case CaptionRequired => "Post caption is required"
    case ImageRequired => "Please add at least one image"
  }

  /** `handleSubmit`'s early returns, in their order: logged in, complete profile,
      non-blank caption, at least one image. */
  function CheckSubmit(v: Viewer, description: string, previews: seq<ImagePreview>): Option<SubmitError> {
    match CheckViewer(v)
    case Some(NotLoggedIn) => Some(LogInRequired)
    case Some(IncompleteProfile) => Some(ProfileRequired)
    case None =>
      if IsBlank(description) then Some(CaptionRequired)
      else if |previews| == 0 then Some(ImageRequired)
      else None
  }

  /** A post is sent exactly when all four checks pass, and the error reported is that of
      the first check that fails: a logged-out viewer is told to log in whatever else is
      missing, a caption error hides a missing image. */
  lemma CheckSubmitOrder(v: Viewer, description: string, previews: seq<ImagePreview>)
    ensures CheckSubmit(v, description, previews) == None
      <==> HasCompleteProfile(v) && !AllSpace(description) && |previews| > 0
    ensures !IsAuthenticated(v) ==> CheckSubmit(v, description, previews) == Some(LogInRequired)
    ensures IsAuthenticated(v) && v.profile == NoProfile ==> CheckSubmit(v, description, previews) == Some(ProfileRequired)
    ensures HasCompleteProfile(v) && AllSpace(description) ==> CheckSubmit(v, description, previews) == Some(CaptionRequired)
    ensures HasCompleteProfile(v) && !AllSpace(description) && previews == [] ==>
      CheckSubmit(v, description, previews) == Some(ImageRequired)
  {
    BlankIffAllSpace(description);
  }

  /** `prev.filter((_, i) => i !== index)`. */
  function RemoveAt(previews: seq<ImagePreview>, index: int): seq<ImagePreview> {
    if 0 <= index < |previews| then previews[..index] + previews[index + 1..] else previews
  }

  /** Removing drops exactly the preview at `index` and keeps the others in order; an index
      outside the list removes nothing. */
  lemma RemoveAtSpec(previews: seq<ImagePreview>, index: int)
    ensures 0 <= index < |previews| ==> |RemoveAt(previews, index)| == |previews| - 1
    ensures !(0 <= index < |previews|) ==> RemoveAt(previews, index) == previews
    ensures forall j :: 0 <= j < |RemoveAt(previews, index)| ==>
      RemoveAt(previews, index)[j] == previews[if 0 <= index <= j then j + 1 else j]
    ensures 0 <= index < |previews| ==>
      multiset(RemoveAt(previews, index)) + multiset{previews[index]} == multiset(previews)
  {
    if 0 <= index < |previews| {
      var before, after := previews[..index], previews[index + 1..];
      assert previews == before + [previews[index]] + after;
      assert RemoveAt(previews, index) == before + after;
      assert multiset(previews) == multiset(before) + multiset{previews[index]} + multiset(after);
    }
  }

  function FilesOf(previews: seq<ImagePreview>): (files: seq<File>)
    ensures |files| == |previews|
    ensures forall i :: 0 <= i < |previews| ==> files[i] == previews[i].file
  {
    if previews == [] then [] else [previews[0].file] + FilesOf(previews[1..])
  }

  lemma {:induction false} FilesOfAppend(a: seq<ImagePreview>, b: seq<ImagePreview>)
    ensures FilesOf(a + b) == FilesOf(a) + FilesOf(b)
  {
    if a != [] {
      FilesOfAppend(a[1..], b);
      assert (a + b)[1..] == a[1..] + b;
    } else {
      assert a + b == b;
    }
  }

  /** The loop of `handleSubmit` that turns each selected file into a blob of its bytes,
      in the order of the previews. */
  method ReadBlobs(previews: seq<ImagePreview>) returns (blobs: seq<ExternalBlob>)
    ensures |blobs| == |previews|
    ensures forall i :: 0 <= i < |previews| ==> blobs[i] == FromBytes(previews[i].file.bytes)
  {
    blobs := [];
    var k := 0;
    while k < |previews|
      invariant 0 <= k <= |previews|
      invariant |blobs| == k
      invariant forall i :: 0 <= i < k ==> blobs[i] == FromBytes(previews[i].file.bytes)
    {
      blobs := blobs + [FromBytes(previews[k].file.bytes)];
      k := k + 1;
    }
  }

  /** How a submit ended: refused by a check (nothing is sent), or sent with the backend's outcome. */
  datatype SubmitResult = Refused(error: SubmitError) | Sent(request: CreatePostRequest, outcome: Outcome)

  /** Shown instead of the form: see `Session.PromptFor`. The Share button is disabled while
      submitting, with no image, or with a blank caption. */
  predicate SubmitDisabled(isSubmitting: bool, description: string, previews: seq<ImagePreview>) {
    isSubmitting || |previews| == 0 || IsBlank(description)
  }

  /** The Share button is enabled only when the caption and image checks of the submit pass. */
  lemma SubmitDisabledAgrees(v: Viewer, isSubmitting: bool, description: string, previews: seq<ImagePreview>)
    requires HasCompleteProfile(v)
    ensures !SubmitDisabled(isSubmitting, description, previews) ==> CheckSubmit(v, description, previews) == None
    ensures !isSubmitting ==> (SubmitDisabled(isSubmitting, description, previews) <==> CheckSubmit(v, description, previews) != None)
  {
  }

  /** `canAddMore` hides the file input once four images are selected: a one-file batch
      is accepted exactly while it is shown, and any batch picked without it is refused
      by `handleImageChange`. */
  lemma CanAddMoreAgrees(d: Dialog, files: seq<File>)
    requires d.Valid()
    ensures d.CanAddMore() <==> |d.imagePreviews| + 1 <= MaxImages
    ensures !d.CanAddMore() && files != [] ==> |d.imagePreviews| + |files| > MaxImages
  {
  }

  class Dialog {
    var open: bool
    var description: string
    var imagePreviews: seq<ImagePreview>
    var uploadProgress: int

    /** The selection never holds more than four images. */
    ghost predicate Valid()
      reads this
    {
      |imagePreviews| <= MaxImages
    }

    /** `canAddMore`: the file input is offered only while fewer than four images are selected. */
    predicate CanAddMore()
      reads this
    {
      |imagePreviews| < MaxImages
    }

    constructor ()
      ensures Valid()
      ensures !open && description == "" && imagePreviews == [] && uploadProgress == 0
    {
      open := false;
      description := "";
      imagePreviews := [];
      uploadProgress := 0;
    }

    /** The caption textarea's `onChange`. */
    method EditDescription(text: string)
      modifies this`description
      ensures description == text
    {
      description := text;
    }

    /** `handleImageChange`: `files` are the files picked; `arrivals` are their previews in
        the order the file reader finished them, each pushed as it arrives, and the whole
        batch is appended once the last one has arrived. A batch that would take the
        selection past four is refused before any file is read. */
    method HandleImageChange(files: seq<File>, arrivals: seq<ImagePreview>) returns (err: Option<string>)
      requires Valid()
      requires |arrivals| == |files| && multiset(FilesOf(arrivals)) == multiset(files)
      modifies this`imagePreviews
      ensures Valid()
      ensures |old(imagePreviews)| + |files| > MaxImages ==>
        err == Some(TooManyImages) && imagePreviews == old(imagePreviews)
      ensures |old(imagePreviews)| + |files| <= MaxImages ==>
        err == None && imagePreviews == old(imagePreviews) + arrivals
      ensures multiset(FilesOf(imagePreviews)) ==
        multiset(FilesOf(old(imagePreviews))) + (if err == None then multiset(files) else multiset{})
    {
      if |imagePreviews| + |files| > MaxImages {
        return Some(TooManyImages);
      }
      var newPreviews: seq<ImagePreview> := [];
      var k := 0;
      while k < |arrivals|
        invariant 0 <= k <= |arrivals|
        invariant newPreviews == arrivals[..k]
        invariant imagePreviews == if 0 < k == |files| then old(imagePreviews) + newPreviews else old(imagePreviews)
      {
        newPreviews := newPreviews + [arrivals[k]];
        if |newPreviews| == |files| {
          imagePreviews := imagePreviews + newPreviews;
        }
        k := k + 1;
      }
      assert arrivals[..k] == arrivals;
      assert old(imagePreviews) + [] == old(imagePreviews);
      FilesOfAppend(old(imagePreviews), arrivals);
      return None;
    }

    /** `removeImage(index)`. */
    method RemoveImage(index: int)
      requires Valid()
      modifies this`imagePreviews
      ensures Valid()
      ensures imagePreviews == RemoveAt(old(imagePreviews), index)
    {
      imagePreviews := RemoveAt(imagePreviews, index);
    }

    /** `handleSubmit`. `progress` holds the percentages the blob upload reports while the
        post is sent; `outcome` is how the backend call settled. */
    method HandleSubmit(v: Viewer, progress: seq<int>, outcome: Outcome) returns (r: SubmitResult)
      requires Valid()
      modifies this`open, this`description, this`imagePreviews, this`uploadProgress
      ensures Valid()
      ensures CheckSubmit(v, old(description), old(imagePreviews)) != None ==>
        r == Refused(CheckSubmit(v, old(description), old(imagePreviews)).value)
        && open == old(open) && description == old(description)
        && imagePreviews == old(imagePreviews) && uploadProgress == old(uploadProgress)
      ensures CheckSubmit(v, old(description), old(imagePreviews)) == None ==>
        r.Sent? && r.outcome == outcome
        && r.request.metadata == PostMetadata(Trim(old(description)), v.identity)
        && |r.request.images| == |old(imagePreviews)|
        && (forall i :: 0 <= i < |old(imagePreviews)| ==>
              r.request.images[i] == FromBytes(old(imagePreviews)[i].file.bytes))
      ensures r.Sent? && outcome.Resolved? ==>
        !open && description == "" && imagePreviews == [] && uploadProgress == 0
      ensures r.Sent? && outcome.Rejected? ==>
        open == old(open) && description == old(description) && imagePreviews == old(imagePreviews)
        && uploadProgress == (if progress == [] then old(uploadProgress) else progress[|progress| - 1])
    {
      var check := CheckSubmit(v, description, imagePreviews);
      if check.Some? {
        return Refused(check.value);
      }
      var blobs := ReadBlobs(imagePreviews);
      var request := CreatePostRequest(PostMetadata(Trim(description), v.identity), blobs);
      if progress != [] {
        uploadProgress := progress[|progress| - 1];
      }
      if outcome.Resolved? {
        open := false;
        description := "";
        imagePreviews := [];
        uploadProgress := 0;
      }
      return Sent(request, outcome);
    }

    /** `handleOpenChange`: opening needs a logged-in viewer whose profile is complete or
        still loading; closing is always allowed. */
    method HandleOpenChange(v: Viewer, newOpen: bool) returns (err: Option<string>)
      modifies this`open
      ensures newOpen && !IsAuthenticated(v) ==>
        err == Some(Message(LogInRequired)) && open == old(open)
      ensures newOpen && IsAuthenticated(v) && !HasCompleteProfile(v) && !v.profileLoading ==>
        err == Some(Message(ProfileRequired)) && open == old(open)
      ensures !newOpen || PromptFor(v) == Composer ==> err == None && open == newOpen
    {
      if newOpen && !IsAuthenticated(v) {
        return Some(Message(LogInRequired));
      }
      if newOpen && !HasCompleteProfile(v) && !v.profileLoading {
        return Some(Message(ProfileRequired));
      }
      open := newOpen;
      return None;
    }

    /** The Cancel button. */
    method Cancel()
      modifies this`open
      ensures !open
    {
      open := false;
    }
  }
}
