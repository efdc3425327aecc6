/** What every component reads about the viewer: the identity (logged in or not) and the
    caller-profile query (data `undefined` / `null` / a profile, plus its loading flag),
    and the two ordered checks every posting or commenting action makes. */
module Session {
  import opened Wrappers
  import opened Backend

  /** `data` of the caller-profile query: `undefined` before any answer, `null` when the
      caller has no profile, or the profile. */
  datatype ProfileData = Unfetched | NoProfile | HasProfile(profile: UserProfile)

  datatype Viewer = Viewer(identity: Option<Principal>, profile: ProfileData, profileLoading: bool)

  /** `!!identity`. */
  predicate IsAuthenticated(v: Viewer) {
    v.identity.Some?
  }

  /** `isAuthenticated && userProfile !== null`: an `undefined` profile passes. */
  predicate HasCompleteProfile(v: Viewer) {
    IsAuthenticated(v) && !v.profile.NoProfile?
  }

  datatype GuardError = NotLoggedIn | IncompleteProfile

  /** The two checks of a submit handler, in their order. */
  function CheckViewer(v: Viewer): (r: Option<GuardError>)
    ensures r == None <==> HasCompleteProfile(v)
    ensures r == Some(NotLoggedIn) <==> !IsAuthenticated(v)
  {
    if !IsAuthenticated(v) then Some(NotLoggedIn)
    else if !HasCompleteProfile(v) then Some(IncompleteProfile)
    else None
  }

  /** Which of the three mutually exclusive blocks a composer area shows. */
  datatype Prompt = LogInPrompt | ProfilePrompt | Composer

  /** `!isAuthenticated ? <log-in alert> : !hasCompleteProfile && !profileLoading ? <profile alert> : <form>`. */
  function PromptFor(v: Viewer): Prompt {
    if !IsAuthenticated(v) then LogInPrompt
    else if !HasCompleteProfile(v) && !v.profileLoading then ProfilePrompt
    else Composer
  }

  /** The log-in prompt takes precedence: a logged-out viewer never sees the profile prompt,
      whatever the profile query says. The profile prompt needs a known missing profile and
      no load in progress. */
  lemma PromptPrecedence(v: Viewer)
    ensures PromptFor(v) == LogInPrompt <==> !IsAuthenticated(v)
    ensures PromptFor(v) == ProfilePrompt <==> IsAuthenticated(v) && v.profile == NoProfile && !v.profileLoading
    ensures PromptFor(v) == Composer <==> IsAuthenticated(v) && (v.profile != NoProfile || v.profileLoading)
  {
  }

  /** The prompts and the submit checks agree: a prompt is shown exactly for the error the
      check would report, and the form is shown with a failing check only while the profile
      is loading after a `null` answer. */
  lemma PromptAgreesWithCheck(v: Viewer)
    ensures PromptFor(v) == LogInPrompt ==> CheckViewer(v) == Some(NotLoggedIn)
    ensures PromptFor(v) == ProfilePrompt ==> CheckViewer(v) == Some(IncompleteProfile)
    ensures PromptFor(v) == Composer && CheckViewer(v).Some? ==> v.profile == NoProfile && v.profileLoading
  {
  }

  /** `profile?.username || 'User'`: an absent profile and an empty username both show 'User'. */
  function DisplayName(p: Option<UserProfile>): (name: string)
    ensures name != []
    ensures p.Some? && p.value.username != [] ==> name == p.value.username
    ensures name == "User" <==> p.None? || p.value.username == [] || p.value.username == "User"
  {
    if p.Some? && p.value.username != [] then p.value.username else "User"
  }
}
