/** ProfileSetupDialog and EditProfileDialog: two forms over a username and an email that
    save the trimmed pair as the caller's profile. The setup dialog's open flag belongs to
    App (its `onOpenChange` is App's setter); the edit dialog keeps its own. */
module ProfileDialogs {
  import opened Wrappers
  import opened Backend
  import opened Text
  import opened Queries
  import opened AppView

  /** `isFormValid`: both fields have a character other than whitespace. */
  predicate FormValid(username: string, email: string) {
    !IsBlank(username) && !IsBlank(email)
  }

  /** The saved profile: both fields trimmed. */
  function Payload(username: string, email: string): UserProfile {
    UserProfile(Trim(username), Trim(email))
  }

  /** Exactly the forms with a non-whitespace character in each field are valid, and what a
      valid form saves has both fields non-empty, with no whitespace at either end, and is
      unchanged by trimming again. */
  lemma PayloadWellFormed(username: string, email: string)
    ensures FormValid(username, email) <==> !AllSpace(username) && !AllSpace(email)
    ensures FormValid(username, email) ==>
      var p := Payload(username, email);
      p.username != [] && p.email != []
      && !IsSpace(p.username[0]) && !IsSpace(p.username[|p.username| - 1])
      && !IsSpace(p.email[0]) && !IsSpace(p.email[|p.email| - 1])
      && Payload(p.username, p.email) == p
  {
    BlankIffAllSpace(username);
    BlankIffAllSpace(email);
    TrimShape(username);
    TrimShape(email);
    TrimIdempotent(username);
    TrimIdempotent(email);
  }

  /** Both Save buttons are disabled while the save is pending or the form is invalid. */
  predicate SaveDisabled(pending: bool, username: string, email: string) {
    pending || !FormValid(username, email)
  }

  /** An enabled Save button means nothing is pending and both fields have a
      non-whitespace character, so `handleSubmit` saves the trimmed pair, whose fields are
      non-empty; an idle button is disabled exactly when a field is all whitespace. */
  lemma SaveEnabledSaves(pending: bool, username: string, email: string)
    ensures !SaveDisabled(pending, username, email) <==> !pending && !AllSpace(username) && !AllSpace(email)
    ensures !SaveDisabled(pending, username, email) ==>
      FormValid(username, email) && Payload(username, email).username != [] && Payload(username, email).email != []
  {
    PayloadWellFormed(username, email);
  }

  /** How a submit ended: skipped by the validity check, or the save settled as `outcome`. */
  datatype SubmitResult = Skipped | Saved(profile: UserProfile, outcome: Outcome)

  /** The welcome dialog App opens for a caller without a profile. */
  class SetupDialog {
    var username: string
    var email: string

    constructor ()
      ensures username == "" && email == ""
    {
      username := "";
      email := "";
    }

    method EditFields(newUsername: string, newEmail: string)
      modifies this
      ensures username == newUsername && email == newEmail
    {
      username := newUsername;
      email := newEmail;
    }

    /** The `onOpenChange` wrapper: a request to close while the form is invalid is dropped;
        any other request reaches App's setter. */
    method RequestOpenChange(shell: Shell, newOpen: bool)
      modifies shell
      ensures !newOpen && !FormValid(username, email) ==> shell.showProfileSetup == old(shell.showProfileSetup)
      ensures newOpen || FormValid(username, email) ==> shell.showProfileSetup == newOpen
    {
      if !newOpen && !FormValid(username, email) {
        return;
      }
      shell.SetShowProfileSetup(newOpen);
    }

    /** `handleSubmit`: an invalid form is ignored; otherwise the trimmed pair is saved
        through the shared cache and, once the save resolves, App is asked to close the
        dialog and both fields are cleared. A failed save keeps the dialog and the fields. */
    method HandleSubmit(shell: Shell, cache: QueryCache, hasActor: bool, backend: Outcome) returns (r: SubmitResult)
      modifies this, shell, cache
      ensures !FormValid(old(username), old(email)) ==>
        r == Skipped && username == old(username) && email == old(email)
        && shell.showProfileSetup == old(shell.showProfileSetup) && cache.entries == old(cache.entries)
      ensures FormValid(old(username), old(email)) ==>
        r == Saved(Payload(old(username), old(email)), Settled(hasActor, backend))
      ensures r.Saved? && r.outcome.Resolved? ==>
        cache.entries == MarkAllStale(old(cache.entries), Invalidations(SaveProfile(r.profile)))
        && !shell.showProfileSetup && username == "" && email == ""
      ensures r.Saved? && r.outcome.Rejected? ==>
        cache.entries == old(cache.entries) && shell.showProfileSetup == old(shell.showProfileSetup)
        && username == old(username) && email == old(email)
    {
      if !FormValid(username, email) {
        return Skipped;
      }
      var profile := Payload(username, email);
      var outcome, _ := cache.Settle(SaveProfile(profile), hasActor, backend);
      if outcome.Resolved? {
        shell.SetShowProfileSetup(false);
        username := "";
        email := "";
      }
      return Saved(profile, outcome);
    }
  }

  /** A resolved save makes App read the caller's profile again: its cached entry, if
      any, is stale. Every `['userProfile', x]` entry is kept, the caller's own included, so
      the caller's name on their posts and comments is not read again after a save. */
  lemma SaveRefreshesCallerProfile(entries: map<QueryKey, Entry>, p: UserProfile, other: Option<string>)
    ensures KeyOf(CallerProfile) in entries ==> MarkAllStale(entries, Invalidations(SaveProfile(p)))[KeyOf(CallerProfile)].stale
    ensures KeyOf(UserProfileOf(other)) in entries ==>
      MarkAllStale(entries, Invalidations(SaveProfile(p)))[KeyOf(UserProfileOf(other))] == entries[KeyOf(UserProfileOf(other))]
  {
    SettledWriteRefreshes(entries, SaveProfile(p), CallerProfile);
    SettledWriteRefreshes(entries, SaveProfile(p), UserProfileOf(other));
  }

  /** The header's Edit Profile dialog over the caller's current profile. */
  class EditDialog {
    var open: bool
    var username: string
    var email: string
    var currentProfile: UserProfile

    constructor (profile: UserProfile)
      ensures !open && currentProfile == profile
      ensures username == profile.username && email == profile.email
    {
      open := false;
      currentProfile := profile;
      username := profile.username;
      email := profile.email;
    }

    method EditFields(newUsername: string, newEmail: string)
      modifies this`username, this`email
      ensures username == newUsername && email == newEmail
    {
      username := newUsername;
      email := newEmail;
    }

    /** The effect: while the dialog is open, the fields are set from the current profile. */
    method SyncFields()
      modifies this`username, this`email
      ensures open ==> username == currentProfile.username && email == currentProfile.email
      ensures !open ==> username == old(username) && email == old(email)
    {
      if open {
        username := currentProfile.username;
        email := currentProfile.email;
      }
    }

    /** `setOpen` from the trigger, the dialog or Cancel, followed by the effect when the
        flag actually changed: every opening starts from the current profile, whatever
        was typed before, and closing keeps the fields. */
    method SetOpen(newOpen: bool)
      modifies this`open, this`username, this`email
      ensures open == newOpen
      ensures newOpen && !old(open) ==> username == currentProfile.username && email == currentProfile.email
      ensures !(newOpen && !old(open)) ==> username == old(username) && email == old(email)
    {
      var changed := open != newOpen;
      open := newOpen;
      if changed {
        SyncFields();
      }
    }

    /** A new `currentProfile` prop (a fresh object after each refetch) re-runs the effect. */
    method ProfileChanged(profile: UserProfile)
      modifies this`currentProfile, this`username, this`email
      ensures currentProfile == profile
      ensures open ==> username == profile.username && email == profile.email
      ensures !open ==> username == old(username) && email == old(email)
    {
      currentProfile := profile;
      SyncFields();
    }

    /** `handleSubmit`: an invalid form is ignored; otherwise the trimmed pair is saved and
        the dialog closes once the save resolves. The fields are left as typed either way. */
    method HandleSubmit(cache: QueryCache, hasActor: bool, backend: Outcome) returns (r: SubmitResult)
      modifies this`open, cache
      ensures !FormValid(username, email) ==> r == Skipped && open == old(open) && cache.entries == old(cache.entries)
      ensures FormValid(username, email) ==> r == Saved(Payload(username, email), Settled(hasActor, backend))
      ensures r.Saved? && r.outcome.Resolved? ==>
        !open && cache.entries == MarkAllStale(old(cache.entries), Invalidations(SaveProfile(r.profile)))
      ensures r.Saved? && r.outcome.Rejected? ==> open == old(open) && cache.entries == old(cache.entries)
    {
      if !FormValid(username, email) {
        return Skipped;
      }
      var profile := Payload(username, email);
      var outcome, _ := cache.Settle(SaveProfile(profile), hasActor, backend);
      if outcome.Resolved? {
        open := false;
      }
      return Saved(profile, outcome);
    }
  }
}
