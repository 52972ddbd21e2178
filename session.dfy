/**
 * The authentication context: how each identity-change callback, together
 * with the result of the profile lookup it starts, sets the signed-in `user`
 * and the `loading` flag that every page reads.
 */
module Session {
  import opened Base

  /** The identity the authentication service hands to the callback. */
  datatype Identity = Identity(
    uid: string,
    email: Option<string>,
    displayName: Option<string>,
    photoURL: Option<string>,
    emailVerified: bool,
    /** The `providerId` of every linked sign-in method. */
    providerIds: seq<string>)

  /** The fields of the `users/<uid>` document the callback reads; either may be absent. */
  datatype ProfileDoc = ProfileDoc(fullName: Option<string>, role: Option<string>)

  /** What the profile lookup does: returns an existing document, a missing one, or throws. */
  datatype Lookup = Found(doc: ProfileDoc) | Missing | Failed

  datatype UserData = UserData(
    uid: string,
    email: Option<string>,
    displayName: Option<string>,
    photoURL: Option<string>,
    role: string)

  const DefaultRole := "resource"

  /** JavaScript truthiness of a `string | null`: null and "" are falsy. */
  predicate Truthy(v: Option<string>) {
    v.Some? && v.value != []
  }

  /** An email/password identity whose address is not verified yet is turned away without a lookup. */
  predicate NeedsVerification(id: Identity) {
    "password" in id.providerIds && !id.emailVerified
  }

  /** The user the callback builds from an identity and its lookup (63-81, 85-95). */
  function UserFromLookup(id: Identity, lookup: Lookup): UserData {
    match lookup
    case Found(doc) =>
      UserData(
        id.uid, id.email,
        if Truthy(id.displayName) then id.displayName else if Truthy(doc.fullName) then doc.fullName else None,
        id.photoURL,
        if Truthy(doc.role) then doc.role.value else DefaultRole)
    case Missing => UserData(id.uid, id.email, id.displayName, id.photoURL, DefaultRole)
    case Failed => UserData(id.uid, id.email, id.displayName, id.photoURL, DefaultRole)
  }

  /** The `user` a callback leaves once its branch completes (46-98). */
  function SessionUser(event: Option<Identity>, lookup: Lookup): Option<UserData> {
    match event
    case None => None
    case Some(id) => if NeedsVerification(id) then None else Some(UserFromLookup(id, lookup))
  }

  /** `user?.role === "admin"`. */
  predicate IsAdminUser(user: Option<UserData>) {
    user.Some? && user.value.role == "admin"
  }

  /** No identity, or an unverified email/password identity, means no user; any other identity gives one. */
  lemma SessionUserPresence(event: Option<Identity>, lookup: Lookup)
    ensures SessionUser(event, lookup).Some? <==> event.Some? && !NeedsVerification(event.value)
  {
  }

  /** The user keeps the identity's uid, email and photo, whatever the lookup did. */
  lemma UserKeepsIdentity(id: Identity, lookup: Lookup)
    ensures var u := UserFromLookup(id, lookup);
      u.uid == id.uid && u.email == id.email && u.photoURL == id.photoURL
  {
  }

  /** Only a stored role can make a user an admin: a missing document or a failed lookup gives the default role. */
  lemma AdminOnlyFromStoredRole(event: Option<Identity>, lookup: Lookup)
    ensures IsAdminUser(SessionUser(event, lookup)) <==>
      event.Some? && !NeedsVerification(event.value) && lookup.Found? && lookup.doc.role == Some("admin")
  {
  }

  /** The role is never empty: a falsy stored role falls back to "resource". */
  lemma RoleNeverEmpty(id: Identity, lookup: Lookup)
    ensures UserFromLookup(id, lookup).role != []
    ensures !lookup.Found? || !Truthy(lookup.doc.role) ==> UserFromLookup(id, lookup).role == DefaultRole
  {
  }

  /** With a document, the name shown is the identity's, else the stored full name, and never the empty string. */
  lemma DisplayNameFallback(id: Identity, doc: ProfileDoc)
    ensures var n := UserFromLookup(id, Found(doc)).displayName;
      && (Truthy(id.displayName) ==> n == id.displayName)
      && (!Truthy(id.displayName) && Truthy(doc.fullName) ==> n == doc.fullName)
      && (n == None <==> !Truthy(id.displayName) && !Truthy(doc.fullName))
      && (n.Some? ==> n.value != [])
  {
  }

  class AuthProvider {
    var user: Option<UserData>
    var loading: bool
    /** Identities whose profile lookup is awaited, in the order their callbacks ran. */
    var pendingLookups: seq<Identity>
    /** The finally-block timers that will set `loading` to false and have not fired yet. */
    var armedLoadingTimers: nat
    /** How many callbacks have finished their branching. */
    ghost var completedCallbacks: nat

    /**
     * `loading` is false only after some callback finished, every armed timer
     * belongs to one, and only identities that passed the verification gate wait.
     */
    ghost predicate Valid()
      reads this
    {
      && (!loading ==> completedCallbacks > 0)
      && armedLoadingTimers <= completedCallbacks
      && (forall i :: 0 <= i < |pendingLookups| ==> !NeedsVerification(pendingLookups[i]))
    }

    predicate IsAdmin()
      reads this
    {
      IsAdminUser(user)
    }

    constructor ()
      ensures Valid()
      ensures user == None && loading && pendingLookups == [] && armedLoadingTimers == 0
    {
      user, loading, pendingLookups, armedLoadingTimers := None, true, [], 0;
      completedCallbacks := 0;
    }

    /**
     * The callback runs for `event`. No identity: the user is cleared. An
     * unverified email/password identity: the user is cleared and `loading`
     * drops at once. Otherwise the profile lookup starts and the callback waits.
     */
    method OnAuthStateChanged(event: Option<Identity>)
      requires Valid()
      modifies this
      ensures Valid()
      ensures event.Some? && !NeedsVerification(event.value) ==>
        && user == old(user) && loading == old(loading)
        && pendingLookups == old(pendingLookups) + [event.value]
        && armedLoadingTimers == old(armedLoadingTimers)
      ensures event.None? || NeedsVerification(event.value) ==>
        && user == None
        && loading == (old(loading) && event.None?)
        && pendingLookups == old(pendingLookups)
        && armedLoadingTimers == old(armedLoadingTimers) + 1
    {
      if event.None? {
        user := None;
      } else if NeedsVerification(event.value) {
        user := None;
        loading := false;
      } else {
        pendingLookups := pendingLookups + [event.value];
        return;
      }
      completedCallbacks := completedCallbacks + 1;
      armedLoadingTimers := armedLoadingTimers + 1;
    }

    /**
     * The lookup started by the `k`-th waiting callback settles. Its result is
     * applied whatever callbacks ran since: nothing discards a stale lookup.
     */
    method LookupSettled(k: nat, lookup: Lookup)
      requires Valid() && k < |pendingLookups|
      modifies this
      ensures Valid()
      ensures user == Some(UserFromLookup(old(pendingLookups)[k], lookup))
      ensures user == SessionUser(Some(old(pendingLookups)[k]), lookup)
      ensures pendingLookups == old(pendingLookups)[..k] + old(pendingLookups)[k + 1..]
      ensures loading == old(loading) && armedLoadingTimers == old(armedLoadingTimers) + 1
    {
      user := Some(UserFromLookup(pendingLookups[k], lookup));
      pendingLookups := pendingLookups[..k] + pendingLookups[k + 1..];
      completedCallbacks := completedCallbacks + 1;
      armedLoadingTimers := armedLoadingTimers + 1;
    }

    /** A finally-block timer fires and sets `loading` to false; with none armed nothing happens. */
    method LoadingTimerFired()
      requires Valid()
      modifies this
      ensures Valid()
      ensures loading == (old(loading) && old(armedLoadingTimers) == 0)
      ensures armedLoadingTimers == if old(armedLoadingTimers) > 0 then old(armedLoadingTimers) - 1 else 0
      ensures user == old(user) && pendingLookups == old(pendingLookups)
    {
      if armedLoadingTimers > 0 {
        loading := false;
        armedLoadingTimers := armedLoadingTimers - 1;
      }
    }
  }

  /** A lookup for a signed-out identity still lands after the sign-out: the later state is overwritten. */
  method StaleLookupOverwritesSignOut(id: Identity)
    requires !NeedsVerification(id)
  {
    var auth := new AuthProvider();
    auth.OnAuthStateChanged(Some(id));
    auth.OnAuthStateChanged(None);
    assert auth.user == None;
    auth.LookupSettled(0, Missing);
    assert auth.user == Some(UserData(id.uid, id.email, id.displayName, id.photoURL, DefaultRole));
    auth.LoadingTimerFired();
    auth.LoadingTimerFired();
    assert !auth.loading && auth.user.Some?;
  }
}
