/**
 * The dashboard landing page: when it waits, when it renders, and when it
 * sends a visitor without a session to the login page.
 */
module Home {
  /** The login redirect fires once auth loading is over, there is no user and the grace timer has run. */
  predicate ShouldRedirect(loading: bool, hasUser: bool, authChecked: bool) {
    !loading && !hasUser && authChecked
  }

  /** The page shows its loading text while any of the three waits is outstanding. */
  predicate ShowsLoading(loading: bool, hasUser: bool, authChecked: bool, isLoading: bool) {
    loading || (!hasUser && !authChecked) || isLoading
  }

  /** No redirect happens while the session is loading or before the grace timer has run. */
  lemma NoEarlyRedirect(loading: bool, hasUser: bool, authChecked: bool)
    ensures loading || !authChecked || hasUser ==> !ShouldRedirect(loading, hasUser, authChecked)
  {
  }

  /** Content renders only once both loads are over and either a user is present or the grace timer has run. */
  lemma ContentMeansSettled(loading: bool, hasUser: bool, authChecked: bool, isLoading: bool)
    ensures !ShowsLoading(loading, hasUser, authChecked, isLoading) <==>
      !loading && !isLoading && (hasUser || authChecked)
  {
  }

  /**
   * When the redirect is due, the page body still renders unless its own
   * loading timer is pending: the two conditions overlap.
   */
  lemma RedirectWhileRendering(isLoading: bool)
    ensures ShouldRedirect(false, false, true)
    ensures ShowsLoading(false, false, true, isLoading) <==> isLoading
  {
  }

  class DashboardPage {
    var authChecked: bool
    var isLoading: bool
    /** The 1.5-second grace timer is pending. */
    var authTimerArmed: bool
    /** Every route handed to the router, in order. */
    var navigations: seq<string>

    constructor ()
      ensures !authChecked && isLoading && authTimerArmed && navigations == []
    {
      authChecked, isLoading, authTimerArmed, navigations := false, true, true, [];
    }

    predicate Loading(loading: bool, hasUser: bool)
      reads this
    {
      ShowsLoading(loading, hasUser, authChecked, isLoading)
    }

    /** The session's `loading` changed: the grace timer is cleared and started afresh. */
    method LoadingChanged()
      modifies this
      ensures authTimerArmed
      ensures authChecked == old(authChecked) && isLoading == old(isLoading) && navigations == old(navigations)
    {
      authTimerArmed := true;
    }

    /** The grace timer fires: the auth check counts as done, and stays done. */
    method AuthTimerFired()
      modifies this
      ensures authChecked == (old(authChecked) || old(authTimerArmed)) && !authTimerArmed
      ensures isLoading == old(isLoading) && navigations == old(navigations)
    {
      if authTimerArmed {
        authChecked := true;
        authTimerArmed := false;
      }
    }

    /** The one-second page timer fires. */
    method LoadingTimerFired()
      modifies this
      ensures !isLoading
      ensures authChecked == old(authChecked) && authTimerArmed == old(authTimerArmed) && navigations == old(navigations)
    {
      isLoading := false;
    }

    /** The redirect effect runs with the session's current `loading` and user. */
    method RedirectEffect(loading: bool, hasUser: bool)
      modifies this
      ensures ShouldRedirect(loading, hasUser, authChecked) ==> navigations == old(navigations) + ["/login"]
      ensures !ShouldRedirect(loading, hasUser, authChecked) ==> navigations == old(navigations)
      ensures authChecked == old(authChecked) && isLoading == old(isLoading) && authTimerArmed == old(authTimerArmed)
    {
      if ShouldRedirect(loading, hasUser, authChecked) {
        navigations := navigations + ["/login"];
      }
    }
  }

  /** Before the grace timer fires, a visitor without a user is never redirected, however the session settles. */
  method GraceBeforeRedirect()
  {
    var page := new DashboardPage();
    page.RedirectEffect(false, false);
    page.LoadingTimerFired();
    assert page.navigations == [] && page.Loading(false, false);
    page.AuthTimerFired();
    page.RedirectEffect(false, false);
    assert page.navigations == ["/login"];
  }
}
