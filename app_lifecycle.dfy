/** The process-wide session flag and the lifecycle observer that re-locks the app: going to
    the background clears the flag, and coming back sends the user to PIN entry when a PIN
    exists and the current screen is not one of the open ones. */
module Lifecycle {
  import opened Wrappers
  import opened Security
  import opened Navigation

  datatype LifecycleEvent = OnCreate | OnStart | OnResume | OnPause | OnStop | OnDestroy | OnAny

  /** AuthManager: whether the user has entered the PIN in this session; false at start. */
  class AuthManager {
    var isAuthenticated: bool

    constructor ()
      ensures !isAuthenticated
    {
      isAuthenticated := false;
    }
  }

  /** The screens reachable without being authenticated. */
  const OPEN_ROUTES: set<string> := {SPLASH, ONBOARDING, PIN_SETUP, PIN_AUTH}

  /** The redirect test on start. A missing destination is not an open route. */
  predicate NeedsAuth(authenticated: bool, pinSet: bool, currentRoute: Option<string>) {
    && !authenticated
    && pinSet
    && (currentRoute.None? || currentRoute.value !in OPEN_ROUTES)
  }

  /** The PIN screens never redirect, so the redirect cannot send the user round in a loop. */
  lemma NoRedirectFromPinScreens(authenticated: bool, pinSet: bool)
    ensures !NeedsAuth(authenticated, pinSet, Some(PIN_AUTH))
    ensures !NeedsAuth(authenticated, pinSet, Some(PIN_SETUP))
  {
  }

  /** Without a stored PIN there is nothing to verify, and no redirect. */
  lemma NoRedirectWithoutPin(authenticated: bool, currentRoute: Option<string>)
    ensures !NeedsAuth(authenticated, false, currentRoute)
  {
  }

  /** Every protected screen redirects an unauthenticated user once a PIN exists. */
  lemma ProtectedScreensRedirect(route: string)
    requires route in StaticRoutes() && route !in OPEN_ROUTES
    ensures route == MAIN || route == SETTINGS || route == ABOUT
    ensures NeedsAuth(false, true, Some(route))
  {
  }

  /** The observer's reaction to one lifecycle event; the result is the route navigated to. */
  method OnLifecycleEvent(auth: AuthManager, sm: SecurityManager, event: LifecycleEvent, currentRoute: Option<string>)
      returns (redirect: Option<string>)
    requires sm.Valid()
    modifies auth
    ensures event == OnStop ==> !auth.isAuthenticated && redirect.None?
    ensures event == OnStart ==>
              && auth.isAuthenticated == old(auth.isAuthenticated)
              && (redirect.Some? <==> NeedsAuth(old(auth.isAuthenticated), sm.IsPinSet(), currentRoute))
              && (redirect.Some? ==> redirect.value == PIN_AUTH)
    ensures event != OnStop && event != OnStart ==> unchanged(auth) && redirect.None?
    ensures auth.isAuthenticated ==> old(auth.isAuthenticated)
  {
    redirect := None;
    if event == OnStop {
      auth.isAuthenticated := false;
    } else if event == OnStart {
      var needsAuth := !auth.isAuthenticated && sm.IsPinSet() && (currentRoute.None? || currentRoute.value !in OPEN_ROUTES);
      if needsAuth {
        redirect := Some(PIN_AUTH);
      }
    }
  }

  /** The app going to the background and coming back: one stop, then one start. Afterwards
      the user is unauthenticated, and is sent to PIN entry exactly when NeedsAuth holds for an
      unauthenticated user. */
  method StopThenStart(auth: AuthManager, sm: SecurityManager, currentRoute: Option<string>)
      returns (redirect: Option<string>)
    requires sm.Valid()
    modifies auth
    ensures !auth.isAuthenticated
    ensures redirect.Some? <==> sm.IsPinSet() && (currentRoute.None? || currentRoute.value !in OPEN_ROUTES)
    ensures redirect.Some? ==> redirect.value == PIN_AUTH
  {
    var _ := OnLifecycleEvent(auth, sm, OnStop, currentRoute);
    redirect := OnLifecycleEvent(auth, sm, OnStart, currentRoute);
  }
}
