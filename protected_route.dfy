/** components/ProtectedRoute.tsx: the client-side gate around the admin pages. Its
    effect runs whenever the session status changes; its `isAuthorized` flag decides,
    with the status, whether the page or a spinner is shown. */
module ProtectedRoute {

  /** `useSession().status` */
  datatype Status = Loading | Unauthenticated | Authenticated

  /** One run of the effect: the status and whether `useSession().data` is set. */
  datatype Observation = Observation(status: Status, hasSession: bool)

  /** What the effect does: nothing while loading; a `router.replace` to the login page
      without a session; otherwise it sets the flag. */
  datatype Action = Wait | ToLogin | Authorize

  function Decide(o: Observation): (a: Action)
    ensures a == Wait <==> o.status == Loading
    ensures a == ToLogin <==> o.status != Loading && (o.status == Unauthenticated || !o.hasSession)
    ensures a == Authorize <==> o.status.Authenticated? && o.hasSession
  {
    if o.status == Loading then Wait
    else if o.status == Unauthenticated || !o.hasSession then ToLogin
    else Authorize
  }

  /** The flag after one run of the effect. */
  function Next(flag: bool, o: Observation): bool {
    flag || Decide(o) == Authorize
  }

  /** The flag after a history of runs, from the initial `useState(false)`. */
  function Final(flag: bool, history: seq<Observation>): bool
    decreases |history|
  {
    if history == [] then flag else Final(Next(flag, history[0]), history[1..])
  }

  /** Children are shown only when the status is not loading and the flag is set. */
  predicate ShowsChildren(status: Status, flag: bool) {
    status != Loading && flag
  }

  /** The flag is set exactly when some run saw a session with the status not loading
      and not unauthenticated; it is never cleared again. */
  lemma {:induction false} FinalIff(flag: bool, history: seq<Observation>)
    ensures Final(flag, history) <==>
      (flag || exists i :: 0 <= i < |history| && Decide(history[i]) == Authorize)
    decreases |history|
  {
    if history != [] {
      FinalIff(Next(flag, history[0]), history[1..]);
      if Final(flag, history) && !flag && Decide(history[0]) != Authorize {
        var i :| 0 <= i < |history| - 1 && Decide(history[1..][i]) == Authorize;
        assert Decide(history[i + 1]) == Authorize;
      }
      if exists i :: 0 <= i < |history| && Decide(history[i]) == Authorize {
        var i :| 0 <= i < |history| && Decide(history[i]) == Authorize;
        if i > 0 {
          assert Decide(history[1..][i - 1]) == Authorize;
        }
      }
    }
  }

  /** Once the gate has opened, a later sign-out does not close it: the status turns
      unauthenticated, the effect redirects, and the page is still rendered meanwhile
      with the stale flag. */
  lemma StaleAfterSignOut(history: seq<Observation>, i: nat)
    requires i < |history| && Decide(history[i]) == Authorize
    ensures Final(false, history + [Observation(Unauthenticated, false)])
    ensures ShowsChildren(Unauthenticated, Final(false, history + [Observation(Unauthenticated, false)]))
  {
    var h := history + [Observation(Unauthenticated, false)];
    assert h[i] == history[i];
    FinalIff(false, h);
  }

  /** The component's state: the flag and the routes it replaced the page with. */
  class Gate {
    var authorized: bool
    var redirects: seq<string>

    constructor ()
      ensures !authorized && redirects == []
    {
      authorized := false;
      redirects := [];
    }

    /** The effect body for one observation. */
    method Effect(o: Observation)
      modifies this
      ensures authorized == Next(old(authorized), o)
      ensures redirects == old(redirects) + (if Decide(o) == ToLogin then ["/admin/login"] else [])
    {
      if o.status == Loading {
        return;
      }
      if o.status == Unauthenticated || !o.hasSession {
        redirects := redirects + ["/admin/login"];
        return;
      }
      authorized := true;
    }

    /** Whether the render shows the children rather than the spinner. */
    function Renders(status: Status): bool
      reads this
    {
      ShowsChildren(status, authorized)
    }
  }
}
