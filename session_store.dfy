/**
 * The session store kept by the provider component: the current session, the
 * `loading` flag and the `isMounted` guard of its effect, with the three
 * events that change them (the initial session fetch resolving, an auth-state
 * change, teardown) and the context value derived from them.
 *
 * `Step` and `Run` give the store's behaviour over any sequence of events;
 * the class `Provider` keeps the same state in fields and each of its
 * methods performs one `Step`.
 */
module SessionStore {
  import opened Backend

  /**
   * The store's state. `fetchPending` (the initial `getSession` has not
   * resolved yet) and `unsubscribes` (calls made to the auth listener's
   * `unsubscribe`) are bookkeeping the source holds implicitly.
   */
  datatype StoreState = StoreState(
    session: Option<Session>,
    loading: bool,
    isMounted: bool,
    fetchPending: bool,
    unsubscribes: nat)

  datatype StoreEvent =
    | SessionFetched(reply: SessionReply)
    /** The event name is passed to the listener and ignored by it. */
    | AuthStateChanged(eventName: string, next: Option<Session>)
    | Unmounted

  /** The state once the effect has run: no session, loading, mounted, fetch in flight, listener subscribed. */
  function Mounted(): (m: StoreState)
    ensures Inv(m)
    ensures m.session.None? && m.loading && m.isMounted && m.fetchPending && m.unsubscribes == 0
  {
    StoreState(None, true, true, true, 0)
  }

  /** What holds of every state the store reaches. */
  predicate Inv(s: StoreState) {
    && (s.loading <==> s.fetchPending)
    && s.unsubscribes == (if s.isMounted then 0 else 1)
  }

  /**
   * The events the runtime can deliver: the single `getSession` promise
   * resolves once, and React runs the effect's cleanup once.
   */
  predicate Enabled(s: StoreState, e: StoreEvent) {
    match e
    case SessionFetched(_) => s.fetchPending
    case AuthStateChanged(_, _) => true
    case Unmounted => s.isMounted
  }

  /** One event applied to the store. */
  function Step(s: StoreState, e: StoreEvent): (t: StoreState)
    ensures !s.loading ==> !t.loading
    ensures e.SessionFetched? ==> !t.loading && !t.fetchPending
    ensures !e.SessionFetched? ==> t.loading == s.loading && t.fetchPending == s.fetchPending
    ensures e.SessionFetched? && e.reply.SessionOk? && s.isMounted ==> t.session == e.reply.session
    ensures e.AuthStateChanged? && s.isMounted ==> t.session == e.next
    ensures !s.isMounted ==> !t.isMounted && t.session == s.session
    ensures e.Unmounted? ==> !t.isMounted && t.unsubscribes == s.unsubscribes + 1
    ensures !e.Unmounted? ==> t.isMounted == s.isMounted && t.unsubscribes == s.unsubscribes
    ensures t.session != s.session ==>
              s.isMounted && (e.AuthStateChanged? || (e.SessionFetched? && e.reply.SessionOk?))
  {
    match e
    case SessionFetched(reply) =>
      s.(session := if reply.SessionOk? && s.isMounted then reply.session else s.session,
         loading := false,
         fetchPending := false)
    case AuthStateChanged(_, next) =>
      if s.isMounted then s.(session := next) else s
    case Unmounted =>
      s.(isMounted := false, unsubscribes := s.unsubscribes + 1)
  }

  /** Every enabled event keeps the invariant. */
  lemma StepKeepsInv(s: StoreState, e: StoreEvent)
    requires Inv(s) && Enabled(s, e)
    ensures Inv(Step(s, e))
  {
  }

  /** The events applied in order. */
  function Run(s: StoreState, es: seq<StoreEvent>): StoreState
    decreases |es|
  {
    if es == [] then s else Run(Step(s, es[0]), es[1..])
  }

  /** Every event of `es` is enabled when it arrives. */
  predicate Feasible(s: StoreState, es: seq<StoreEvent>)
    decreases |es|
  {
    es == [] || (Enabled(s, es[0]) && Feasible(Step(s, es[0]), es[1..]))
  }

  /** The invariant holds after every sequence of events the runtime can deliver. */
  lemma {:induction false} RunKeepsInv(s: StoreState, es: seq<StoreEvent>)
    requires Inv(s) && Feasible(s, es)
    ensures Inv(Run(s, es))
    decreases |es|
  {
    if es != [] {
      StepKeepsInv(s, es[0]);
      RunKeepsInv(Step(s, es[0]), es[1..]);
    }
  }

  /** Nothing sets `loading` back to true. */
  lemma {:induction false} LoadingStaysFalse(s: StoreState, es: seq<StoreEvent>)
    requires !s.loading
    ensures !Run(s, es).loading
    decreases |es|
  {
    if es != [] {
      LoadingStaysFalse(Step(s, es[0]), es[1..]);
    }
  }

  /** Once the initial fetch has resolved, with or without error and mounted or not, loading is over. */
  lemma {:induction false} FetchEndsLoading(s: StoreState, es: seq<StoreEvent>)
    requires exists i :: 0 <= i < |es| && es[i].SessionFetched?
    ensures !Run(s, es).loading
    decreases |es|
  {
    if es[0].SessionFetched? {
      LoadingStaysFalse(Step(s, es[0]), es[1..]);
    } else {
      var i :| 0 <= i < |es| && es[i].SessionFetched?;
      assert es[1..][i - 1] == es[i];
      FetchEndsLoading(Step(s, es[0]), es[1..]);
    }
  }

  /** After teardown no fetch result and no auth event changes the session. */
  lemma {:induction false} UnmountedFreezesSession(s: StoreState, es: seq<StoreEvent>)
    requires !s.isMounted
    ensures !Run(s, es).isMounted && Run(s, es).session == s.session
    decreases |es|
  {
    if es != [] {
      UnmountedFreezesSession(Step(s, es[0]), es[1..]);
    }
  }

  /** Once the cleanup has run, at any later point the listener has been unsubscribed exactly once. */
  lemma {:induction false} UnsubscribedExactlyOnce(es: seq<StoreEvent>)
    requires Feasible(Mounted(), es)
    requires exists i :: 0 <= i < |es| && es[i].Unmounted?
    ensures !Run(Mounted(), es).isMounted && Run(Mounted(), es).unsubscribes == 1
  {
    RunKeepsInv(Mounted(), es);
    UnmountIsFinal(Mounted(), es);
  }

  /** Helper: an `Unmounted` event anywhere in the sequence leaves the store unmounted. */
  lemma {:induction false} UnmountIsFinal(s: StoreState, es: seq<StoreEvent>)
    requires exists i :: 0 <= i < |es| && es[i].Unmounted?
    ensures !Run(s, es).isMounted
    decreases |es|
  {
    if es[0].Unmounted? {
      UnmountedFreezesSession(Step(s, es[0]), es[1..]);
    } else {
      var i :| 0 <= i < |es| && es[i].Unmounted?;
      assert es[1..][i - 1] == es[i];
      UnmountIsFinal(Step(s, es[0]), es[1..]);
    }
  }

  /** The value the provider publishes to its consumers (the client handle is left out). */
  datatype ContextValue = ContextValue(
    session: Option<Session>,
    loading: bool,
    isAuthenticated: bool,
    user: Option<User>)

  /** `session?.user ?? null`. */
  function UserOf(session: Option<Session>): (u: Option<User>)
    ensures u.Some? <==> session.Some?
    ensures u.Some? ==> u.value == session.value.user
  {
    match session
    case None => None
    case Some(s) => Some(s.user)
  }

  /** The derived context value: authenticated exactly when a session exists, and then its user. */
  function ContextValueOf(session: Option<Session>, loading: bool): (v: ContextValue)
    ensures v.session == session && v.loading == loading
    ensures v.isAuthenticated <==> session.Some?
    ensures v.isAuthenticated <==> v.user.Some?
    ensures v.user.Some? ==> v.user.value == session.value.user
  {
    ContextValue(session, loading, session.Some?, UserOf(session))
  }

  const OutsideProvider := "useSupabase must be used within a SupabaseProvider"

  /** `useSupabase`: the enclosing provider's value, or the error raised when there is none. */
  function UseSupabase(context: Option<ContextValue>): (r: Result<ContextValue, string>)
    ensures r.Failure? <==> context.None?
    ensures r.Failure? ==> r.error == OutsideProvider
    ensures r.Success? ==> r.value == context.value
  {
    match context
    case None => Failure(OutsideProvider)
    case Some(v) => Success(v)
  }

  /** The provider component's state, held in fields and changed one event at a time. */
  class Provider {
    var session: Option<Session>
    var loading: bool
    var isMounted: bool
    ghost var fetchPending: bool
    ghost var unsubscribes: nat

    ghost function State(): StoreState
      reads this
    {
      StoreState(session, loading, isMounted, fetchPending, unsubscribes)
    }

    ghost predicate Valid()
      reads this
    {
      Inv(State())
    }

    /** Mounting: initial state, then the effect starts `getSession` and subscribes the listener. */
    constructor Mount()
      ensures Valid() && State() == Mounted()
      ensures session == None && loading && isMounted
    {
      session := None;
      loading := true;
      isMounted := true;
      fetchPending := true;
      unsubscribes := 0;
    }

    /** The initial `getSession` resolves. */
    method ReceiveSession(reply: SessionReply)
      requires Valid() && fetchPending
      modifies this
      ensures Valid() && State() == Step(old(State()), SessionFetched(reply))
      ensures !loading && isMounted == old(isMounted)
      ensures session == if reply.SessionOk? && old(isMounted) then reply.session else old(session)
    {
      if reply.SessionOk? && isMounted {
        session := reply.session;
      }
      loading := false;
      fetchPending := false;
    }

    /** The auth listener fires. */
    method ReceiveAuthChange(eventName: string, next: Option<Session>)
      requires Valid()
      modifies this
      ensures Valid() && State() == Step(old(State()), AuthStateChanged(eventName, next))
      ensures session == if old(isMounted) then next else old(session)
      ensures loading == old(loading) && isMounted == old(isMounted)
    {
      if isMounted {
        session := next;
      }
    }

    /** The effect's cleanup: clear the guard and unsubscribe the listener. */
    method Teardown()
      requires Valid() && isMounted
      modifies this
      ensures Valid() && State() == Step(old(State()), Unmounted)
      ensures !isMounted && unsubscribes == 1
      ensures session == old(session) && loading == old(loading)
    {
      isMounted := false;
      unsubscribes := unsubscribes + 1;
    }

    /** The memoised context value. */
    function Value(): (v: ContextValue)
      reads this
      ensures v.session == session && v.loading == loading
      ensures v.isAuthenticated <==> session.Some?
      ensures v.user == UserOf(session)
    {
      ContextValueOf(session, loading)
    }
  }
}
