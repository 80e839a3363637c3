/** `SessionManager`: holds the current session, writes its bearer token into
    the HTTP client, and with auto-renew on keeps a timer that refreshes the
    session before the refresh token expires.

    The transitions are first given as functions on a snapshot of the
    manager's state (`Manager`), where the lemmas about them live; the class
    below updates its fields step by step as the source does and is proved to
    make exactly those transitions. Time is in integer milliseconds and the
    current time is a parameter. */
module SessionManagement {
  import opened Outcomes
  import opened ProtocolOptions

  /** `Int32.MaxValue`, the longest interval the manager sets. */
  const Int32MaxValue: int := 0x7FFF_FFFF

  /** The interval of a `new System.Timers.Timer()`. */
  const NewTimerInterval: int := 100

  datatype Session = Session(did: string, handle: string, accessJwt: string, refreshJwt: string)

  /** An `Authorization` header value: scheme and parameter. */
  datatype AuthHeader = AuthHeader(scheme: string, parameter: string)

  function BearerFor(s: Session): AuthHeader {
    AuthHeader("Bearer", s.accessJwt)
  }

  /** The manager's timer: whether it is enabled, its interval, and how many
      times `RefreshToken` has been subscribed to its `Elapsed` event. */
  datatype Timer = Timer(enabled: bool, interval: int, handlers: nat)

  function NewTimer(): Timer {
    Timer(false, NewTimerInterval, 0)
  }

  /** Exceptions the manager lets escape. */
  datatype Fault =
    | TimerMissing          // `ThrowIfNull` on a timer that is gone
    | TokenUnreadable       // the refresh token's expiry cannot be read
    | IntervalNotPositive   // `Timer.Interval` refuses a value <= 0

  /** What the refresh collaborator answers. */
  datatype RefreshOutcome = Refreshed(session: Session) | RefreshError(message: string)

  /** How a `RefreshToken` entry ended. */
  datatype RefreshReport =
    | AlreadyRefreshing
    | NoSession
    | Renewed
    | RenewalFailed
    | Faulted(fault: Fault)

  /** A snapshot of the manager's state, with the client's Authorization header. */
  datatype Manager = Manager(
    session: Option<Session>,
    authorization: Option<AuthHeader>,
    timer: Option<Timer>,
    disposed: bool,
    refreshing: int)

  /** A manager just constructed over a client whose header is `authorization`. */
  function Fresh(authorization: Option<AuthHeader>): Manager {
    Manager(None, authorization, None, false, 0)
  }

  /** The state after a call, and the exception it threw, if any. */
  datatype Step = Step(after: Manager, fault: Option<Fault>)

  /** The result of one `RefreshToken` entry: the state after it, whether the
      refresh collaborator was called, and how it ended. */
  datatype RefreshResult = RefreshResult(after: Manager, called: bool, report: RefreshReport)

  /** `SessionRefreshInterval ?? GetTimeToNextRenewal(session)`: the configured
      interval when there is one (the token is then never read), else the
      refresh token's expiry minus now; None when that token cannot be read. */
  function TimeToNextRenewal(opts: ATProtocolOptions, expiry: Option<int>, now: int): (r: Option<int>)
    ensures opts.sessionRefreshInterval.Some? ==> r == opts.sessionRefreshInterval
    ensures opts.sessionRefreshInterval.None? ==> (r.None? <==> expiry.None?)
    ensures opts.sessionRefreshInterval.None? && expiry.Some? ==> r == Some(expiry.value - now)
  {
    if opts.sessionRefreshInterval.Some? then opts.sessionRefreshInterval
    else if expiry.Some? then Some(expiry.value - now)
    else None
  }

  /** The clamp of `ConfigureRefreshTokenTimer`: at most `Int32.MaxValue`. */
  function ClampToInt32(ms: int): (r: int)
    ensures r <= Int32MaxValue
    ensures ms <= Int32MaxValue ==> r == ms
    ensures ms >= Int32MaxValue ==> r == Int32MaxValue
  {
    if ms >= Int32MaxValue then Int32MaxValue else ms
  }

  /** `ConfigureRefreshTokenTimer`: compute the delay, subscribe once more,
      set the interval (which throws for a value <= 0), enable. */
  function ConfigureTimer(opts: ATProtocolOptions, expiryOf: string -> Option<int>, m: Manager, now: int): (r: Step)
    requires m.timer.Some? && m.session.Some?
    ensures r.after == m.(timer := r.after.timer) && r.after.timer.Some?
    ensures r.fault.None? ==> var t := r.after.timer.value;
              t.enabled && 0 < t.interval <= Int32MaxValue && t.handlers == m.timer.value.handlers + 1
    ensures r.fault == Some(TokenUnreadable) <==> r.after == m
  {
    match TimeToNextRenewal(opts, expiryOf(m.session.value.refreshJwt), now)
    case None => Step(m, Some(TokenUnreadable))
    case Some(delay) =>
      var subscribed := m.timer.value.(handlers := m.timer.value.handlers + 1);
      var interval := ClampToInt32(delay);
      if interval <= 0 then Step(m.(timer := Some(subscribed)), Some(IntervalNotPositive))
      else Step(m.(timer := Some(subscribed.(interval := interval, enabled := true))), None)
  }

  /** `SetSession`. */
  function SetSessionStep(opts: ATProtocolOptions, expiryOf: string -> Option<int>, m: Manager, s: Session, now: int): (r: Step)
    ensures r.after.session == Some(s) && r.after.authorization == Some(BearerFor(s))
    ensures r.after.disposed == m.disposed && r.after.refreshing == m.refreshing
    ensures !opts.autoRenewSession ==> r.after.timer == m.timer && r.fault.None?
    ensures opts.autoRenewSession ==> r.after.timer.Some?
    ensures opts.autoRenewSession && r.fault.None? ==> r.after.timer.value.enabled
  {
    var installed := m.(session := Some(s), authorization := Some(BearerFor(s)));
    if !opts.autoRenewSession then Step(installed, None)
    else
      var timer := if m.timer.Some? then m.timer.value else NewTimer();
      ConfigureTimer(opts, expiryOf, installed.(timer := Some(timer)), now)
  }

  /** `Dispose(disposing)`. */
  function DisposeStep(m: Manager, disposing: bool): (r: Manager)
    ensures r.session == m.session && r.authorization == m.authorization && r.refreshing == m.refreshing
    ensures r.disposed <==> m.disposed || m.timer.Some?
    ensures r.timer == (if !m.disposed && m.timer.Some? && disposing then None else m.timer)
  {
    if m.disposed || m.timer.None? then m
    else if disposing then m.(timer := None, disposed := true)
    else m.(disposed := true)
  }

  /** A `RefreshToken` entry up to its `await`: either it has already ended,
      or it is waiting for the refresh collaborator in state `mid`. */
  datatype Begun = Finished(result: RefreshResult) | Awaiting(mid: Manager)

  function BeginRefresh(m: Manager): (r: Begun)
    ensures r.Awaiting? <==> m.refreshing <= 0 && m.timer.Some? && m.session.Some?
    ensures r.Awaiting? ==> r.mid == m.(refreshing := m.refreshing + 1, timer := Some(m.timer.value.(enabled := false)))
    ensures r.Finished? ==> !r.result.called
    ensures m.refreshing > 0 ==> r == Finished(RefreshResult(m, false, AlreadyRefreshing))
  {
    var entered := m.refreshing + 1;
    if entered > 1 then Finished(RefreshResult(m.(refreshing := entered - 1), false, AlreadyRefreshing))
    else if m.timer.None? then Finished(RefreshResult(m.(refreshing := entered), false, Faulted(TimerMissing)))
    else
      var paused := m.(refreshing := entered, timer := Some(m.timer.value.(enabled := false)));
      if paused.session.None? then Finished(RefreshResult(paused.(refreshing := entered - 1), false, NoSession))
      else Awaiting(paused)
  }

  /** The rest of the entry once the collaborator has answered; `finally`
      gives back the counter. */
  function CompleteRefresh(opts: ATProtocolOptions, expiryOf: string -> Option<int>, mid: Manager,
                           outcome: RefreshOutcome, now: int): (r: RefreshResult)
    ensures r.called && r.after.refreshing == mid.refreshing - 1
    ensures outcome.RefreshError? ==> r.after == mid.(refreshing := mid.refreshing - 1) && r.report == RenewalFailed
    ensures outcome.Refreshed? ==> r.after.session == Some(outcome.session)
  {
    match outcome
    case RefreshError(_) => RefreshResult(mid.(refreshing := mid.refreshing - 1), true, RenewalFailed)
    case Refreshed(s) =>
      var st := SetSessionStep(opts, expiryOf, mid, s, now);
      RefreshResult(st.after.(refreshing := st.after.refreshing - 1), true,
                    if st.fault.Some? then Faulted(st.fault.value) else Renewed)
  }

  /** `RefreshToken`, entry to exit. */
  function Refresh(opts: ATProtocolOptions, expiryOf: string -> Option<int>, m: Manager,
                   outcome: RefreshOutcome, now: int): (r: RefreshResult)
    ensures r.called <==> m.refreshing <= 0 && m.timer.Some? && m.session.Some?
    ensures m.refreshing > 0 ==> r == RefreshResult(m, false, AlreadyRefreshing)
    ensures m.refreshing == 0 && m.timer.None? ==> r.after == m.(refreshing := 1) && r.report == Faulted(TimerMissing)
  {
    match BeginRefresh(m)
    case Finished(r) => r
    case Awaiting(mid) => CompleteRefresh(opts, expiryOf, mid, outcome, now)
  }

  // ---------------------------------------------------------------------
  // Properties of the transitions

  /** The state every transition keeps: the counter is never negative, the
      header carries the current session's access token, and a timer exists
      only next to a session and with an interval the timer accepts. */
  predicate Consistent(m: Manager) {
    && m.refreshing >= 0
    && (m.session.Some? ==> m.authorization == Some(BearerFor(m.session.value)))
    && (m.timer.Some? ==> m.session.Some? && 0 < m.timer.value.interval <= Int32MaxValue)
  }

  function Handlers(m: Manager): nat {
    if m.timer.Some? then m.timer.value.handlers else 0
  }

  lemma FreshIsConsistent(authorization: Option<AuthHeader>)
    ensures Consistent(Fresh(authorization)) && Fresh(authorization).session.None?
  {
  }

  lemma SetSessionKeepsConsistent(opts: ATProtocolOptions, expiryOf: string -> Option<int>, m: Manager, s: Session, now: int)
    requires Consistent(m)
    ensures Consistent(SetSessionStep(opts, expiryOf, m, s, now).after)
  {
  }

  lemma DisposeKeepsConsistent(m: Manager, disposing: bool)
    requires Consistent(m)
    ensures Consistent(DisposeStep(m, disposing))
  {
  }

  lemma RefreshKeepsConsistent(opts: ATProtocolOptions, expiryOf: string -> Option<int>, m: Manager,
                               outcome: RefreshOutcome, now: int)
    requires Consistent(m)
    ensures Consistent(Refresh(opts, expiryOf, m, outcome, now).after)
  {
  }

  /** SetSession always stores the session and its bearer header, whatever the options. */
  lemma SetSessionInstallsSession(opts: ATProtocolOptions, expiryOf: string -> Option<int>, m: Manager, s: Session, now: int)
    ensures var after := SetSessionStep(opts, expiryOf, m, s, now).after;
            after.session == Some(s) && after.authorization == Some(AuthHeader("Bearer", s.accessJwt))
            && after.disposed == m.disposed && after.refreshing == m.refreshing
  {
  }

  /** With auto-renew off nothing but the session and header changes, and nothing throws. */
  lemma SetSessionWithoutAutoRenew(opts: ATProtocolOptions, expiryOf: string -> Option<int>, m: Manager, s: Session, now: int)
    requires !opts.autoRenewSession
    ensures SetSessionStep(opts, expiryOf, m, s, now) ==
            Step(m.(session := Some(s), authorization := Some(BearerFor(s))), None)
  {
  }

  /** Auto-renew is off by default, so with the default options a session
      never creates or touches a timer. */
  lemma DefaultOptionsNeverArmTimer(expiryOf: string -> Option<int>, m: Manager, s: Session, now: int)
    ensures SetSessionStep(DefaultOptions(), expiryOf, m, s, now).after.timer == m.timer
    ensures SetSessionStep(DefaultOptions(), expiryOf, m, s, now).fault.None?
  {
  }

  /** With auto-renew on and a usable delay, the timer (created if absent) is
      enabled with the clamped delay and has one more subscription. */
  lemma SetSessionArmsTimer(opts: ATProtocolOptions, expiryOf: string -> Option<int>, m: Manager, s: Session, now: int, delay: int)
    requires opts.autoRenewSession
    requires TimeToNextRenewal(opts, expiryOf(s.refreshJwt), now) == Some(delay)
    requires ClampToInt32(delay) > 0
    ensures SetSessionStep(opts, expiryOf, m, s, now) ==
            Step(m.(session := Some(s), authorization := Some(BearerFor(s)),
                    timer := Some(Timer(true, ClampToInt32(delay), Handlers(m) + 1))), None)
  {
  }

  /** A configured interval always wins: the token's expiry is then irrelevant. */
  lemma ConfiguredIntervalWins(opts: ATProtocolOptions, e1: string -> Option<int>, e2: string -> Option<int>,
                               m: Manager, s: Session, now: int)
    requires opts.sessionRefreshInterval.Some?
    ensures SetSessionStep(opts, e1, m, s, now) == SetSessionStep(opts, e2, m, s, now)
  {
  }

  /** Without a configured interval, a token expiring an hour from now arms
      the timer for an hour. */
  lemma HourLeftMeansHourInterval(opts: ATProtocolOptions, expiryOf: string -> Option<int>, m: Manager, s: Session, now: int)
    requires opts.autoRenewSession && opts.sessionRefreshInterval.None?
    requires expiryOf(s.refreshJwt) == Some(now + 3_600_000)
    ensures var st := SetSessionStep(opts, expiryOf, m, s, now);
            st.fault.None? && st.after.timer.Some?
            && st.after.timer.value.enabled && st.after.timer.value.interval == 3_600_000
  {
  }

  /** A delay beyond `Int32.MaxValue` ms is clamped to it. */
  lemma LongDelayIsClamped(opts: ATProtocolOptions, expiryOf: string -> Option<int>, m: Manager, s: Session, now: int, delay: int)
    requires opts.autoRenewSession
    requires TimeToNextRenewal(opts, expiryOf(s.refreshJwt), now) == Some(delay) && delay >= Int32MaxValue
    ensures var st := SetSessionStep(opts, expiryOf, m, s, now);
            st.fault.None? && st.after.timer.Some? && st.after.timer.value.interval == Int32MaxValue
  {
  }

  /** An unreadable refresh token (and no configured interval) throws after the
      session is stored and the timer created, but before it is subscribed or armed. */
  lemma UnreadableTokenThrows(opts: ATProtocolOptions, expiryOf: string -> Option<int>, m: Manager, s: Session, now: int)
    requires opts.autoRenewSession && opts.sessionRefreshInterval.None? && expiryOf(s.refreshJwt).None?
    ensures var st := SetSessionStep(opts, expiryOf, m, s, now);
            && st.fault == Some(TokenUnreadable)
            && st.after.session == Some(s)
            && st.after.timer == Some(if m.timer.Some? then m.timer.value else NewTimer())
  {
  }

  /** A delay of zero or less (an expired token) is subscribed and then
      refused by the timer: SetSession throws, leaving interval and
      enabled flag as they were. */
  lemma ExpiredTokenThrows(opts: ATProtocolOptions, expiryOf: string -> Option<int>, m: Manager, s: Session, now: int, delay: int)
    requires opts.autoRenewSession
    requires TimeToNextRenewal(opts, expiryOf(s.refreshJwt), now) == Some(delay) && delay <= 0
    ensures var st := SetSessionStep(opts, expiryOf, m, s, now);
            var before := if m.timer.Some? then m.timer.value else NewTimer();
            && st.fault == Some(IntervalNotPositive)
            && st.after.timer == Some(before.(handlers := before.handlers + 1))
  {
  }

  /** Successive SetSession calls, each from the state the previous one left. */
  function SetSessions(opts: ATProtocolOptions, expiryOf: string -> Option<int>, m: Manager, ss: seq<Session>, now: int): Manager
    decreases |ss|
  {
    if ss == [] then m
    else SetSessions(opts, expiryOf, SetSessionStep(opts, expiryOf, m, ss[0], now).after, ss[1..], now)
  }

  /** Every auto-renew SetSession whose delay can be computed subscribes the
      refresh handler once more: the subscriptions pile up, one per call. */
  lemma {:induction false} EverySetSessionSubscribes(opts: ATProtocolOptions, expiryOf: string -> Option<int>,
                                                     m: Manager, ss: seq<Session>, now: int)
    requires opts.autoRenewSession
    requires forall i :: 0 <= i < |ss| ==> TimeToNextRenewal(opts, expiryOf(ss[i].refreshJwt), now).Some?
    ensures Handlers(SetSessions(opts, expiryOf, m, ss, now)) == Handlers(m) + |ss|
    decreases |ss|
  {
    if ss != [] {
      var next := SetSessionStep(opts, expiryOf, m, ss[0], now).after;
      assert Handlers(next) == Handlers(m) + 1;
      EverySetSessionSubscribes(opts, expiryOf, next, ss[1..], now);
    }
  }

  /** Dispose without a timer changes nothing; the manager is not even marked disposed. */
  lemma DisposeWithoutTimerIsNoOp(m: Manager, disposing: bool)
    requires m.timer.None?
    ensures DisposeStep(m, disposing) == m
  {
  }

  /** The first Dispose with a timer drops it and marks the manager disposed;
      the session and header stay. */
  lemma DisposeDropsTimer(m: Manager)
    requires !m.disposed && m.timer.Some?
    ensures DisposeStep(m, true) == m.(timer := None, disposed := true)
  {
  }

  /** A second Dispose is a no-op. */
  lemma DisposeIsIdempotent(m: Manager, disposing: bool)
    ensures DisposeStep(DisposeStep(m, disposing), disposing) == DisposeStep(m, disposing)
  {
  }

  /** Disposal is not final: a later auto-renew SetSession creates and arms a
      new timer, and Dispose then leaves that timer running. */
  lemma DisposedManagerCanBeRearmed(opts: ATProtocolOptions, expiryOf: string -> Option<int>, m: Manager, s: Session, now: int, delay: int)
    requires !m.disposed && m.timer.Some?
    requires opts.autoRenewSession
    requires TimeToNextRenewal(opts, expiryOf(s.refreshJwt), now) == Some(delay) && delay > 0
    ensures var rearmed := SetSessionStep(opts, expiryOf, DisposeStep(m, true), s, now).after;
            && rearmed.disposed && rearmed.timer.Some? && rearmed.timer.value.enabled
            && DisposeStep(rearmed, true) == rearmed
  {
  }

  /** The single-flight guard: while an entry is in progress, another one
      undoes its increment and returns, making no call and changing nothing. */
  lemma GuardTurnsAwaySecondEntry(opts: ATProtocolOptions, expiryOf: string -> Option<int>, m: Manager,
                                  outcome: RefreshOutcome, now: int)
    requires m.refreshing >= 1
    ensures Refresh(opts, expiryOf, m, outcome, now) == RefreshResult(m, false, AlreadyRefreshing)
  {
  }

  /** Several entries, each running to its end from the state the previous
      one left; the second component counts the calls to the collaborator. */
  function RefreshEntries(opts: ATProtocolOptions, expiryOf: string -> Option<int>, m: Manager,
                          outcomes: seq<RefreshOutcome>, now: int): (Manager, nat)
    decreases |outcomes|
  {
    if outcomes == [] then (m, 0)
    else
      var r := Refresh(opts, expiryOf, m, outcomes[0], now);
      var (final, calls) := RefreshEntries(opts, expiryOf, r.after, outcomes[1..], now);
      (final, calls + if r.called then 1 else 0)
  }

  /** Any number of entries arriving while one is in progress make no call
      and leave the state as it was. */
  lemma {:induction false} EntriesDuringRefreshMakeNoCalls(opts: ATProtocolOptions, expiryOf: string -> Option<int>,
                                                           m: Manager, outcomes: seq<RefreshOutcome>, now: int)
    requires m.refreshing >= 1
    ensures RefreshEntries(opts, expiryOf, m, outcomes, now) == (m, 0)
    decreases |outcomes|
  {
    if outcomes != [] {
      GuardTurnsAwaySecondEntry(opts, expiryOf, m, outcomes[0], now);
      EntriesDuringRefreshMakeNoCalls(opts, expiryOf, m, outcomes[1..], now);
    }
  }

  /** Single flight: an entry that reaches its `await` holds the counter at 1,
      every entry arriving meanwhile is turned away without a call, and when
      the answer comes exactly that one call has been made and the counter is
      back to 0. */
  lemma SingleFlight(opts: ATProtocolOptions, expiryOf: string -> Option<int>, m: Manager,
                     meanwhile: seq<RefreshOutcome>, outcome: RefreshOutcome, now: int)
    requires Consistent(m) && m.refreshing == 0 && BeginRefresh(m).Awaiting?
    ensures var mid := BeginRefresh(m).mid;
            && mid.refreshing == 1
            && RefreshEntries(opts, expiryOf, mid, meanwhile, now) == (mid, 0)
            && CompleteRefresh(opts, expiryOf, mid, outcome, now).called
            && CompleteRefresh(opts, expiryOf, mid, outcome, now).after.refreshing == 0
  {
    EntriesDuringRefreshMakeNoCalls(opts, expiryOf, BeginRefresh(m).mid, meanwhile, now);
  }

  /** A failed refresh keeps the old session, leaves the timer disabled (no
      retry is scheduled) and gives the counter back. */
  lemma FailedRefreshKeepsSession(opts: ATProtocolOptions, expiryOf: string -> Option<int>, m: Manager,
                                  message: string, now: int)
    requires m.refreshing == 0 && m.timer.Some? && m.session.Some?
    ensures Refresh(opts, expiryOf, m, RefreshError(message), now) ==
            RefreshResult(m.(timer := Some(m.timer.value.(enabled := false))), true, RenewalFailed)
  {
  }

  /** A successful refresh installs the new session through SetSession. */
  lemma SuccessfulRefreshSetsSession(opts: ATProtocolOptions, expiryOf: string -> Option<int>, m: Manager,
                                     s: Session, now: int)
    requires m.refreshing == 0 && m.timer.Some? && m.session.Some?
    ensures var r := Refresh(opts, expiryOf, m, Refreshed(s), now);
            var st := SetSessionStep(opts, expiryOf, m.(timer := Some(m.timer.value.(enabled := false))), s, now);
            && r.called && r.after == st.after
            && r.report == (if st.fault.Some? then Faulted(st.fault.value) else Renewed)
  {
  }

  /** Without a session the collaborator is not called. */
  lemma RefreshWithoutSessionSkipsCall(opts: ATProtocolOptions, expiryOf: string -> Option<int>, m: Manager,
                                       outcome: RefreshOutcome, now: int)
    requires m.refreshing == 0 && m.timer.Some? && m.session.None?
    ensures var r := Refresh(opts, expiryOf, m, outcome, now);
            !r.called && r.report == NoSession && r.after.refreshing == 0
  {
  }

  /** An entry that finds no timer throws before its `try`, so the counter
      stays raised and every later entry is turned away. */
  lemma MissingTimerJamsGuard(opts: ATProtocolOptions, expiryOf: string -> Option<int>, m: Manager,
                              outcome: RefreshOutcome, later: seq<RefreshOutcome>, now: int)
    requires m.refreshing == 0 && m.timer.None?
    ensures var r := Refresh(opts, expiryOf, m, outcome, now);
            && r == RefreshResult(m.(refreshing := 1), false, Faulted(TimerMissing))
            && RefreshEntries(opts, expiryOf, r.after, later, now) == (r.after, 0)
  {
    EntriesDuringRefreshMakeNoCalls(opts, expiryOf, m.(refreshing := 1), later, now);
  }

  // ---------------------------------------------------------------------
  // The classes

  /** The part of the shared `HttpClient` the manager writes. */
  class HttpClient {
    var authorization: Option<AuthHeader>

    constructor()
      ensures authorization.None?
    {
      authorization := None;
    }
  }

  class SessionManager {
    const options: ATProtocolOptions
    /** The expiry the token handler reads out of a JWT, if it can read it. */
    const expiryOf: string -> Option<int>
    const client: HttpClient
    var session: Option<Session>
    var disposed: bool
    var timer: Option<Timer>
    var refreshing: int

    function Snapshot(): Manager
      reads this, client
    {
      Manager(session, client.authorization, timer, disposed, refreshing)
    }

    /** `IsAuthenticated`. */
    predicate IsAuthenticated()
      reads this
    {
      session.Some?
    }

    /** `SessionManager(protocol)`. */
    constructor(options: ATProtocolOptions, expiryOf: string -> Option<int>, client: HttpClient)
      ensures this.options == options && this.expiryOf == expiryOf && this.client == client
      ensures Snapshot() == Fresh(client.authorization)
      ensures !IsAuthenticated()
    {
      this.options := options;
      this.expiryOf := expiryOf;
      this.client := client;
      session := None;
      disposed := false;
      timer := None;
      refreshing := 0;
    }

    /** `SessionManager(protocol, session)`: construct, then SetSession; a
        throwing SetSession means no manager is produced. */
    static method CreateWithSession(options: ATProtocolOptions, expiryOf: string -> Option<int>, client: HttpClient,
                                    s: Session, now: int) returns (r: Outcome<SessionManager, Fault>)
      modifies client
      ensures var st := SetSessionStep(options, expiryOf, Fresh(old(client.authorization)), s, now);
              && client.authorization == st.after.authorization
              && (r.Throws? <==> st.fault.Some?)
              && (r.Throws? ==> r.error == st.fault.value)
              && (r.Value? ==> fresh(r.value) && r.value.client == client && r.value.Snapshot() == st.after
                               && r.value.IsAuthenticated())
    {
      var manager := new SessionManager(options, expiryOf, client);
      var fault := manager.SetSession(s, now);
      if fault.Some? {
        r := Throws(fault.value);
      } else {
        r := Value(manager);
      }
    }

    method UpdateBearerToken(s: Session)
      modifies client
      ensures client.authorization == Some(BearerFor(s))
    {
      client.authorization := Some(BearerFor(s));
    }

    method SetSession(s: Session, now: int) returns (fault: Option<Fault>)
      modifies this, client
      ensures Snapshot() == SetSessionStep(options, expiryOf, old(Snapshot()), s, now).after
      ensures fault == SetSessionStep(options, expiryOf, old(Snapshot()), s, now).fault
    {
      session := Some(s);
      UpdateBearerToken(s);
      if !options.autoRenewSession {
        return None;
      }
      if timer.None? {
        timer := Some(NewTimer());
      }
      fault := ConfigureRefreshTokenTimer(now);
    }

    method ConfigureRefreshTokenTimer(now: int) returns (fault: Option<Fault>)
      requires timer.Some? && session.Some?
      modifies this
      ensures Snapshot() == ConfigureTimer(options, expiryOf, old(Snapshot()), now).after
      ensures fault == ConfigureTimer(options, expiryOf, old(Snapshot()), now).fault
    {
      var delay := TimeToNextRenewal(options, expiryOf(session.value.refreshJwt), now);
      if delay.None? {
        return Some(TokenUnreadable);
      }
      // Elapsed += RefreshToken
      timer := Some(timer.value.(handlers := timer.value.handlers + 1));
      var interval := ClampToInt32(delay.value);
      if interval <= 0 {
        return Some(IntervalNotPositive);
      }
      timer := Some(timer.value.(interval := interval));
      timer := Some(timer.value.(enabled := true));
      fault := None;
    }

    /** `Dispose()`. */
    method Dispose()
      modifies this
      ensures Snapshot() == DisposeStep(old(Snapshot()), true)
    {
      DisposeWith(true);
    }

    /** `Dispose(bool disposing)`. */
    method DisposeWith(disposing: bool)
      modifies this
      ensures Snapshot() == DisposeStep(old(Snapshot()), disposing)
    {
      if disposed || timer.None? {
        return;
      }
      if disposing {
        timer := Some(timer.value.(enabled := false));
        timer := None;
      }
      disposed := true;
    }

    /** `RefreshToken`, run to its end as one step; `outcome` is what the
        refresh collaborator answers if it is called. */
    method RefreshToken(outcome: RefreshOutcome, now: int) returns (called: bool, report: RefreshReport)
      modifies this, client
      ensures var r := Refresh(options, expiryOf, old(Snapshot()), outcome, now);
              Snapshot() == r.after && called == r.called && report == r.report
    {
      refreshing := refreshing + 1;
      if refreshing > 1 {
        refreshing := refreshing - 1;
        return false, AlreadyRefreshing;
      }
      if timer.None? {
        return false, Faulted(TimerMissing);
      }
      timer := Some(timer.value.(enabled := false));
      if session.None? {
        called, report := false, NoSession;
      } else {
        called := true;
        match outcome {
          case Refreshed(s) =>
            var fault := SetSession(s, now);
            report := if fault.Some? then Faulted(fault.value) else Renewed;
          case RefreshError(_) =>
            report := RenewalFailed;
        }
      }
      refreshing := refreshing - 1;
    }
  }
}
