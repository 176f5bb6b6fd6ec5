/** Safety of sign-ins over every run: what deleted rows, used trips, replayed notices and stopped users can no longer do. */
module SignInSafety {
  import opened Basics
  import opened SignInModel

  lemma SecondsIsMonotone(a: Time, b: Time)
    requires a <= b
    ensures Seconds(a) <= Seconds(b)
  {
  }

  // ---- the invariant -------------------------------------------------------------------------

  // Every row ever made is either there or ended, and belongs to its user.
  ghost predicate RowsAccountedFor(st: State) {
    && (forall id :: id in st.sessions ==> id in st.owners && id !in st.ended && st.sessions[id].userId == st.owners[id])
    && (forall id :: id in st.ended ==> id in st.owners)
    && (forall id :: id in st.owners ==> id in st.sessions || id in st.ended)
  }

  // A token names a row of its user, and outlives the moment its row went by an access lifetime at most.
  ghost predicate TokensBounded(cfg: Config, st: State, now: Time) {
    forall t :: t in st.issued ==>
      && t.sessionId in st.owners && st.owners[t.sessionId] == t.userId
      && t.exp <= Seconds(now + cfg.accessLifetime)
      && (t.sessionId in st.ended ==> t.exp <= Seconds(st.ended[t.sessionId] + cfg.accessLifetime))
  }

  ghost predicate TripsKnown(st: State) {
    forall s :: s in st.transactions ==>
      && s in st.trips
      && (st.transactions[s].continued.Some? ==>
            var c := st.transactions[s].continued.value;
            c.sessionId in st.owners && st.owners[c.sessionId] == c.userId)
  }

  ghost predicate NothingFromTheFuture(st: State, now: Time) {
    && (forall id :: id in st.ended ==> st.ended[id] <= now)
    && (forall j :: j in st.deliveries ==> st.deliveries[j] <= now)
  }

  ghost predicate Inv(cfg: Config, st: State, now: Time) {
    RowsAccountedFor(st) && TokensBounded(cfg, st, now) && TripsKnown(st) && NothingFromTheFuture(st, now)
  }

  lemma InvAtBeginning(cfg: Config, clock: Time, active: map<int, bool>, links: Links)
    ensures Inv(cfg, Beginning(clock, active, links), clock)
  {
  }

  lemma TimePasses(cfg: Config, st: State, before: Time, now: Time)
    requires Inv(cfg, st, before) && before <= now
    ensures Inv(cfg, st, now)
  {
    SecondsIsMonotone(before + cfg.accessLifetime, now + cfg.accessLifetime);
  }

  // ---- what one step can do ------------------------------------------------------------------------

  // No token is made; rows and trips are only added, and a row that goes is recorded as ended now.
  ghost predicate Quiet(a: State, b: State, now: Time) {
    && b.issued == a.issued && a.trips <= b.trips
    && (forall id :: id in a.ended ==> id in b.ended && b.ended[id] == a.ended[id])
    && (forall id :: id in a.owners ==> id in b.owners && b.owners[id] == a.owners[id])
    && (forall id :: id in a.sessions ==> id in b.sessions || (id in b.ended && b.ended[id] == now))
  }

  // The tokens that are new name rows that are there, of users who may sign in.
  ghost predicate NewTokensAreLive(cfg: Config, a: State, b: State, now: Time) {
    forall t :: t in b.issued && t !in a.issued ==>
      && t.sessionId in b.sessions && b.sessions[t.sessionId].userId == t.userId
      && CanSignIn(b, t.userId)
      && t == AccessToken(cfg, t.userId, t.sessionId, now)
  }

  ghost predicate Follows(cfg: Config, a: State, b: State, now: Time) {
    && Inv(cfg, b, now)
    && a.issued <= b.issued
    && Quiet(a, b.(issued := a.issued), now)
    && NewTokensAreLive(cfg, a, b, now)
  }

  ghost predicate Change(cfg: Config, a: State, b: State, now: Time) {
    Inv(cfg, b, now) && Quiet(a, b, now)
  }

  lemma ChangesChain(cfg: Config, a: State, b: State, c: State, now: Time)
    requires Change(cfg, a, b, now) && Change(cfg, b, c, now)
    ensures Change(cfg, a, c, now)
  {
  }

  lemma ChangeFollows(cfg: Config, a: State, b: State, now: Time)
    requires Change(cfg, a, b, now)
    ensures Follows(cfg, a, b, now)
  {
    assert b.(issued := a.issued) == b;
  }

  lemma IssueFollows(cfg: Config, a: State, b: State, userId: int, id: string, now: Time)
    requires Change(cfg, a, b, now)
    requires id in b.sessions && b.sessions[id].userId == userId && CanSignIn(b, userId)
    ensures Follows(cfg, a, Issue(cfg, b, userId, id, now), now)
  {
    assert Issue(cfg, b, userId, id, now).(issued := a.issued) == b;
  }

  lemma EndSessionsChanges(cfg: Config, st: State, gone: set<string>, now: Time)
    requires Inv(cfg, st, now)
    ensures Change(cfg, st, EndSessions(st, gone, now), now)
  {
  }

  lemma NewSessionChanges(cfg: Config, st: State, id: string, userId: int, claims: Claims, now: Time)
    requires Inv(cfg, st, now) && id !in st.owners
    ensures var after := NewSession(cfg, st, id, userId, claims, now);
            Change(cfg, st, after, now) && id in after.sessions && after.sessions[id].userId == userId
  {
    RowsOfNewSession(cfg, st, id, userId, claims, now);
    TokensOfNewSession(cfg, st, id, userId, claims, now);
    TripsOfNewSession(cfg, st, id, userId, claims, now);
    hide RowsAccountedFor, TokensBounded, TripsKnown;
  }

  lemma RowsOfNewSession(cfg: Config, st: State, id: string, userId: int, claims: Claims, now: Time)
    requires RowsAccountedFor(st) && id !in st.owners
    ensures RowsAccountedFor(NewSession(cfg, st, id, userId, claims, now)) && id !in st.sessions
  {
  }

  lemma TokensOfNewSession(cfg: Config, st: State, id: string, userId: int, claims: Claims, now: Time)
    requires TokensBounded(cfg, st, now) && id !in st.owners
    ensures TokensBounded(cfg, NewSession(cfg, st, id, userId, claims, now), now)
  {
    hide Seconds;
  }

  lemma TripsOfNewSession(cfg: Config, st: State, id: string, userId: int, claims: Claims, now: Time)
    requires TripsKnown(st) && id !in st.owners
    ensures TripsKnown(NewSession(cfg, st, id, userId, claims, now))
  {
  }

  lemma StartTripChanges(cfg: Config, st: State, tripState: string, silent: bool, purpose: Purpose,
                         continued: Option<Continued>, now: Time)
    requires Inv(cfg, st, now)
    requires continued.Some? ==>
               continued.value.sessionId in st.owners && st.owners[continued.value.sessionId] == continued.value.userId
    ensures Change(cfg, st, StartTrip(cfg, st, tripState, silent, purpose, continued, now), now)
  {
  }

  lemma ConsumeChanges(cfg: Config, st: State, tripState: string, now: Time)
    requires Inv(cfg, st, now)
    ensures Change(cfg, st, Consume(st, tripState), now)
  {
  }

  lemma ResolveUserChanges(cfg: Config, st: State, claims: Claims, newcomer: Newcomer, now: Time)
    requires Inv(cfg, st, now)
    ensures Change(cfg, st, ResolveUser(st, claims, newcomer).0, now)
  {
  }

  lemma CompleteLoginFollows(cfg: Config, st: State, tripState: string, exchange: Option<Claims>, newcomer: Newcomer,
                             freshId: string, now: Time)
    requires Inv(cfg, st, now) && freshId !in st.owners
    ensures Follows(cfg, st, CompleteLogin(cfg, st, tripState, exchange, newcomer, freshId, now).0, now)
  {
    var claims := Redeem(st, tripState, exchange, Login, now);
    var consumed := Consume(st, tripState);
    ConsumeChanges(cfg, st, tripState, now);
    if claims.None? {
      ChangeFollows(cfg, st, consumed, now);
    } else {
      ResolveUserChanges(cfg, consumed, claims.value, newcomer, now);
      var (known, user) := ResolveUser(consumed, claims.value, newcomer);
      ChangesChain(cfg, st, consumed, known, now);
      if user.None? || !CanSignIn(known, user.value) {
        ChangeFollows(cfg, st, known, now);
      } else {
        SignInFollows(cfg, st, known, freshId, user.value, claims.value, now);
      }
    }
  }

  // The sweep of expired rows, the new row and its token.
  lemma SignInFollows(cfg: Config, st: State, known: State, freshId: string, userId: int, claims: Claims, now: Time)
    requires Change(cfg, st, known, now) && freshId !in known.owners && CanSignIn(known, userId)
    ensures var swept := EndSessions(known, ExpiredRows(known.sessions, now), now);
            Follows(cfg, st, Issue(cfg, NewSession(cfg, swept, freshId, userId, claims, now), userId, freshId, now), now)
  {
    hide Inv, Quiet, Follows, ExpiredRows;
    var swept := EndSessions(known, ExpiredRows(known.sessions, now), now);
    var after := NewSession(cfg, swept, freshId, userId, claims, now);
    EndSessionsChanges(cfg, known, ExpiredRows(known.sessions, now), now);
    NewSessionChanges(cfg, swept, freshId, userId, claims, now);
    ChangesChain(cfg, st, known, swept, now);
    ChangesChain(cfg, st, swept, after, now);
    IssueFollows(cfg, st, after, userId, freshId, now);
  }

  lemma ContinueSignInChanges(cfg: Config, st: State, continued: Option<Continued>, userId: int, claims: Claims,
                              freshId: string, now: Time)
    requires Inv(cfg, st, now) && freshId !in st.owners
    ensures var (after, id) := ContinueSignIn(cfg, st, continued, userId, claims, freshId, now);
            Change(cfg, st, after, now) && id in after.sessions && after.sessions[id].userId == userId
            && after.active == st.active
  {
    hide Change;
    if continued.Some? && continued.value.sessionId in st.sessions && st.sessions[continued.value.sessionId].userId == userId {
      var row := st.sessions[continued.value.sessionId];
      SameRowChanges(cfg, st, continued.value.sessionId,
                     row.(idpSession := claims.idpSession, expiresAt := now + cfg.signInCarry), now);
    } else {
      NewSessionChanges(cfg, st, freshId, userId, claims, now);
    }
  }

  // A row replaced by one of the same user.
  lemma SameRowChanges(cfg: Config, st: State, id: string, row: Session, now: Time)
    requires Inv(cfg, st, now) && id in st.sessions && row.userId == st.sessions[id].userId
    ensures Change(cfg, st, st.(sessions := st.sessions[id := row]), now)
  {
  }

  lemma CompleteRenewalFollows(cfg: Config, st: State, tripState: string, exchange: Option<Claims>, freshId: string, now: Time)
    requires Inv(cfg, st, now) && freshId !in st.owners
    ensures Follows(cfg, st, CompleteRenewal(cfg, st, tripState, exchange, freshId, now).0, now)
  {
    var claims := Redeem(st, tripState, exchange, Renew, now);
    var consumed := Consume(st, tripState);
    ConsumeChanges(cfg, st, tripState, now);
    ChangeFollows(cfg, st, consumed, now);
    if claims.Some? && claims.value.identity in st.links {
      hide Inv, Quiet, Follows;
      var user := st.links[claims.value.identity];
      var continued := st.transactions[tripState].continued;
      ContinueSignInChanges(cfg, consumed, continued, user, claims.value, freshId, now);
      var (signedIn, id) := ContinueSignIn(cfg, consumed, continued, user, claims.value, freshId, now);
      ChangesChain(cfg, st, consumed, signedIn, now);
      if CanSignIn(signedIn, user) { IssueFollows(cfg, st, signedIn, user, id, now); }
    }
  }

  lemma DeliveriesChange(cfg: Config, a: State, b: State, deliveries: map<string, Time>, now: Time)
    requires Change(cfg, a, b, now)
    requires forall j :: j in deliveries ==> deliveries[j] <= now
    ensures Change(cfg, a, b.(deliveries := deliveries), now)
  {
  }

  lemma LinksChange(cfg: Config, a: State, b: State, links: Links, now: Time)
    requires Change(cfg, a, b, now)
    ensures Change(cfg, a, b.(links := links), now)
  {
  }

  lemma RecentDeliveriesArePast(cfg: Config, st: State, since: Time, now: Time)
    requires Inv(cfg, st, now)
    ensures forall j :: j in RecentDeliveries(st.deliveries, since) ==> RecentDeliveries(st.deliveries, since)[j] <= now
  {
  }

  lemma NothingChanges(cfg: Config, st: State, now: Time)
    requires Inv(cfg, st, now)
    ensures Change(cfg, st, st, now)
  {
  }

  lemma BackchannelChanges(cfg: Config, st: State, claims: LogoutClaims, now: Time)
    requires Inv(cfg, st, now)
    ensures Change(cfg, st, Backchannel(cfg, st, claims, now), now)
  {
    hide Inv, Change, RowsOfNotice, EndSessions, ReadNotice, RecentDeliveries;
    NothingChanges(cfg, st, now);
    var notice := ReadNotice(cfg.issuer, claims, now);
    if notice.Some? {
      var kept := RecentDeliveries(st.deliveries, now - cfg.deliveryRetention);
      var gone := RowsOfNotice(cfg.issuer, st.sessions, st.links, notice.value);
      RecentDeliveriesArePast(cfg, st, now - cfg.deliveryRetention, now);
      EndSessionsChanges(cfg, st, gone, now);
      DeliveriesChange(cfg, st, st, kept, now);
      DeliveriesChange(cfg, st, EndSessions(st, gone, now), kept[notice.value.jti := now], now);
    }
  }

  lemma ReconcileChanges(cfg: Config, st: State, roster: Roster, now: Time)
    requires Inv(cfg, st, now)
    ensures Change(cfg, st, Reconcile(cfg, st, roster, now), now)
  {
    NothingChanges(cfg, st, now);
    hide Inv, Quiet, RowsToEnd, EndSessions, LinksToDrop, EveryoneIsUnknown;
    var ended := EndSessions(st, RowsToEnd(cfg, st, roster), now);
    EndSessionsChanges(cfg, st, RowsToEnd(cfg, st, roster), now);
    LinksChange(cfg, st, ended, st.links - LinksToDrop(cfg, st, roster), now);
  }

  lemma LogoutChanges(cfg: Config, st: State, token: Option<Token>, now: Time)
    requires Inv(cfg, st, now)
    ensures Change(cfg, st, Logout(cfg, st, token, now), now)
  {
    NothingChanges(cfg, st, now);
    hide Inv, Quiet;
    var c := ContinuationOf(cfg, token, now);
    if c.Some? { EndSessionsChanges(cfg, st, {c.value.sessionId}, now); }
  }

  lemma ReissueFollows(cfg: Config, st: State, token: Option<Token>, now: Time)
    requires Inv(cfg, st, now) && Known(st, token)
    ensures Follows(cfg, st, Reissue(cfg, st, token, now).0, now)
  {
    NothingChanges(cfg, st, now);
    ChangeFollows(cfg, st, st, now);
    if Reissue(cfg, st, token, now).1.Some? {
      IssueFollows(cfg, st, st, token.value.userId, token.value.sessionId, now);
    }
  }

  lemma ContinuationIsKnown(cfg: Config, st: State, token: Option<Token>, now: Time)
    requires Inv(cfg, st, st.clock) && Known(st, token)
    ensures var c := ContinuationOf(cfg, token, now);
            c.Some? ==> c.value.sessionId in st.owners && st.owners[c.value.sessionId] == c.value.userId
  {
  }

  lemma ApplyFollows(cfg: Config, st: State, m: Moment)
    requires Inv(cfg, st, st.clock) && Legal(st, m.ev, m.now)
    ensures Follows(cfg, st, Apply(cfg, st, m.ev, m.now), m.now)
  {
    TimePasses(cfg, st, st.clock, m.now);
    if m.ev.FinishLogin? || m.ev.FinishRenewal? || m.ev.Reissued? {
      IssuingFollows(cfg, st, m);
    } else {
      OthersChange(cfg, st, m);
      hide Inv, Change, Follows, Apply, Legal;
      ChangeFollows(cfg, st, Apply(cfg, st, m.ev, m.now), m.now);
    }
  }

  // The steps that may issue a token.
  lemma IssuingFollows(cfg: Config, st: State, m: Moment)
    requires Inv(cfg, st, m.now) && Legal(st, m.ev, m.now) && (m.ev.FinishLogin? || m.ev.FinishRenewal? || m.ev.Reissued?)
    ensures Follows(cfg, st, Apply(cfg, st, m.ev, m.now), m.now)
  {
    hide Inv, Follows, CompleteLogin, CompleteRenewal, Reissue;
    match m.ev
    case FinishLogin(s, exchange, newcomer, id) => CompleteLoginFollows(cfg, st, s, exchange, newcomer, id, m.now);
    case FinishRenewal(s, exchange, id) => CompleteRenewalFollows(cfg, st, s, exchange, id, m.now);
    case Reissued(token) => ReissueFollows(cfg, st, token, m.now);
  }

  // The steps that do not.
  lemma OthersChange(cfg: Config, st: State, m: Moment)
    requires Inv(cfg, st, m.now) && Inv(cfg, st, st.clock) && Legal(st, m.ev, m.now)
    requires !m.ev.FinishLogin? && !m.ev.FinishRenewal? && !m.ev.Reissued?
    ensures Change(cfg, st, Apply(cfg, st, m.ev, m.now), m.now)
  {
    hide Inv, Change, StartTrip, Consume, Logout, Backchannel, Reconcile, ContinuationOf;
    match m.ev
    case StartLogin(s, silent) => StartTripChanges(cfg, st, s, silent, Login, None, m.now);
    case StartRenewal(s, token) =>
      ContinuationIsKnown(cfg, st, token, m.now);
      StartTripChanges(cfg, st, s, true, Renew, ContinuationOf(cfg, token, m.now), m.now);
    case Decline(s) => ConsumeChanges(cfg, st, s, m.now);
    case SignedOut(token) => LogoutChanges(cfg, st, token, m.now);
    case NoticeArrived(claims) => BackchannelChanges(cfg, st, claims, m.now);
    case Reconciled(roster) => ReconcileChanges(cfg, st, roster, m.now);
    case SetActive(u, on) => SetActiveChanges(cfg, st, u, on, m.now);
  }

  lemma SetActiveChanges(cfg: Config, st: State, u: int, on: bool, now: Time)
    requires Inv(cfg, st, now)
    ensures Change(cfg, st, Apply(cfg, st, SetActive(u, on), now), now)
  {
    ActiveChanges(cfg, st, st.active[u := on], now);
    NothingChanges(cfg, st, now);
    hide Inv, Change;
  }

  lemma ActiveChanges(cfg: Config, st: State, active: map<int, bool>, now: Time)
    requires Inv(cfg, st, now)
    ensures Change(cfg, st, st.(active := active), now)
  {
  }

  /** Every legal step keeps the invariant, ends rows only at the moment it runs, and issues tokens only for rows that are
      in the store and users who may sign in. */
  lemma StepFollows(cfg: Config, st: State, m: Moment)
    requires Inv(cfg, st, st.clock) && Legal(st, m.ev, m.now)
    ensures Follows(cfg, st, Step(cfg, st, m), m.now)
  {
    ApplyFollows(cfg, st, m);
  }

  lemma LegalPrefix(cfg: Config, st: State, events: seq<Moment>, k: nat)
    requires LegalRun(cfg, st, events) && k <= |events|
    ensures LegalRun(cfg, st, events[..k])
  {
    forall j | 0 <= j < k
      ensures Legal(Run(cfg, st, events[..k][..j]), events[..k][j].ev, events[..k][j].now)
    {
      assert events[..k][..j] == events[..j];
    }
  }

  /** The last step of a run, and that it was legal where it happened. */
  lemma LastStep(cfg: Config, st: State, events: seq<Moment>)
    requires LegalRun(cfg, st, events) && events != []
    ensures var n := |events| - 1;
            && LegalRun(cfg, st, events[..n])
            && Legal(Run(cfg, st, events[..n]), events[n].ev, events[n].now)
            && Run(cfg, st, events) == Step(cfg, Run(cfg, st, events[..n]), events[n])
  {
    LegalPrefix(cfg, st, events, |events| - 1);
  }

  /** The invariant holds after every legal run. */
  lemma {:induction false} RunKeeps(cfg: Config, st: State, events: seq<Moment>)
    requires Inv(cfg, st, st.clock) && LegalRun(cfg, st, events)
    ensures Inv(cfg, Run(cfg, st, events), Run(cfg, st, events).clock)
    decreases |events|
  {
    if events != [] {
      LastStep(cfg, st, events);
      RunKeeps(cfg, st, events[..|events| - 1]);
      StepFollows(cfg, Run(cfg, st, events[..|events| - 1]), events[|events| - 1]);
    }
  }

  // ---- ended means ended ---------------------------------------------------------------------------

  /** What a step cannot undo: ended rows stay ended at the same moment, rows keep their owner, trips and tokens are not
      forgotten, the clock does not run backwards. */
  ghost predicate Extends(later: State, st: State) {
    && st.clock <= later.clock
    && (forall id :: id in st.ended ==> id in later.ended && later.ended[id] == st.ended[id])
    && (forall id :: id in st.owners ==> id in later.owners && later.owners[id] == st.owners[id])
    && st.trips <= later.trips && st.issued <= later.issued
  }

  lemma StepExtends(cfg: Config, st: State, m: Moment)
    requires Inv(cfg, st, st.clock) && Legal(st, m.ev, m.now)
    ensures Extends(Step(cfg, st, m), st)
  {
    StepFollows(cfg, st, m);
    hide Apply;
  }

  lemma {:induction false} RunExtends(cfg: Config, st: State, events: seq<Moment>, k: nat)
    requires Inv(cfg, st, st.clock) && LegalRun(cfg, st, events) && k <= |events|
    ensures Extends(Run(cfg, st, events), Run(cfg, st, events[..k]))
    decreases |events|
  {
    hide Inv, LegalRun, Legal, Step, Run, Extends;
    if k == |events| {
      assert events[..k] == events;
      ExtendsItself(Run(cfg, st, events));
    } else {
      var n := |events| - 1;
      LastStep(cfg, st, events);
      RunExtends(cfg, st, events[..n], k);
      assert events[..n][..k] == events[..k];
      RunKeeps(cfg, st, events[..n]);
      StepExtends(cfg, Run(cfg, st, events[..n]), events[n]);
      ExtendsOn(Run(cfg, st, events), Run(cfg, st, events[..n]), Run(cfg, st, events[..k]));
    }
  }

  lemma ExtendsItself(st: State)
    ensures Extends(st, st)
  {
  }

  lemma ExtendsOn(c: State, b: State, a: State)
    requires Extends(c, b) && Extends(b, a)
    ensures Extends(c, a)
  {
  }

  /** Once a row is gone since d, no token naming it that was ever issued, before or after, is accepted from d plus the
      access lifetime on; and the row does not come back. */
  lemma EndedRowsLockOut(cfg: Config, st: State, events: seq<Moment>, k: nat, id: string, t: Token, now: Time)
    requires Inv(cfg, st, st.clock) && LegalRun(cfg, st, events) && k <= |events|
    requires id in Run(cfg, st, events[..k]).ended
    requires t in Run(cfg, st, events).issued && t.sessionId == id
    requires now >= Run(cfg, st, events[..k]).ended[id] + cfg.accessLifetime
    ensures id !in Run(cfg, st, events).sessions
    ensures !Accepted(t, now)
  {
    RunExtends(cfg, st, events, k);
    RunKeeps(cfg, st, events);
    SecondsIsMonotone(Run(cfg, st, events[..k]).ended[id] + cfg.accessLifetime, now);
  }

  /** A row leaves the store only by being recorded as ended at that very moment, so the lock-out above covers logout,
      notices, reconciliation and expiry alike. */
  lemma RowsLeaveOnlyByEnding(cfg: Config, st: State, m: Moment, id: string)
    requires Inv(cfg, st, st.clock) && Legal(st, m.ev, m.now)
    requires id in st.sessions
    ensures id in Step(cfg, st, m).sessions || (id in Step(cfg, st, m).ended && Step(cfg, st, m).ended[id] == m.now)
  {
    StepFollows(cfg, st, m);
    hide Apply;
  }

  /** A token is only ever issued for a row that is in the store at that moment, belongs to the token's user, and whose
      user is not deactivated. */
  lemma NewTokensNameLiveRows(cfg: Config, st: State, m: Moment, t: Token)
    requires Inv(cfg, st, st.clock) && Legal(st, m.ev, m.now)
    requires t in Step(cfg, st, m).issued && t !in st.issued
    ensures var after := Step(cfg, st, m);
            && t.sessionId in after.sessions && after.sessions[t.sessionId].userId == t.userId
            && CanSignIn(after, t.userId)
            && t == AccessToken(cfg, t.userId, t.sessionId, m.now)
  {
    StepFollows(cfg, st, m);
    hide Apply;
  }

  /** Every token there has ever been names a row that existed and belonged to the token's user. */
  lemma TokensNameRealRows(cfg: Config, st: State, events: seq<Moment>, t: Token)
    requires Inv(cfg, st, st.clock) && LegalRun(cfg, st, events)
    requires t in Run(cfg, st, events).issued
    ensures t.sessionId in Run(cfg, st, events).owners && Run(cfg, st, events).owners[t.sessionId] == t.userId
  {
    RunKeeps(cfg, st, events);
  }

  // What a return from a trip does besides rows and tokens: it spends the trip, and may add a user.
  ghost predicate OnlySpends(a: State, b: State, s: string) {
    && b.transactions == a.transactions - {s} && b.trips == a.trips && b.deliveries == a.deliveries
    && (forall u :: u in a.active ==> u in b.active && b.active[u] == a.active[u])
  }

  lemma LoginOnlySpends(cfg: Config, st: State, s: string, exchange: Option<Claims>, newcomer: Newcomer, id: string, now: Time)
    requires newcomer.Create? ==> newcomer.newUserId !in st.active
    ensures OnlySpends(st, CompleteLogin(cfg, st, s, exchange, newcomer, id, now).0, s)
  {
    hide Redeem, ExpiredRows, LinkedAt, CanSignIn, Issue, EndSessions, NewSession, ResolveUser;
    var consumed := Consume(st, s);
    var claims := Redeem(st, s, exchange, Login, now);
    if claims.Some? {
      ResolvingLeaves(consumed, claims.value, newcomer);
      var (known, user) := ResolveUser(consumed, claims.value, newcomer);
      if user.Some? { SigningInLeaves(cfg, known, id, user.value, claims.value, now); }
    }
  }

  lemma ResolvingLeaves(st: State, claims: Claims, newcomer: Newcomer)
    requires newcomer.Create? ==> newcomer.newUserId !in st.active
    ensures var known := ResolveUser(st, claims, newcomer).0;
            && known.transactions == st.transactions && known.trips == st.trips && known.deliveries == st.deliveries
            && (forall u :: u in st.active ==> u in known.active && known.active[u] == st.active[u])
  {
    hide LinkedAt;
  }

  lemma SigningInLeaves(cfg: Config, st: State, id: string, userId: int, claims: Claims, now: Time)
    ensures var swept := EndSessions(st, ExpiredRows(st.sessions, now), now);
            var after := Issue(cfg, NewSession(cfg, swept, id, userId, claims, now), userId, id, now);
            && after.transactions == st.transactions && after.trips == st.trips && after.deliveries == st.deliveries
            && after.active == st.active
  {
    hide ExpiredRows;
  }

  lemma RenewalOnlySpends(cfg: Config, st: State, s: string, exchange: Option<Claims>, id: string, now: Time)
    ensures OnlySpends(st, CompleteRenewal(cfg, st, s, exchange, id, now).0, s)
  {
    hide CanSignIn;
  }

  // What every other step but starting a trip leaves alone.
  ghost predicate SameTrips(a: State, b: State) {
    b.transactions == a.transactions && b.trips == a.trips
  }

  lemma OtherStepsFrame(cfg: Config, st: State, ev: Event, now: Time)
    requires ev.Reissued? || ev.SignedOut? || ev.NoticeArrived? || ev.Reconciled?
    ensures var after := Apply(cfg, st, ev, now);
            SameTrips(st, after) && after.active == st.active && (ev.NoticeArrived? || after.deliveries == st.deliveries)
  {
    hide CompleteLogin, CompleteRenewal, StartTrip, Consume, ContinuationOf, Accepted, RowsOfNotice, RowsToEnd, LinksToDrop,
         EveryoneIsUnknown, RecentDeliveries, CanSignIn, ReadNotice, EndSessions;
    match ev
    case SignedOut(token) =>
      var c := ContinuationOf(cfg, token, now);
      if c.Some? { EndingLeaves(st, {c.value.sessionId}, now); }
    case NoticeArrived(claims) =>
      var notice := ReadNotice(cfg.issuer, claims, now);
      if notice.Some? { EndingLeaves(st, RowsOfNotice(cfg.issuer, st.sessions, st.links, notice.value), now); }
    case Reconciled(roster) => EndingLeaves(st, RowsToEnd(cfg, st, roster), now);
    case _ =>
  }

  lemma EndingLeaves(st: State, gone: set<string>, now: Time)
    ensures var after := EndSessions(st, gone, now);
            SameTrips(st, after) && after.active == st.active && after.deliveries == st.deliveries
  {
  }

  // ---- a stopped user ------------------------------------------------------------------------------

  lemma ActiveAfterStep(cfg: Config, st: State, m: Moment, u: int)
    requires Legal(st, m.ev, m.now) && u in st.active && (m.ev.SetActive? ==> m.ev.userId != u || !m.ev.on)
    ensures var after := Apply(cfg, st, m.ev, m.now).active; u in after && (!st.active[u] ==> !after[u])
  {
    match m.ev
    case FinishLogin(s, exchange, newcomer, id) => LoginOnlySpends(cfg, st, s, exchange, newcomer, id, m.now);
    case FinishRenewal(s, exchange, id) => RenewalOnlySpends(cfg, st, s, exchange, id, m.now);
    case Reissued(_) => OtherStepsFrame(cfg, st, m.ev, m.now);
    case SignedOut(_) => OtherStepsFrame(cfg, st, m.ev, m.now);
    case NoticeArrived(_) => OtherStepsFrame(cfg, st, m.ev, m.now);
    case Reconciled(_) => OtherStepsFrame(cfg, st, m.ev, m.now);
    case _ =>
  }

  lemma StoppedUserStaysStopped(cfg: Config, st: State, m: Moment, u: int)
    requires Inv(cfg, st, st.clock) && Legal(st, m.ev, m.now)
    requires u in st.active && !st.active[u] && m.ev != SetActive(u, true)
    ensures var after := Step(cfg, st, m);
            && u in after.active && !after.active[u]
            && forall t :: t in after.issued && t.userId == u ==> t in st.issued
  {
    StepFollows(cfg, st, m);
    ActiveAfterStep(cfg, st, m, u);
    hide Inv, Quiet, Apply, Legal;
  }

  /** From the moment a user is stopped, and for as long as nobody lets them back in, they get no new token; so no token
      of theirs is accepted from one access lifetime after that moment. */
  lemma {:induction false} StoppedUsersAreOut(cfg: Config, st: State, events: seq<Moment>, k: nat, u: int)
    requires Inv(cfg, st, st.clock) && LegalRun(cfg, st, events) && k <= |events|
    requires var before := Run(cfg, st, events[..k]); u in before.active && !before.active[u]
    requires forall j :: k <= j < |events| ==> events[j].ev != SetActive(u, true)
    ensures var end := Run(cfg, st, events);
            && u in end.active && !end.active[u]
            && (forall t :: t in end.issued && t.userId == u ==> t in Run(cfg, st, events[..k]).issued)
            && (forall t, now: Time ::
                  t in end.issued && t.userId == u && now >= Run(cfg, st, events[..k]).clock + cfg.accessLifetime
                  ==> !Accepted(t, now))
    decreases |events|
  {
    hide Inv, LegalRun, Run, Step, Legal, Accepted;
    LegalPrefix(cfg, st, events, k);
    RunKeeps(cfg, st, events[..k]);
    OldTokensRunOut(cfg, Run(cfg, st, events[..k]));
    if k == |events| {
      assert events[..k] == events;
    } else {
      var n := |events| - 1;
      LastStep(cfg, st, events);
      assert events[..n][..k] == events[..k];
      StoppedUsersAreOut(cfg, st, events[..n], k, u);
      RunKeeps(cfg, st, events[..n]);
      StoppedUserStaysStopped(cfg, Run(cfg, st, events[..n]), events[n], u);
    }
  }

  lemma OldTokensRunOut(cfg: Config, st: State)
    requires Inv(cfg, st, st.clock)
    ensures forall t, now: Time :: t in st.issued && now >= st.clock + cfg.accessLifetime ==> !Accepted(t, now)
  {
    forall t, now: Time | t in st.issued && now >= st.clock + cfg.accessLifetime
      ensures !Accepted(t, now)
    {
      SecondsIsMonotone(st.clock + cfg.accessLifetime, now);
    }
  }

  // ---- a trip is good for one return --------------------------------------------------------------------

  ghost predicate Spent(st: State, s: string) {
    s in st.trips && s !in st.transactions
  }

  lemma SpentTripsStaySpent(cfg: Config, st: State, m: Moment, s: string)
    requires Legal(st, m.ev, m.now) && Spent(st, s)
    ensures Spent(Step(cfg, st, m), s)
  {
    hide Apply, Legal;
    if m.ev.Reissued? || m.ev.SignedOut? || m.ev.NoticeArrived? || m.ev.Reconciled? {
      OtherStepsFrame(cfg, st, m.ev, m.now);
    } else {
      ReturnsKeepSpent(cfg, st, m, s);
    }
  }

  lemma ReturnsKeepSpent(cfg: Config, st: State, m: Moment, s: string)
    requires Legal(st, m.ev, m.now) && Spent(st, s)
    requires !m.ev.Reissued? && !m.ev.SignedOut? && !m.ev.NoticeArrived? && !m.ev.Reconciled?
    ensures Spent(Apply(cfg, st, m.ev, m.now), s)
  {
    hide CompleteLogin, CompleteRenewal, Reissue, Logout, Backchannel, Reconcile, ContinuationOf;
    match m.ev
    case FinishLogin(t, exchange, newcomer, id) => LoginOnlySpends(cfg, st, t, exchange, newcomer, id, m.now);
    case FinishRenewal(t, exchange, id) => RenewalOnlySpends(cfg, st, t, exchange, id, m.now);
    case _ =>
  }

  predicate ReturnsFrom(ev: Event, s: string) {
    (ev.FinishLogin? || ev.FinishRenewal? || ev.Decline?) && ev.tripState == s
  }

  lemma ReturningSpends(cfg: Config, st: State, m: Moment, s: string)
    requires Legal(st, m.ev, m.now) && ReturnsFrom(m.ev, s) && s in st.trips
    ensures Spent(Step(cfg, st, m), s)
  {
    match m.ev
    case FinishLogin(_, exchange, newcomer, id) => LoginOnlySpends(cfg, st, s, exchange, newcomer, id, m.now);
    case FinishRenewal(_, exchange, id) => RenewalOnlySpends(cfg, st, s, exchange, id, m.now);
    case _ =>
  }

  lemma {:induction false} SpentForever(cfg: Config, st: State, events: seq<Moment>, k: nat, s: string)
    requires LegalRun(cfg, st, events) && k <= |events| && Spent(Run(cfg, st, events[..k]), s)
    ensures Spent(Run(cfg, st, events), s)
    decreases |events|
  {
    hide Step, Legal, Spent;
    if k == |events| {
      assert events[..k] == events;
    } else {
      var n := |events| - 1;
      LastStep(cfg, st, events);
      assert events[..n][..k] == events[..k];
      SpentForever(cfg, st, events[..n], k, s);
      SpentTripsStaySpent(cfg, Run(cfg, st, events[..n]), events[n], s);
    }
  }

  /** However often, and with whatever code, the browser comes back again from a trip it has already come back from (or
      declined), neither a login nor a renewal makes a token of it. */
  lemma TripsWorkOnce(cfg: Config, st: State, events: seq<Moment>, k: nat, s: string, exchange: Option<Claims>,
                      newcomer: Newcomer, freshId: string, now: Time)
    requires Inv(cfg, st, st.clock) && LegalRun(cfg, st, events) && k < |events|
    requires ReturnsFrom(events[k].ev, s) && s in Run(cfg, st, events[..k]).trips
    ensures var end := Run(cfg, st, events);
            && CompleteLogin(cfg, end, s, exchange, newcomer, freshId, now).1 == None
            && CompleteRenewal(cfg, end, s, exchange, freshId, now).1 == None
  {
    LegalPrefix(cfg, st, events, k);
    RunKeeps(cfg, st, events[..k]);
    LegalPrefix(cfg, st, events, k + 1);
    LastStep(cfg, st, events[..k + 1]);
    assert events[..k + 1][..k] == events[..k];
    ReturningSpends(cfg, Run(cfg, st, events[..k]), events[k], s);
    SpentForever(cfg, st, events, k + 1, s);
  }

  // ---- a notice acts once --------------------------------------------------------------------------------

  lemma DeliveryIsRemembered(cfg: Config, st: State, m: Moment, jti: string, since: Time)
    requires Legal(st, m.ev, m.now) && jti in st.deliveries && st.deliveries[jti] == since && m.now - cfg.deliveryRetention <= since
    ensures var after := Step(cfg, st, m); jti in after.deliveries && after.deliveries[jti] == since
  {
    match m.ev
    case FinishLogin(s, exchange, newcomer, id) => LoginOnlySpends(cfg, st, s, exchange, newcomer, id, m.now);
    case FinishRenewal(s, exchange, id) => RenewalOnlySpends(cfg, st, s, exchange, id, m.now);
    case Reissued(_) => OtherStepsFrame(cfg, st, m.ev, m.now);
    case SignedOut(_) => OtherStepsFrame(cfg, st, m.ev, m.now);
    case Reconciled(_) => OtherStepsFrame(cfg, st, m.ev, m.now);
    case NoticeArrived(_) => hide ReadNotice, RowsOfNotice, EndSessions;
    case _ =>
  }

  lemma {:induction false} ClockRises(cfg: Config, st: State, events: seq<Moment>, k: nat)
    requires LegalRun(cfg, st, events) && k < |events|
    ensures events[k].now <= Run(cfg, st, events).clock
    decreases |events|
  {
    hide LegalRun, Legal, Step, Run;
    var n := |events| - 1;
    LastStep(cfg, st, events);
    StepClock(cfg, Run(cfg, st, events[..n]), events[n]);
    if k < n {
      ClockRises(cfg, st, events[..n], k);
    }
  }

  lemma StepClock(cfg: Config, st: State, m: Moment)
    requires Legal(st, m.ev, m.now)
    ensures st.clock <= m.now == Step(cfg, st, m).clock
  {
    hide Apply;
  }

  lemma {:induction false} DeliveryIsRememberedInRun(cfg: Config, st: State, events: seq<Moment>, k: nat, jti: string)
    requires LegalRun(cfg, st, events) && k < |events|
    requires var first := Run(cfg, st, events[..k + 1]);
             jti in first.deliveries && first.deliveries[jti] == events[k].now
    requires Run(cfg, st, events).clock - cfg.deliveryRetention <= events[k].now
    ensures var end := Run(cfg, st, events); jti in end.deliveries && end.deliveries[jti] == events[k].now
    decreases |events|
  {
    hide Apply;
    var n := |events| - 1;
    if k == n {
      assert events[..k + 1] == events;
    } else {
      LastStep(cfg, st, events);
      assert events[..n][..k + 1] == events[..k + 1];
      assert Run(cfg, st, events[..n]).clock <= Run(cfg, st, events).clock;
      DeliveryIsRememberedInRun(cfg, st, events[..n], k, jti);
      DeliveryIsRemembered(cfg, Run(cfg, st, events[..n]), events[n], jti, events[k].now);
    }
  }

  lemma NoticeIsRecorded(cfg: Config, st: State, claims: LogoutClaims, now: Time)
    requires ReadNotice(cfg.issuer, claims, now).Some?
    requires claims.jti !in RecentDeliveries(st.deliveries, now - cfg.deliveryRetention)
    ensures var after := Backchannel(cfg, st, claims, now).deliveries; claims.jti in after && after[claims.jti] == now
  {
    hide RowsOfNotice, EndSessions;
  }

  lemma RecordedNoticesEndNothing(cfg: Config, st: State, again: LogoutClaims, now: Time)
    requires again.jti in st.deliveries && st.deliveries[again.jti] >= now - cfg.deliveryRetention
    ensures Backchannel(cfg, st, again, now).sessions == st.sessions
  {
    hide RowsOfNotice, EndSessions;
  }

  /** A notice that arrives again within the retention period, with whatever contents under the same jti, ends nothing:
      sign-ins made since are safe from it. */
  lemma ReplayedNoticesEndNothing(cfg: Config, st: State, events: seq<Moment>, k: nat, claims: LogoutClaims,
                                  again: LogoutClaims, now: Time)
    requires LegalRun(cfg, st, events) && k < |events|
    requires events[k].ev == NoticeArrived(claims) && ReadNotice(cfg.issuer, claims, events[k].now).Some?
    requires claims.jti !in RecentDeliveries(Run(cfg, st, events[..k]).deliveries, events[k].now - cfg.deliveryRetention)
    requires again.jti == claims.jti
    requires Run(cfg, st, events).clock <= now <= events[k].now + cfg.deliveryRetention
    ensures Backchannel(cfg, Run(cfg, st, events), again, now).sessions == Run(cfg, st, events).sessions
  {
    LegalPrefix(cfg, st, events, k + 1);
    LastStep(cfg, st, events[..k + 1]);
    assert events[..k + 1][..k] == events[..k];
    hide Legal, Backchannel;
    NoticeIsRecorded(cfg, Run(cfg, st, events[..k]), claims, events[k].now);
    DeliveryIsRememberedInRun(cfg, st, events, k, claims.jti);
    RecordedNoticesEndNothing(cfg, Run(cfg, st, events), again, now);
  }

  // ---- single steps against the invariant ----------------------------------------------------------------

  /** Signing out ends this sign-in and no other, even with an access token that has run out, for as long as the carry. */
  lemma LogoutEndsExactlyThisSignIn(cfg: Config, st: State, t: Token, now: Time)
    requires Inv(cfg, st, st.clock) && t in st.issued
    ensures Logout(cfg, st, Some(t), now).sessions
            == if Accepted(t, now - cfg.tokenCarry) then st.sessions - {t.sessionId} else st.sessions
  {
    var id := t.sessionId;
    assert id in st.sessions ==> st.sessions[id].userId == t.userId;
    if id !in st.sessions {
      assert st.sessions - {id} == st.sessions;
    }
  }

  /** Coming back from a renewal never moves a sign-in to somebody else, and while its row is there it goes on under the
      same row instead of a second one. */
  lemma RenewalContinuesTheSameSignIn(cfg: Config, st: State, s: string, exchange: Option<Claims>, freshId: string, now: Time)
    requires Inv(cfg, st, st.clock)
    requires CompleteRenewal(cfg, st, s, exchange, freshId, now).1.Some?
    requires s in st.transactions && st.transactions[s].continued.Some?
    ensures var c := st.transactions[s].continued.value;
            var (after, token) := CompleteRenewal(cfg, st, s, exchange, freshId, now);
            && token.value.userId == c.userId == st.owners[c.sessionId]
            && (c.sessionId in st.sessions ==> token.value.sessionId == c.sessionId && after.sessions.Keys == st.sessions.Keys)
            && (c.sessionId !in st.sessions ==> token.value.sessionId == freshId)
  {
    var c := st.transactions[s].continued.value;
    assert c.sessionId in st.sessions ==> st.sessions[c.sessionId].userId == c.userId;
    hide Accepted, Seconds;
  }

  /** Asking the provider again right away changes nothing more: any number of workers may run the same job. */
  lemma ReconcilingTwiceIsReconcilingOnce(cfg: Config, st: State, roster: Roster, now: Time, later: Time)
    ensures Reconcile(cfg, Reconcile(cfg, st, roster, now), roster, later) == Reconcile(cfg, st, roster, now)
  {
    if !EveryoneIsUnknown(cfg, st, roster) {
      var once := Reconcile(cfg, st, roster, now);
      NothingLeftToDo(cfg, st, roster, now);
      NotEveryoneIsUnknown(cfg, once, roster);
      EndingNothing(once, later);
      hide EveryoneIsUnknown, RowsToEnd, LinksToDrop, EndSessions;
      assert once.links - {} == once.links;
    }
  }

  lemma NothingLeftToDo(cfg: Config, st: State, roster: Roster, now: Time)
    requires !EveryoneIsUnknown(cfg, st, roster)
    ensures var once := Reconcile(cfg, st, roster, now);
            && RowsToEnd(cfg, once, roster) == {} && LinksToDrop(cfg, once, roster) == {}
            && forall identity :: identity in once.links && identity.issuer == cfg.issuer ==>
                                  !StateOf(roster, identity.subject).Unknown?
  {
    hide EveryoneIsUnknown, EndedNow;
    var once := Reconcile(cfg, st, roster, now);
    forall id | id in once.sessions
      ensures !Stopped(cfg, once.links, roster, once.sessions[id].userId)
    {
      StoppedByFewer(cfg, once.links, st.links, roster, once.sessions[id].userId);
    }
  }

  lemma StoppedByFewer(cfg: Config, few: Links, links: Links, roster: Roster, userId: int)
    requires forall identity :: identity in few ==> identity in links && links[identity] == few[identity]
    ensures Stopped(cfg, few, roster, userId) ==> Stopped(cfg, links, roster, userId)
  {
  }

  lemma NotEveryoneIsUnknown(cfg: Config, st: State, roster: Roster)
    requires forall identity :: identity in st.links && identity.issuer == cfg.issuer ==>
                                !StateOf(roster, identity.subject).Unknown?
    ensures !EveryoneIsUnknown(cfg, st, roster)
  {
    var asked := LinksAt(st.links, cfg.issuer);
    if |asked| >= 2 {
      var someone :| someone in asked;
    }
  }

  lemma EndingNothing(st: State, now: Time)
    ensures EndSessions(st, {}, now) == st
  {
    assert st.sessions - {} == st.sessions;
    assert EndedNow(st.sessions, {}, now) == map[];
    assert st.ended + map[] == st.ended;
  }
}
