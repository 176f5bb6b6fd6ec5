/** What each sign-in request comes to: exactly when it goes through, for whom, for how long, and what it leaves in the stores. */
module SignInOutcomes {
  import opened Basics
  import opened SignInModel
  import opened SignInSafety

  // ---- how long a token is good ------------------------------------------------------------------------

  // A whole second is the last one that has begun.
  lemma SecondsBracket(t: Time)
    requires t >= 0
    ensures Seconds(t) * TICKS_PER_SECOND <= t < (Seconds(t) + 1) * TICKS_PER_SECOND
  {
  }

  // The token that an event gives out.
  function Answer(cfg: Config, st: State, ev: Event, now: Time): Option<Token> {
    match ev
    case FinishLogin(s, exchange, newcomer, id) => CompleteLogin(cfg, st, s, exchange, newcomer, id, now).1
    case FinishRenewal(s, exchange, id) => CompleteRenewal(cfg, st, s, exchange, id, now).1
    case Reissued(token) => Reissue(cfg, st, token, now).1
    case _ => None
  }

  lemma AnswersRunOut(cfg: Config, st: State, ev: Event, now: Time)
    ensures Answer(cfg, st, ev, now).Some? ==> Answer(cfg, st, ev, now).value.exp == Seconds(now + cfg.accessLifetime)
  {
    hide Redeem, ResolveUser, ContinueSignIn, EndSessions, ExpiredRows, Accepted, Seconds;
  }

  /** A token that a login, a renewal or a re-issue gives out at `now` is accepted for exactly one access lifetime, in whole
      seconds: less than a second short of it, and not a microsecond over. */
  lemma TokensLastOneLifetime(cfg: Config, st: State, ev: Event, now: Time, later: Time)
    requires Answer(cfg, st, ev, now).Some?
    ensures var t := Answer(cfg, st, ev, now).value;
            && (Accepted(t, later) <==> Seconds(later) < Seconds(now + cfg.accessLifetime))
            && (0 <= later && later + TICKS_PER_SECOND <= now + cfg.accessLifetime ==> Accepted(t, later))
            && (later >= now + cfg.accessLifetime ==> !Accepted(t, later))
  {
    hide Answer, Seconds;
    AnswersRunOut(cfg, st, ev, now);
    if later >= now + cfg.accessLifetime { SecondsIsMonotone(now + cfg.accessLifetime, later); }
    if 0 <= later && later + TICKS_PER_SECOND <= now + cfg.accessLifetime {
      SecondsBracket(later);
      SecondsBracket(now + cfg.accessLifetime);
    }
  }

  // ---- logging in ------------------------------------------------------------------------------------

  // The trip is known, was made for this, and its time is not over.
  predicate TripOpen(st: State, s: string, purpose: Purpose, now: Time) {
    s in st.transactions && st.transactions[s].purpose == purpose && now < st.transactions[s].expiresAt
  }

  predicate IsActive(st: State, user: int) {
    user in st.active && st.active[user]
  }

  // The person is linked to the user; or may be linked now, to one who has no link at that provider; or is new.
  ghost predicate SettledAs(st: State, identity: Identity, newcomer: Newcomer, user: int) {
    if identity in st.links then st.links[identity] == user && IsActive(st, user)
    else
      || newcomer == Create(user)
      || (newcomer == LinkTo(user) && IsActive(st, user)
          && forall other :: other in st.links && other.issuer == identity.issuer ==> st.links[other] != user)
  }

  ghost predicate MayLogIn(st: State, s: string, exchange: Option<Claims>, newcomer: Newcomer, now: Time, user: int) {
    && TripOpen(st, s, Login, now) && exchange.Some? && exchange.value.allowed
    && SettledAs(st, exchange.value.identity, newcomer, user)
  }

  // The rows once the expired ones are swept out and the user has a new one.
  function WithNewRow(cfg: Config, sessions: Sessions, id: string, user: int, idpSession: Option<string>, now: Time): Sessions {
    (map x | x in sessions && sessions[x].expiresAt >= now :: sessions[x])
      [id := Session(user, now + cfg.signInCarry, now, idpSession)]
  }

  /** A login succeeds exactly if its trip is open, the provider vouches for somebody the rules admit, and that person is,
      or becomes, an active user. It begins a row of its own for that user, sweeps out the expired ones, and adds at most the
      link and the account; a login that fails spends the trip and changes nothing else. */
  lemma LoginExactly(cfg: Config, st: State, s: string, exchange: Option<Claims>, newcomer: Newcomer, id: string, now: Time,
                     user: int)
    ensures var (after, token) := CompleteLogin(cfg, st, s, exchange, newcomer, id, now);
            if MayLogIn(st, s, exchange, newcomer, now, user) then
              && token.Some? && token.value.userId == user && token.value.sessionId == id
              && after.links == st.links[exchange.value.identity := user] && after.active == st.active[user := true]
              && after.transactions == st.transactions - {s} && after.deliveries == st.deliveries
              && after.sessions == WithNewRow(cfg, st.sessions, id, user, exchange.value.idpSession, now)
            else
              && (token.Some? ==> token.value.userId != user)
              && (token.None? ==> after == st.(transactions := st.transactions - {s}))
  {
    hide Redeem, ResolveUser, SettledAs, CanSignIn, TripOpen, WithNewRow, ExpiredRows, EndSessions, NewSession, Issue;
    Redeems(st, s, exchange, now);
    if Redeem(st, s, exchange, Login, now).Some? {
      var consumed := Consume(st, s);
      Settles(consumed, exchange.value, newcomer, user);
      SettledBefore(st, s, exchange.value.identity, newcomer, user);
      var (known, who) := ResolveUser(consumed, exchange.value, newcomer);
      if who.Some? { SigningIn(cfg, known, id, who.value, exchange.value, now); }
    }
  }

  lemma Redeems(st: State, s: string, exchange: Option<Claims>, now: Time)
    ensures Redeem(st, s, exchange, Login, now)
            == if TripOpen(st, s, Login, now) && exchange.Some? && exchange.value.allowed then exchange else None
    ensures Redeem(st, s, exchange, Renew, now) == if TripOpen(st, s, Renew, now) && exchange.Some? then exchange else None
  {
  }

  lemma SettledBefore(st: State, s: string, identity: Identity, newcomer: Newcomer, user: int)
    ensures SettledAs(Consume(st, s), identity, newcomer, user) <==> SettledAs(st, identity, newcomer, user)
  {
  }

  lemma Settles(st: State, claims: Claims, newcomer: Newcomer, user: int)
    ensures var (known, who) := ResolveUser(st, claims, newcomer);
            if who.Some? && CanSignIn(known, who.value) then
              && (SettledAs(st, claims.identity, newcomer, user) <==> who.value == user)
              && known == st.(links := st.links[claims.identity := who.value], active := st.active[who.value := true])
            else !SettledAs(st, claims.identity, newcomer, user) && known == st
  {
    if claims.identity in st.links {
      var u := st.links[claims.identity];
      assert st.links[claims.identity := u] == st.links;
      if CanSignIn(st, u) { assert st.active[u := true] == st.active; }
    } else if newcomer.LinkTo? && CanSignIn(st, newcomer.userId) {
      assert st.active[newcomer.userId := true] == st.active;
    }
  }

  lemma SigningIn(cfg: Config, st: State, id: string, user: int, claims: Claims, now: Time)
    ensures var swept := EndSessions(st, ExpiredRows(st.sessions, now), now);
            var after := Issue(cfg, NewSession(cfg, swept, id, user, claims, now), user, id, now);
            && after.sessions == WithNewRow(cfg, st.sessions, id, user, claims.idpSession, now)
            && after.links == st.links && after.active == st.active && after.transactions == st.transactions
            && after.deliveries == st.deliveries
  {
    assert st.sessions - ExpiredRows(st.sessions, now)
        == (map x | x in st.sessions && st.sessions[x].expiresAt >= now :: st.sessions[x]);
  }

  // ---- going on with a sign-in ---------------------------------------------------------------------------

  predicate MayRenew(st: State, s: string, exchange: Option<Claims>, now: Time, user: int) {
    && TripOpen(st, s, Renew, now) && exchange.Some? && exchange.value.allowed
    && exchange.value.identity in st.links && st.links[exchange.value.identity] == user && IsActive(st, user)
    && (st.transactions[s].continued.Some? ==> st.transactions[s].continued.value.userId == user)
  }

  // The user's row that the trip set out to go on with, if it is still there.
  predicate RowGoesOn(st: State, s: string, user: int)
    requires s in st.transactions
  {
    var c := st.transactions[s].continued;
    c.Some? && c.value.sessionId in st.sessions && st.sessions[c.value.sessionId].userId == user
  }

  /** A renewal succeeds exactly if its trip is open, the provider vouches for somebody the rules admit who is linked to an
      active user, and it is nobody else than the trip was made for. The row goes on, with a new end and the provider's new
      sign-in but the same beginning; if it is gone the user gets a new one. Nothing else changes but the trip. */
  lemma RenewalExactly(cfg: Config, st: State, s: string, exchange: Option<Claims>, id: string, now: Time, user: int)
    ensures var (after, token) := CompleteRenewal(cfg, st, s, exchange, id, now);
            if MayRenew(st, s, exchange, now, user) then
              var row := if RowGoesOn(st, s, user) then st.transactions[s].continued.value.sessionId else id;
              var begun := if RowGoesOn(st, s, user) then st.sessions[row].createdAt else now;
              && token.Some? && token.value.userId == user && token.value.sessionId == row
              && after.sessions == st.sessions[row := Session(user, now + cfg.signInCarry, begun, exchange.value.idpSession)]
              && after.links == st.links && after.active == st.active && after.transactions == st.transactions - {s}
              && after.deliveries == st.deliveries
            else
              && (token.Some? ==> token.value.userId != user)
              && (token.None? ==> after == st.(transactions := st.transactions - {s}))
  {
    hide Redeem, TripOpen, Seconds;
    Redeems(st, s, exchange, now);
  }

  /** A re-issue gives a token for the same user and sign-in exactly if the old one has not run out, its row is still there
      and the user is active; it changes no store. */
  lemma ReissueExactly(cfg: Config, st: State, token: Option<Token>, now: Time)
    ensures var (after, t) := Reissue(cfg, st, token, now);
            && (t.Some? <==> token.Some? && Seconds(now) < token.value.exp && token.value.sessionId in st.sessions
                             && IsActive(st, token.value.userId))
            && (t.Some? ==> t.value.userId == token.value.userId && t.value.sessionId == token.value.sessionId)
            && after.(issued := st.issued) == st
  {
    hide Seconds;
  }

  /** Signing out ends the row of the token, if it is that user's, for as long as the token can be read after it has run out. */
  lemma LogoutExactly(cfg: Config, st: State, t: Token, now: Time, id: string)
    requires id in st.sessions
    ensures var after := Logout(cfg, st, Some(t), now);
            && (id !in after.sessions <==>
                  id == t.sessionId && st.sessions[id].userId == t.userId && Seconds(now - cfg.tokenCarry) < t.exp)
            && (id in after.sessions ==> after.sessions[id] == st.sessions[id])
            && after.links == st.links && after.active == st.active && after.transactions == st.transactions
  {
    hide Seconds;
  }

  // ---- trips -------------------------------------------------------------------------------------------

  lemma TripStays(cfg: Config, st: State, m: Moment, s: string)
    requires Inv(cfg, st, st.clock) && Legal(st, m.ev, m.now) && s in st.trips && !ReturnsFrom(m.ev, s)
    ensures var after := Step(cfg, st, m).transactions;
            && (s in after ==> s in st.transactions && after[s] == st.transactions[s])
            && (s in st.transactions && m.now <= st.transactions[s].expiresAt ==> s in after)
            && s in Step(cfg, st, m).trips
  {
    hide Apply, Inv;
    StepExtends(cfg, st, m);
    TripsAfter(cfg, st, m, s);
  }

  lemma TripsAfter(cfg: Config, st: State, m: Moment, s: string)
    requires Legal(st, m.ev, m.now) && s in st.trips && !ReturnsFrom(m.ev, s)
    ensures var after := Apply(cfg, st, m.ev, m.now).transactions;
            && (s in after ==> s in st.transactions && after[s] == st.transactions[s])
            && (s in st.transactions && m.now <= st.transactions[s].expiresAt ==> s in after)
  {
    hide Apply, Legal;
    if m.ev.Reissued? || m.ev.SignedOut? || m.ev.NoticeArrived? || m.ev.Reconciled? {
      OtherStepsFrame(cfg, st, m.ev, m.now);
    } else {
      OtherTripsAfter(cfg, st, m, s);
    }
  }

  lemma OtherTripsAfter(cfg: Config, st: State, m: Moment, s: string)
    requires Legal(st, m.ev, m.now) && s in st.trips && !ReturnsFrom(m.ev, s)
    requires !m.ev.Reissued? && !m.ev.SignedOut? && !m.ev.NoticeArrived? && !m.ev.Reconciled?
    ensures var after := Apply(cfg, st, m.ev, m.now).transactions;
            && (s in after ==> s in st.transactions && after[s] == st.transactions[s])
            && (s in st.transactions && m.now <= st.transactions[s].expiresAt ==> s in after)
  {
    hide CompleteLogin, CompleteRenewal, Reissue, Logout, Backchannel, Reconcile, ContinuationOf;
    match m.ev
    case FinishLogin(t, exchange, newcomer, id) => LoginOnlySpends(cfg, st, t, exchange, newcomer, id, m.now);
    case FinishRenewal(t, exchange, id) => RenewalOnlySpends(cfg, st, t, exchange, id, m.now);
    case _ =>
  }

  predicate Starts(ev: Event, s: string) {
    (ev.StartLogin? || ev.StartRenewal?) && ev.tripState == s
  }

  function PurposeOf(ev: Event): Purpose {
    if ev.StartLogin? then Login else Renew
  }

  // The sign-in that a renewal sets out to go on with: that of a token that can still be read.
  function CarriedOn(cfg: Config, m: Moment): Option<Continued> {
    if m.ev.StartRenewal? && m.ev.token.Some? && Seconds(m.now - cfg.tokenCarry) < m.ev.token.value.exp
    then Some(Continued(m.ev.token.value.userId, m.ev.token.value.sessionId)) else None
  }

  // The trip that m began is there as it was begun, or its time is over.
  ghost predicate TripAsBegun(cfg: Config, st: State, s: string, m: Moment) {
    && s in st.trips
    && (s in st.transactions ==>
          st.transactions[s] == Transaction(m.now + cfg.transactionTtl, m.ev.StartLogin? ==> m.ev.silent, PurposeOf(m.ev),
                                            CarriedOn(cfg, m)))
    && (s !in st.transactions ==> m.now + cfg.transactionTtl < st.clock)
  }

  lemma TripBegins(cfg: Config, st: State, m: Moment, s: string)
    requires Starts(m.ev, s) && Legal(st, m.ev, m.now)
    ensures TripAsBegun(cfg, Step(cfg, st, m), s, m)
  {
    hide OpenTrips, Seconds;
  }

  lemma {:induction false} TripGoesOn(cfg: Config, st: State, events: seq<Moment>, k: nat, s: string)
    requires Inv(cfg, st, st.clock) && LegalRun(cfg, st, events) && k < |events| && Starts(events[k].ev, s)
    requires forall j :: k < j < |events| ==> !ReturnsFrom(events[j].ev, s)
    ensures TripAsBegun(cfg, Run(cfg, st, events), s, events[k])
    decreases |events|
  {
    hide Inv, LegalRun, Legal, Step, ReturnsFrom, Starts, CarriedOn;
    var n := |events| - 1;
    LastStep(cfg, st, events);
    RunKeeps(cfg, st, events[..n]);
    if k == n {
      TripBegins(cfg, Run(cfg, st, events[..n]), events[n], s);
    } else {
      TripGoesOn(cfg, st, events[..n], k, s);
      StepClock(cfg, Run(cfg, st, events[..n]), events[n]);
      TripStays(cfg, Run(cfg, st, events[..n]), events[n], s);
    }
  }

  /** A trip that nobody has come back from is open for exactly its time, whatever else happens; so a login on it, or a
      renewal, succeeds until then for whoever it would succeed for, and from then on for nobody. */
  lemma TripsAreOpenForTheirTime(cfg: Config, st: State, events: seq<Moment>, k: nat, s: string, purpose: Purpose, now: Time)
    requires Inv(cfg, st, st.clock) && LegalRun(cfg, st, events) && k < |events| && Starts(events[k].ev, s)
    requires forall j :: k < j < |events| ==> !ReturnsFrom(events[j].ev, s)
    requires Run(cfg, st, events).clock <= now
    ensures TripOpen(Run(cfg, st, events), s, purpose, now) <==>
              purpose == PurposeOf(events[k].ev) && now < events[k].now + cfg.transactionTtl
    ensures var trips := Run(cfg, st, events).transactions;
            TripOpen(Run(cfg, st, events), s, purpose, now) ==>
              trips[s].continued == CarriedOn(cfg, events[k]) && trips[s].silent == (events[k].ev.StartLogin? ==> events[k].ev.silent)
  {
    hide Inv, LegalRun, Run, CarriedOn;
    TripGoesOn(cfg, st, events, k, s);
  }

  // ---- asking the provider about everyone ------------------------------------------------------------------

  // What the provider says about the person.
  ghost predicate Says(roster: Roster, who: Identity, answer: RosterState) {
    who.subject in roster && roster[who.subject] == answer
  }

  ghost predicate NobodyKnown(cfg: Config, st: State, roster: Roster) {
    && (exists a, b :: a in st.links && b in st.links && a != b && a.issuer == b.issuer == cfg.issuer)
    && forall who :: who in st.links && who.issuer == cfg.issuer ==> Says(roster, who, Unknown)
  }

  lemma EveryoneAsSaid(cfg: Config, st: State, roster: Roster)
    ensures EveryoneIsUnknown(cfg, st, roster) <==> NobodyKnown(cfg, st, roster)
  {
    hide Says, StateOf;
    var asked := LinksAt(st.links, cfg.issuer);
    TwoOrMore(asked);
    SaidUnknown(roster);
    if |asked| >= 2 {
      var a, b :| a in asked && b in asked && a != b;
      assert a in st.links && b in st.links;
    }
    if a, b :| a in st.links && b in st.links && a != b && a.issuer == b.issuer == cfg.issuer {
      assert a in asked && b in asked;
    }
  }

  lemma SaidUnknown(roster: Roster)
    ensures forall who: Identity :: StateOf(roster, who.subject).Unknown? <==> Says(roster, who, Unknown)
  {
  }

  lemma TwoOrMore(s: set<Identity>)
    ensures |s| >= 2 <==> exists a, b :: a in s && b in s && a != b
  {
    if |s| >= 2 {
      var a :| a in s;
      assert |s - {a}| >= 1;
      var b :| b in s - {a};
      assert a in s && b in s && a != b;
    }
    if a, b :| a in s && b in s && a != b {
      assert s == {a, b} + (s - {a, b});
    }
  }

  // The provider has blocked the user by one of their links, or does not know it.
  ghost predicate TurnedAway(cfg: Config, st: State, roster: Roster, user: int) {
    exists who :: who in st.links && who.issuer == cfg.issuer && st.links[who] == user
                  && (Says(roster, who, BlockedUser) || Says(roster, who, Unknown))
  }

  /** A reconciliation ends the sign-ins of exactly those whom the provider has blocked or does not know, and drops the links
      of exactly those it does not know; unless it claims, of two or more, to know nobody. It touches nothing else. */
  lemma ReconcileExactly(cfg: Config, st: State, roster: Roster, now: Time)
    ensures var after, heldBack := Reconcile(cfg, st, roster, now), NobodyKnown(cfg, st, roster);
            && after.sessions == (map id | id in st.sessions && (heldBack || !TurnedAway(cfg, st, roster, st.sessions[id].userId))
                                         :: st.sessions[id])
            && after.links == (map who | who in st.links
                                         && (heldBack || who.issuer != cfg.issuer || !Says(roster, who, Unknown))
                                       :: st.links[who])
            && after.active == st.active && after.transactions == st.transactions && after.deliveries == st.deliveries
  {
    hide EveryoneIsUnknown, NobodyKnown, RowsToEnd, LinksToDrop, Says, EndedNow, TurnedAway;
    EveryoneAsSaid(cfg, st, roster);
    RowsReconciled(cfg, st, roster);
    LinksReconciled(cfg, st, roster);
  }

  lemma RowsReconciled(cfg: Config, st: State, roster: Roster)
    ensures forall id :: id in RowsToEnd(cfg, st, roster) <==>
              id in st.sessions && TurnedAway(cfg, st, roster, st.sessions[id].userId)
  {
    hide StateOf, Says;
    SaidToEnd(roster);
  }

  lemma SaidToEnd(roster: Roster)
    ensures forall who: Identity :: StateOf(roster, who.subject).EndsSessions() <==>
                                    Says(roster, who, BlockedUser) || Says(roster, who, Unknown)
  {
  }

  lemma LinksReconciled(cfg: Config, st: State, roster: Roster)
    ensures forall who :: who in LinksToDrop(cfg, st, roster) <==>
              who in st.links && who.issuer == cfg.issuer && Says(roster, who, Unknown)
  {
  }
}