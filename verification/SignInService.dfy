/** The sign-in requests as they run: each reads and writes the stores in the order of the code, and is proved to be a
    step of the protocol. */
module SignInService {
  import opened Basics
  import opened SignInModel
  import opened SignInSafety

  class Stores {
    var sessions: Sessions
    var transactions: map<string, Transaction>
    var active: map<int, bool>
    var links: Links
    var deliveries: map<string, Time>
    ghost var clock: Time
    ghost var owners: map<string, int>
    ghost var ended: map<string, Time>
    ghost var issued: set<Token>
    ghost var trips: set<string>

    constructor (clock: Time, active: map<int, bool>, links: Links)
      ensures Now() == Beginning(clock, active, links)
    {
      this.clock := clock;
      this.sessions, this.transactions, this.active, this.links, this.deliveries := map[], map[], active, links, map[];
      this.owners, this.ended, this.issued, this.trips := map[], map[], {}, {};
    }

    ghost function Now(): State
      reads this
    {
      State(clock, sessions, transactions, active, links, deliveries, owners, ended, issued, trips)
    }

    method ConsumeTransaction(state: string) returns (found: Option<Transaction>)
      modifies this
      ensures Now() == Consume(old(Now()), state)
      ensures found == if state in old(transactions) then Some(old(transactions)[state]) else None
    {
      if state in transactions {
        found := Some(transactions[state]);
        transactions := transactions - {state};
      } else {
        found := None;
        assert transactions - {state} == transactions;
      }
    }

    method DeleteExpiredTransactions(now: Time)
      modifies this`transactions
      ensures transactions == OpenTrips(old(transactions), now)
    {
      var all := transactions;
      transactions := map s | s in all && !(all[s].expiresAt < now) :: all[s];
    }

    method DeleteExpiredDeliveries(since: Time)
      modifies this`deliveries
      ensures deliveries == RecentDeliveries(old(deliveries), since)
    {
      var all := deliveries;
      deliveries := map j | j in all && !(all[j] < since) :: all[j];
    }

    // Delete the given rows and tell how many there were.
    method DeleteRows(gone: set<string>, now: Time) returns (count: nat)
      requires gone <= sessions.Keys
      modifies this
      ensures Now() == EndSessions(old(Now()), gone, now) && count == |gone|
    {
      ended := ended + EndedNow(sessions, gone, now);
      sessions := sessions - gone;
      count := |gone|;
    }

    method DeleteExpired(now: Time)
      modifies this
      ensures Now() == EndSessions(old(Now()), ExpiredRows(old(sessions), now), now)
    {
      var _ := DeleteRows((set id | id in sessions && sessions[id].expiresAt < now), now);
    }

    method DeleteForIdentity(identity: Identity, idpSession: Option<string>, now: Time) returns (count: nat)
      modifies this
      ensures var gone := RowsOfIdentity(old(sessions), old(links), identity, idpSession);
              Now() == EndSessions(old(Now()), gone, now) && count == |gone|
    {
      var gone := {};
      if identity in links {
        gone := set id | id in sessions && sessions[id].userId == links[identity]
                         && (idpSession.None? || sessions[id].idpSession == idpSession);
      }
      assert gone == RowsOfIdentity(sessions, links, identity, idpSession);
      count := DeleteRows(gone, now);
    }

    method DeleteForIdpSession(issuer: string, idpSession: string, now: Time) returns (count: nat)
      modifies this
      ensures var gone := RowsOfIdpSession(old(sessions), old(links), issuer, idpSession);
              Now() == EndSessions(old(Now()), gone, now) && count == |gone|
    {
      var users := set identity | identity in links && identity.issuer == issuer :: links[identity];
      var gone := set id | id in sessions && sessions[id].idpSession == Some(idpSession) && sessions[id].userId in users;
      assert gone == RowsOfIdpSession(sessions, links, issuer, idpSession);
      count := DeleteRows(gone, now);
    }

    method AddSession(cfg: Config, id: string, userId: int, claims: Claims, now: Time)
      modifies this
      ensures Now() == NewSession(cfg, old(Now()), id, userId, claims, now)
    {
      sessions := sessions[id := Session(userId, now + cfg.signInCarry, now, claims.idpSession)];
      owners := owners[id := userId];
    }

    method MakeToken(cfg: Config, userId: int, id: string, now: Time) returns (t: Token)
      modifies this
      ensures Now() == Issue(cfg, old(Now()), userId, id, now) && t == AccessToken(cfg, userId, id, now)
    {
      t := AccessToken(cfg, userId, id, now);
      issued := issued + {t};
    }

    // Record a delivery unless the same one is already there.
    method RecordDelivery(jti: string, now: Time) returns (first: bool)
      modifies this`deliveries
      ensures first == (jti !in old(deliveries))
      ensures deliveries == if first then old(deliveries)[jti := now] else old(deliveries)
    {
      first := jti !in deliveries;
      if first { deliveries := deliveries[jti := now]; }
    }
  }

  class SessionAuthenticationUseCases {
    const stores: Stores
    const cfg: Config

    constructor (stores: Stores, cfg: Config)
      ensures this.stores == stores && this.cfg == cfg
    {
      this.stores, this.cfg := stores, cfg;
    }

    // The stores are not asked: a token is good until it runs out.
    method Authenticate(token: Option<Token>, now: Time) returns (user: Option<int>)
      ensures user == if token.Some? && Seconds(now) < token.value.exp then Some(token.value.userId) else None
    {
      if token.None? || token.value.exp <= Seconds(now) { return None; }
      user := Some(token.value.userId);
    }

    method ReissueAccess(token: Option<Token>, now: Time) returns (renewed: Option<Token>)
      modifies stores
      ensures (stores.Now(), renewed) == Reissue(cfg, old(stores.Now()), token, now)
    {
      var user := Authenticate(token, now);
      if user.None? || token.value.sessionId !in stores.sessions { return None; }
      if token.value.userId !in stores.active || !stores.active[token.value.userId] { return None; }
      var t := stores.MakeToken(cfg, token.value.userId, token.value.sessionId, now);
      renewed := Some(t);
    }

    method Revoke(token: Option<Token>, now: Time)
      modifies stores
      ensures stores.Now() == Logout(cfg, old(stores.Now()), token, now)
    {
      var continued := ContinuationOf(cfg, token, now);
      if continued.None? { return; }
      var id := continued.value.sessionId;
      if id in stores.sessions && stores.sessions[id].userId == continued.value.userId {
        var _ := stores.DeleteRows({id}, now);
      }
    }
  }

  class SsoLoginUseCases {
    const stores: Stores
    const cfg: Config

    constructor (stores: Stores, cfg: Config)
      ensures this.stores == stores && this.cfg == cfg
    {
      this.stores, this.cfg := stores, cfg;
    }

    method Start(state: string, silent: bool, purpose: Purpose, continued: Option<Continued>, now: Time)
      modifies stores
      ensures stores.Now() == StartTrip(cfg, old(stores.Now()), state, silent, purpose, continued, now)
    {
      stores.DeleteExpiredTransactions(now);
      stores.transactions := stores.transactions[state := Transaction(now + cfg.transactionTtl, silent, purpose, continued)];
      stores.trips := stores.trips + {state};
    }

    // The trip and the claims, if this return may go on; the trip is spent either way.
    method RedeemTrip(state: string, exchange: Option<Claims>, purpose: Purpose, now: Time)
        returns (trip: Option<Transaction>, claims: Option<Claims>)
      modifies stores
      ensures stores.Now() == Consume(old(stores.Now()), state)
      ensures claims == Redeem(old(stores.Now()), state, exchange, purpose, now)
      ensures claims.Some? ==> trip == Some(old(stores.transactions)[state])
    {
      trip := stores.ConsumeTransaction(state);
      if trip.None? || trip.value.purpose != purpose { return trip, None; }
      if now >= trip.value.expiresAt { return trip, None; }
      if exchange.None? { return trip, None; }
      if purpose == Login && !exchange.value.allowed { return trip, None; }
      claims := exchange;
    }

    method ResolveOrCreate(claims: Claims, newcomer: Newcomer) returns (user: Option<int>)
      modifies stores
      ensures (stores.Now(), user) == ResolveUser(old(stores.Now()), claims, newcomer)
    {
      if claims.identity in stores.links { return Some(stores.links[claims.identity]); }
      match newcomer
      case Refused => user := None;
      case LinkTo(u) =>
        if u !in stores.active || !stores.active[u] { return None; }
        if LinkedAt(stores.links, claims.identity.issuer, u) { return None; }
        stores.links := stores.links[claims.identity := u];
        user := Some(u);
      case Create(u) =>
        stores.active := stores.active[u := true];
        stores.links := stores.links[claims.identity := u];
        user := Some(u);
    }

    method FinishLoginTrip(state: string, exchange: Option<Claims>, newcomer: Newcomer, freshId: string, now: Time)
        returns (token: Option<Token>)
      modifies stores
      ensures (stores.Now(), token) == CompleteLogin(cfg, old(stores.Now()), state, exchange, newcomer, freshId, now)
    {
      var _, claims := RedeemTrip(state, exchange, Login, now);
      if claims.None? { return None; }
      var user := ResolveOrCreate(claims.value, newcomer);
      if user.None? { return None; }
      if user.value !in stores.active || !stores.active[user.value] { return None; }
      stores.DeleteExpired(now);
      stores.AddSession(cfg, freshId, user.value, claims.value, now);
      var t := stores.MakeToken(cfg, user.value, freshId, now);
      token := Some(t);
    }

    // Extend the sign-in that is there, or begin a new one.
    method Continue(continued: Option<Continued>, userId: int, claims: Claims, freshId: string, now: Time)
        returns (id: string)
      modifies stores
      ensures (stores.Now(), id) == ContinueSignIn(cfg, old(stores.Now()), continued, userId, claims, freshId, now)
    {
      if continued.Some? {
        id := continued.value.sessionId;
        if id in stores.sessions && stores.sessions[id].userId == userId {
          var row := stores.sessions[id];
          stores.sessions := stores.sessions[id := row.(idpSession := claims.idpSession, expiresAt := now + cfg.signInCarry)];
          return;
        }
      }
      stores.AddSession(cfg, freshId, userId, claims, now);
      id := freshId;
    }

    method FinishRenewalTrip(state: string, exchange: Option<Claims>, freshId: string, now: Time)
        returns (token: Option<Token>)
      modifies stores
      ensures (stores.Now(), token) == CompleteRenewal(cfg, old(stores.Now()), state, exchange, freshId, now)
    {
      var trip, claims := RedeemTrip(state, exchange, Renew, now);
      if claims.None? { return None; }
      if !claims.value.allowed { return None; }
      if claims.value.identity !in stores.links { return None; }
      var user := stores.links[claims.value.identity];
      if user !in stores.active || !stores.active[user] { return None; }
      var continued := trip.value.continued;
      if continued.Some? && continued.value.userId != user { return None; }
      var id := Continue(continued, user, claims.value, freshId, now);
      var t := stores.MakeToken(cfg, user, id, now);
      token := Some(t);
    }

    // The provider said that nobody is signed in there: was this a trip that asked silently?
    method DeclineSilentLogin(state: string, now: Time) returns (expected: bool)
      modifies stores
      ensures stores.Now() == Consume(old(stores.Now()), state)
      ensures expected <==> state in old(stores.transactions) && old(stores.transactions)[state].silent
                            && now < old(stores.transactions)[state].expiresAt
    {
      var trip := stores.ConsumeTransaction(state);
      expected := trip.Some? && trip.value.silent && now < trip.value.expiresAt;
    }

    method DeclineRenewal(state: string, now: Time) returns (expected: bool)
      modifies stores
      ensures stores.Now() == Consume(old(stores.Now()), state)
      ensures expected <==> state in old(stores.transactions) && old(stores.transactions)[state].purpose == Renew
                            && now < old(stores.transactions)[state].expiresAt
    {
      var trip := stores.ConsumeTransaction(state);
      expected := trip.Some? && trip.value.purpose == Renew && now < trip.value.expiresAt;
    }
  }

  class ReceiveBackchannelLogout {
    const stores: Stores
    const cfg: Config

    constructor (stores: Stores, cfg: Config)
      ensures this.stores == stores && this.cfg == cfg
    {
      this.stores, this.cfg := stores, cfg;
    }

    method EndSessionsOf(notice: Notice, now: Time) returns (count: nat)
      modifies stores
      ensures var gone := RowsOfNotice(cfg.issuer, old(stores.sessions), old(stores.links), notice);
              stores.Now() == EndSessions(old(stores.Now()), gone, now) && count == |gone|
    {
      match notice
      case SubjectNotice(_, identity, idpSession) => count := stores.DeleteForIdentity(identity, idpSession, now);
      case SessionNotice(_, sid) => count := stores.DeleteForIdpSession(cfg.issuer, sid, now);
    }

    lemma RowsOfNoticeAreRows(sessions: Sessions, links: Links, notice: Notice)
      ensures RowsOfNotice(cfg.issuer, sessions, links, notice) <= sessions.Keys
    {
    }

    // A token that has run out, or claims that are no notice, are refused before anything is written.
    method Execute(claims: LogoutClaims, now: Time) returns (outcome: Option<(bool, nat)>)
      modifies stores
      ensures stores.Now() == Backchannel(cfg, old(stores.Now()), claims, now)
      ensures outcome.Some? <==> InTime(claims, now) && NoticeOf(cfg.issuer, claims).Some?
      ensures outcome.Some? ==>
                && outcome.value.0 == (claims.jti !in RecentDeliveries(old(stores.deliveries), now - cfg.deliveryRetention))
                && outcome.value.1 == |old(stores.sessions).Keys - stores.sessions.Keys|
    {
      hide RowsOfNotice, EndedNow, RecentDeliveries, InTime;
      var notice := ReadNotice(cfg.issuer, claims, now);
      if notice.None? { return None; }
      NoticeKeepsJti(claims);
      hide NoticeOf;
      stores.DeleteExpiredDeliveries(now - cfg.deliveryRetention);
      var first := stores.RecordDelivery(notice.value.jti, now);
      var count := 0;
      if first { count := EndSessionsOf(notice.value, now); }
      RowsThatWent(old(stores.sessions), old(stores.links), notice.value);
      outcome := Some((first, count));
    }

    lemma NoticeKeepsJti(claims: LogoutClaims)
      ensures NoticeOf(cfg.issuer, claims).Some? ==> NoticeOf(cfg.issuer, claims).value.jti == claims.jti
    {
    }

    lemma RowsThatWent(sessions: Sessions, links: Links, notice: Notice)
      ensures var gone := RowsOfNotice(cfg.issuer, sessions, links, notice);
              sessions.Keys - (sessions - gone).Keys == gone
      ensures sessions.Keys - sessions.Keys == {}
    {
      RowsOfNoticeAreRows(sessions, links, notice);
      hide RowsOfNotice;
    }
  }

  class ReconcileFederatedUsers {
    const stores: Stores
    const cfg: Config

    constructor (stores: Stores, cfg: Config)
      ensures this.stores == stores && this.cfg == cfg
    {
      this.stores, this.cfg := stores, cfg;
    }

    // The state once the links in `done` have been gone through.
    ghost function PartlyApplied(st: State, roster: Roster, done: set<Identity>, now: Time): State {
      EndSessions(st, RowsToEnd(cfg, st.(links := Only(st.links, done)), roster), now)
      .(links := st.links - (LinksToDrop(cfg, st, roster) * done))
    }

    static ghost function Only(links: Links, done: set<Identity>): Links {
      map identity | identity in links && identity in done :: links[identity]
    }

    // Whose rows these are.
    static function UsersOf(sessions: Sessions, rows: set<string>): set<int> {
      set id | id in rows && id in sessions :: sessions[id].userId
    }

    method ApplyTo(identity: Identity, state: RosterState, now: Time) returns (revoked: bool, unlinked: bool)
      modifies stores
      ensures unlinked == state.DropsTheLink()
      ensures revoked <==> state.EndsSessions()
                           && RowsOfIdentity(old(stores.sessions), old(stores.links), identity, None) != {}
      ensures var gone := if state.EndsSessions()
                          then RowsOfIdentity(old(stores.sessions), old(stores.links), identity, None) else {};
              stores.Now() == EndSessions(old(stores.Now()), gone, now)
                              .(links := if unlinked then old(stores.links) - {identity} else old(stores.links))
    {
      if !state.EndsSessions() {
        EndingNothing(stores.Now(), now);
        return false, false;
      }
      var ended := stores.DeleteForIdentity(identity, None, now);
      revoked := ended > 0;
      if !state.DropsTheLink() { return revoked, false; }
      stores.links := stores.links - {identity};
      unlinked := true;
    }

    lemma OneMore(st: State, roster: Roster, done: set<Identity>, identity: Identity)
      requires identity in st.links && identity.issuer == cfg.issuer
      ensures var state := StateOf(roster, identity.subject);
              var gone := if state.EndsSessions() then RowsOfIdentity(st.sessions, st.links, identity, None) else {};
              RowsToEnd(cfg, st.(links := Only(st.links, done + {identity})), roster)
              == RowsToEnd(cfg, st.(links := Only(st.links, done)), roster) + gone
    {
      var state := StateOf(roster, identity.subject);
      var gone := if state.EndsSessions() then RowsOfIdentity(st.sessions, st.links, identity, None) else {};
      var few, more := Only(st.links, done), Only(st.links, done + {identity});
      forall id | id in st.sessions
        ensures Stopped(cfg, more, roster, st.sessions[id].userId)
                <==> Stopped(cfg, few, roster, st.sessions[id].userId) || id in gone
      {
        if id in gone {
          assert identity in more;
        }
        if Stopped(cfg, few, roster, st.sessions[id].userId) {
          var other :| other in few && other.issuer == cfg.issuer && few[other] == st.sessions[id].userId
                       && StateOf(roster, other.subject).EndsSessions();
          assert other in more;
        }
      }
    }

    // The provider's answers applied person by person, in whatever order they come.
    method Execute(roster: Roster, now: Time) returns (checked: nat, revoked: nat, unlinked: nat, heldBack: bool)
      modifies stores
      ensures stores.Now() == Reconcile(cfg, old(stores.Now()), roster, now)
      ensures revoked == |UsersOf(old(stores.sessions), old(stores.sessions).Keys - stores.sessions.Keys)|
      ensures checked == |LinksAt(old(stores.links), cfg.issuer)|
      ensures heldBack == EveryoneIsUnknown(cfg, old(stores.Now()), roster)
      ensures unlinked == |old(stores.links).Keys - stores.links.Keys|
    {
      ghost var st := stores.Now();
      var asked := LinksAt(stores.links, cfg.issuer);
      checked, revoked, unlinked, heldBack := |asked|, 0, 0, false;
      if checked >= 2 && forall identity | identity in asked :: StateOf(roster, identity.subject).Unknown? {
        heldBack := true;
        assert old(stores.links).Keys - stores.links.Keys == {};
        assert UsersOf(old(stores.sessions), old(stores.sessions).Keys - stores.sessions.Keys) == {};
        return;
      }
      revoked, unlinked := ApplyAll(asked, roster, now);
      EverythingApplied(st, roster, now);
      DroppedLinks(st, roster, now);
      EndedRows(st, roster, asked, now);
    }

    method ApplyNext(ghost st: State, ghost done: set<Identity>, identity: Identity, roster: Roster, now: Time)
        returns (ended: bool, dropped: bool)
      requires identity in st.links && identity.issuer == cfg.issuer && identity !in done
      requires stores.Now() == PartlyApplied(st, roster, done, now)
      modifies stores
      ensures stores.Now() == PartlyApplied(st, roster, done + {identity}, now)
      ensures Revoked(st, roster, done + {identity}) == Revoked(st, roster, done) + if ended then 1 else 0
      ensures dropped == StateOf(roster, identity.subject).DropsTheLink()
    {
      hide PartlyApplied, EndSessions, StateOf, RowsOfIdentity, Revoked;
      StepApplies(st, roster, done, identity, now);
      CountRevoked(st, roster, done, identity, now);
      ended, dropped := ApplyTo(identity, StateOf(roster, identity.subject), now);
    }

    method ApplyAll(asked: set<Identity>, roster: Roster, now: Time) returns (revoked: nat, unlinked: nat)
      requires asked == LinksAt(stores.links, cfg.issuer)
      modifies stores
      ensures stores.Now() == PartlyApplied(old(stores.Now()), roster, asked, now)
      ensures revoked == Revoked(old(stores.Now()), roster, asked)
      ensures unlinked == Dropped(old(stores.Now()), roster, asked)
    {
      hide PartlyApplied, Dropped, Revoked, StateOf;
      ghost var st := stores.Now();
      assert forall identity :: identity in asked ==> identity in st.links && identity.issuer == cfg.issuer;
      hide Stores.Now, LinksAt;
      var todo := asked;
      revoked, unlinked := 0, 0;
      NothingAppliedYet(st, roster, now);
      assert asked - todo == {};
      while todo != {}
        invariant todo <= asked
        invariant stores.Now() == PartlyApplied(st, roster, asked - todo, now)
        invariant revoked == Revoked(st, roster, asked - todo)
        invariant unlinked == Dropped(st, roster, asked - todo)
        decreases todo
      {
        var identity :| identity in todo;
        ghost var done := asked - todo;
        CountDropped(st, roster, done, identity);
        var ended, dropped := ApplyNext(st, done, identity, roster, now);
        if ended { revoked := revoked + 1; }
        if dropped { unlinked := unlinked + 1; }
        todo := todo - {identity};
        assert asked - todo == done + {identity};
      }
      assert asked - todo == asked;
    }

    // How many links of those in `done` are to people the provider does not know.
    ghost function Dropped(st: State, roster: Roster, done: set<Identity>): nat {
      |LinksToDrop(cfg, st, roster) * done|
    }

    // How many people have lost sign-ins once the links in `done` have been gone through.
    ghost function Revoked(st: State, roster: Roster, done: set<Identity>): nat {
      |UsersOf(st.sessions, RowsToEnd(cfg, st.(links := Only(st.links, done)), roster))|
    }

    // Somebody's sign-ins end together, so each person is counted once, however many links they have.
    lemma CountRevoked(st: State, roster: Roster, done: set<Identity>, identity: Identity, now: Time)
      requires identity in st.links && identity.issuer == cfg.issuer && identity !in done
      ensures var before := PartlyApplied(st, roster, done, now);
              var ended := StateOf(roster, identity.subject).EndsSessions()
                           && RowsOfIdentity(before.sessions, before.links, identity, None) != {};
              Revoked(st, roster, done + {identity}) == Revoked(st, roster, done) + if ended then 1 else 0
    {
      OneMore(st, roster, done, identity);
      hide StateOf, EndedNow;
      var few := RowsToEnd(cfg, st.(links := Only(st.links, done)), roster);
      var more := RowsToEnd(cfg, st.(links := Only(st.links, done + {identity})), roster);
      var before := PartlyApplied(st, roster, done, now);
      var left := RowsOfIdentity(before.sessions, before.links, identity, None);
      assert identity in before.links;
      forall id | id in more && id !in few ensures StateOf(roster, identity.subject).EndsSessions() && id in left {
        assert id in before.sessions;
      }
      if StateOf(roster, identity.subject).EndsSessions() && left != {} {
        var user := st.links[identity];
        var id :| id in left;
        assert user !in UsersOf(st.sessions, few);
        assert UsersOf(st.sessions, more) == UsersOf(st.sessions, few) + {user} by { assert id in more; }
      } else {
        assert more == few;
      }
    }

    lemma EndedRows(st: State, roster: Roster, done: set<Identity>, now: Time)
      ensures var ended := RowsToEnd(cfg, st.(links := Only(st.links, done)), roster);
              st.sessions.Keys - PartlyApplied(st, roster, done, now).sessions.Keys == ended
    {
      hide Only, EndedNow;
    }

    lemma CountDropped(st: State, roster: Roster, done: set<Identity>, identity: Identity)
      requires identity in st.links && identity.issuer == cfg.issuer && identity !in done
      ensures Dropped(st, roster, done + {identity})
              == Dropped(st, roster, done) + if StateOf(roster, identity.subject).DropsTheLink() then 1 else 0
    {
      var drop := LinksToDrop(cfg, st, roster);
      if StateOf(roster, identity.subject).DropsTheLink() {
        assert drop * (done + {identity}) == drop * done + {identity};
      } else {
        assert drop * (done + {identity}) == drop * done;
      }
    }

    lemma DroppedLinks(st: State, roster: Roster, now: Time)
      ensures var asked := LinksAt(st.links, cfg.issuer);
              st.links.Keys - PartlyApplied(st, roster, asked, now).links.Keys == LinksToDrop(cfg, st, roster) * asked
    {
    }

    lemma NothingAppliedYet(st: State, roster: Roster, now: Time)
      ensures PartlyApplied(st, roster, {}, now) == st && Dropped(st, roster, {}) == 0 && Revoked(st, roster, {}) == 0
    {
      assert RowsToEnd(cfg, st.(links := Only(st.links, {})), roster) == {};
      assert UsersOf(st.sessions, {}) == {};
      EndingNothing(st, now);
      assert LinksToDrop(cfg, st, roster) * {} == {};
      assert st.links - {} == st.links;
    }

    lemma StepApplies(st: State, roster: Roster, done: set<Identity>, identity: Identity, now: Time)
      requires identity in st.links && identity.issuer == cfg.issuer && identity !in done
      ensures var before := PartlyApplied(st, roster, done, now);
              var state := StateOf(roster, identity.subject);
              var gone := if state.EndsSessions() then RowsOfIdentity(before.sessions, before.links, identity, None) else {};
              PartlyApplied(st, roster, done + {identity}, now)
              == EndSessions(before, gone, now)
                 .(links := if state.DropsTheLink() then before.links - {identity} else before.links)
    {
      EndedForOne(st, roster, done, identity, now);
      DroppedForOne(st, roster, done, identity);
      hide EndSessions, RowsToEnd, LinksToDrop, RowsOfIdentity, Only, StateOf;
      EndingLeavesLinks(st, RowsToEnd(cfg, st.(links := Only(st.links, done)), roster), now);
    }

    static lemma EndingLeavesLinks(st: State, gone: set<string>, now: Time)
      ensures EndSessions(st, gone, now).links == st.links
      ensures forall links, b, later ::
                EndSessions(EndSessions(st, gone, now).(links := links), b, later)
                == EndSessions(EndSessions(st, gone, now), b, later).(links := links)
    {
      hide EndedNow;
    }

    // The rows that go for one more person.
    lemma EndedForOne(st: State, roster: Roster, done: set<Identity>, identity: Identity, now: Time)
      requires identity in st.links && identity.issuer == cfg.issuer && identity !in done
      ensures var was := EndSessions(st, RowsToEnd(cfg, st.(links := Only(st.links, done)), roster), now);
              var left := st.links - (LinksToDrop(cfg, st, roster) * done);
              var gone := if StateOf(roster, identity.subject).EndsSessions()
                          then RowsOfIdentity(was.sessions, left, identity, None) else {};
              EndSessions(st, RowsToEnd(cfg, st.(links := Only(st.links, done + {identity})), roster), now)
              == EndSessions(was, gone, now)
    {
      var ended := RowsToEnd(cfg, st.(links := Only(st.links, done)), roster);
      var was := EndSessions(st, ended, now);
      var left := st.links - (LinksToDrop(cfg, st, roster) * done);
      var ends := StateOf(roster, identity.subject).EndsSessions();
      var gone := if ends then RowsOfIdentity(was.sessions, left, identity, None) else {};
      var all := if ends then RowsOfIdentity(st.sessions, st.links, identity, None) else {};
      OneMore(st, roster, done, identity);
      assert gone == all - ended by { hide EndedNow, RowsToEnd; }
      hide RowsToEnd, RowsOfIdentity, LinksToDrop, EndSessions, StateOf;
      EndingTwice(st, ended, all, now);
    }

    // The link that goes for one more person.
    lemma DroppedForOne(st: State, roster: Roster, done: set<Identity>, identity: Identity)
      requires identity in st.links && identity.issuer == cfg.issuer && identity !in done
      ensures var few, more := LinksToDrop(cfg, st, roster) * done, LinksToDrop(cfg, st, roster) * (done + {identity});
              st.links - more
              == if StateOf(roster, identity.subject).DropsTheLink() then (st.links - few) - {identity} else st.links - few
    {
      var few, more := LinksToDrop(cfg, st, roster) * done, LinksToDrop(cfg, st, roster) * (done + {identity});
      assert more == if StateOf(roster, identity.subject).DropsTheLink() then few + {identity} else few;
      DroppingTwice(st.links, few, identity);
    }

    static lemma DroppingTwice(links: Links, few: set<Identity>, identity: Identity)
      ensures links - (few + {identity}) == links - few - {identity}
    {
    }

    static lemma EndingTwice(st: State, a: set<string>, b: set<string>, now: Time)
      ensures EndSessions(st, a + b, now) == EndSessions(EndSessions(st, a, now), b - a, now)
    {
      RemovingTwice(st.sessions, a, b);
      EndedTwice(st.ended, st.sessions, a, b, now);
      hide EndedNow;
    }

    static lemma RemovingTwice(sessions: Sessions, a: set<string>, b: set<string>)
      ensures sessions - (a + b) == sessions - a - (b - a)
    {
    }

    static lemma EndedTwice(ended: map<string, Time>, sessions: Sessions, a: set<string>, b: set<string>, now: Time)
      ensures ended + EndedNow(sessions, a + b, now)
              == ended + EndedNow(sessions, a, now) + EndedNow(sessions - a, b - a, now)
    {
      var both, first, second := EndedNow(sessions, a + b, now), EndedNow(sessions, a, now), EndedNow(sessions - a, b - a, now);
      assert both == first + second by {
        assert both.Keys == first.Keys + second.Keys;
      }
      assert ended + (first + second) == ended + first + second;
    }

    lemma EverythingApplied(st: State, roster: Roster, now: Time)
      requires !EveryoneIsUnknown(cfg, st, roster)
      ensures PartlyApplied(st, roster, LinksAt(st.links, cfg.issuer), now) == Reconcile(cfg, st, roster, now)
    {
      var asked := LinksAt(st.links, cfg.issuer);
      var only := Only(st.links, asked);
      forall id | id in st.sessions
        ensures Stopped(cfg, only, roster, st.sessions[id].userId) <==> Stopped(cfg, st.links, roster, st.sessions[id].userId)
      {
        if Stopped(cfg, st.links, roster, st.sessions[id].userId) {
          var identity :| identity in st.links && identity.issuer == cfg.issuer
                          && st.links[identity] == st.sessions[id].userId
                          && StateOf(roster, identity.subject).EndsSessions();
          assert identity in only;
        }
      }
      assert RowsToEnd(cfg, st.(links := only), roster) == RowsToEnd(cfg, st, roster);
      assert LinksToDrop(cfg, st, roster) * asked == LinksToDrop(cfg, st, roster);
    }
  }
}
