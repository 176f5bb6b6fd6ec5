/** Sign-ins as a step protocol: what each request, notice and scheduled job does to the stores. */
module SignInModel {
  import opened Basics

  // Moments in microseconds since the epoch.
  type Time = int

  const TICKS_PER_SECOND: int := 1000000

  // Whole seconds, cut off towards zero.
  function Seconds(t: Time): int {
    if t >= 0 then t / TICKS_PER_SECOND else -((-t) / TICKS_PER_SECOND)
  }

  datatype Config = Config(issuer: string, accessLifetime: Time, tokenCarry: Time, signInCarry: Time,
                           transactionTtl: Time, deliveryRetention: Time)
  {
    predicate Valid() {
      accessLifetime >= 0
    }
  }

  datatype Identity = Identity(issuer: string, subject: string)

  // One sign-in; the row exists as long as the sign-in does.
  datatype Session = Session(userId: int, expiresAt: Time, createdAt: Time, idpSession: Option<string>)

  datatype Continued = Continued(userId: int, sessionId: string)

  datatype Purpose = Login | Renew

  // One trip to the identity provider and back.
  datatype Transaction = Transaction(expiresAt: Time, silent: bool, purpose: Purpose, continued: Option<Continued>)

  // An access token; only the service can make one.
  datatype Token = Token(userId: int, sessionId: string, exp: int)

  // What the identity provider vouches for when a code is exchanged, and whether the entry rules admit it.
  datatype Claims = Claims(identity: Identity, idpSession: Option<string>, allowed: bool)

  // What happens to somebody who signs in for the first time, as settled by e-mail and provisioning rules.
  datatype Newcomer = Refused | LinkTo(userId: int) | Create(newUserId: int)

  // The claims of a logout token with a valid signature; an absent text claim is the empty string. `exp` is required.
  datatype LogoutClaims = LogoutClaims(exp: int, hasEvent: bool, hasNonce: bool, jti: string, sub: string, sid: string)

  // Whose sign-ins a logout notice ends: one person's, or those begun from one sign-in at the provider.
  datatype Notice =
    | SubjectNotice(jti: string, identity: Identity, idpSession: Option<string>)
    | SessionNotice(jti: string, sid: string)

  datatype RosterState = Allowed | BlockedUser | Unknown | Unrecognised
  {
    predicate EndsSessions() {
      BlockedUser? || Unknown?
    }

    predicate DropsTheLink() {
      Unknown?
    }
  }

  type Sessions = map<string, Session>
  type Links = map<Identity, int>

  // The stores, and what a history of them would record: who owned each sign-in, when it ended, and which tokens
  // and trips there have been.
  datatype State = State(clock: Time, sessions: Sessions, transactions: map<string, Transaction>,
                         active: map<int, bool>, links: Links, deliveries: map<string, Time>,
                         owners: map<string, int>, ended: map<string, Time>, issued: set<Token>, trips: set<string>)

  // Before the first sign-in: some users and links, and nothing else.
  function Beginning(clock: Time, active: map<int, bool>, links: Links): State {
    State(clock, map[], map[], active, links, map[], map[], map[], {}, {})
  }

  // ---- tokens ------------------------------------------------------------------------------

  function AccessToken(cfg: Config, userId: int, sessionId: string, now: Time): Token {
    Token(userId, sessionId, Seconds(now + cfg.accessLifetime))
  }

  predicate Accepted(t: Token, now: Time) {
    t.exp > Seconds(now)
  }

  // Who and which sign-in a token left behind speaks of; an expired one is readable for a while.
  function ContinuationOf(cfg: Config, t: Option<Token>, now: Time): Option<Continued> {
    if t.Some? && Accepted(t.value, now - cfg.tokenCarry) then Some(Continued(t.value.userId, t.value.sessionId)) else None
  }

  // ---- the session store -------------------------------------------------------------------

  function EndedNow(sessions: Sessions, gone: set<string>, now: Time): map<string, Time> {
    map id | id in gone && id in sessions :: now
  }

  // Remove the rows named in `gone`, remembering when.
  function EndSessions(st: State, gone: set<string>, now: Time): State {
    st.(sessions := st.sessions - gone, ended := st.ended + EndedNow(st.sessions, gone, now))
  }

  function ExpiredRows(sessions: Sessions, now: Time): set<string> {
    set id | id in sessions && sessions[id].expiresAt < now
  }

  function RowsOfIdentity(sessions: Sessions, links: Links, identity: Identity, idpSession: Option<string>): set<string> {
    set id | id in sessions && identity in links && sessions[id].userId == links[identity]
             && (idpSession.None? || sessions[id].idpSession == idpSession)
  }

  predicate LinkedAt(links: Links, issuer: string, userId: int) {
    exists identity :: identity in links && identity.issuer == issuer && links[identity] == userId
  }

  function RowsOfIdpSession(sessions: Sessions, links: Links, issuer: string, idpSession: string): set<string> {
    set id | id in sessions && sessions[id].idpSession == Some(idpSession) && LinkedAt(links, issuer, sessions[id].userId)
  }

  function NewSession(cfg: Config, st: State, id: string, userId: int, claims: Claims, now: Time): State {
    st.(sessions := st.sessions[id := Session(userId, now + cfg.signInCarry, now, claims.idpSession)],
        owners := st.owners[id := userId])
  }

  function Issue(cfg: Config, st: State, userId: int, id: string, now: Time): State {
    st.(issued := st.issued + {AccessToken(cfg, userId, id, now)})
  }

  // ---- starting a trip ---------------------------------------------------------------------

  function OpenTrips(transactions: map<string, Transaction>, now: Time): map<string, Transaction> {
    map s | s in transactions && transactions[s].expiresAt >= now :: transactions[s]
  }

  function StartTrip(cfg: Config, st: State, tripState: string, silent: bool, purpose: Purpose,
                     continued: Option<Continued>, now: Time): State
  {
    st.(transactions := OpenTrips(st.transactions, now)[tripState := Transaction(now + cfg.transactionTtl, silent, purpose, continued)],
        trips := st.trips + {tripState})
  }

  // ---- coming back -------------------------------------------------------------------------

  function Consume(st: State, tripState: string): State {
    st.(transactions := st.transactions - {tripState})
  }

  // The claims of a trip that may go on: known, for this purpose, in time, and vouched for.
  function Redeem(st: State, tripState: string, exchange: Option<Claims>, purpose: Purpose, now: Time): Option<Claims> {
    if tripState !in st.transactions || st.transactions[tripState].purpose != purpose then None
    else if now >= st.transactions[tripState].expiresAt then None
    else if exchange.None? || (purpose.Login? && !exchange.value.allowed) then None
    else exchange
  }

  // The user who signs in, with the link and the account this may add.
  function ResolveUser(st: State, claims: Claims, newcomer: Newcomer): (State, Option<int>) {
    if claims.identity in st.links then (st, Some(st.links[claims.identity]))
    else match newcomer
      case Refused => (st, None)
      case LinkTo(u) =>
        if u in st.active && st.active[u] && !LinkedAt(st.links, claims.identity.issuer, u)
        then (st.(links := st.links[claims.identity := u]), Some(u)) else (st, None)
      case Create(u) =>
        (st.(links := st.links[claims.identity := u], active := st.active[u := true]), Some(u))
  }

  predicate CanSignIn(st: State, userId: int) {
    userId in st.active && st.active[userId]
  }

  function CompleteLogin(cfg: Config, st: State, tripState: string, exchange: Option<Claims>, newcomer: Newcomer,
                         freshId: string, now: Time): (State, Option<Token>)
  {
    var claims := Redeem(st, tripState, exchange, Login, now);
    var consumed := Consume(st, tripState);
    if claims.None? then (consumed, None)
    else
      var (known, user) := ResolveUser(consumed, claims.value, newcomer);
      if user.None? || !CanSignIn(known, user.value) then (known, None)
      else
        var swept := EndSessions(known, ExpiredRows(known.sessions, now), now);
        var signedIn := NewSession(cfg, swept, freshId, user.value, claims.value, now);
        (Issue(cfg, signedIn, user.value, freshId, now), Some(AccessToken(cfg, user.value, freshId, now)))
  }

  // The same sign-in, extended, if it is still there and still this user's; a new one otherwise.
  function ContinueSignIn(cfg: Config, st: State, continued: Option<Continued>, userId: int, claims: Claims,
                          freshId: string, now: Time): (State, string)
  {
    if continued.Some? && continued.value.sessionId in st.sessions
       && st.sessions[continued.value.sessionId].userId == userId
    then
      var id := continued.value.sessionId;
      var row := st.sessions[id].(idpSession := claims.idpSession, expiresAt := now + cfg.signInCarry);
      (st.(sessions := st.sessions[id := row]), id)
    else (NewSession(cfg, st, freshId, userId, claims, now), freshId)
  }

  function CompleteRenewal(cfg: Config, st: State, tripState: string, exchange: Option<Claims>, freshId: string,
                           now: Time): (State, Option<Token>)
  {
    var claims := Redeem(st, tripState, exchange, Renew, now);
    var consumed := Consume(st, tripState);
    if claims.None? || !claims.value.allowed then (consumed, None)
    else if claims.value.identity !in st.links || !CanSignIn(st, st.links[claims.value.identity]) then (consumed, None)
    else
      var user := st.links[claims.value.identity];
      var continued := st.transactions[tripState].continued;
      if continued.Some? && continued.value.userId != user then (consumed, None)
      else
        var (signedIn, id) := ContinueSignIn(cfg, consumed, continued, user, claims.value, freshId, now);
        (Issue(cfg, signedIn, user, id, now), Some(AccessToken(cfg, user, id, now)))
  }

  // ---- while signed in -----------------------------------------------------------------------

  // A new token for the same sign-in, after the user changed a setting.
  function Reissue(cfg: Config, st: State, token: Option<Token>, now: Time): (State, Option<Token>) {
    if token.None? || !Accepted(token.value, now) || token.value.sessionId !in st.sessions
       || !CanSignIn(st, token.value.userId)
    then (st, None)
    else
      (Issue(cfg, st, token.value.userId, token.value.sessionId, now),
       Some(AccessToken(cfg, token.value.userId, token.value.sessionId, now)))
  }

  function Logout(cfg: Config, st: State, token: Option<Token>, now: Time): State {
    var c := ContinuationOf(cfg, token, now);
    if c.Some? && c.value.sessionId in st.sessions && st.sessions[c.value.sessionId].userId == c.value.userId
    then EndSessions(st, {c.value.sessionId}, now) else st
  }

  // ---- the identity provider ends sign-ins ------------------------------------------------------

  // A logout token is refused from the second on that it names.
  predicate InTime(claims: LogoutClaims, now: Time) {
    now < claims.exp * TICKS_PER_SECOND
  }

  // What section 2.6 of OpenID Connect Back-Channel Logout 1.0 asks of the claims beyond the signature.
  function NoticeOf(issuer: string, claims: LogoutClaims): Option<Notice> {
    if !claims.hasEvent || claims.hasNonce || claims.jti == "" || (claims.sub == "" && claims.sid == "") then None
    else if claims.sub == "" then Some(SessionNotice(claims.jti, claims.sid))
    else Some(SubjectNotice(claims.jti, Identity(issuer, claims.sub), if claims.sid == "" then None else Some(claims.sid)))
  }

  function ReadNotice(issuer: string, claims: LogoutClaims, now: Time): Option<Notice> {
    if InTime(claims, now) then NoticeOf(issuer, claims) else None
  }

  function RowsOfNotice(issuer: string, sessions: Sessions, links: Links, notice: Notice): set<string> {
    match notice
    case SubjectNotice(_, identity, idpSession) => RowsOfIdentity(sessions, links, identity, idpSession)
    case SessionNotice(_, sid) => RowsOfIdpSession(sessions, links, issuer, sid)
  }

  function RecentDeliveries(deliveries: map<string, Time>, since: Time): map<string, Time> {
    map j | j in deliveries && deliveries[j] >= since :: deliveries[j]
  }

  // A notice is acted on the first time it arrives; deliveries are remembered for the retention period.
  function Backchannel(cfg: Config, st: State, claims: LogoutClaims, now: Time): State {
    match ReadNotice(cfg.issuer, claims, now)
    case None => st
    case Some(notice) =>
      var kept := RecentDeliveries(st.deliveries, now - cfg.deliveryRetention);
      if notice.jti in kept then st.(deliveries := kept)
      else EndSessions(st, RowsOfNotice(cfg.issuer, st.sessions, st.links, notice), now).(deliveries := kept[notice.jti := now])
  }

  type Roster = map<string, RosterState>

  function StateOf(roster: Roster, subject: string): RosterState {
    if subject in roster then roster[subject] else Unrecognised
  }

  function LinksAt(links: Links, issuer: string): set<Identity> {
    set identity | identity in links && identity.issuer == issuer
  }

  predicate EveryoneIsUnknown(cfg: Config, st: State, roster: Roster) {
    var asked := LinksAt(st.links, cfg.issuer);
    |asked| >= 2 && forall identity :: identity in asked ==> StateOf(roster, identity.subject).Unknown?
  }

  // Whether the provider says that this user's sign-ins should stop.
  predicate Stopped(cfg: Config, links: Links, roster: Roster, userId: int) {
    exists identity :: identity in links && identity.issuer == cfg.issuer && links[identity] == userId
                       && StateOf(roster, identity.subject).EndsSessions()
  }

  function RowsToEnd(cfg: Config, st: State, roster: Roster): set<string> {
    set id | id in st.sessions && Stopped(cfg, st.links, roster, st.sessions[id].userId)
  }

  function LinksToDrop(cfg: Config, st: State, roster: Roster): set<Identity> {
    set identity | identity in st.links && identity.issuer == cfg.issuer && StateOf(roster, identity.subject).DropsTheLink()
  }

  // Asking the provider about everyone: sign-ins of people it stopped or does not know are ended, links to people it
  // does not know are dropped. If it claims to know nobody at all, nothing is believed.
  function Reconcile(cfg: Config, st: State, roster: Roster, now: Time): State {
    if EveryoneIsUnknown(cfg, st, roster) then st
    else EndSessions(st, RowsToEnd(cfg, st, roster), now).(links := st.links - LinksToDrop(cfg, st, roster))
  }

  // ---- events ---------------------------------------------------------------------------------

  datatype Event =
    | StartLogin(tripState: string, silent: bool)
    | StartRenewal(tripState: string, token: Option<Token>)
    | FinishLogin(tripState: string, exchange: Option<Claims>, newcomer: Newcomer, freshId: string)
    | FinishRenewal(tripState: string, exchange: Option<Claims>, freshId: string)
    | Decline(tripState: string)
    | Reissued(token: Option<Token>)
    | SignedOut(token: Option<Token>)
    | NoticeArrived(claims: LogoutClaims)
    | Reconciled(roster: Roster)
    | SetActive(userId: int, on: bool)

  function Apply(cfg: Config, st: State, ev: Event, now: Time): State {
    match ev
    case StartLogin(s, silent) => StartTrip(cfg, st, s, silent, Login, None, now)
    case StartRenewal(s, token) => StartTrip(cfg, st, s, true, Renew, ContinuationOf(cfg, token, now), now)
    case FinishLogin(s, exchange, newcomer, id) => CompleteLogin(cfg, st, s, exchange, newcomer, id, now).0
    case FinishRenewal(s, exchange, id) => CompleteRenewal(cfg, st, s, exchange, id, now).0
    case Decline(s) => Consume(st, s)
    case Reissued(token) => Reissue(cfg, st, token, now).0
    case SignedOut(token) => Logout(cfg, st, token, now)
    case NoticeArrived(claims) => Backchannel(cfg, st, claims, now)
    case Reconciled(roster) => Reconcile(cfg, st, roster, now)
    case SetActive(u, on) => if u in st.active then st.(active := st.active[u := on]) else st
  }

  function Known(st: State, token: Option<Token>): bool {
    token.Some? ==> token.value in st.issued
  }

  // What the world is trusted with: the clock does not run backwards, generated values are new, and nobody presents
  // an access token the service did not make.
  predicate Legal(st: State, ev: Event, now: Time) {
    && st.clock <= now
    && match ev
       case StartLogin(s, _) => s !in st.trips
       case StartRenewal(s, token) => s !in st.trips && Known(st, token)
       case FinishLogin(_, _, newcomer, id) => id !in st.owners && (newcomer.Create? ==> newcomer.newUserId !in st.active)
       case FinishRenewal(_, _, id) => id !in st.owners
       case Reissued(token) => Known(st, token)
       case SignedOut(token) => Known(st, token)
       case _ => true
  }

  datatype Moment = Moment(ev: Event, now: Time)

  function Step(cfg: Config, st: State, m: Moment): State {
    Apply(cfg, st, m.ev, m.now).(clock := m.now)
  }

  // The state after a run of events.
  function Run(cfg: Config, st: State, events: seq<Moment>): State {
    if events == [] then st
    else Step(cfg, Run(cfg, st, events[..|events| - 1]), events[|events| - 1])
  }

  ghost predicate LegalRun(cfg: Config, st: State, events: seq<Moment>) {
    forall k :: 0 <= k < |events| ==> Legal(Run(cfg, st, events[..k]), events[k].ev, events[k].now)
  }
}
