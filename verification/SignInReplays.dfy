/** Notices that arrive again: exactly when they end sign-ins, and which notices are harmless for good once they have been
    acted on. */
module SignInReplays {
  import opened Basics
  import opened SignInModel
  import opened SignInSafety

  // ---- one notice --------------------------------------------------------------------------------

  // A logout event without a nonce, with a number of its own, that names a person, a sign-in at the provider, or both.
  predicate IsNotice(claims: LogoutClaims) {
    claims.hasEvent && !claims.hasNonce && claims.jti != "" && (claims.sub != "" || claims.sid != "")
  }

  // The notice is in time and well formed, and was not delivered within the retention period.
  predicate Acts(cfg: Config, st: State, claims: LogoutClaims, now: Time) {
    && now < claims.exp * TICKS_PER_SECOND && IsNotice(claims)
    && (claims.jti in st.deliveries ==> st.deliveries[claims.jti] < now - cfg.deliveryRetention)
  }

  // The sign-in is the named person's, and of the named sign-in at the provider if one is named; if nobody is named, it is
  // of that sign-in at the provider, and of somebody linked there.
  predicate Meant(cfg: Config, st: State, claims: LogoutClaims, id: string) {
    && IsNotice(claims) && id in st.sessions
    && (claims.sid != "" ==> st.sessions[id].idpSession == Some(claims.sid))
    && exists who :: who in st.links && who.issuer == cfg.issuer && st.links[who] == st.sessions[id].userId
                     && (claims.sub != "" ==> who.subject == claims.sub)
  }

  // A notice ends a sign-in exactly if it acts and means that sign-in.
  lemma NoticeEndsExactly(cfg: Config, st: State, claims: LogoutClaims, now: Time, id: string)
    requires id in st.sessions
    ensures id !in Backchannel(cfg, st, claims, now).sessions <==> Acts(cfg, st, claims, now) && Meant(cfg, st, claims, id)
  {
    ActsAsRead(cfg, st, claims, now);
    MeantAsRead(cfg, st, claims, id);
    hide RowsOfNotice, EndedNow, ReadNotice, Acts, Meant, NoticeOf;
  }

  lemma ActsAsRead(cfg: Config, st: State, claims: LogoutClaims, now: Time)
    ensures IsNotice(claims) <==> NoticeOf(cfg.issuer, claims).Some?
    ensures NoticeOf(cfg.issuer, claims).Some? ==> NoticeOf(cfg.issuer, claims).value.jti == claims.jti
    ensures ReadNotice(cfg.issuer, claims, now).Some? <==> IsNotice(claims) && now < claims.exp * TICKS_PER_SECOND
    ensures ReadNotice(cfg.issuer, claims, now).Some? ==> ReadNotice(cfg.issuer, claims, now) == NoticeOf(cfg.issuer, claims)
    ensures Acts(cfg, st, claims, now) <==>
              && ReadNotice(cfg.issuer, claims, now).Some?
              && claims.jti !in RecentDeliveries(st.deliveries, now - cfg.deliveryRetention)
  {
  }

  lemma MeantAsRead(cfg: Config, st: State, claims: LogoutClaims, id: string)
    ensures Meant(cfg, st, claims, id) <==>
              && NoticeOf(cfg.issuer, claims).Some?
              && id in RowsOfNotice(cfg.issuer, st.sessions, st.links, NoticeOf(cfg.issuer, claims).value)
  {
    if Meant(cfg, st, claims, id) && claims.sub != "" {
      var who :| who in st.links && who.issuer == cfg.issuer && st.links[who] == st.sessions[id].userId && who.subject == claims.sub;
      assert who == Identity(cfg.issuer, claims.sub);
    }
  }

  lemma NoticeThatDoesNotAct(cfg: Config, st: State, claims: LogoutClaims, now: Time)
    requires !Acts(cfg, st, claims, now)
    ensures Backchannel(cfg, st, claims, now).sessions == st.sessions
  {
    ActsAsRead(cfg, st, claims, now);
    hide RowsOfNotice, EndSessions, ReadNotice, NoticeOf, Acts, RecentDeliveries;
  }

  lemma DeliveriesAfter(cfg: Config, st: State, claims: LogoutClaims, now: Time)
    ensures var after := Backchannel(cfg, st, claims, now).deliveries;
            var kept := RecentDeliveries(st.deliveries, now - cfg.deliveryRetention);
            && (ReadNotice(cfg.issuer, claims, now).None? ==> after == st.deliveries)
            && (ReadNotice(cfg.issuer, claims, now).Some? && !Acts(cfg, st, claims, now) ==> after == kept)
            && (Acts(cfg, st, claims, now) ==> after == kept[claims.jti := now])
  {
    ActsAsRead(cfg, st, claims, now);
    hide RowsOfNotice, EndSessions, ReadNotice, NoticeOf, Acts, RecentDeliveries;
  }

  // ---- a run -----------------------------------------------------------------------------------------

  // The last moment at which a notice with this jti was acted on.
  function LastActed(cfg: Config, st: State, events: seq<Moment>, jti: string): Option<Time> {
    if events == [] then None
    else
      var n := |events| - 1;
      var m := events[n];
      if m.ev.NoticeArrived? && m.ev.claims.jti == jti && Acts(cfg, Run(cfg, st, events[..n]), m.ev.claims, m.now)
      then Some(m.now) else LastActed(cfg, st, events[..n], jti)
  }

  lemma OthersKeepDeliveries(cfg: Config, st: State, m: Moment)
    requires Legal(st, m.ev, m.now) && !m.ev.NoticeArrived?
    ensures Step(cfg, st, m).deliveries == st.deliveries
  {
    match m.ev
    case FinishLogin(s, exchange, newcomer, id) => LoginOnlySpends(cfg, st, s, exchange, newcomer, id, m.now);
    case FinishRenewal(s, exchange, id) => RenewalOnlySpends(cfg, st, s, exchange, id, m.now);
    case Reissued(_) => OtherStepsFrame(cfg, st, m.ev, m.now);
    case SignedOut(_) => OtherStepsFrame(cfg, st, m.ev, m.now);
    case Reconciled(_) => OtherStepsFrame(cfg, st, m.ev, m.now);
    case _ =>
  }

  // The store tells the last moment, unless that is longer ago than the retention period.
  ghost predicate Tells(cfg: Config, st: State, jti: string, last: Option<Time>) {
    && (last.Some? ==> last.value <= st.clock)
    && (jti in st.deliveries ==> last == Some(st.deliveries[jti]))
    && (last.Some? && st.clock - cfg.deliveryRetention <= last.value ==> jti in st.deliveries)
  }

  lemma StepTells(cfg: Config, st: State, m: Moment, jti: string, last: Option<Time>)
    requires Legal(st, m.ev, m.now) && Tells(cfg, st, jti, last)
    ensures var acted := m.ev.NoticeArrived? && m.ev.claims.jti == jti && Acts(cfg, st, m.ev.claims, m.now);
            Tells(cfg, Step(cfg, st, m), jti, if acted then Some(m.now) else last)
  {
    StepClock(cfg, st, m);
    hide Backchannel, ReadNotice, Acts;
    if m.ev.NoticeArrived? {
      DeliveriesAfter(cfg, st, m.ev.claims, m.now);
    } else {
      OthersKeepDeliveries(cfg, st, m);
    }
  }

  lemma {:induction false} RunTells(cfg: Config, st: State, events: seq<Moment>, jti: string)
    requires st.deliveries == map[] && LegalRun(cfg, st, events)
    ensures Tells(cfg, Run(cfg, st, events), jti, LastActed(cfg, st, events, jti))
    decreases |events|
  {
    hide Step, Legal, LegalRun, Tells, Acts;
    if events == [] {
      NothingToTell(cfg, st, jti);
    } else {
      var n := |events| - 1;
      LastStep(cfg, st, events);
      RunTells(cfg, st, events[..n], jti);
      StepTells(cfg, Run(cfg, st, events[..n]), events[n], jti, LastActed(cfg, st, events[..n], jti));
    }
  }

  lemma NothingToTell(cfg: Config, st: State, jti: string)
    requires st.deliveries == map[]
    ensures Tells(cfg, st, jti, None)
  {
  }

  /** Whatever has happened since the beginning, a notice ends a sign-in exactly if it is in time, well formed and meant for
      that sign-in, and the last notice with its jti that was acted on is longer ago than the retention period. */
  lemma ReplayEndsExactly(cfg: Config, st: State, events: seq<Moment>, claims: LogoutClaims, now: Time, id: string)
    requires st.deliveries == map[] && LegalRun(cfg, st, events) && Run(cfg, st, events).clock <= now
    requires id in Run(cfg, st, events).sessions
    ensures var end, last := Run(cfg, st, events), LastActed(cfg, st, events, claims.jti);
            id !in Backchannel(cfg, end, claims, now).sessions <==>
            && now < claims.exp * TICKS_PER_SECOND && Meant(cfg, end, claims, id)
            && (last.None? || last.value + cfg.deliveryRetention < now)
  {
    hide Meant, IsNotice, Run, LegalRun, LastActed, Backchannel;
    RunTells(cfg, st, events, claims.jti);
    NoticeEndsExactly(cfg, Run(cfg, st, events), claims, now, id);
    MeantIsNotice(cfg, Run(cfg, st, events), claims, id);
  }

  lemma MeantIsNotice(cfg: Config, st: State, claims: LogoutClaims, id: string)
    ensures Meant(cfg, st, claims, id) ==> IsNotice(claims)
  {
  }

  // ---- harmless for good --------------------------------------------------------------------------------

  lemma {:induction false} LastActedRises(cfg: Config, st: State, events: seq<Moment>, k: nat, jti: string)
    requires LegalRun(cfg, st, events) && k < |events| && events[k].ev.NoticeArrived? && events[k].ev.claims.jti == jti
    requires Acts(cfg, Run(cfg, st, events[..k]), events[k].ev.claims, events[k].now)
    ensures var last := LastActed(cfg, st, events, jti); last.Some? && events[k].now <= last.value
    decreases |events|
  {
    hide Acts, Step, Legal, LegalRun;
    var n := |events| - 1;
    if k < n {
      LastStep(cfg, st, events);
      assert events[..n][..k] == events[..k];
      LastActedRises(cfg, st, events[..n], k, jti);
      ClockRises(cfg, st, events, k);
      LastMoment(cfg, st, events);
    }
  }

  lemma LastMoment(cfg: Config, st: State, events: seq<Moment>)
    requires LegalRun(cfg, st, events) && events != []
    ensures Run(cfg, st, events).clock == events[|events| - 1].now
  {
    LastStep(cfg, st, events);
    StepClock(cfg, Run(cfg, st, events[..|events| - 1]), events[|events| - 1]);
  }

  // In this run the notice was acted on at the moment t.
  ghost predicate Delivered(cfg: Config, st: State, events: seq<Moment>, k: nat, claims: LogoutClaims, t: Time) {
    && st.deliveries == map[] && LegalRun(cfg, st, events)
    && k < |events| && events[k] == Moment(NoticeArrived(claims), t) && Acts(cfg, Run(cfg, st, events[..k]), claims, t)
  }

  // Whatever happens after the notice was acted on, it ends nothing when it comes again.
  ghost predicate Harmless(cfg: Config, claims: LogoutClaims, t: Time) {
    forall st, events, k, now :: Delivered(cfg, st, events, k, claims, t) && Run(cfg, st, events).clock <= now ==>
      Backchannel(cfg, Run(cfg, st, events), claims, now).sessions == Run(cfg, st, events).sessions
  }

  lemma ShortLivedEndsNothing(cfg: Config, st: State, events: seq<Moment>, k: nat, claims: LogoutClaims, t: Time, now: Time)
    requires Delivered(cfg, st, events, k, claims, t) && Run(cfg, st, events).clock <= now
    requires claims.exp * TICKS_PER_SECOND <= t + cfg.deliveryRetention + 1
    ensures Backchannel(cfg, Run(cfg, st, events), claims, now).sessions == Run(cfg, st, events).sessions
  {
    hide Backchannel, Run, LegalRun, LastActed, Legal, IsNotice;
    var end := Run(cfg, st, events);
    LastActedRises(cfg, st, events, k, claims.jti);
    RunTells(cfg, st, events, claims.jti);
    NoticeThatDoesNotAct(cfg, end, claims, now);
  }

  // What somebody signs in with who is meant by the notice.
  function ClaimsFor(cfg: Config, claims: LogoutClaims): Claims {
    Claims(Identity(cfg.issuer, claims.sub), if claims.sid == "" then None else Some(claims.sid), true)
  }

  // The notice arrives at t; right after that somebody signs in.
  function SignInAfter(cfg: Config, claims: LogoutClaims, t: Time): seq<Moment> {
    [Moment(NoticeArrived(claims), t), Moment(StartLogin("trip", false), t + 1),
     Moment(FinishLogin("trip", Some(ClaimsFor(cfg, claims)), Create(1), "row"), t + 1)]
  }

  lemma RunOfThree(cfg: Config, st: State, events: seq<Moment>)
    requires |events| == 3
    ensures events[..0] == [] && Run(cfg, st, events[..0]) == st
    ensures Run(cfg, st, events[..1]) == Step(cfg, st, events[0])
    ensures Run(cfg, st, events[..2]) == Step(cfg, Run(cfg, st, events[..1]), events[1])
    ensures Run(cfg, st, events) == Step(cfg, Run(cfg, st, events[..2]), events[2])
  {
    hide Step;
    assert events[..1][..0] == [] && events[..2][..1] == events[..1] && events[..1] == [events[0]];
  }

  lemma FirstArrival(cfg: Config, claims: LogoutClaims, t: Time)
    requires IsNotice(claims) && t < claims.exp * TICKS_PER_SECOND
    ensures var st := Beginning(t, map[], map[]);
            Acts(cfg, st, claims, t)
            && Step(cfg, st, Moment(NoticeArrived(claims), t)) == st.(deliveries := map[claims.jti := t])
  {
    var st := Beginning(t, map[], map[]);
    var gone := RowsOfNotice(cfg.issuer, st.sessions, st.links, NoticeOf(cfg.issuer, claims).value);
    assert gone == {};
    EndingNothing(st, t);
    hide RowsOfNotice, EndSessions, InTime;
    assert RecentDeliveries(map[], t - cfg.deliveryRetention) == map[];
  }

  function NewRow(cfg: Config, claims: LogoutClaims, t: Time): Session {
    Session(1, t + 1 + cfg.signInCarry, t + 1, ClaimsFor(cfg, claims).idpSession)
  }

  lemma SignsIn(cfg: Config, st: State, claims: LogoutClaims, t: Time)
    requires cfg.transactionTtl > 0 && st == Beginning(t, map[], map[]).(deliveries := map[claims.jti := t])
    ensures var events := SignInAfter(cfg, claims, t);
            var started := Step(cfg, st, events[1]);
            var end := Step(cfg, started, events[2]);
            && Legal(st, events[1].ev, t + 1) && Legal(started, events[2].ev, t + 1)
            && end.sessions == map["row" := NewRow(cfg, claims, t)]
            && end.links == map[ClaimsFor(cfg, claims).identity := 1] && end.deliveries == st.deliveries && end.clock == t + 1
  {
    var events := SignInAfter(cfg, claims, t);
    var started := Step(cfg, st, events[1]);
    assert started.transactions == map["trip" := Transaction(t + 1 + cfg.transactionTtl, false, Login, None)];
    assert started == st.(transactions := started.transactions, trips := {"trip"}, clock := t + 1);
    var known := ResolveUser(Consume(started, "trip"), ClaimsFor(cfg, claims), Create(1)).0;
    assert ExpiredRows(known.sessions, t + 1) == {};
    EndingNothing(known, t + 1);
  }

  lemma NewRowIsMeant(cfg: Config, claims: LogoutClaims, t: Time, end: State)
    requires IsNotice(claims)
    requires end.sessions == map["row" := NewRow(cfg, claims, t)] && end.links == map[ClaimsFor(cfg, claims).identity := 1]
    ensures Meant(cfg, end, claims, "row")
  {
    var identity := ClaimsFor(cfg, claims).identity;
    assert identity in end.links && end.links[identity] == 1;
  }

  /** A notice that is valid for longer than its delivery is remembered can end a sign-in made after it was acted on; and if
      sign-ins last longer than deliveries are remembered, one that has not run out. */
  lemma LongLivedCanEnd(cfg: Config, claims: LogoutClaims, t: Time) returns (st: State, events: seq<Moment>, now: Time)
    requires IsNotice(claims) && cfg.transactionTtl > 0 && cfg.deliveryRetention >= 0
    requires claims.exp * TICKS_PER_SECOND > t + cfg.deliveryRetention + 1
    ensures Delivered(cfg, st, events, 0, claims, t) && Run(cfg, st, events).clock <= now
    ensures var end := Run(cfg, st, events);
            && "row" in end.sessions && end.sessions["row"].createdAt > t
            && (cfg.signInCarry >= cfg.deliveryRetention ==> end.sessions["row"].expiresAt >= now)
            && "row" !in Backchannel(cfg, end, claims, now).sessions
  {
    hide IsNotice, Step, Legal, Backchannel, Acts;
    st, events, now := Beginning(t, map[], map[]), SignInAfter(cfg, claims, t), t + cfg.deliveryRetention + 1;
    RunOfThree(cfg, st, events);
    FirstArrival(cfg, claims, t);
    SignsIn(cfg, Step(cfg, st, events[0]), claims, t);
    StartIsLegal(claims, t, st);
    assert LegalRun(cfg, st, events) by {
      forall k | 0 <= k < |events| ensures Legal(Run(cfg, st, events[..k]), events[k].ev, events[k].now) {
        assert k == 0 || k == 1 || k == 2;
      }
    }
    var end := Run(cfg, st, events);
    NewRowIsMeant(cfg, claims, t, end);
    NoticeEndsExactly(cfg, end, claims, now, "row");
    ActsAgain(cfg, end, claims, t, now);
  }

  lemma StartIsLegal(claims: LogoutClaims, t: Time, st: State)
    requires st.clock == t
    ensures Legal(st, NoticeArrived(claims), t)
  {
  }

  lemma ActsAgain(cfg: Config, end: State, claims: LogoutClaims, t: Time, now: Time)
    requires IsNotice(claims) && now < claims.exp * TICKS_PER_SECOND
    requires end.deliveries == map[claims.jti := t] && t < now - cfg.deliveryRetention
    ensures Acts(cfg, end, claims, now)
  {
  }

  /** Once acted on at t, a notice is harmless for good exactly if it runs out no later than its delivery is forgotten. */
  lemma HarmlessExactly(cfg: Config, claims: LogoutClaims, t: Time)
    requires IsNotice(claims) && cfg.transactionTtl > 0 && cfg.deliveryRetention >= 0
    ensures Harmless(cfg, claims, t) <==> claims.exp * TICKS_PER_SECOND <= t + cfg.deliveryRetention + 1
  {
    hide Delivered, Run, Backchannel, IsNotice;
    if claims.exp * TICKS_PER_SECOND <= t + cfg.deliveryRetention + 1 {
      forall st, events, k, now | Delivered(cfg, st, events, k, claims, t) && Run(cfg, st, events).clock <= now
        ensures Backchannel(cfg, Run(cfg, st, events), claims, now).sessions == Run(cfg, st, events).sessions
      {
        ShortLivedEndsNothing(cfg, st, events, k, claims, t, now);
      }
    } else {
      var st, events, now := LongLivedCanEnd(cfg, claims, t);
      assert Backchannel(cfg, Run(cfg, st, events), claims, now).sessions != Run(cfg, st, events).sessions;
    }
  }
}
