/** When a presented token is taken for stolen, told from its row alone: what each kind of row leads
    to in every run, and what must have been read before a family is killed or a client let on.
  */
module TheftDetection {
  import opened Wrappers
  import opened Sessions
  import opened SessionProtocol
  import opened SessionSafety

  // Step n of the run reads the row of the token that request id presents.
  ghost predicate Reads(acts: seq<Action>, n: nat, id: nat, token: Token, agent: string) {
    Valid(acts) && n < |acts| && acts[n] == ReadRow(id) &&
    id in At(acts, n).requests && At(acts, n).requests[id] == Presented(token, agent)
  }

  // A token rotated away, presented without proof of coming from the device it was issued to.
  predicate Stolen(rows: Rows, token: Token, agent: string) {
    token in rows && rows[token].status == Revoked(Rotated) && (rows[token].agent == "" || rows[token].agent != agent)
  }

  // A token its holder may refresh with: live, or rotated away and replayed by its own device.
  predicate Usable(rows: Rows, token: Token, agent: string) {
    token in rows &&
    (rows[token].status == Live ||
     (rows[token].status == Revoked(Rotated) && agent != "" && rows[token].agent == agent))
  }

  // The request was answered by an error from outside the protocol, such as a lost connection.
  ghost predicate FailedBetween(acts: seq<Action>, n: nat, m: nat, id: nat)
    requires Valid(acts) && m <= |acts|
  {
    exists k :: n < k < m && acts[k].Fail? && acts[k].id == id && !acts[k].outcome.Refreshed? &&
      id in At(acts, m).requests && At(acts, m).requests[id] == Done(acts[k].outcome)
  }

  // ---------------------------------------------------------------------------------------------
  // Steps
  // ---------------------------------------------------------------------------------------------

  // A finished request keeps its answer.
  lemma AnswersStay(s: State, a: Action, id: nat)
    requires Enabled(s, a) && id in s.requests && s.requests[id].Done?
    ensures id in Next(s, a).requests && Next(s, a).requests[id] == s.requests[id]
  {
  }

  // A request moves only by its own steps.
  lemma OthersDoNotMoveIt(s: State, a: Action, id: nat)
    requires Enabled(s, a) && id in s.requests && (a.Login? || a.id != id)
    ensures id in Next(s, a).requests && Next(s, a).requests[id] == s.requests[id]
  {
  }

  ghost predicate Condemned(s: State, id: nat, session: nat) {
    id in s.requests &&
    (s.requests[id] == Condemning(session) || (s.requests[id] == Done(SessionExpired) && Dead(s, session)))
  }

  lemma {:induction false} CondemnedStep(s: State, a: Action, id: nat, session: nat)
    requires Good(s) && Enabled(s, a) && Condemned(s, id, session)
    ensures Condemned(Next(s, a), id, session) ||
            (a.Fail? && a.id == id && id in Next(s, a).requests && Next(s, a).requests[id] == Done(a.outcome))
  {
    if s.requests[id].Done? {
      AnswersStay(s, a, id);
      DeadStep(s, a, session);
    } else if a.Login? || a.id != id {
      OthersDoNotMoveIt(s, a, id);
    } else if a.Revoke? {
      RevokingKills(s, a, id);
    }
  }

  lemma {:induction false} RevokingKills(s: State, a: Action, id: nat)
    requires Good(s) && Enabled(s, a) && a.Revoke? && a.id == id && s.requests[id].Condemning?
    ensures Dead(Next(s, a), s.requests[id].session)
  {
    var session := s.requests[id].session;
    var c := Kill(session, Theft);
    assert session in s.chains by {
      assert Remembers(s.rows, s.chains, s.requests[id]);
    }
    assert CommitOf(s, a) == Some(c) && Next(s, a).rows == Apply(s.rows, c) && Next(s, a).chains == s.chains;
    FamilyAfterCommit(s.rows, s.chains, c, session);
  }

  lemma {:induction false} FailureStays(acts: seq<Action>, n: nat, m: nat, id: nat)
    requires Valid(acts) && m < |acts| && FailedBetween(acts, n, m, id)
    ensures FailedBetween(acts, n, m + 1, id)
  {
    Stepwise(acts, m);
    AnswersStay(At(acts, m), acts[m], id);
    var k :| n < k < m && acts[k].Fail? && acts[k].id == id && !acts[k].outcome.Refreshed? &&
      At(acts, m).requests[id] == Done(acts[k].outcome);
    assert At(acts, m + 1).requests[id] == Done(acts[k].outcome);
  }

  lemma FailureAnswers(acts: seq<Action>, n: nat, m: nat, id: nat)
    requires Valid(acts) && n < m < |acts| && acts[m].Fail? && acts[m].id == id
    ensures FailedBetween(acts, n, m + 1, id)
  {
    Stepwise(acts, m);
    assert At(acts, m + 1).requests[id] == Done(acts[m].outcome);
  }

  // ---------------------------------------------------------------------------------------------
  // What the row decides
  // ---------------------------------------------------------------------------------------------

  // Reading the row changes no row; a token without one is refused, and so is one revoked by a
  // logout or for theft, both for good.
  lemma {:induction false} DeadTokensAreRefused(acts: seq<Action>, n: nat, m: nat, id: nat, token: Token, agent: string)
    requires Reads(acts, n, id, token, agent) && n < m <= |acts|
    ensures At(acts, n + 1).rows == At(acts, n).rows
    ensures token !in At(acts, n).rows ==> Answered(At(acts, m), id, Unauthorized)
    ensures token in At(acts, n).rows && At(acts, n).rows[token].status in {Revoked(LoggedOut), Revoked(Theft)} ==>
              Answered(At(acts, m), id, SessionExpired)
  {
    Stepwise(acts, n);
    if token !in At(acts, n).rows {
      AnswerStays(acts, n + 1, m, id, Unauthorized);
    } else if At(acts, n).rows[token].status in {Revoked(LoggedOut), Revoked(Theft)} {
      AnswerStays(acts, n + 1, m, id, SessionExpired);
    }
  }

  predicate Answered(s: State, id: nat, outcome: Outcome) {
    id in s.requests && s.requests[id] == Done(outcome)
  }

  lemma {:induction false} AnswerNext(acts: seq<Action>, m: nat, id: nat, outcome: Outcome)
    requires Valid(acts) && m < |acts| && Answered(At(acts, m), id, outcome)
    ensures Answered(At(acts, m + 1), id, outcome)
  {
    Stepwise(acts, m);
    AnswersStay(At(acts, m), acts[m], id);
  }

  lemma {:induction false} AnswerStays(acts: seq<Action>, n: nat, m: nat, id: nat, outcome: Outcome)
    requires Valid(acts) && n <= m <= |acts| && Answered(At(acts, n), id, outcome)
    ensures Answered(At(acts, m), id, outcome)
    decreases m
  {
    if n < m {
      AnswerStays(acts, n, m - 1, id, outcome);
      AnswerNext(acts, m - 1, id, outcome);
    }
  }

  // On its way to killing the family, or answered without a success.
  ghost predicate Doomed(acts: seq<Action>, n: nat, m: nat, id: nat, session: nat)
    requires Valid(acts) && m <= |acts|
  {
    Condemned(At(acts, m), id, session) || FailedBetween(acts, n, m, id)
  }

  lemma {:induction false} DoomedNext(acts: seq<Action>, n: nat, m: nat, id: nat, session: nat)
    requires Valid(acts) && n < m < |acts| && Doomed(acts, n, m, id, session)
    ensures Doomed(acts, n, m + 1, id, session)
  {
    if FailedBetween(acts, n, m, id) {
      FailureStays(acts, n, m, id);
    } else {
      var s, a, s' := At(acts, m), acts[m], At(acts, m + 1);
      assert Good(s) && Enabled(s, a) && s' == Next(s, a) by {
        Stepwise(acts, m);
        GoodAt(acts, m);
      }
      CondemnedStep(s, a, id, session);
      if !Condemned(s', id, session) {
        FailureAnswers(acts, n, m, id);
      }
    }
  }

  lemma {:induction false} StolenReadDooms(acts: seq<Action>, n: nat, m: nat, id: nat, token: Token, agent: string)
    requires Reads(acts, n, id, token, agent) && n < m <= |acts| && Stolen(At(acts, n).rows, token, agent)
    ensures Doomed(acts, n, m, id, At(acts, n).rows[token].session)
    decreases m
  {
    if m == n + 1 {
      Stepwise(acts, n);
    } else {
      StolenReadDooms(acts, n, m - 1, id, token, agent);
      DoomedNext(acts, n, m - 1, id, At(acts, n).rows[token].session);
    }
  }

  // A rotated token presented by another device, or whose own device is not on record, never
  // refreshes anything: whatever others do meanwhile, the request goes on to kill the family and
  // answers that the session is over, unless an error from outside ends it first.
  lemma {:induction false} StolenTokenKillsTheFamily(acts: seq<Action>, n: nat, m: nat, id: nat, token: Token, agent: string)
    requires Reads(acts, n, id, token, agent) && n < m <= |acts| && Stolen(At(acts, n).rows, token, agent)
    ensures Condemned(At(acts, m), id, At(acts, n).rows[token].session) || FailedBetween(acts, n, m, id)
    ensures id in At(acts, m).requests && !(At(acts, m).requests[id].Done? && At(acts, m).requests[id].outcome.Refreshed?)
  {
    StolenReadDooms(acts, n, m, id, token, agent);
  }

  // On its way to a rotation of the family, or answered.
  predicate Refreshing(s: State, id: nat, session: nat, user: int) {
    id in s.requests &&
    match s.requests[id] {
      case Direct(_, f, u, _) => f == session && u == user
      case Replaying(f, u, _, _) => f == session && u == user
      case Rotating(f, u, _, _, _) => f == session && u == user
      case Done(Refreshed(u, _)) => u == user
      case Done(_) => true
      case _ => false
    }
  }

  lemma {:induction false} RefreshingStep(s: State, a: Action, id: nat, session: nat, user: int)
    requires Enabled(s, a) && Refreshing(s, id, session, user)
    ensures Refreshing(Next(s, a), id, session, user)
    ensures a.Revoke? ==> a.id != id
  {
    if a.Login? || a.id != id {
      OthersDoNotMoveIt(s, a, id);
    }
  }

  lemma {:induction false} RefreshingNext(acts: seq<Action>, m: nat, id: nat, session: nat, user: int)
    requires Valid(acts) && m < |acts| && Refreshing(At(acts, m), id, session, user)
    ensures Refreshing(At(acts, m + 1), id, session, user)
    ensures acts[m].Revoke? ==> acts[m].id != id
  {
    Stepwise(acts, m);
    RefreshingStep(At(acts, m), acts[m], id, session, user);
  }

  lemma {:induction false} UsableReadRefreshes(acts: seq<Action>, n: nat, id: nat, token: Token, agent: string)
    requires Reads(acts, n, id, token, agent) && Usable(At(acts, n).rows, token, agent)
    ensures Refreshing(At(acts, n + 1), id, At(acts, n).rows[token].session, token.subject)
  {
    Stepwise(acts, n);
    GoodAt(acts, n);
    OneUser(At(acts, n).rows, At(acts, n).chains, token, token);
  }

  // A live token, or a rotated one replayed by its own device, never kills the family; its
  // refresh can only succeed for the user the token names.
  lemma {:induction false} UsableTokenNeverKills(acts: seq<Action>, n: nat, m: nat, id: nat, token: Token, agent: string)
    requires Reads(acts, n, id, token, agent) && n < m <= |acts| && Usable(At(acts, n).rows, token, agent)
    ensures Refreshing(At(acts, m), id, At(acts, n).rows[token].session, token.subject)
    ensures forall k :: n < k < m && acts[k].Revoke? ==> acts[k].id != id
    decreases m
  {
    if m == n + 1 {
      UsableReadRefreshes(acts, n, id, token, agent);
    } else {
      UsableTokenNeverKills(acts, n, m - 1, id, token, agent);
      RefreshingNext(acts, m - 1, id, At(acts, n).rows[token].session, token.subject);
    }
  }

  // ---------------------------------------------------------------------------------------------
  // What must have been read
  // ---------------------------------------------------------------------------------------------

  ghost predicate StolenRead(acts: seq<Action>, n: nat, id: nat, token: Token, agent: string, session: nat) {
    Reads(acts, n, id, token, agent) && Stolen(At(acts, n).rows, token, agent) && At(acts, n).rows[token].session == session
  }

  ghost predicate UsableRead(acts: seq<Action>, n: nat, id: nat, token: Token, agent: string, user: int) {
    Reads(acts, n, id, token, agent) && Usable(At(acts, n).rows, token, agent) && token.subject == user
  }

  ghost predicate ReadStolen(acts: seq<Action>, id: nat, session: nat) {
    exists n: nat, token, agent :: StolenRead(acts, n, id, token, agent, session)
  }

  ghost predicate ReadUsable(acts: seq<Action>, id: nat, user: int) {
    exists n: nat, token, agent :: UsableRead(acts, n, id, token, agent, user)
  }

  // What the phase of a request tells about the row it read.
  ghost predicate Explained(acts: seq<Action>, id: nat, r: Request) {
    match r
    case Condemning(session) => ReadStolen(acts, id, session)
    case Direct(_, _, user, _) => ReadUsable(acts, id, user)
    case Replaying(_, user, _, _) => ReadUsable(acts, id, user)
    case Rotating(_, user, _, _, _) => ReadUsable(acts, id, user)
    case Done(Refreshed(user, _)) => ReadUsable(acts, id, user)
    case _ => true
  }

  lemma {:induction false} ReadsInLonger(acts: seq<Action>, n: nat, id: nat, token: Token, agent: string)
    requires Valid(acts) && acts != [] && Reads(acts[..|acts| - 1], n, id, token, agent)
    ensures Reads(acts, n, id, token, agent) && At(acts, n) == At(acts[..|acts| - 1], n)
  {
    assert acts[..|acts| - 1][..n] == acts[..n];
  }

  lemma {:induction false} StolenReadInLonger(acts: seq<Action>, id: nat, session: nat)
    requires Valid(acts) && acts != [] && ReadStolen(acts[..|acts| - 1], id, session)
    ensures ReadStolen(acts, id, session)
  {
    var n: nat, token, agent :| StolenRead(acts[..|acts| - 1], n, id, token, agent, session);
    ReadsInLonger(acts, n, id, token, agent);
    assert StolenRead(acts, n, id, token, agent, session);
  }

  lemma {:induction false} UsableReadInLonger(acts: seq<Action>, id: nat, user: int)
    requires Valid(acts) && acts != [] && ReadUsable(acts[..|acts| - 1], id, user)
    ensures ReadUsable(acts, id, user)
  {
    var n: nat, token, agent :| UsableRead(acts[..|acts| - 1], n, id, token, agent, user);
    ReadsInLonger(acts, n, id, token, agent);
    assert UsableRead(acts, n, id, token, agent, user);
  }

  lemma {:induction false} ExplainedInLonger(acts: seq<Action>, id: nat, r: Request)
    requires Valid(acts) && acts != [] && Explained(acts[..|acts| - 1], id, r)
    ensures Explained(acts, id, r)
  {
    match r
    case Condemning(session) => StolenReadInLonger(acts, id, session);
    case Direct(_, _, user, _) => UsableReadInLonger(acts, id, user);
    case Replaying(_, user, _, _) => UsableReadInLonger(acts, id, user);
    case Rotating(_, user, _, _, _) => UsableReadInLonger(acts, id, user);
    case Done(Refreshed(user, _)) => UsableReadInLonger(acts, id, user);
    case _ =>
  }

  // The phase a request enters by its own step is explained by its last one, or by the row read.
  lemma {:induction false} NewPhaseExplained(acts: seq<Action>, id: nat)
    requires Valid(acts) && acts != []
    requires var a := acts[|acts| - 1]; !a.Login? && a.id == id && id in At(acts, |acts| - 1).requests
    requires Explained(acts, id, At(acts, |acts| - 1).requests[id])
    ensures id in After(acts).requests && Explained(acts, id, After(acts).requests[id])
  {
    var n := |acts| - 1;
    Stepwise(acts, n);
    assert acts[..n + 1] == acts;
    var s, a := At(acts, n), acts[n];
    if a.ReadRow? && s.requests[id].Presented? {
      var token, agent := s.requests[id].token, s.requests[id].agent;
      GoodAt(acts, n);
      ReadExplains(acts, n, id, token, agent);
    }
  }

  lemma {:induction false} ReadExplains(acts: seq<Action>, n: nat, id: nat, token: Token, agent: string)
    requires Reads(acts, n, id, token, agent) && Good(At(acts, n))
    ensures Explained(acts, id, AfterRowRead(At(acts, n).rows, Presented(token, agent)))
  {
    var rows := At(acts, n).rows;
    if token in rows {
      OneUser(rows, At(acts, n).chains, token, token);
      if Stolen(rows, token, agent) {
        assert StolenRead(acts, n, id, token, agent, rows[token].session);
      } else if Usable(rows, token, agent) {
        assert UsableRead(acts, n, id, token, agent, token.subject);
      }
    }
  }

  // A family is killed for theft only by a request that read a stolen token of it, and a client
  // is let on only by one that read a usable token of the user it is let on as.
  lemma {:induction false} EveryPhaseIsExplained(acts: seq<Action>, id: nat)
    requires Valid(acts) && id in After(acts).requests
    ensures Explained(acts, id, After(acts).requests[id])
    decreases |acts|
  {
    var n := |acts| - 1;
    var before, a := acts[..n], acts[n];
    ValidPrefix(acts, n);
    Stepwise(acts, n);
    assert acts[..n + 1] == acts;
    if id in After(before).requests {
      EveryPhaseIsExplained(before, id);
      ExplainedInLonger(acts, id, After(before).requests[id]);
      if !a.Login? && a.id == id {
        NewPhaseExplained(acts, id);
      } else {
        OthersDoNotMoveIt(After(before), a, id);
      }
    }
  }

  // The row read parts the requests: exactly those with a stolen token turn on the family, and
  // exactly those with a usable one go on to rotate; the others are answered at once.
  lemma TheftIffStolenRead(acts: seq<Action>, n: nat, id: nat, token: Token, agent: string)
    requires Reads(acts, n, id, token, agent) && token in At(acts, n).rows
    ensures id in At(acts, n + 1).requests
    ensures At(acts, n + 1).requests[id].Condemning? <==> Stolen(At(acts, n).rows, token, agent)
    ensures !At(acts, n + 1).requests[id].Condemning? && !At(acts, n + 1).requests[id].Done? <==> Usable(At(acts, n).rows, token, agent)
  {
    Stepwise(acts, n);
  }
}
