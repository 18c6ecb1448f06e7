/** Any number of logins, refreshes, replays and logouts, interleaved step by step.

    A request is a small state machine: it reads the presented row, then (for a replay) the head
    of the family, then commits.  Other requests may act between any two of its steps.
  */
module SessionProtocol {
  import opened Wrappers
  import opened Sessions

  datatype Outcome =
    | Refreshed(user: int, token: Token)
    | SignedOut
    | SessionExpired
    | Unauthorized
    | NotFound
    | InternalError

  datatype Request =
    | Presented(token: Token, agent: string)
    | Direct(token: Token, session: nat, user: int, agent: string)
    | Replaying(session: nat, user: int, agent: string, attempt: nat)
    | Rotating(session: nat, user: int, agent: string, attempt: nat, head: Token)
    | Condemning(session: nat)
    | Leaving(token: Token)
    | LeavingFamily(session: nat)
    | Done(outcome: Outcome)

  datatype State = State(rows: Rows, chains: Chains, requests: map<nat, Request>)

  const Init := State(map[], map[], map[])

  datatype Action =
    | Login(token: Token, session: nat, user: int, agent: string)
    | ArriveRefresh(id: nat, token: Token, agent: string)
    | ArriveLogout(id: nat, token: Token)
    | Fail(id: nat, outcome: Outcome)
    | ReadRow(id: nat)
    | ReadHead(id: nat, head: Option<Token>)
    | CommitRotation(id: nat, token: Token, minted: bool)
    | Revoke(id: nat)

  // What GetRefreshToken and the branches on its row lead to.
  function AfterRowRead(rows: Rows, r: Request): Request
    requires r.Presented? || r.Leaving?
  {
    match r
    case Presented(token, agent) =>
      if token !in rows then Done(Unauthorized)
      else
        var row := rows[token];
        if row.status.Live? then Direct(token, row.session, token.subject, agent)
        else if row.status != Revoked(Rotated) then Done(SessionExpired)
        else if row.agent != "" && row.agent == agent then Replaying(row.session, row.user, agent, 0)
        else Condemning(row.session)
    case Leaving(token) =>
      if token !in rows then Done(SignedOut) else LeavingFamily(rows[token].session)
  }

  function Rotation(r: Request, token: Token): Commit
    requires r.Direct? || r.Rotating?
  {
    Rotate(if r.Direct? then r.token else r.head, token, r.session, r.user, r.agent)
  }

  function AfterCommit(rows: Rows, r: Request, token: Token, minted: bool): Request
    requires r.Direct? || r.Rotating?
  {
    if IsLive(rows, Rotation(r, token).prior) then
      Done(if minted then Refreshed(r.user, token) else InternalError)
    else if r.Direct? then Done(NotFound)
    else if r.attempt < Attempts - 1 then Replaying(r.session, r.user, r.agent, r.attempt + 1)
    else Done(SessionExpired)
  }

  predicate Enabled(s: State, a: Action) {
    match a
    case Login(token, session, user, _) =>
      token !in s.rows && session !in s.chains && token.subject == user
    case ArriveRefresh(id, _, _) => id !in s.requests
    case ArriveLogout(id, _) => id !in s.requests
    case Fail(id, outcome) => id in s.requests && !s.requests[id].Done? && !outcome.Refreshed?
    case ReadRow(id) => id in s.requests && (s.requests[id].Presented? || s.requests[id].Leaving?)
    case ReadHead(id, head) =>
      id in s.requests && s.requests[id].Replaying? &&
      match head {
        case None => LiveTokens(s.rows, s.requests[id].session) == {}
        case Some(t) => t in LiveTokens(s.rows, s.requests[id].session)
      }
    case CommitRotation(id, token, _) =>
      id in s.requests && (s.requests[id].Direct? || s.requests[id].Rotating?) &&
      token !in s.rows && token.subject == s.requests[id].user
    case Revoke(id) => id in s.requests && (s.requests[id].Condemning? || s.requests[id].LeavingFamily?)
  }

  // The commit a step makes, if any.
  function CommitOf(s: State, a: Action): Option<Commit>
    requires Enabled(s, a)
  {
    match a
    case Login(token, session, user, agent) => Some(Open(token, session, user, agent))
    case CommitRotation(id, token, _) => Some(Rotation(s.requests[id], token))
    case Revoke(id) =>
      Some(Kill(s.requests[id].session, if s.requests[id].Condemning? then Theft else LoggedOut))
    case _ => None
  }

  function Respond(s: State, a: Action): map<nat, Request>
    requires Enabled(s, a)
  {
    match a
    case Login(_, _, _, _) => s.requests
    case ArriveRefresh(id, token, agent) => s.requests[id := Presented(token, agent)]
    case ArriveLogout(id, token) => s.requests[id := Leaving(token)]
    case Fail(id, outcome) => s.requests[id := Done(outcome)]
    case ReadRow(id) => s.requests[id := AfterRowRead(s.rows, s.requests[id])]
    case ReadHead(id, head) =>
      var r := s.requests[id];
      s.requests[id := if head.None? then Done(SessionExpired)
                       else Rotating(r.session, r.user, r.agent, r.attempt, head.value)]
    case CommitRotation(id, token, minted) =>
      s.requests[id := AfterCommit(s.rows, s.requests[id], token, minted)]
    case Revoke(id) =>
      s.requests[id := Done(if s.requests[id].Condemning? then SessionExpired else SignedOut)]
  }

  function Next(s: State, a: Action): State
    requires Enabled(s, a)
  {
    match CommitOf(s, a)
    case None => State(s.rows, s.chains, Respond(s, a))
    case Some(c) => State(Apply(s.rows, c), Extend(s.chains, s.rows, c), Respond(s, a))
  }

  // A run is a sequence of actions, each enabled in the state the earlier ones lead to.
  function Run(acts: seq<Action>): Option<State> {
    if acts == [] then Some(Init)
    else
      var before := Run(acts[..|acts| - 1]);
      if before.Some? && Enabled(before.value, acts[|acts| - 1])
      then Some(Next(before.value, acts[|acts| - 1]))
      else None
  }

  predicate Valid(acts: seq<Action>) {
    Run(acts).Some?
  }

  function After(acts: seq<Action>): State
    requires Valid(acts)
  {
    Run(acts).value
  }

  lemma ValidPrefix(acts: seq<Action>, n: nat)
    requires Valid(acts) && n <= |acts|
    ensures Valid(acts[..n])
    decreases |acts|
  {
    if n == |acts| {
      assert acts[..n] == acts;
    } else {
      ValidPrefix(acts[..|acts| - 1], n);
      assert acts[..|acts| - 1][..n] == acts[..n];
    }
  }

  // The state after the first n actions of a run.
  ghost function At(acts: seq<Action>, n: nat): State
    requires Valid(acts) && n <= |acts|
  {
    ValidPrefix(acts, n);
    After(acts[..n])
  }

  lemma Stepwise(acts: seq<Action>, n: nat)
    requires Valid(acts) && n < |acts|
    ensures Enabled(At(acts, n), acts[n]) && At(acts, n + 1) == Next(At(acts, n), acts[n])
  {
    ValidPrefix(acts, n + 1);
    assert acts[..n + 1][..n] == acts[..n];
  }

  // ---------------------------------------------------------------------------------------------
  // What a request has read stays true while others act
  // ---------------------------------------------------------------------------------------------

  ghost predicate Remembers(rows: Rows, chains: Chains, r: Request) {
    match r
    case Direct(token, session, user, _) =>
      token in rows && rows[token].session == session && rows[token].user == user
    case Replaying(session, user, _, attempt) =>
      attempt < Attempts && session in chains && (forall t :: t in Family(rows, session) ==> rows[t].user == user)
    case Rotating(session, user, _, attempt, head) =>
      attempt < Attempts && session in chains && (forall t :: t in Family(rows, session) ==> rows[t].user == user) &&
      head in rows && rows[head].session == session
    case Condemning(session) => session in chains
    case LeavingFamily(session) => session in chains
    case Done(Refreshed(user, token)) => token in rows && rows[token].user == user
    case _ => true
  }

  ghost predicate Good(s: State) {
    Inv(s.rows, s.chains) &&
    forall id :: id in s.requests ==> Remembers(s.rows, s.chains, s.requests[id])
  }

  // Rows are never removed and never move to another family, user or agent.
  lemma {:induction false} RowsPersist(rows: Rows, chains: Chains, c: Commit, t: Token)
    requires Inv(rows, chains) && Legal(rows, chains, c) && t in rows
    ensures t in Apply(rows, c)
    ensures Apply(rows, c)[t] == rows[t].(status := Apply(rows, c)[t].status)
    ensures !rows[t].status.Live? ==> Apply(rows, c)[t] == rows[t]
  {
  }

  lemma {:induction false} OneUser(rows: Rows, chains: Chains, t: Token, u: Token)
    requires Inv(rows, chains)
    requires t in rows && u in rows && rows[t].session == rows[u].session
    ensures rows[t].user == rows[u].user == t.subject
  {
    assert Chained(rows, rows[t].session, chains[rows[t].session]);
  }

  lemma RequestsMakeLegalCommits(s: State, a: Action)
    requires Good(s) && Enabled(s, a) && CommitOf(s, a).Some?
    ensures Legal(s.rows, s.chains, CommitOf(s, a).value)
  {
    if a.CommitRotation? {
      assert Remembers(s.rows, s.chains, s.requests[a.id]);
      if s.requests[a.id].Rotating? {
        assert s.requests[a.id].head in Family(s.rows, s.requests[a.id].session);
      }
    }
  }

  // A family of one user stays one.
  lemma FamilyKeepsUser(rows: Rows, chains: Chains, c: Commit, session: nat, user: int)
    requires Inv(rows, chains) && Legal(rows, chains, c)
    requires session in chains && forall t :: t in Family(rows, session) ==> rows[t].user == user
    ensures forall t :: t in Family(Apply(rows, c), session) ==> Apply(rows, c)[t].user == user
  {
    forall t | t in Family(Apply(rows, c), session)
      ensures Apply(rows, c)[t].user == user
    {
      if t in rows {
        RowsPersist(rows, chains, c, t);
        assert t in Family(rows, session);
      } else if c.Rotate? {
        assert c.prior in Family(rows, session);
      }
    }
  }

  lemma ChainsPersist(rows: Rows, chains: Chains, c: Commit)
    ensures forall s :: s in chains ==> s in Extend(chains, rows, c)
  {
  }

  lemma RemembersThroughCommit(rows: Rows, chains: Chains, c: Commit, r: Request)
    requires Inv(rows, chains) && Legal(rows, chains, c) && Remembers(rows, chains, r)
    ensures Remembers(Apply(rows, c), Extend(chains, rows, c), r)
  {
    ChainsPersist(rows, chains, c);
    match r
    case Direct(token, _, _, _) => RowsPersist(rows, chains, c, token);
    case Replaying(session, user, _, _) => FamilyKeepsUser(rows, chains, c, session, user);
    case Rotating(session, user, _, _, head) =>
      FamilyKeepsUser(rows, chains, c, session, user);
      RowsPersist(rows, chains, c, head);
    case Done(Refreshed(_, token)) => RowsPersist(rows, chains, c, token);
    case _ =>
  }

  lemma {:induction false} FamilyHasOneUser(rows: Rows, chains: Chains, token: Token)
    requires Inv(rows, chains) && token in rows
    ensures forall t :: t in Family(rows, rows[token].session) ==> rows[t].user == rows[token].user
    ensures rows[token].user == token.subject
  {
    OneUser(rows, chains, token, token);
    forall t | t in Family(rows, rows[token].session)
      ensures rows[t].user == rows[token].user
    {
      OneUser(rows, chains, t, token);
    }
  }

  // The phase the acting request enters is right about the rows it leaves behind.
  lemma {:induction false} RowReadRemembers(rows: Rows, chains: Chains, r: Request)
    requires Inv(rows, chains) && (r.Presented? || r.Leaving?)
    ensures Remembers(rows, chains, AfterRowRead(rows, r))
  {
    if r.token in rows {
      assert rows[r.token].session in chains;
      if r.Presented? && !rows[r.token].status.Live? {
        FamilyHasOneUser(rows, chains, r.token);
      } else {
        OneUser(rows, chains, r.token, r.token);
      }
    }
  }

  lemma CommitRemembers(rows: Rows, chains: Chains, r: Request, token: Token, minted: bool)
    requires Inv(rows, chains) && Remembers(rows, chains, r) && (r.Direct? || r.Rotating?)
    requires Legal(rows, chains, Rotation(r, token))
    ensures Remembers(Apply(rows, Rotation(r, token)), Extend(chains, rows, Rotation(r, token)),
                      AfterCommit(rows, r, token, minted))
  {
    RemembersThroughCommit(rows, chains, Rotation(r, token), r);
  }

  lemma {:induction false} NewPhaseRemembers(s: State, a: Action)
    requires Good(s) && Enabled(s, a) && !a.Login?
    ensures Remembers(Next(s, a).rows, Next(s, a).chains, Next(s, a).requests[a.id])
  {
    if a.ReadRow? {
      RowReadRemembers(s.rows, s.chains, s.requests[a.id]);
    } else if a.CommitRotation? {
      RequestsMakeLegalCommits(s, a);
      assert Remembers(s.rows, s.chains, s.requests[a.id]);
      CommitRemembers(s.rows, s.chains, s.requests[a.id], a.token, a.minted);
    } else if a.ReadHead? {
      assert Remembers(s.rows, s.chains, s.requests[a.id]);
    }
  }

  lemma {:induction false} OthersRemember(s: State, a: Action, id: nat)
    requires Good(s) && Enabled(s, a) && id in s.requests
    ensures Remembers(Next(s, a).rows, Next(s, a).chains, s.requests[id])
  {
    if CommitOf(s, a).Some? {
      RequestsMakeLegalCommits(s, a);
      RemembersThroughCommit(s.rows, s.chains, CommitOf(s, a).value, s.requests[id]);
    }
  }

  lemma {:induction false} NextKeepsGood(s: State, a: Action)
    requires Good(s) && Enabled(s, a)
    ensures Good(Next(s, a))
  {
    var s' := Next(s, a);
    if CommitOf(s, a).Some? {
      RequestsMakeLegalCommits(s, a);
      CommitKeepsInv(s.rows, s.chains, CommitOf(s, a).value);
    }
    forall id | id in s'.requests
      ensures Remembers(s'.rows, s'.chains, s'.requests[id])
    {
      if !a.Login? && id == a.id {
        NewPhaseRemembers(s, a);
      } else {
        assert s'.requests[id] == s.requests[id];
        OthersRemember(s, a, id);
      }
    }
  }

  lemma {:induction false} RunsAreGood(acts: seq<Action>)
    requires Valid(acts)
    ensures Good(After(acts))
    decreases |acts|
  {
    if acts != [] {
      RunsAreGood(acts[..|acts| - 1]);
      NextKeepsGood(After(acts[..|acts| - 1]), acts[|acts| - 1]);
    }
  }

  lemma GoodAt(acts: seq<Action>, n: nat)
    requires Valid(acts) && n <= |acts|
    ensures Good(At(acts, n))
  {
    ValidPrefix(acts, n);
    RunsAreGood(acts[..n]);
  }
}
