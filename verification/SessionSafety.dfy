/** What every run of the refresh-token protocol guarantees. */
module SessionSafety {
  import opened Wrappers
  import opened Sessions
  import opened SessionProtocol

  // ---------------------------------------------------------------------------------------------
  // At most one live token, and the linear chain
  // ---------------------------------------------------------------------------------------------

  function Elements(chain: seq<Token>): set<Token> {
    set t | t in chain
  }

  lemma {:induction false} DistinctElements(chain: seq<Token>)
    requires forall i, j :: 0 <= i < j < |chain| ==> chain[i] != chain[j]
    ensures |Elements(chain)| == |chain|
  {
    if chain != [] {
      var init := chain[..|chain| - 1];
      DistinctElements(init);
      assert Elements(chain) == Elements(init) + {chain[|chain| - 1]};
    }
  }

  lemma ChainIsFamily(rows: Rows, session: nat, chain: seq<Token>)
    requires Chained(rows, session, chain)
    ensures Family(rows, session) == Elements(chain)
    ensures RotatedTokens(rows, session) == Elements(chain[..|chain| - 1])
    ensures LiveTokens(rows, session) <= {chain[|chain| - 1]}
    ensures |Family(rows, session)| == |chain| && |RotatedTokens(rows, session)| == |chain| - 1
  {
    var last, older := chain[|chain| - 1], chain[..|chain| - 1];
    assert forall i :: 0 <= i < |older| ==> older[i] == chain[i];
    forall t | t in Family(rows, session)
      ensures t == last || t in older
    {
      var i :| 0 <= i < |chain| && chain[i] == t;
      if i < |chain| - 1 {
        assert older[i] == t;
      }
    }
    DistinctElements(chain);
    DistinctElements(older);
  }

  // In every run, every family is a chain in which only the newest token can be unrevoked.
  lemma OnlyTheNewestIsLive(acts: seq<Action>, session: nat)
    requires Valid(acts) && session in After(acts).chains
    ensures var rows, chain := After(acts).rows, After(acts).chains[session];
            && chain != [] && Family(rows, session) == Elements(chain)
            && LiveTokens(rows, session) <= {chain[|chain| - 1]}
            && |LiveTokens(rows, session)| <= 1
            && RotatedTokens(rows, session) == Elements(chain[..|chain| - 1])
  {
    RunsAreGood(acts);
    var rows, chain := After(acts).rows, After(acts).chains[session];
    ChainIsFamily(rows, session, chain);
    if LiveTokens(rows, session) != {} {
      assert LiveTokens(rows, session) == {chain[|chain| - 1]};
    }
  }

  // A step that rotates a token of the family.
  predicate Rotates(s: State, a: Action, session: nat)
    requires Enabled(s, a)
  {
    a.CommitRotation? && s.requests[a.id].session == session &&
    IsLive(s.rows, Rotation(s.requests[a.id], a.token).prior)
  }

  function Rotations(acts: seq<Action>, session: nat): nat
    requires Valid(acts)
  {
    if acts == [] then 0
    else
      var before := acts[..|acts| - 1];
      Rotations(before, session) + if Rotates(After(before), acts[|acts| - 1], session) then 1 else 0
  }

  lemma {:induction false} ChainGrowsByRotation(acts: seq<Action>, session: nat)
    requires Valid(acts)
    ensures session !in After(acts).chains ==> Rotations(acts, session) == 0
    ensures session in After(acts).chains ==> |After(acts).chains[session]| == 1 + Rotations(acts, session)
  {
    if acts != [] {
      var before, a := acts[..|acts| - 1], acts[|acts| - 1];
      ChainGrowsByRotation(before, session);
      assert Good(After(before)) by {
        RunsAreGood(before);
      }
      RotationGrowsChain(After(before), a, session);
    }
  }

  function Length(s: State, session: nat): nat {
    if session in s.chains then |s.chains[session]| else 0
  }

  // A request about to rotate knows its family.
  lemma RotatesAKnownFamily(s: State, id: nat)
    requires Good(s) && id in s.requests && (s.requests[id].Direct? || s.requests[id].Rotating?)
    ensures s.requests[id].session in s.chains
  {
    assert Remembers(s.rows, s.chains, s.requests[id]);
  }

  // A step makes a chain longer exactly by rotating it, or opens it with one token.
  lemma RotationGrowsChain(s: State, a: Action, session: nat)
    requires Good(s) && Enabled(s, a)
    ensures session in s.chains ==>
              Length(Next(s, a), session) == Length(s, session) + if Rotates(s, a, session) then 1 else 0
    ensures session !in s.chains ==> !Rotates(s, a, session) && Length(Next(s, a), session) <= 1
    ensures session in s.chains ==> session in Next(s, a).chains
  {
    if a.CommitRotation? {
      RotatesAKnownFamily(s, a.id);
    }
    if CommitOf(s, a).Some? {
      ExtendedChain(s.rows, s.chains, CommitOf(s, a).value, session);
    }
  }

  lemma ExtendedChain(rows: Rows, chains: Chains, c: Commit, session: nat)
    ensures session in chains && !(c.Open? && c.session == session) ==>
              session in Extend(chains, rows, c) &&
              |Extend(chains, rows, c)[session]| ==
              |chains[session]| + if c.Rotate? && c.session == session && IsLive(rows, c.prior) then 1 else 0
    ensures session !in chains && session in Extend(chains, rows, c) ==> |Extend(chains, rows, c)[session]| == 1
  {
  }

  // Tokens issued are one more than successful rotations; tokens retired by rotation equal them.
  lemma {:induction false} IssuedAndRetired(acts: seq<Action>, session: nat)
    requires Valid(acts) && session in After(acts).chains
    ensures |Family(After(acts).rows, session)| == 1 + Rotations(acts, session)
    ensures |RotatedTokens(After(acts).rows, session)| == Rotations(acts, session)
  {
    RunsAreGood(acts);
    ChainGrowsByRotation(acts, session);
    ChainIsFamily(After(acts).rows, session, After(acts).chains[session]);
  }

  // ---------------------------------------------------------------------------------------------
  // A successful refresh
  // ---------------------------------------------------------------------------------------------

  lemma RotationLeavesExactlyOne(rows: Rows, chains: Chains, c: Commit)
    requires Inv(rows, chains) && Legal(rows, chains, c) && c.Rotate? && IsLive(rows, c.prior)
    ensures var rows' := Apply(rows, c);
            && LiveTokens(rows', c.session) == {c.token}
            && forall t :: t in Family(rows', c.session) ==> rows'[t].user == c.user
  {
    assert Chained(rows, c.session, chains[c.session]);
    var chain := chains[c.session] + [c.token];
    RotationChain(rows, c.session, chains[c.session], c);
    NewestOfChain(Apply(rows, c), c.session, chain);
  }

  // A chain whose newest token is live.
  lemma NewestOfChain(rows: Rows, session: nat, chain: seq<Token>)
    requires Chained(rows, session, chain) && IsLive(rows, chain[|chain| - 1])
    ensures LiveTokens(rows, session) == {chain[|chain| - 1]}
    ensures forall t :: t in Family(rows, session) ==> rows[t].user == rows[chain[|chain| - 1]].user
  {
    ChainIsFamily(rows, session, chain);
    assert chain[|chain| - 1] in LiveTokens(rows, session);
    forall t | t in Family(rows, session)
      ensures rows[t].user == rows[chain[|chain| - 1]].user
    {
      assert t in chain;
    }
  }

  // The family is left with exactly one live token, the one returned, and the access token is
  // for the user every token of the family belongs to.
  lemma RefreshLeavesExactlyOne(acts: seq<Action>, n: nat)
    requires Valid(acts) && n < |acts| && acts[n].CommitRotation?
    requires acts[n].id in At(acts, n + 1).requests
    requires At(acts, n + 1).requests[acts[n].id].Done?
    requires At(acts, n + 1).requests[acts[n].id].outcome.Refreshed?
    ensures var outcome, rows := At(acts, n + 1).requests[acts[n].id].outcome, At(acts, n + 1).rows;
            && outcome.token in rows
            && LiveTokens(rows, rows[outcome.token].session) == {outcome.token}
            && forall t :: t in Family(rows, rows[outcome.token].session) ==> rows[t].user == outcome.user
  {
    Stepwise(acts, n);
    GoodAt(acts, n);
    RequestsMakeLegalCommits(At(acts, n), acts[n]);
    RotationLeavesExactlyOne(At(acts, n).rows, At(acts, n).chains, CommitOf(At(acts, n), acts[n]).value);
  }

  // ---------------------------------------------------------------------------------------------
  // A dead family stays dead
  // ---------------------------------------------------------------------------------------------

  ghost predicate Dead(s: State, session: nat) {
    session in s.chains && LiveTokens(s.rows, session) == {}
  }

  lemma DeadCannotRotate(s: State, a: Action, session: nat)
    requires Good(s) && Enabled(s, a) && Dead(s, session)
    ensures !Rotates(s, a, session)
  {
    if a.CommitRotation? {
      assert Remembers(s.rows, s.chains, s.requests[a.id]);
      assert Rotation(s.requests[a.id], a.token).prior !in LiveTokens(s.rows, session);
    }
  }

  lemma DeadThroughCommit(rows: Rows, chains: Chains, c: Commit, session: nat)
    requires Inv(rows, chains) && Legal(rows, chains, c)
    requires session in chains && LiveTokens(rows, session) == {}
    ensures LiveTokens(Apply(rows, c), session) == {}
  {
    forall t | t in Apply(rows, c)
      ensures t !in LiveTokens(Apply(rows, c), session)
    {
      if t in rows {
        RowsPersist(rows, chains, c, t);
        assert t !in LiveTokens(rows, session);
      } else if c.Rotate? {
        assert c.prior !in LiveTokens(rows, session);
      }
    }
  }

  lemma DeadStep(s: State, a: Action, session: nat)
    requires Good(s) && Enabled(s, a) && Dead(s, session)
    ensures Dead(Next(s, a), session) && !Rotates(s, a, session)
  {
    DeadCannotRotate(s, a, session);
    if CommitOf(s, a).Some? {
      RequestsMakeLegalCommits(s, a);
      DeadThroughCommit(s.rows, s.chains, CommitOf(s, a).value, session);
    }
  }

  lemma DeadNext(acts: seq<Action>, m: nat, session: nat)
    requires Valid(acts) && m < |acts| && Dead(At(acts, m), session)
    ensures Dead(At(acts, m + 1), session)
  {
    var s, a, s' := At(acts, m), acts[m], At(acts, m + 1);
    assert Good(s) && Enabled(s, a) && s' == Next(s, a) by {
      Stepwise(acts, m);
      GoodAt(acts, m);
    }
    DeadStep(s, a, session);
  }

  // Once no token of a family is unrevoked, none ever is again, whatever is already in flight.
  lemma {:induction false} DeadStaysDead(acts: seq<Action>, n: nat, m: nat, session: nat)
    requires Valid(acts) && n <= m <= |acts|
    requires Dead(At(acts, n), session)
    ensures Dead(At(acts, m), session)
    decreases m
  {
    if n < m {
      DeadStaysDead(acts, n, m - 1, session);
      DeadNext(acts, m - 1, session);
    }
  }

  // No step after the death rotates a token of the family.
  lemma DeadNeverRotates(acts: seq<Action>, n: nat, m: nat, session: nat)
    requires Valid(acts) && n <= m < |acts| && Dead(At(acts, n), session)
    ensures Enabled(At(acts, m), acts[m]) && !Rotates(At(acts, m), acts[m], session)
  {
    DeadStaysDead(acts, n, m, session);
    GoodAt(acts, m);
    Stepwise(acts, m);
    DeadStep(At(acts, m), acts[m], session);
  }

  ghost predicate Succeeded(s: State, id: nat, session: nat) {
    id in s.requests && s.requests[id].Done? && s.requests[id].outcome.Refreshed? &&
    s.requests[id].outcome.token in Family(s.rows, session)
  }

  // Only a step that rotates the family turns a request into a success on it.
  lemma {:induction false} SuccessIsARotation(s: State, a: Action, id: nat, session: nat)
    requires Good(s) && Enabled(s, a) && Succeeded(Next(s, a), id, session)
    ensures Rotates(s, a, session) || (Succeeded(s, id, session) && Next(s, a).requests[id] == s.requests[id])
  {
    if a.CommitRotation? && a.id == id {
      CommitSuccess(s, a, session);
    } else {
      OnlyCommitsSucceed(s, a, id);
      SuccessStays(s, a, id, session);
    }
  }

  // No other step makes a request report success.
  lemma OnlyCommitsSucceed(s: State, a: Action, id: nat)
    requires Enabled(s, a) && id in Respond(s, a) && !(a.CommitRotation? && a.id == id)
    requires Respond(s, a)[id].Done? && Respond(s, a)[id].outcome.Refreshed?
    ensures id in s.requests && s.requests[id] == Respond(s, a)[id]
  {
  }

  // A success that was there before is of the family it still is of.
  lemma SuccessStays(s: State, a: Action, id: nat, session: nat)
    requires Good(s) && Enabled(s, a) && Succeeded(Next(s, a), id, session)
    requires id in s.requests && s.requests[id] == Next(s, a).requests[id]
    ensures Succeeded(s, id, session)
  {
    var token := s.requests[id].outcome.token;
    assert token in s.rows by {
      assert Remembers(s.rows, s.chains, s.requests[id]);
    }
    if CommitOf(s, a).Some? {
      assert Legal(s.rows, s.chains, CommitOf(s, a).value) by {
        RequestsMakeLegalCommits(s, a);
      }
      FamilyWasTheSame(s.rows, s.chains, CommitOf(s, a).value, token, session);
    }
  }

  lemma FamilyWasTheSame(rows: Rows, chains: Chains, c: Commit, token: Token, session: nat)
    requires Inv(rows, chains) && Legal(rows, chains, c) && token in rows && token in Family(Apply(rows, c), session)
    ensures token in Family(rows, session)
  {
    RowsPersist(rows, chains, c, token);
  }

  lemma CommitSuccess(s: State, a: Action, session: nat)
    requires Good(s) && Enabled(s, a) && a.CommitRotation? && Succeeded(Next(s, a), a.id, session)
    ensures Rotates(s, a, session)
  {
    assert Remembers(s.rows, s.chains, s.requests[a.id]);
  }

  lemma NoNewSuccess(acts: seq<Action>, n: nat, m: nat, session: nat, id: nat)
    requires Valid(acts) && n <= m < |acts| && Dead(At(acts, n), session)
    requires Succeeded(At(acts, m + 1), id, session)
    ensures Succeeded(At(acts, m), id, session) && At(acts, m).requests[id] == At(acts, m + 1).requests[id]
  {
    var s, a, s' := At(acts, m), acts[m], At(acts, m + 1);
    assert Good(s) && Enabled(s, a) && s' == Next(s, a) by {
      Stepwise(acts, m);
      GoodAt(acts, m);
    }
    assert !Rotates(s, a, session) by {
      DeadNeverRotates(acts, n, m, session);
    }
    SuccessIsARotation(s, a, id, session);
  }

  // Every refresh that reports success on the family had already done so when the family died.
  lemma {:induction false} NoRefreshAfterDeath(acts: seq<Action>, n: nat, m: nat, session: nat, id: nat)
    requires Valid(acts) && n <= m <= |acts| && Dead(At(acts, n), session)
    requires Succeeded(At(acts, m), id, session)
    ensures Succeeded(At(acts, n), id, session) && At(acts, n).requests[id] == At(acts, m).requests[id]
    decreases m
  {
    if n < m {
      NoNewSuccess(acts, n, m - 1, session, id);
      NoRefreshAfterDeath(acts, n, m - 1, session, id);
    }
  }

  // ---------------------------------------------------------------------------------------------
  // Many tabs of one device
  // ---------------------------------------------------------------------------------------------

  // A replay by the very device that owns the token is benign exactly when its agent string is
  // non-empty and survived being cut to the stored column.
  lemma ReplayIsBenignIff(rows: Rows, token: Token, session: nat, user: int, agent: string)
    requires token in rows && rows[token] == Row(session, user, Truncate(agent), Revoked(Rotated))
    ensures AfterRowRead(rows, Presented(token, agent)) ==
            if 1 <= |agent| <= AgentColumn then Replaying(session, user, agent, 0) else Condemning(session)
  {
    if |agent| > AgentColumn {
      assert |Truncate(agent)| != |agent|;
    }
  }

  // Every login and every row read of the family carries this agent, and none is a logout.
  ghost predicate OneDevice(acts: seq<Action>, session: nat, agent: string)
    requires Valid(acts)
  {
    forall k :: 0 <= k < |acts| ==> OneDeviceStep(At(acts, k), acts[k], session, agent)
  }

  ghost predicate OneDeviceStep(s: State, a: Action, session: nat, agent: string) {
    && (a.Login? && a.session == session ==> a.agent == agent)
    && (a.ReadRow? && a.id in s.requests && (s.requests[a.id].Presented? || s.requests[a.id].Leaving?) &&
        s.requests[a.id].token in Family(s.rows, session) ==>
        s.requests[a.id].Presented? && s.requests[a.id].agent == agent)
  }

  ghost predicate DeviceRequest(r: Request, session: nat, agent: string) {
    match r
    case Direct(_, f, _, g) => f == session ==> g == agent
    case Replaying(f, _, g, _) => f == session ==> g == agent
    case Rotating(f, _, g, _, _) => f == session ==> g == agent
    case Condemning(f) => f != session
    case LeavingFamily(f) => f != session
    case _ => true
  }

  ghost predicate DeviceInv(s: State, session: nat, agent: string) {
    && (forall t :: t in Family(s.rows, session) ==> s.rows[t].agent == agent)
    && (forall id :: id in s.requests ==> DeviceRequest(s.requests[id], session, agent))
    && (session in s.chains ==> LiveTokens(s.rows, session) != {})
  }

  lemma {:induction false} DeviceStep(s: State, a: Action, session: nat, agent: string)
    requires Good(s) && Enabled(s, a) && DeviceInv(s, session, agent)
    requires OneDeviceStep(s, a, session, agent) && 1 <= |agent| <= AgentColumn
    ensures DeviceInv(Next(s, a), session, agent)
  {
    assert Truncate(agent) == agent;
    DeviceRequests(s, a, session, agent);
    if CommitOf(s, a).Some? {
      var c := CommitOf(s, a).value;
      RequestsMakeLegalCommits(s, a);
      DeviceRows(s, a, c, session, agent);
    }
  }

  lemma DeviceRequests(s: State, a: Action, session: nat, agent: string)
    requires Enabled(s, a) && DeviceInv(s, session, agent) && OneDeviceStep(s, a, session, agent) && 1 <= |agent|
    ensures forall id :: id in Respond(s, a) ==> DeviceRequest(Respond(s, a)[id], session, agent)
  {
    if !a.Login? {
      assert a.id in s.requests ==> DeviceRequest(s.requests[a.id], session, agent);
    }
  }

  lemma {:induction false} DeviceRows(s: State, a: Action, c: Commit, session: nat, agent: string)
    requires Good(s) && Enabled(s, a) && DeviceInv(s, session, agent)
    requires OneDeviceStep(s, a, session, agent) && Truncate(agent) == agent
    requires CommitOf(s, a) == Some(c) && Legal(s.rows, s.chains, c)
    ensures forall t :: t in Family(Apply(s.rows, c), session) ==> Apply(s.rows, c)[t].agent == agent
    ensures session in Extend(s.chains, s.rows, c) ==> LiveTokens(Apply(s.rows, c), session) != {}
  {
    if !a.Login? {
      assert DeviceRequest(s.requests[a.id], session, agent);
    }
    DeviceCommit(s.rows, s.chains, c, session, agent);
  }

  // A commit on behalf of the device keeps its agent on every row and some token live.
  lemma {:induction false} DeviceCommit(rows: Rows, chains: Chains, c: Commit, session: nat, agent: string)
    requires Inv(rows, chains) && Legal(rows, chains, c) && Truncate(agent) == agent
    requires forall t :: t in Family(rows, session) ==> rows[t].agent == agent
    requires session in chains ==> LiveTokens(rows, session) != {}
    requires c.session == session ==> !c.Kill? && c.agent == agent
    ensures forall t :: t in Family(Apply(rows, c), session) ==> Apply(rows, c)[t].agent == agent
    ensures session in Extend(chains, rows, c) ==> LiveTokens(Apply(rows, c), session) != {}
  {
    forall t | t in Family(Apply(rows, c), session)
      ensures Apply(rows, c)[t].agent == agent
    {
      DeviceRow(rows, chains, c, session, agent, t);
    }
    if session in chains {
      FamilyStaysLive(rows, chains, c, session);
    } else if c.Open? && c.session == session {
      assert c.token in LiveTokens(Apply(rows, c), session);
    }
  }

  lemma {:induction false} DeviceRow(rows: Rows, chains: Chains, c: Commit, session: nat, agent: string, t: Token)
    requires Inv(rows, chains) && Legal(rows, chains, c) && Truncate(agent) == agent
    requires t in Family(rows, session) ==> rows[t].agent == agent
    requires c.session == session ==> !c.Kill? && c.agent == agent
    requires t in Family(Apply(rows, c), session)
    ensures Apply(rows, c)[t].agent == agent
  {
    if t in rows {
      RowsPersist(rows, chains, c, t);
      assert t in Family(rows, session);
    }
  }

  // A live token stays live or hands over to its successor, unless its family is killed.
  lemma LiveTokenHandsOver(rows: Rows, chains: Chains, c: Commit, session: nat, t: Token) returns (next: Token)
    requires Legal(rows, chains, c) && t in LiveTokens(rows, session) && !(c.Kill? && c.session == session)
    ensures next in LiveTokens(Apply(rows, c), session)
  {
    next := if c.Rotate? && c.prior == t then c.token else t;
    assert next in Apply(rows, c);
  }

  lemma FamilyStaysLive(rows: Rows, chains: Chains, c: Commit, session: nat)
    requires Legal(rows, chains, c) && LiveTokens(rows, session) != {} && !(c.Kill? && c.session == session)
    ensures LiveTokens(Apply(rows, c), session) != {}
  {
    var t := SomeOf(LiveTokens(rows, session));
    var next := LiveTokenHandsOver(rows, chains, c, session, t);
  }

  lemma {:induction false} DeviceRuns(acts: seq<Action>, session: nat, agent: string)
    requires Valid(acts) && OneDevice(acts, session, agent) && 1 <= |agent| <= AgentColumn
    ensures DeviceInv(After(acts), session, agent)
  {
    if acts != [] {
      var n := |acts| - 1;
      var before := acts[..n];
      forall k | 0 <= k < n
        ensures OneDeviceStep(At(before, k), before[k], session, agent)
      {
        assert before[..k] == acts[..k];
        assert OneDeviceStep(At(acts, k), acts[k], session, agent);
      }
      DeviceRuns(before, session, agent);
      RunsAreGood(before);
      assert OneDeviceStep(At(acts, n), acts[n], session, agent);
      DeviceStep(After(before), acts[n], session, agent);
    }
  }

  // However old the tokens its tabs present, the family of one device keeps exactly one live
  // token in every run, and a replay that meets no competitor succeeds.
  lemma ManyTabsStayAlive(acts: seq<Action>, session: nat, agent: string)
    requires Valid(acts) && OneDevice(acts, session, agent) && 1 <= |agent| <= AgentColumn
    requires session in After(acts).chains
    ensures |LiveTokens(After(acts).rows, session)| == 1
    ensures forall id :: id in After(acts).requests ==> After(acts).requests[id] != Condemning(session)
    ensures forall id, token :: CanReplay(After(acts), id, session, token) ==> UncontendedReplay(acts, id, token)
  {
    DeviceRuns(acts, session, agent);
    OnlyTheNewestIsLive(acts, session);
    var s := After(acts);
    forall id, token | CanReplay(s, id, session, token)
      ensures UncontendedReplay(acts, id, token)
    {
      var head :| head in LiveTokens(s.rows, session);
      ReplaySucceeds(acts, id, token, head);
    }
    forall id | id in s.requests
      ensures s.requests[id] != Condemning(session)
    {
      assert DeviceRequest(s.requests[id], session, agent);
    }
  }

  // A replay of the family is about to look for its head, and the token is a fresh one for it.
  predicate CanReplay(s: State, id: nat, session: nat, token: Token) {
    id in s.requests && s.requests[id].Replaying? && s.requests[id].session == session &&
    token !in s.rows && token.subject == s.requests[id].user
  }

  // Reading the head and committing with nobody in between returns the successor.
  ghost predicate UncontendedReplay(acts: seq<Action>, id: nat, token: Token) {
    exists head :: ReplayRun(acts, id, token, head)
  }

  ghost predicate ReplayRun(acts: seq<Action>, id: nat, token: Token, head: Token) {
    var run := acts + [ReadHead(id, Some(head))] + [CommitRotation(id, token, true)];
    Valid(run) && id in After(run).requests && After(run).requests[id] == Done(Refreshed(token.subject, token))
  }

  lemma ReplaySucceeds(acts: seq<Action>, id: nat, token: Token, head: Token)
    requires Valid(acts) && id in After(acts).requests && After(acts).requests[id].Replaying?
    requires head in LiveTokens(After(acts).rows, After(acts).requests[id].session)
    requires token !in After(acts).rows && token.subject == After(acts).requests[id].user
    ensures ReplayRun(acts, id, token, head)
  {
    var read, commit := ReadHead(id, Some(head)), CommitRotation(id, token, true);
    Append(acts, read);
    var s := After(acts + [read]);
    assert s.rows == After(acts).rows && s.requests[id].Rotating?;
    Append(acts + [read], commit);
  }

  lemma Append(acts: seq<Action>, a: Action)
    requires Valid(acts) && Enabled(After(acts), a)
    ensures Valid(acts + [a]) && After(acts + [a]) == Next(After(acts), a)
  {
    assert (acts + [a])[..|acts|] == acts;
  }

  // The bounds are needed: a device whose agent string is empty or longer than the column kills
  // its own family with its second tab.
  function SecondTabRun(agent: string): seq<Action> {
    [Login(Token(0, 7), 0, 7, agent)] +
    [ArriveRefresh(0, Token(0, 7), agent)] + [ReadRow(0)] + [CommitRotation(0, Token(1, 7), true)] +
    [ArriveRefresh(1, Token(0, 7), agent)] + [ReadRow(1)] + [Revoke(1)]
  }

  lemma UnfitAgentKillsItsOwnFamily(agent: string)
    requires !(1 <= |agent| <= AgentColumn)
    ensures Valid(SecondTabRun(agent)) && OneDevice(SecondTabRun(agent), 0, agent)
    ensures Dead(After(SecondTabRun(agent)), 0)
  {
    var login := [Login(Token(0, 7), 0, 7, agent)];
    Append([], login[0]);
    DeviceAppend([], login[0], 0, agent);
    FirstTab(login, agent);
    SecondTab(login + [ArriveRefresh(0, Token(0, 7), agent)] + [ReadRow(0)] + [CommitRotation(0, Token(1, 7), true)], agent);
  }

  // The family of one device that nobody signs out has exactly one live token.
  ghost predicate StaysAlive(acts: seq<Action>, session: nat, agent: string) {
    Valid(acts) && OneDevice(acts, session, agent) && session in After(acts).chains ==>
      |LiveTokens(After(acts).rows, session)| == 1
  }

  // It always does, in every run, exactly for the agents of 1 to 255 bytes.
  lemma DevicesStayAliveIff(agent: string)
    ensures (forall acts, session :: StaysAlive(acts, session, agent)) <==> 1 <= |agent| <= AgentColumn
  {
    if 1 <= |agent| <= AgentColumn {
      forall acts, session
        ensures StaysAlive(acts, session, agent)
      {
        if Valid(acts) && OneDevice(acts, session, agent) && session in After(acts).chains {
          ManyTabsStayAlive(acts, session, agent);
        }
      }
    } else {
      UnfitAgentKillsItsOwnFamily(agent);
      assert !StaysAlive(SecondTabRun(agent), 0, agent);
    }
  }

  lemma DeviceAppend(acts: seq<Action>, a: Action, session: nat, agent: string)
    requires Valid(acts) && Enabled(After(acts), a) && OneDevice(acts, session, agent)
    requires OneDeviceStep(After(acts), a, session, agent)
    ensures Valid(acts + [a]) && OneDevice(acts + [a], session, agent)
  {
    Append(acts, a);
    var run := acts + [a];
    forall k | 0 <= k < |run|
      ensures OneDeviceStep(At(run, k), run[k], session, agent)
    {
      ValidPrefix(run, k);
      assert run[..k] == acts[..k];
      if k < |acts| {
        assert OneDeviceStep(At(acts, k), acts[k], session, agent);
      } else {
        assert acts[..k] == acts;
      }
    }
  }

  lemma FirstTab(acts: seq<Action>, agent: string)
    requires Valid(acts) && OneDevice(acts, 0, agent)
    requires After(acts) == State(map[Token(0, 7) := Row(0, 7, Truncate(agent), Live)], map[0 := [Token(0, 7)]], map[])
    ensures var run := acts + [ArriveRefresh(0, Token(0, 7), agent)] + [ReadRow(0)] + [CommitRotation(0, Token(1, 7), true)];
            && Valid(run) && OneDevice(run, 0, agent)
            && After(run).rows == map[Token(0, 7) := Row(0, 7, Truncate(agent), Revoked(Rotated)),
                                      Token(1, 7) := Row(0, 7, Truncate(agent), Live)]
            && 0 in After(run).chains && 1 !in After(run).requests
  {
    var arrive := ArriveRefresh(0, Token(0, 7), agent);
    Append(acts, arrive);
    DeviceAppend(acts, arrive, 0, agent);
    Append(acts + [arrive], ReadRow(0));
    DeviceAppend(acts + [arrive], ReadRow(0), 0, agent);
    assert After(acts + [arrive] + [ReadRow(0)]).requests[0] == Direct(Token(0, 7), 0, 7, agent);
    Append(acts + [arrive] + [ReadRow(0)], CommitRotation(0, Token(1, 7), true));
    DeviceAppend(acts + [arrive] + [ReadRow(0)], CommitRotation(0, Token(1, 7), true), 0, agent);
  }

  lemma SecondTab(acts: seq<Action>, agent: string)
    requires Valid(acts) && OneDevice(acts, 0, agent) && !(1 <= |agent| <= AgentColumn)
    requires After(acts).rows == map[Token(0, 7) := Row(0, 7, Truncate(agent), Revoked(Rotated)),
                                     Token(1, 7) := Row(0, 7, Truncate(agent), Live)]
    requires 0 in After(acts).chains && 1 !in After(acts).requests
    ensures var run := acts + [ArriveRefresh(1, Token(0, 7), agent)] + [ReadRow(1)] + [Revoke(1)];
            && Valid(run) && OneDevice(run, 0, agent) && Dead(After(run), 0)
  {
    var arrive := ArriveRefresh(1, Token(0, 7), agent);
    Append(acts, arrive);
    DeviceAppend(acts, arrive, 0, agent);
    Append(acts + [arrive], ReadRow(1));
    DeviceAppend(acts + [arrive], ReadRow(1), 0, agent);
    ReplayIsBenignIff(After(acts).rows, Token(0, 7), 0, 7, agent);
    Append(acts + [arrive] + [ReadRow(1)], Revoke(1));
    DeviceAppend(acts + [arrive] + [ReadRow(1)], Revoke(1), 0, agent);
  }

  // ---------------------------------------------------------------------------------------------
  // Long-lived streams authenticate the family, not the token
  // ---------------------------------------------------------------------------------------------

  // The user a well-signed refresh token opens a stream for, if any.
  function StreamUser(rows: Rows, token: Token): Option<int> {
    if token in rows && LiveTokens(rows, rows[token].session) != {} then Some(token.subject) else None
  }

  // Rotating a family never closes its streams; whatever leaves it dead closes all of them; and a
  // stream that stays open is the family's own user's.
  lemma StreamsFollowTheFamily(acts: seq<Action>, a: Action, token: Token)
    requires Valid(acts) && Enabled(After(acts), a) && token in After(acts).rows
    ensures var s, s' := After(acts), Next(After(acts), a);
            var session := s.rows[token].session;
            && token in s'.rows && s'.rows[token].session == session
            && (StreamUser(s'.rows, token) == None <==> Dead(s', session))
            && (StreamUser(s.rows, token).Some? && !a.Revoke? ==> StreamUser(s'.rows, token) == Some(s.rows[token].user))
            && (a.Revoke? && s.requests[a.id].session == session ==> StreamUser(s'.rows, token) == None)
  {
    var s := After(acts);
    RunsAreGood(acts);
    NextKeepsGood(s, a);
    OneUser(s.rows, s.chains, token, token);
    if CommitOf(s, a).Some? {
      RequestsMakeLegalCommits(s, a);
      RowsPersist(s.rows, s.chains, CommitOf(s, a).value, token);
      FamilyAfterCommit(s.rows, s.chains, CommitOf(s, a).value, s.rows[token].session);
    }
  }

  lemma FamilyAfterCommit(rows: Rows, chains: Chains, c: Commit, session: nat)
    requires Inv(rows, chains) && Legal(rows, chains, c)
    ensures !c.Kill? && LiveTokens(rows, session) != {} ==> LiveTokens(Apply(rows, c), session) != {}
    ensures c.Kill? && c.session == session ==> LiveTokens(Apply(rows, c), session) == {}
  {
    if !c.Kill? && LiveTokens(rows, session) != {} {
      FamilyStaysLive(rows, chains, c, session);
    }
  }
}
