/** Refresh-token session families as an interleaved protocol.

    Login opens a family; a refresh issues a successor and retires the presented token in one
    commit; replaying a rotated token either moves the live token forward (same device) or kills
    the family (other device); logout kills it.  The row read and the commit are separate steps,
    so any number of other requests may act between them.
  */
module Sessions {
  import opened Wrappers

  // A signed refresh token.  `id` stands for its random part, `subject` is the user it names.
  // Hashing is injective, so a row is keyed by the token itself.
  datatype Token = Token(id: nat, subject: int)

  datatype Reason = Rotated | LoggedOut | Theft

  datatype Status = Live | Revoked(reason: Reason)

  datatype Row = Row(session: nat, user: int, agent: string, status: Status)

  type Rows = map<Token, Row>

  const AgentColumn: nat := 255

  const Attempts: nat := 3

  // The stored agent is cut to its column; a string is a sequence of bytes here.
  function Truncate(agent: string): (stored: string)
    ensures stored <= agent && |stored| == if |agent| > 255 then 255 else |agent|
  {
    if |agent| > AgentColumn then agent[..AgentColumn] else agent
  }

  predicate IsLive(rows: Rows, t: Token) {
    t in rows && rows[t].status.Live?
  }

  function Family(rows: Rows, session: nat): set<Token> {
    set t | t in rows && rows[t].session == session
  }

  function LiveTokens(rows: Rows, session: nat): set<Token> {
    set t | t in rows && rows[t].session == session && rows[t].status.Live?
  }

  function RotatedTokens(rows: Rows, session: nat): set<Token> {
    set t | t in rows && rows[t].session == session && rows[t].status == Revoked(Rotated)
  }

  // ---------------------------------------------------------------------------------------------
  // Commits: everything that ever changes the token table
  // ---------------------------------------------------------------------------------------------

  datatype Commit =
    | Open(token: Token, session: nat, user: int, agent: string)
    | Rotate(prior: Token, token: Token, session: nat, user: int, agent: string)
    | Kill(session: nat, reason: Reason)

  // A rotation whose old token is no longer live is rolled back; a kill only touches live rows.
  function Apply(rows: Rows, c: Commit): Rows {
    match c
    case Open(token, session, user, agent) =>
      rows[token := Row(session, user, Truncate(agent), Live)]
    case Rotate(prior, token, session, user, agent) =>
      if IsLive(rows, prior) then
        rows[prior := rows[prior].(status := Revoked(Rotated))][token := Row(session, user, Truncate(agent), Live)]
      else
        rows
    case Kill(session, reason) =>
      map t | t in rows ::
        if rows[t].session == session && rows[t].status.Live? then rows[t].(status := Revoked(reason)) else rows[t]
  }

  type Chains = map<nat, seq<Token>>

  // The tokens of each family in the order they were issued.
  function Extend(chains: Chains, rows: Rows, c: Commit): Chains {
    match c
    case Open(token, session, _, _) => chains[session := [token]]
    case Rotate(prior, token, session, _, _) =>
      if IsLive(rows, prior) && session in chains then chains[session := chains[session] + [token]] else chains
    case Kill(_, _) => chains
  }

  // What the code guarantees about the arguments of each commit: new tokens and session ids are
  // fresh, a successor belongs to the family and the user of the token it replaces.
  ghost predicate Legal(rows: Rows, chains: Chains, c: Commit) {
    match c
    case Open(token, session, user, _) =>
      token !in rows && session !in chains && token.subject == user
    case Rotate(prior, token, session, user, _) =>
      token !in rows && token.subject == user &&
      prior in rows && rows[prior].session == session && rows[prior].user == user
    case Kill(_, reason) => reason != Rotated
  }

  // One family: a linear chain, all of one user, in which every token but the newest was rotated
  // away and the newest is live or was killed.
  ghost predicate Chained(rows: Rows, session: nat, chain: seq<Token>) {
    && chain != []
    && (forall i :: 0 <= i < |chain| ==> chain[i] in rows && rows[chain[i]].session == session)
    && (forall i :: 0 <= i < |chain| ==> chain[i].subject == rows[chain[i]].user == rows[chain[0]].user)
    && (forall i, j :: 0 <= i < j < |chain| ==> chain[i] != chain[j])
    && (forall t :: t in rows && rows[t].session == session ==> t in chain)
    && (forall i :: 0 <= i < |chain| - 1 ==> rows[chain[i]].status == Revoked(Rotated))
    && rows[chain[|chain| - 1]].status != Revoked(Rotated)
  }

  ghost predicate Inv(rows: Rows, chains: Chains) {
    && (forall t :: t in rows ==> rows[t].session in chains)
    && (forall s :: s in chains ==> Chained(rows, s, chains[s]))
  }

  // A family whose rows are untouched stays a chain.
  lemma ChainFrame(rows: Rows, rows': Rows, s: nat, chain: seq<Token>)
    requires Chained(rows, s, chain)
    requires forall t :: t in rows && rows[t].session == s ==> t in rows' && rows'[t] == rows[t]
    requires forall t :: t in rows' && rows'[t].session == s ==> t in rows && rows[t].session == s
    ensures Chained(rows', s, chain)
  {
    assert forall i :: 0 <= i < |chain| ==> rows'[chain[i]] == rows[chain[i]];
  }

  // The only live token of a chain is its newest.
  lemma LiveIsNewest(rows: Rows, s: nat, chain: seq<Token>, t: Token)
    requires Chained(rows, s, chain)
    requires IsLive(rows, t) && rows[t].session == s
    ensures t == chain[|chain| - 1]
  {
    var i :| 0 <= i < |chain| && chain[i] == t;
  }

  // What a rotation does to the rows of the chain.
  lemma RotatedRows(rows: Rows, s: nat, chain: seq<Token>, c: Commit)
    requires Chained(rows, s, chain) && c.Rotate? && c.token !in rows
    requires c.prior == chain[|chain| - 1] && IsLive(rows, c.prior)
    ensures var rows' := Apply(rows, c);
            && c.token in rows' && rows'[c.token] == Row(c.session, c.user, Truncate(c.agent), Live)
            && c.prior in rows' && rows'[c.prior] == rows[c.prior].(status := Revoked(Rotated))
            && forall i :: 0 <= i < |chain| - 1 ==> chain[i] in rows' && rows'[chain[i]] == rows[chain[i]]
  {
    assert forall i :: 0 <= i < |chain| - 1 ==> chain[i] != c.prior;
  }

  lemma RotationChain(rows: Rows, s: nat, chain: seq<Token>, c: Commit)
    requires Chained(rows, s, chain)
    requires c.Rotate? && c.session == s && c.token !in rows && c.token.subject == c.user
    requires IsLive(rows, c.prior) && rows[c.prior].session == s && rows[c.prior].user == c.user
    ensures Chained(Apply(rows, c), s, chain + [c.token])
  {
    var rows', chain' := Apply(rows, c), chain + [c.token];
    LiveIsNewest(rows, s, chain, c.prior);
    RotatedRows(rows, s, chain, c);
    assert forall i :: 0 <= i < |chain| ==> chain'[i] == chain[i];
    forall t | t in rows' && rows'[t].session == s
      ensures t in chain'
    {
      RotatedFamily(rows, s, chain, c, t);
    }
  }

  lemma RotatedFamily(rows: Rows, s: nat, chain: seq<Token>, c: Commit, t: Token)
    requires Chained(rows, s, chain) && c.Rotate? && c.prior in rows
    requires t in Apply(rows, c) && Apply(rows, c)[t].session == s
    ensures t in chain + [c.token]
  {
    assert t != c.token ==> t in chain;
    assert (chain + [c.token])[|chain|] == c.token;
  }

  lemma KillChain(rows: Rows, s: nat, chain: seq<Token>, c: Commit)
    requires Chained(rows, s, chain)
    requires c.Kill? && c.session == s && c.reason != Rotated
    ensures Chained(Apply(rows, c), s, chain)
  {
    var rows' := Apply(rows, c);
    assert forall i :: 0 <= i < |chain| ==> chain[i] in rows' && rows'[chain[i]].user == rows[chain[i]].user;
  }

  // A commit on another family, or a rotation that is rolled back, leaves a family a chain.
  lemma UnconcernedChain(rows: Rows, s: nat, chain: seq<Token>, c: Commit)
    requires Chained(rows, s, chain)
    requires c.session != s || (c.Rotate? && !IsLive(rows, c.prior))
    requires c.Open? || c.Rotate? ==> c.token !in rows
    requires c.Rotate? && IsLive(rows, c.prior) ==> rows[c.prior].session == c.session
    ensures Chained(Apply(rows, c), s, chain)
  {
    ChainFrame(rows, Apply(rows, c), s, chain);
  }

  lemma OpenChain(rows: Rows, chains: Chains, c: Commit)
    requires Inv(rows, chains) && Legal(rows, chains, c) && c.Open?
    ensures Chained(Apply(rows, c), c.session, [c.token])
  {
  }

  lemma {:induction false} CommitKeepsChain(rows: Rows, chains: Chains, c: Commit, s: nat)
    requires Inv(rows, chains) && Legal(rows, chains, c)
    requires s in Extend(chains, rows, c)
    ensures Chained(Apply(rows, c), s, Extend(chains, rows, c)[s])
  {
    if c.session != s || (c.Rotate? && !IsLive(rows, c.prior)) {
      assert s in chains && Extend(chains, rows, c)[s] == chains[s];
      UnconcernedChain(rows, s, chains[s], c);
    } else if c.Open? {
      OpenChain(rows, chains, c);
    } else if c.Rotate? {
      RotationChain(rows, s, chains[s], c);
    } else {
      KillChain(rows, s, chains[s], c);
    }
  }

  // Every legal commit keeps every family a chain.
  lemma {:induction false} CommitKeepsInv(rows: Rows, chains: Chains, c: Commit)
    requires Inv(rows, chains) && Legal(rows, chains, c)
    ensures Inv(Apply(rows, c), Extend(chains, rows, c))
  {
    forall s | s in Extend(chains, rows, c)
      ensures Chained(Apply(rows, c), s, Extend(chains, rows, c)[s])
    {
      CommitKeepsChain(rows, chains, c, s);
    }
    RowsHaveChains(rows, chains, c);
  }

  lemma RowsHaveChains(rows: Rows, chains: Chains, c: Commit)
    requires Inv(rows, chains) && Legal(rows, chains, c)
    ensures forall t :: t in Apply(rows, c) ==> Apply(rows, c)[t].session in Extend(chains, rows, c)
  {
    forall t | t in Apply(rows, c)
      ensures Apply(rows, c)[t].session in Extend(chains, rows, c)
    {
      if t in rows {
        assert rows[t].session in chains;
      } else if c.Rotate? {
        assert rows[c.prior].session in chains;
      }
    }
  }
}
