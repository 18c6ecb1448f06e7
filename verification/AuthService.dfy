/** The refresh-token methods as they run, over a token table that other requests change meanwhile.

    A caller hands each method the bursts of foreign commits that fall between its own steps.
    `World(rows, env, n)` is the table after the first n bursts had this request done nothing.
  */
module AuthService {
  import opened Wrappers
  import opened Sessions
  import opened SessionProtocol

  function ApplyAll(rows: Rows, burst: seq<Commit>): Rows
    decreases |burst|
  {
    if burst == [] then rows else ApplyAll(Apply(rows, burst[0]), burst[1..])
  }

  function World(rows: Rows, env: seq<seq<Commit>>, n: nat): Rows
    requires n <= |env|
  {
    if n == 0 then rows else ApplyAll(World(rows, env, n - 1), env[n - 1])
  }

  // The verdict of the signature and expiry check, which this model takes as given.
  datatype Signature = Genuine | Stale | Forged

  // At most one live token in the family at any time, which every run keeps.
  ghost predicate OneHead(rows: Rows, session: nat) {
    forall t, u :: t in LiveTokens(rows, session) && u in LiveTokens(rows, session) ==> t == u
  }

  ghost function Head(rows: Rows, session: nat): (head: Option<Token>)
    ensures head.None? <==> LiveTokens(rows, session) == {}
    ensures head.Some? ==> head.value in LiveTokens(rows, session)
  {
    if LiveTokens(rows, session) == {} then None
    else var t :| t in LiveTokens(rows, session); Some(t)
  }

  // Attempt k of the retry loop reads the head in world 2k and commits in world 2k + 1.

  // A competing commit retired the head between its read and the commit.
  ghost predicate Lost(rows: Rows, env: seq<seq<Commit>>, session: nat, k: nat)
    requires 2 * k + 1 <= |env|
  {
    var head := Head(World(rows, env, 2 * k), session);
    head.Some? && !IsLive(World(rows, env, 2 * k + 1), head.value)
  }

  ghost predicate Wins(rows: Rows, env: seq<seq<Commit>>, session: nat, k: nat)
    requires 2 * k + 1 <= |env|
  {
    var head := Head(World(rows, env, 2 * k), session);
    && (forall j :: 0 <= j < k ==> Lost(rows, env, session, j))
    && head.Some? && IsLive(World(rows, env, 2 * k + 1), head.value)
  }

  // The family had no live token when attempt k looked for it.
  ghost predicate Headless(rows: Rows, env: seq<seq<Commit>>, session: nat, k: nat)
    requires 2 * k <= |env|
  {
    && (forall j :: 0 <= j < k ==> Lost(rows, env, session, j))
    && Head(World(rows, env, 2 * k), session).None?
  }

  lemma {:induction false} WorldShift(rows: Rows, env: seq<seq<Commit>>, m: nat, n: nat)
    requires m + n <= |env|
    ensures World(World(rows, env, m), env[m..], n) == World(rows, env, m + n)
  {
    if n > 0 {
      WorldShift(rows, env, m, n - 1);
    }
  }

  // The three ways the loop can end exclude one another, and a win belongs to one attempt.

  lemma OneWinner(rows: Rows, env: seq<seq<Commit>>, session: nat, a: nat)
    requires |env| == 2 * Attempts - 1 && a < Attempts && Wins(rows, env, session, a)
    ensures forall k :: 0 <= k < Attempts && Wins(rows, env, session, k) ==> k == a
    ensures !Lost(rows, env, session, a)
  {
    forall k | 0 <= k < Attempts && k != a
      ensures !Wins(rows, env, session, k)
    {
      if k < a {
        assert Lost(rows, env, session, k);
      } else {
        assert !Lost(rows, env, session, a);
      }
    }
  }

  lemma NoWinnerWithoutHead(rows: Rows, env: seq<seq<Commit>>, session: nat, a: nat)
    requires |env| == 2 * Attempts - 1 && a < Attempts && Headless(rows, env, session, a)
    ensures forall k :: 0 <= k < Attempts ==> !Wins(rows, env, session, k)
  {
    forall k | 0 <= k < Attempts
      ensures !Wins(rows, env, session, k)
    {
      if k < a {
        assert Lost(rows, env, session, k);
      } else {
        assert !Lost(rows, env, session, a);
      }
    }
  }

  lemma NoWinnerWhenAllLost(rows: Rows, env: seq<seq<Commit>>, session: nat)
    requires |env| == 2 * Attempts - 1
    requires forall k :: 0 <= k < Attempts ==> Lost(rows, env, session, k)
    ensures forall k :: 0 <= k < Attempts ==> !Wins(rows, env, session, k)
  {
    forall k | 0 <= k < Attempts
      ensures !Wins(rows, env, session, k)
    {
      assert Lost(rows, env, session, k);
    }
  }

  class AuthStore {
    var rows: Rows
    var staged: Rows  // writes of the open transaction

    constructor ()
      ensures rows == map[] && staged == map[]
    {
      rows, staged := map[], map[];
    }

    // Other requests commit.
    method Interfere(burst: seq<Commit>)
      modifies this`rows
      ensures rows == ApplyAll(old(rows), burst)
    {
      var i := 0;
      while i < |burst|
        invariant 0 <= i <= |burst|
        invariant ApplyAll(rows, burst[i..]) == ApplyAll(old(rows), burst)
      {
        rows := Apply(rows, burst[i]);
        i := i + 1;
      }
    }

    method CommitTx()
      modifies this
      ensures rows == old(rows) + old(staged) && staged == map[]
    {
      rows, staged := rows + staged, map[];
    }

    method Rollback()
      modifies this`staged
      ensures staged == map[]
    {
      staged := map[];
    }

    method GetRefreshToken(token: Token) returns (row: Option<Row>)
      ensures row == if token in rows then Some(rows[token]) else None
    {
      row := if token in rows then Some(rows[token]) else None;
    }

    method GetCurrentActiveToken(session: nat) returns (head: Option<Token>)
      ensures head.None? <==> LiveTokens(rows, session) == {}
      ensures head.Some? ==> head.value in LiveTokens(rows, session)
    {
      var live := LiveTokens(rows, session);
      head := None;
      if live != {} {
        var t :| t in live;
        head := Some(t);
      }
    }

    // Retires a token in the open transaction; false when it is not live any more.
    method RotateRefreshToken(token: Token) returns (found: bool)
      modifies this`staged
      ensures found == IsLive(rows, token)
      ensures staged == if found then old(staged)[token := rows[token].(status := Revoked(Rotated))] else old(staged)
    {
      found := IsLive(rows, token);
      if found {
        staged := staged[token := rows[token].(status := Revoked(Rotated))];
      }
    }

    method RevokeSession(session: nat, reason: Reason)
      modifies this`rows
      ensures rows == Apply(old(rows), Kill(session, reason))
    {
      rows := map t | t in rows ::
        if rows[t].session == session && rows[t].status.Live? then rows[t].(status := Revoked(reason)) else rows[t];
    }

    // Inside a transaction the new row is only staged; at login it is written at once.
    method IssueRefreshToken(inTx: bool, token: Token, session: nat, user: int, agent: string)
      modifies this
      ensures var row := Row(session, user, Truncate(agent), Live);
              if inTx then rows == old(rows) && staged == old(staged)[token := row]
              else rows == old(rows)[token := row] && staged == old(staged)
    {
      var stored := agent;
      if |stored| > 255 {
        stored := stored[..255];
      }
      if inTx {
        staged := staged[token := Row(session, user, stored, Live)];
      } else {
        rows := rows[token := Row(session, user, stored, Live)];
      }
    }

    method CreateRefreshToken(token: Token, session: nat, user: int, agent: string)
      modifies this
      ensures rows == Apply(old(rows), Open(token, session, user, agent)) && staged == old(staged)
    {
      IssueRefreshToken(false, token, session, user, agent);
    }

    // One transaction of the retry loop: read the head, issue the successor, retire the head.
    method AttemptRotation(session: nat, user: int, agent: string, token: Token, burst: seq<Commit>)
      returns (head: Option<Token>, done: bool)
      requires staged == map[] && OneHead(rows, session) && token !in ApplyAll(rows, burst)
      modifies this
      ensures staged == map[] && head == Head(old(rows), session)
      ensures done == (head.Some? && IsLive(ApplyAll(old(rows), burst), head.value))
      ensures head.None? ==> rows == old(rows)
      ensures head.Some? && !done ==> rows == ApplyAll(old(rows), burst)
      ensures done ==> rows == Apply(ApplyAll(old(rows), burst), Rotate(head.value, token, session, user, agent))
    {
      head := GetCurrentActiveToken(session);
      done := false;
      if head.None? {
        Rollback();
        return;
      }
      Interfere(burst);
      IssueRefreshToken(true, token, session, user, agent);
      done := RotateRefreshToken(head.value);
      if done {
        CommitTx();
        assert rows == Apply(ApplyAll(old(rows), burst), Rotate(head.value, token, session, user, agent));
      } else {
        Rollback();
      }
    }

    // Commits exactly one rotation, of the head some attempt found, or changes nothing.  It fails
    // exactly when an attempt found no head or all three attempts lost theirs to a competitor.
    method RotateCurrentActiveToken(session: nat, user: int, agent: string, mint: seq<Token>,
                                    env: seq<seq<Commit>>, accessOk: bool)
      returns (outcome: Outcome, bursts: nat)
      requires staged == map[] && |mint| == Attempts && |env| == 2 * Attempts - 1
      requires forall n :: 0 <= n <= |env| ==> OneHead(World(rows, env, n), session)
      requires forall k, n :: 0 <= k < Attempts && 0 <= n <= |env| ==> mint[k] !in World(rows, env, n)
      modifies this
      ensures staged == map[] && bursts <= |env|
      ensures forall k :: 0 <= k < Attempts && Wins(old(rows), env, session, k) ==>
                bursts == 2 * k + 1 &&
                rows == Apply(World(old(rows), env, bursts),
                              Rotate(Head(World(old(rows), env, 2 * k), session).value, mint[k], session, user, agent)) &&
                outcome == if accessOk then Refreshed(user, mint[k]) else InternalError
      ensures outcome != NotFound ==> exists k :: 0 <= k < Attempts && Wins(old(rows), env, session, k)
      ensures outcome == NotFound ==> rows == World(old(rows), env, bursts)
      ensures outcome == NotFound ==>
                (exists k :: 0 <= k < Attempts && Headless(old(rows), env, session, k)) ||
                (forall k :: 0 <= k < 3 ==> Lost(old(rows), env, session, k))
    {
      ghost var rows0 := rows;
      bursts := 0;
      var attempt := 0;
      while attempt < Attempts
        invariant 0 <= attempt < Attempts && bursts == 2 * attempt
        invariant rows == World(rows0, env, bursts) && staged == map[]
        invariant forall j :: 0 <= j < attempt ==> Lost(rows0, env, session, j)
        decreases Attempts - attempt
      {
        assert World(rows0, env, bursts + 1) == ApplyAll(rows, env[bursts]);
        var head, done := AttemptRotation(session, user, agent, mint[attempt], env[bursts]);
        if head.None? {
          assert Headless(rows0, env, session, attempt);
          NoWinnerWithoutHead(rows0, env, session, attempt);
          return NotFound, bursts;
        }
        bursts := bursts + 1;
        if done {
          assert Wins(rows0, env, session, attempt);
          OneWinner(rows0, env, session, attempt);
          return if accessOk then Refreshed(user, mint[attempt]) else InternalError, bursts;
        }
        assert Lost(rows0, env, session, attempt);
        if attempt == Attempts - 1 {
          NoWinnerWhenAllLost(rows0, env, session);
          return NotFound, bursts;
        }
        Interfere(env[bursts]);
        bursts := bursts + 1;
        attempt := attempt + 1;
      }
      // The return after the loop is never reached.
      assert false;
      outcome := SessionExpired;
    }

    // The bursts fall before the row read, between it and the next step, and inside the loop.
    method RefreshToken(token: Token, signature: Signature, agent: string, userKnown: bool, mint: seq<Token>,
                        env: seq<seq<Commit>>, accessOk: bool)
      returns (outcome: Outcome, bursts: nat)
      requires staged == map[] && |mint| == Attempts && |env| == 2 * Attempts + 1
      requires forall n, f :: 0 <= n <= |env| ==> OneHead(World(rows, env, n), f)
      requires forall k, n :: 0 <= k < Attempts && 0 <= n <= |env| ==> mint[k] !in World(rows, env, n)
      requires SessionsStay(rows, env)
      modifies this
      ensures staged == map[] && bursts <= |env|
      ensures signature != Genuine ==>
                rows == old(rows) && outcome == if signature == Stale then SessionExpired else Unauthorized
      ensures signature == Genuine ==>
                RefreshEffect(AfterRowRead(World(old(rows), env, 1), Presented(token, agent)), userKnown, mint, env, accessOk,
                              old(rows), rows, outcome, bursts)
      ensures signature == Genuine ==>
                RowDecides(token, agent, userKnown, mint, env, accessOk, old(rows), rows, outcome, bursts)
    {
      ghost var rows0 := rows;
      bursts := 0;
      if signature == Stale {
        return SessionExpired, 0;
      }
      if signature == Forged {
        return Unauthorized, 0;
      }
      outcome, bursts := RefreshSigned(token, agent, userKnown, mint, env, accessOk);
      EffectDecides(token, agent, userKnown, mint, env, accessOk, rows0, rows, outcome, bursts);
    }

    // What a refresh does once the signature is found good.
    method RefreshSigned(token: Token, agent: string, userKnown: bool, mint: seq<Token>, env: seq<seq<Commit>>, accessOk: bool)
      returns (outcome: Outcome, bursts: nat)
      requires staged == map[] && |mint| == Attempts && |env| == 2 * Attempts + 1
      requires forall n, f :: 0 <= n <= |env| ==> OneHead(World(rows, env, n), f)
      requires forall k, n :: 0 <= k < Attempts && 0 <= n <= |env| ==> mint[k] !in World(rows, env, n)
      modifies this
      ensures staged == map[] && bursts <= |env|
      ensures RefreshEffect(AfterRowRead(World(old(rows), env, 1), Presented(token, agent)), userKnown, mint, env, accessOk,
                            old(rows), rows, outcome, bursts)
    {
      ghost var rows0 := rows;
      Interfere(env[0]);
      assert rows == World(rows0, env, 1);
      var stored := GetRefreshToken(token);
      bursts := 1;
      if stored.None? {
        return Unauthorized, bursts;
      }
      var row := stored.value;
      if row.status.Revoked? {
        if row.status.reason != Rotated {
          return SessionExpired, bursts;
        }
        Interfere(env[1]);
        assert rows == World(rows0, env, 2);
        if row.agent != "" && row.agent == agent {
          ShiftedWorlds(rows0, env, row.session, mint);
          var rest := env[2..];
          assert forall n :: 0 <= n <= |rest| ==> OneHead(World(rows, rest, n), row.session);
          assert forall k, n :: 0 <= k < Attempts && 0 <= n <= |rest| ==> mint[k] !in World(rows, rest, n);
          outcome, bursts := RotateCurrentActiveToken(row.session, row.user, agent, mint, rest, accessOk);
          WorldShift(rows0, env, 2, bursts);
          bursts := bursts + 2;
          if outcome == NotFound {
            outcome := SessionExpired;
          }
          return;
        }
        RevokeSession(row.session, Theft);
        return SessionExpired, 2;
      }
      if !userKnown {
        return NotFound, bursts;
      }
      Interfere(env[1]);
      bursts := 2;
      assert rows == World(rows0, env, 2);
      outcome := RotatePresented(token, row.session, agent, mint[0], accessOk);
    }

    // The direct rotation: successor and retirement in one transaction.
    method RotatePresented(token: Token, session: nat, agent: string, successor: Token, accessOk: bool)
      returns (outcome: Outcome)
      requires staged == map[] && successor !in rows
      modifies this
      ensures staged == map[]
      ensures var r := Direct(token, session, token.subject, agent);
              && rows == Apply(old(rows), Rotation(r, successor))
              && Done(outcome) == AfterCommit(old(rows), r, successor, accessOk)
    {
      IssueRefreshToken(true, successor, session, token.subject, agent);
      var found := RotateRefreshToken(token);
      if !found {
        Rollback();
        return NotFound;
      }
      ghost var rows0 := rows;
      CommitTx();
      assert rows == Apply(rows0, Rotate(token, successor, session, token.subject, agent));
      return if accessOk then Refreshed(token.subject, successor) else InternalError;
    }

    method Logout(token: Token, env: seq<seq<Commit>>) returns (outcome: Outcome)
      requires |env| == 2
      modifies this`rows
      ensures outcome == SignedOut
      ensures var read := World(old(rows), env, 1);
              if token !in read then rows == read
              else rows == Apply(World(old(rows), env, 2), Kill(read[token].session, LoggedOut))
    {
      ghost var rows0 := rows;
      Interfere(env[0]);
      assert rows == World(rows0, env, 1);
      var stored := GetRefreshToken(token);
      if stored.None? {
        return SignedOut;
      }
      Interfere(env[1]);
      assert rows == World(rows0, env, 2);
      RevokeSession(stored.value.session, LoggedOut);
      return SignedOut;
    }
  }

  lemma ShiftedWorlds(rows: Rows, env: seq<seq<Commit>>, session: nat, mint: seq<Token>)
    requires |env| == 2 * Attempts + 1 && |mint| == Attempts
    requires forall n, f :: 0 <= n <= |env| ==> OneHead(World(rows, env, n), f)
    requires forall k, n :: 0 <= k < Attempts && 0 <= n <= |env| ==> mint[k] !in World(rows, env, n)
    ensures forall n :: 0 <= n <= |env[2..]| ==> OneHead(World(World(rows, env, 2), env[2..], n), session)
    ensures forall k, n :: 0 <= k < Attempts && 0 <= n <= |env[2..]| ==> mint[k] !in World(World(rows, env, 2), env[2..], n)
  {
    forall n | 0 <= n <= |env[2..]|
      ensures World(World(rows, env, 2), env[2..], n) == World(rows, env, n + 2)
    {
      WorldShift(rows, env, 2, n);
    }
  }

  // The table and the answer a refresh leaves, given the phase its row read led to.
  ghost predicate RefreshEffect(phase: Request, userKnown: bool, mint: seq<Token>, env: seq<seq<Commit>>,
                                accessOk: bool, before: Rows, after: Rows, outcome: Outcome, bursts: nat)
    requires |mint| == Attempts && |env| == 2 * Attempts + 1 && bursts <= |env|
  {
    match phase
    case Direct(_, _, _, _) =>
      if userKnown then
        && after == Apply(World(before, env, 2), Rotation(phase, mint[0]))
        && Done(outcome) == AfterCommit(World(before, env, 2), phase, mint[0], accessOk)
      else outcome == NotFound && after == World(before, env, 1)
    case Condemning(session) =>
      outcome == SessionExpired && after == Apply(World(before, env, 2), Kill(session, Theft))
    case Replaying(session, user, agent, _) =>
      var rows, env' := World(before, env, 2), env[2..];
      && (outcome == SessionExpired ==>
            after == World(before, env, bursts) &&
            ((exists k :: 0 <= k < Attempts && Headless(rows, env', session, k)) ||
             (forall k :: 0 <= k < Attempts ==> Lost(rows, env', session, k))))
      && (outcome != SessionExpired ==>
            exists k :: 0 <= k < Attempts && Wins(rows, env', session, k) &&
              after == Apply(World(rows, env', 2 * k + 1),
                             Rotate(Head(World(rows, env', 2 * k), session).value, mint[k], session, user, agent)) &&
              outcome == if accessOk then Refreshed(user, mint[k]) else InternalError)
    case Done(o) => outcome == o && after == World(before, env, 1)
    case _ => false
  }

  // The row as read decides.  An unknown token, and one revoked by a logout or for theft, change
  // nothing.  A rotated token from another device, or of a device not on record, leaves no live
  // token in its family; from its own device it leaves the token it returns as the only live one,
  // or what others made of the table.  A live token is retired for its successor, unless a
  // competitor was faster.
  ghost predicate RowDecides(token: Token, agent: string, userKnown: bool, mint: seq<Token>, env: seq<seq<Commit>>,
                             accessOk: bool, before: Rows, after: Rows, outcome: Outcome, bursts: nat)
    requires |mint| == Attempts && |env| == 2 * Attempts + 1 && bursts <= |env|
  {
    var read, now := World(before, env, 1), World(before, env, 2);
    if token !in read then outcome == Unauthorized && after == read
    else
      var row := read[token];
      if row.status in {Revoked(LoggedOut), Revoked(Theft)} then outcome == SessionExpired && after == read
      else if row.status == Live then
        if !userKnown then outcome == NotFound && after == read
        else if !IsLive(now, token) then outcome == NotFound && after == now
        else
          && outcome == (if accessOk then Refreshed(token.subject, mint[0]) else InternalError)
          && LiveTokens(after, row.session) == {mint[0]} && after[mint[0]].user == token.subject
          && token in after && after[token].status == Revoked(Rotated)
      else if row.agent == "" || row.agent != agent then
        outcome == SessionExpired && LiveTokens(after, row.session) == {} && after == Apply(now, Kill(row.session, Theft))
      else
        match outcome
        case Refreshed(user, successor) =>
          accessOk && user == row.user && successor in mint && LiveTokens(after, row.session) == {successor}
        case InternalError => !accessOk
        case SessionExpired => after == World(before, env, bursts)
        case _ => false
  }

  lemma {:induction false} EffectDecides(token: Token, agent: string, userKnown: bool, mint: seq<Token>, env: seq<seq<Commit>>,
                                         accessOk: bool, before: Rows, after: Rows, outcome: Outcome, bursts: nat)
    requires |mint| == Attempts && |env| == 2 * Attempts + 1 && bursts <= |env|
    requires forall n, f :: 0 <= n <= |env| ==> OneHead(World(before, env, n), f)
    requires forall k, n :: 0 <= k < Attempts && 0 <= n <= |env| ==> mint[k] !in World(before, env, n)
    requires SessionsStay(before, env)
    requires RefreshEffect(AfterRowRead(World(before, env, 1), Presented(token, agent)), userKnown, mint, env, accessOk,
                           before, after, outcome, bursts)
    ensures RowDecides(token, agent, userKnown, mint, env, accessOk, before, after, outcome, bursts)
  {
    var read, now := World(before, env, 1), World(before, env, 2);
    if token in read {
      var row := read[token];
      if row.status == Live {
        if userKnown && IsLive(now, token) {
          assert now[token].session == row.session by {
            assert SessionsKept(World(before, env, 1), World(before, env, 1 + 1));
          }
          RotatedIsAlone(now, row.session, token, mint[0], token.subject, agent);
        }
      } else if row.status == Revoked(Rotated) && row.agent != "" && row.agent == agent {
        assert AfterRowRead(read, Presented(token, agent)) == Replaying(row.session, row.user, agent, 0);
        if outcome != SessionExpired {
          ReplayIsAlone(before, env, row.session, row.user, agent, mint, after, outcome, accessOk);
        }
      } else if row.status == Revoked(Rotated) {
        KilledIsDead(now, row.session);
      } else {
        assert row.status.reason == LoggedOut || row.status.reason == Theft;
      }
    }
  }

  lemma KilledIsDead(rows: Rows, session: nat)
    ensures LiveTokens(Apply(rows, Kill(session, Theft)), session) == {}
  {
    var left := LiveTokens(Apply(rows, Kill(session, Theft)), session);
    assert forall t :: t !in left;
  }

  lemma {:induction false} ReplayIsAlone(before: Rows, env: seq<seq<Commit>>, session: nat, user: int, agent: string,
                                         mint: seq<Token>, after: Rows, outcome: Outcome, accessOk: bool)
    requires |mint| == Attempts && |env| == 2 * Attempts + 1
    requires forall n, f :: 0 <= n <= |env| ==> OneHead(World(before, env, n), f)
    requires forall k, n :: 0 <= k < Attempts && 0 <= n <= |env| ==> mint[k] !in World(before, env, n)
    requires SessionsStay(before, env)
    requires exists k :: 0 <= k < Attempts && Wins(World(before, env, 2), env[2..], session, k) &&
               after == Apply(World(World(before, env, 2), env[2..], 2 * k + 1),
                              Rotate(Head(World(World(before, env, 2), env[2..], 2 * k), session).value, mint[k], session, user, agent)) &&
               outcome == if accessOk then Refreshed(user, mint[k]) else InternalError
    ensures outcome.Refreshed? ==>
              accessOk && outcome.user == user && outcome.token in mint && LiveTokens(after, session) == {outcome.token}
    ensures outcome.Refreshed? || (outcome == InternalError && !accessOk)
  {
    var rows, env' := World(before, env, 2), env[2..];
    var k :| 0 <= k < Attempts && Wins(rows, env', session, k) &&
      after == Apply(World(rows, env', 2 * k + 1), Rotate(Head(World(rows, env', 2 * k), session).value, mint[k], session, user, agent)) &&
      outcome == if accessOk then Refreshed(user, mint[k]) else InternalError;
    var head := Head(World(rows, env', 2 * k), session).value;
    WorldShift(before, env, 2, 2 * k);
    WorldShift(before, env, 2, 2 * k + 1);
    assert SessionsKept(World(before, env, 2 + 2 * k), World(before, env, 2 + 2 * k + 1));
    RotatedIsAlone(World(rows, env', 2 * k + 1), session, head, mint[k], user, agent);
  }

  // The successor of a family's head is the family's only live token.
  lemma RotatedIsAlone(rows: Rows, session: nat, head: Token, token: Token, user: int, agent: string)
    requires OneHead(rows, session) && token !in rows && head in LiveTokens(rows, session)
    ensures var after := Apply(rows, Rotate(head, token, session, user, agent));
            && LiveTokens(after, session) == {token} && after[token].user == user
            && head in after && after[head].status == Revoked(Rotated)
  {
    var left := LiveTokens(Apply(rows, Rotate(head, token, session, user, agent)), session);
    forall t | t in left
      ensures t == token
    {
      assert t != token ==> t in LiveTokens(rows, session);
    }
    assert token in left;
  }

  // No row goes away or moves to another family.
  ghost predicate SessionsKept(rows: Rows, later: Rows) {
    forall t :: t in rows ==> t in later && later[t].session == rows[t].session
  }

  ghost predicate SessionsStay(rows: Rows, env: seq<seq<Commit>>) {
    forall n :: 0 <= n < |env| ==> SessionsKept(World(rows, env, n), World(rows, env, n + 1))
  }

  // Bursts of the commits other requests really make.
  ghost predicate LegalBurst(rows: Rows, chains: Chains, burst: seq<Commit>)
    decreases |burst|
  {
    burst == [] ||
    (Legal(rows, chains, burst[0]) &&
     LegalBurst(Apply(rows, burst[0]), Extend(chains, rows, burst[0]), burst[1..]))
  }

  lemma {:induction false} BurstKeepsInv(rows: Rows, chains: Chains, burst: seq<Commit>)
    requires Inv(rows, chains) && LegalBurst(rows, chains, burst)
    ensures Inv(ApplyAll(rows, burst), ChainsAfter(rows, chains, burst))
    decreases |burst|
  {
    if burst != [] {
      CommitKeepsInv(rows, chains, burst[0]);
      BurstKeepsInv(Apply(rows, burst[0]), Extend(chains, rows, burst[0]), burst[1..]);
    }
  }

  ghost function ChainsAfter(rows: Rows, chains: Chains, burst: seq<Commit>): Chains
    decreases |burst|
  {
    if burst == [] then chains else ChainsAfter(Apply(rows, burst[0]), Extend(chains, rows, burst[0]), burst[1..])
  }

  // The chains after the first n bursts.
  ghost function WorldChains(rows: Rows, chains: Chains, env: seq<seq<Commit>>, n: nat): Chains
    requires n <= |env|
  {
    if n == 0 then chains
    else ChainsAfter(World(rows, env, n - 1), WorldChains(rows, chains, env, n - 1), env[n - 1])
  }

  // Each burst is legal where it falls, and none issues a token kept for this request.
  ghost predicate LegalEnv(rows: Rows, chains: Chains, env: seq<seq<Commit>>, mint: seq<Token>) {
    forall n :: 0 <= n < |env| ==>
      LegalBurst(World(rows, env, n), WorldChains(rows, chains, env, n), env[n]) && forall t :: t in mint ==> !Issues(env[n], t)
  }

  predicate Issues(burst: seq<Commit>, t: Token) {
    exists i :: 0 <= i < |burst| && !burst[i].Kill? && burst[i].token == t
  }

  lemma {:induction false} UnissuedStaysUnknown(rows: Rows, burst: seq<Commit>, t: Token)
    requires t !in rows && !Issues(burst, t)
    ensures t !in ApplyAll(rows, burst)
    decreases |burst|
  {
    if burst != [] {
      assert !burst[0].Kill? ==> burst[0].token != t;
      assert t !in Apply(rows, burst[0]);
      assert forall i :: 0 <= i < |burst[1..]| ==> burst[1..][i] == burst[i + 1];
      UnissuedStaysUnknown(Apply(rows, burst[0]), burst[1..], t);
    }
  }

  lemma {:induction false} LegalEnvKeepsInv(rows: Rows, chains: Chains, env: seq<seq<Commit>>, mint: seq<Token>, n: nat)
    requires Inv(rows, chains) && LegalEnv(rows, chains, env, mint) && n <= |env|
    ensures Inv(World(rows, env, n), WorldChains(rows, chains, env, n))
  {
    if n > 0 {
      LegalEnvKeepsInv(rows, chains, env, mint, n - 1);
      BurstKeepsInv(World(rows, env, n - 1), WorldChains(rows, chains, env, n - 1), env[n - 1]);
    }
  }

  lemma {:induction false} BurstKeepsSessions(rows: Rows, chains: Chains, burst: seq<Commit>)
    requires Inv(rows, chains) && LegalBurst(rows, chains, burst)
    ensures SessionsKept(rows, ApplyAll(rows, burst))
    decreases |burst|
  {
    if burst != [] {
      CommitKeepsInv(rows, chains, burst[0]);
      BurstKeepsSessions(Apply(rows, burst[0]), Extend(chains, rows, burst[0]), burst[1..]);
      forall t | t in rows
        ensures t in Apply(rows, burst[0]) && Apply(rows, burst[0])[t].session == rows[t].session
      {
        RowsPersist(rows, chains, burst[0], t);
      }
    }
  }

  lemma {:induction false} MintStaysUnknown(rows: Rows, chains: Chains, env: seq<seq<Commit>>, mint: seq<Token>, t: Token, n: nat)
    requires LegalEnv(rows, chains, env, mint) && n <= |env| && t in mint && t !in rows
    ensures t !in World(rows, env, n)
  {
    if n > 0 {
      MintStaysUnknown(rows, chains, env, mint, t, n - 1);
      UnissuedStaysUnknown(World(rows, env, n - 1), env[n - 1], t);
    }
  }

  // What the retry loop and a refresh presume of every world holds for whatever others do.
  lemma {:induction false} LegalEnvKeepsWorldsFit(rows: Rows, chains: Chains, env: seq<seq<Commit>>, mint: seq<Token>)
    requires Inv(rows, chains) && LegalEnv(rows, chains, env, mint)
    requires forall k :: 0 <= k < |mint| ==> mint[k] !in rows
    ensures forall n, session :: 0 <= n <= |env| ==> OneHead(World(rows, env, n), session)
    ensures forall k, n :: 0 <= k < |mint| && 0 <= n <= |env| ==> mint[k] !in World(rows, env, n)
    ensures SessionsStay(rows, env)
  {
    forall n | 0 <= n < |env|
      ensures SessionsKept(World(rows, env, n), World(rows, env, n + 1))
    {
      LegalEnvKeepsInv(rows, chains, env, mint, n);
      BurstKeepsSessions(World(rows, env, n), WorldChains(rows, chains, env, n), env[n]);
    }
    forall n, session | 0 <= n <= |env|
      ensures OneHead(World(rows, env, n), session)
    {
      LegalEnvKeepsInv(rows, chains, env, mint, n);
      ChainsHaveOneHead(World(rows, env, n), WorldChains(rows, chains, env, n), session);
    }
    forall k, n | 0 <= k < |mint| && 0 <= n <= |env|
      ensures mint[k] !in World(rows, env, n)
    {
      MintStaysUnknown(rows, chains, env, mint, mint[k], n);
    }
  }

  lemma ChainsHaveOneHead(rows: Rows, chains: Chains, session: nat)
    requires Inv(rows, chains)
    ensures OneHead(rows, session)
  {
    forall t, u | t in LiveTokens(rows, session) && u in LiveTokens(rows, session)
      ensures t == u
    {
      LiveIsNewest(rows, session, chains[session], t);
      LiveIsNewest(rows, session, chains[session], u);
    }
  }

  // Whatever legal commits others make, the table keeps one head per family.
  lemma OthersLeaveOneHead(rows: Rows, chains: Chains, burst: seq<Commit>, session: nat)
    requires Inv(rows, chains) && LegalBurst(rows, chains, burst)
    ensures OneHead(ApplyAll(rows, burst), session)
  {
    BurstKeepsInv(rows, chains, burst);
    ChainsHaveOneHead(ApplyAll(rows, burst), ChainsAfter(rows, chains, burst), session);
  }
}
