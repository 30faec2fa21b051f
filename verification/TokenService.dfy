/** The refresh-token service and its callers in the auth service, changing the stored table in place. */
module TokenService {
  import opened Wrappers
  import opened Tokens

  class TokenStore {
    var table: map<Text, Token>
    const ttl: nat
    ghost var lineages: map<Text, Lineage>
    ghost var clock: int

    constructor (ttl: nat)
      ensures Valid() && Now() == State(map[], map[], ttl, 0)
    {
      this.ttl := ttl;
      table, lineages, clock := map[], map[], 0;
      new;
      EmptyInv(Now());
    }

    ghost function Now(): State
      reads this
    {
      State(table, lineages, ttl, clock)
    }

    /** Families are chains: every call relies on it and keeps it. */
    ghost predicate Valid()
      reads this
    {
      Inv(Now())
    }

    method IssueForLogin(user: Text, family: Text, id: Text, secret: Text, now: int) returns (refreshToken: Text)
      requires Valid() && Possible(Now(), Login(user, family, id, secret, now))
      modifies this
      ensures Valid()
      ensures Now() == Issue(old(Now()), user, family, id, secret, now) && refreshToken == TokenText(id, secret)
    {
      StepKeeps(Now(), Login(user, family, id, secret, now));
      refreshToken := IssueRow(user, family, id, secret, now);
    }

    /** The row alone; when it replaces another, the caller revokes that one. */
    method IssueRow(user: Text, family: Text, id: Text, secret: Text, now: int) returns (refreshToken: Text)
      modifies this
      ensures Now() == Issue(old(Now()), user, family, id, secret, now) && refreshToken == TokenText(id, secret)
    {
      var expiresAt := now + ttl;
      lineages := Issue(Now(), user, family, id, secret, now).lineages;
      clock := now;
      table := table[id := Token(user, family, secret, false, None, expiresAt)];
      refreshToken := id + "." + secret;
    }

    /** A revoked token that proves possession takes its whole family down; a live one is replaced. */
    method RotateToken(presented: Text, user: Text, id: Text, secret: Text, now: int) returns (r: Result<Text, Outcome>)
      requires Valid() && clock <= now && Plain(id) && Plain(secret) && NeverIssued(Now(), id)
      requires Load(table, presented).Some? ==> table[Load(table, presented).value].userId == user
      modifies this
      ensures Valid()
      ensures var (after, outcome) := Rotate(old(Now()), presented, user, id, secret, now);
              && Now() == after
              && r == if outcome.Issued? then Ok(TokenText(id, secret)) else Err(outcome)
      ensures r == Err(Reused) <==> Proves(old(Now()), presented) && old(table)[IdPart(presented)].revoked
      ensures r == Err(Reused) ==> IdPart(presented) in table && Dead(Now(), table[IdPart(presented)].familyId)
    {
      RotateKeeps(Now(), presented, user, id, secret, now);
      NeverIssuedNotStored(Now(), id);
      var found := Load(table, presented);
      if found.None? {
        clock := now;
        return Err(UnknownToken);
      }
      var record := table[found.value];
      if record.revoked {
        assert InLineage(Now(), found.value, record.familyId);
        RevokeWholeFamily(record.familyId);
        clock := now;
        return Err(Reused);
      }
      if record.expiresAt <= now {
        clock := now;
        return Err(Expired);
      }
      var next := IssueRow(user, record.familyId, id, secret, now);
      TextSplits(id, secret);
      record := record.(revoked := true, replacedBy := Some(IdPart(next)));
      table := table[found.value := record];
      return Ok(next);
    }

    /** Logging out: with the live token of a family, nothing of the family is accepted any more. */
    method RevokeToken(presented: Text)
      requires Valid()
      modifies this`table
      ensures Valid() && Now() == Revoke(old(Now()), presented)
      ensures var found := Load(old(table), presented);
              found.Some? && !old(table)[found.value].revoked ==> Dead(Now(), old(table)[found.value].familyId)
      ensures table.Keys == old(table).Keys
      ensures forall id :: id in table && id != IdPart(presented) ==> table[id] == old(table)[id]
    {
      StepKeeps(Now(), Logout(presented));
      var found := Load(table, presented);
      if found.Some? && !table[found.value].revoked {
        LogoutKills(Now(), presented);
        table := table[found.value := table[found.value].(revoked := true)];
      }
    }

    /** The family is dead afterwards, and no token of another family is touched. */
    method RevokeWholeFamily(family: Text)
      requires Valid()
      modifies this`table
      ensures Valid() && Now() == Tokens.RevokeFamily(old(Now()), family)
      ensures family in lineages ==> Dead(Now(), family)
      ensures table.Keys == old(table).Keys
      ensures forall id :: id in table && table[id].familyId != family ==> table[id] == old(table)[id]
    {
      ghost var after := Tokens.RevokeFamily(Now(), family);
      StepKeeps(Now(), RevokingFamily(family));
      table := map id | id in table :: if table[id].familyId == family then table[id].(revoked := true) else table[id];
      assert table == after.table;
      assert Now() == after;
    }

    /** Every family of the user is dead afterwards, and no token of another user is touched. */
    method RevokeAllForUser(user: Text)
      requires Valid()
      modifies this`table
      ensures Valid() && Now() == RevokeUser(old(Now()), user)
      ensures forall f :: f in lineages && lineages[f].owner == user ==> Dead(Now(), f)
      ensures table.Keys == old(table).Keys
      ensures forall id :: id in table && table[id].userId != user ==> table[id] == old(table)[id]
    {
      StepKeeps(Now(), PasswordChange(user));
      forall f | f in lineages && lineages[f].owner == user ensures Dead(RevokeUser(Now(), user), f) {
        PasswordChangeKills(Now(), user, f);
      }
      ghost var after := RevokeUser(Now(), user);
      table := map id | id in table :: if table[id].userId == user then table[id].(revoked := true) else table[id];
      assert table == after.table;
      assert Now() == after;
    }

    method PurgeExpired(now: int) returns (removed: nat)
      requires Valid() && clock <= now
      modifies this
      ensures Valid() && Now() == Purge(old(Now()), now)
      ensures removed == |old(table)| - |table|
      ensures forall id :: id in old(table) ==> (id in table <==> now <= old(table)[id].expiresAt)
    {
      ghost var after := Purge(Now(), now);
      PurgeIs(Now(), now);
      var kept := table - set id | id in table && table[id].expiresAt < now;
      assert kept == after.table;
      removed := |table| - |kept|;
      table, clock := kept, now;
      assert Now() == after;
    }

    /** AuthService.refresh: it succeeds exactly with the accepted last token of a family of an active user. */
    method RefreshSession(presented: Text, active: set<Text>, id: Text, secret: Text, now: int)
      returns (r: Result<Text, Outcome>)
      requires Valid() && Possible(Now(), Refreshing(presented, active, id, secret, now))
      modifies this
      ensures Valid()
      ensures var (after, outcome) := Refresh(old(Now()), presented, active, id, secret, now);
              && Now() == after
              && r == if outcome.Issued? then Ok(TokenText(id, secret)) else Err(outcome)
      ensures r.Ok? <==>
              exists f :: f in old(lineages) && AcceptedLast(old(Now()), f, presented, active, now)
    {
      StepKeeps(Now(), Refreshing(presented, active, id, secret, now));
      RefreshSucceedsIff(Now(), presented, active, id, secret, now);
      if presented == "" {
        clock := now;
        return Err(Unauthorized);
      }
      var user := PeekUser(table, presented);
      if user.None? || user.value !in active {
        clock := now;
        return Err(Unauthorized);
      }
      r := RotateToken(presented, user.value, id, secret, now);
    }
  }

  lemma PurgeIs(st: State, now: int)
    requires Inv(st) && st.clock <= now
    ensures Inv(Purge(st, now)) && |Purge(st, now).table| <= |st.table|
    ensures forall id :: id in st.table ==> (id in Purge(st, now).table <==> now <= st.table[id].expiresAt)
  {
    PurgeKeeps(st, now);
    KeptAtMost(st.table, Purge(st, now).table);
  }

  lemma KeptAtMost<V>(m: map<Text, V>, kept: map<Text, V>)
    requires forall k :: k in kept ==> k in m
    ensures |kept| <= |m|
  {
    SubsetSize(kept.Keys, m.Keys);
    assert |kept.Keys| == |kept| && |m.Keys| == |m|;
  }

  lemma {:induction false} SubsetSize(a: set<Text>, b: set<Text>)
    requires a <= b
    ensures |a| <= |b|
  {
    if a != {} {
      var x :| x in a;
      SubsetSize(a - {x}, b - {x});
    }
  }
}
