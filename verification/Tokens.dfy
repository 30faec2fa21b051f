/**
 Refresh-token families: rotation, reuse detection, revocation and purge. Each service call is one
 atomic step. Beside the stored table the model keeps a lineage per family, the ids issued in it in
 order, which nothing in the program stores.
 */
module Tokens {
  import opened Wrappers

  type Text = string

  /** A stored token. Verifying the hash of a secret is modelled as comparing the secret. */
  datatype Token = Token(
    userId: Text, familyId: Text, secret: Text, revoked: bool, replacedBy: Option<Text>, expiresAt: int)

  datatype Lineage = Lineage(owner: Text, ids: seq<Text>)

  /** `clock` is the latest instant seen. */
  datatype State = State(table: map<Text, Token>, lineages: map<Text, Lineage>, ttl: nat, clock: int)

  // ----- The text form <id>.<secret> -----

  function UpToDot(s: Text): Text {
    if s == "" || s[0] == '.' then "" else [s[0]] + UpToDot(s[1..])
  }

  function AfterDot(s: Text): Text {
    if s == "" then "" else if s[0] == '.' then s[1..] else AfterDot(s[1..])
  }

  /** presented.split('.')[0] and presented.split('.')[1], the second empty when there is no dot. */
  function IdPart(presented: Text): Text { UpToDot(presented) }

  function SecretPart(presented: Text): Text { UpToDot(AfterDot(presented)) }

  predicate Plain(s: Text) {
    s != "" && '.' !in s
  }

  function TokenText(id: Text, secret: Text): Text {
    id + "." + secret
  }

  lemma {:induction false} SplitAtDot(id: Text, rest: Text)
    requires '.' !in id
    ensures UpToDot(id + "." + rest) == id && AfterDot(id + "." + rest) == rest
  {
    var s := id + "." + rest;
    if id == "" {
      assert s[0] == '.' && s[1..] == rest;
    } else {
      assert s[0] == id[0] && s[1..] == id[1..] + "." + rest;
      SplitAtDot(id[1..], rest);
    }
  }

  lemma {:induction false} NoDot(s: Text)
    requires '.' !in s
    ensures UpToDot(s) == s
  {
    if s != "" {
      NoDot(s[1..]);
    }
  }

  /** The text handed out splits back into the id and the secret. */
  lemma TextSplits(id: Text, secret: Text)
    requires Plain(id) && Plain(secret)
    ensures IdPart(TokenText(id, secret)) == id && SecretPart(TokenText(id, secret)) == secret
  {
    SplitAtDot(id, secret);
    NoDot(secret);
  }

  // ----- The calls -----

  /** parseAndLoad: the id of the stored token the presented text proves possession of. */
  function Load(table: map<Text, Token>, presented: Text): Option<Text> {
    var id, secret := IdPart(presented), SecretPart(presented);
    if id == "" || secret == "" || id !in table || table[id].secret != secret then None else Some(id)
  }

  /** peekUserId. */
  function PeekUser(table: map<Text, Token>, presented: Text): Option<Text> {
    var id := IdPart(presented);
    if id == "" || id !in table then None else Some(table[id].userId)
  }

  function IdsOf(st: State, family: Text): seq<Text> {
    if family in st.lineages then st.lineages[family].ids else []
  }

  /** issue: a new row in the family. */
  function Issue(st: State, user: Text, family: Text, id: Text, secret: Text, now: int): State {
    var owner := if family in st.lineages then st.lineages[family].owner else user;
    st.(table := st.table[id := Token(user, family, secret, false, None, now + st.ttl)],
        lineages := st.lineages[family := Lineage(owner, IdsOf(st, family) + [id])],
        clock := now)
  }

  function RevokedWhere(table: map<Text, Token>, hit: Token -> bool): map<Text, Token> {
    map id | id in table :: if hit(table[id]) then table[id].(revoked := true) else table[id]
  }

  function RevokeFamily(st: State, family: Text): State {
    st.(table := RevokedWhere(st.table, (t: Token) => t.familyId == family))
  }

  function RevokeUser(st: State, user: Text): State {
    st.(table := RevokedWhere(st.table, (t: Token) => t.userId == user))
  }

  /** revoke: logging out with a token. */
  function Revoke(st: State, presented: Text): State {
    var found := Load(st.table, presented);
    if found.None? || st.table[found.value].revoked then st
    else st.(table := st.table[found.value := st.table[found.value].(revoked := true)])
  }

  datatype Outcome = Unauthorized | UnknownToken | Reused | Expired | Issued(id: Text)

  /** rotate, with the claims' user and the new id and secret drawn for the occasion. */
  function Rotate(st: State, presented: Text, user: Text, id: Text, secret: Text, now: int): (State, Outcome) {
    var found := Load(st.table, presented);
    if found.None? then (st.(clock := now), UnknownToken)
    else
      var record := st.table[found.value];
      if record.revoked then (RevokeFamily(st, record.familyId).(clock := now), Reused)
      else if record.expiresAt <= now then (st.(clock := now), Expired)
      else
        var issued := Issue(st, user, record.familyId, id, secret, now);
        (issued.(table := issued.table[found.value := record.(revoked := true, replacedBy := Some(id))]), Issued(id))
  }

  /** AuthService.refresh: the claims come from the record's own user, who must be active. */
  function Refresh(st: State, presented: Text, active: set<Text>, id: Text, secret: Text, now: int): (State, Outcome) {
    var user := PeekUser(st.table, presented);
    if presented == "" || user.None? || user.value !in active then (st.(clock := now), Unauthorized)
    else Rotate(st, presented, user.value, id, secret, now)
  }

  /** purgeExpired. */
  function Purge(st: State, now: int): State {
    st.(table := st.table - (set id | id in st.table && st.table[id].expiresAt < now), clock := now)
  }

  datatype Event =
    | Login(user: Text, family: Text, id: Text, secret: Text, now: int)
    | Refreshing(presented: Text, active: set<Text>, id: Text, secret: Text, now: int)
    | Logout(presented: Text)
    | RevokingFamily(family: Text)
    | PasswordChange(user: Text)
    | Purging(now: int)

  ghost predicate NeverIssued(st: State, id: Text) {
    forall f :: f in st.lineages ==> id !in st.lineages[f].ids
  }

  /** The clock does not go back, and families, ids and secrets come from a source of new, dot-free texts. */
  ghost predicate Possible(st: State, ev: Event) {
    match ev
    case Login(_, family, id, secret, now) =>
      st.clock <= now && family !in st.lineages && Plain(id) && NeverIssued(st, id) && Plain(secret)
    case Refreshing(_, _, id, secret, now) =>
      st.clock <= now && Plain(id) && NeverIssued(st, id) && Plain(secret)
    case Purging(now) => st.clock <= now
    case _ => true
  }

  function Step(st: State, ev: Event): State {
    match ev
    case Login(user, family, id, secret, now) => Issue(st, user, family, id, secret, now)
    case Refreshing(presented, active, id, secret, now) => Refresh(st, presented, active, id, secret, now).0
    case Logout(presented) => Revoke(st, presented)
    case RevokingFamily(family) => RevokeFamily(st, family)
    case PasswordChange(user) => RevokeUser(st, user)
    case Purging(now) => Purge(st, now)
  }

  function Run(st: State, events: seq<Event>): State
    decreases |events|
  {
    if events == [] then st else Run(Step(st, events[0]), events[1..])
  }

  ghost predicate PossibleRun(st: State, events: seq<Event>)
    decreases |events|
  {
    events == [] || (Possible(st, events[0]) && PossibleRun(Step(st, events[0]), events[1..]))
  }

  // ----- The invariant: families are chains -----

  /** The stored token at one place of its family's lineage. */
  ghost predicate LinkOk(st: State, f: Text, i: nat)
    requires f in st.lineages && i < |st.lineages[f].ids|
  {
    var ids := st.lineages[f].ids;
    ids[i] in st.table ==>
      var t := st.table[ids[i]];
      && t.familyId == f && t.userId == st.lineages[f].owner && t.expiresAt <= st.clock + st.ttl
      && (if i + 1 < |ids| then t.revoked && t.replacedBy == Some(ids[i + 1]) else t.replacedBy == None)
  }

  /** An older token of a family is gone or expires no later than the younger one, which is then still there. */
  ghost predicate OrderOk(st: State, ids: seq<Text>, i: nat, j: nat)
    requires i < j < |ids|
  {
    && ids[i] != ids[j]
    && (ids[i] in st.table ==> ids[j] in st.table && st.table[ids[i]].expiresAt <= st.table[ids[j]].expiresAt)
  }

  ghost predicate ChainOk(st: State, f: Text)
    requires f in st.lineages
  {
    var ids := st.lineages[f].ids;
    && (forall i :: 0 <= i < |ids| ==> LinkOk(st, f, i))
    && (forall i, j :: 0 <= i < j < |ids| ==> OrderOk(st, ids, i, j))
  }

  ghost predicate Inv(st: State) {
    && (forall f :: f in st.lineages ==> ChainOk(st, f))
    && (forall id :: id in st.table ==> InLineage(st, id, st.table[id].familyId))
    && (forall f, g, id :: InLineage(st, id, f) && InLineage(st, id, g) ==> f == g)
  }

  ghost predicate InLineage(st: State, id: Text, f: Text) {
    f in st.lineages && id in st.lineages[f].ids
  }

  // ----- Keeping the invariant -----

  /** Revoking tokens or moving the clock forward keeps the chains. */
  ghost predicate OnlyRevokes(st: State, after: State) {
    && after.lineages == st.lineages && after.ttl == st.ttl && st.clock <= after.clock
    && after.table.Keys == st.table.Keys
    && forall id :: id in st.table ==>
         after.table[id] == st.table[id] || after.table[id] == st.table[id].(revoked := true)
  }

  lemma RevokingKeeps(st: State, after: State)
    requires Inv(st) && OnlyRevokes(st, after)
    ensures Inv(after)
  {
    forall f | f in after.lineages ensures ChainOk(after, f) {
      assert ChainOk(st, f);
      var ids := st.lineages[f].ids;
      forall i | 0 <= i < |ids| ensures LinkOk(after, f, i) {
        assert LinkOk(st, f, i);
      }
      forall i, j | 0 <= i < j < |ids| ensures OrderOk(after, ids, i, j) {
        assert OrderOk(st, ids, i, j);
      }
    }
    forall id | id in after.table ensures InLineage(after, id, after.table[id].familyId) {
      assert InLineage(st, id, st.table[id].familyId);
    }
    forall f, g, id | InLineage(after, id, f) && InLineage(after, id, g) ensures f == g {
      assert InLineage(st, id, f) && InLineage(st, id, g);
    }
  }

  /** Expiry does not decrease along a chain, so a purge takes a prefix of it and no link is left dangling. */
  lemma PurgeKeeps(st: State, now: int)
    requires Inv(st) && st.clock <= now
    ensures Inv(Purge(st, now))
  {
    var after := Purge(st, now);
    forall f | f in after.lineages ensures ChainOk(after, f) {
      assert ChainOk(st, f);
      var ids := st.lineages[f].ids;
      forall i | 0 <= i < |ids| ensures LinkOk(after, f, i) {
        assert LinkOk(st, f, i);
      }
      forall i, j | 0 <= i < j < |ids| ensures OrderOk(after, ids, i, j) {
        assert OrderOk(st, ids, i, j);
      }
    }
    forall id | id in after.table ensures InLineage(after, id, after.table[id].familyId) {
      assert InLineage(st, id, st.table[id].familyId);
    }
    forall f, g, id | InLineage(after, id, f) && InLineage(after, id, g) ensures f == g {
      assert InLineage(st, id, f) && InLineage(st, id, g);
    }
  }

  /** The tables after the family's last token is replaced by a new one; a first token replaces none. */
  ghost predicate Extends(st: State, after: State, f: Text, user: Text, id: Text, secret: Text, now: int) {
    var ids := IdsOf(st, f);
    && st.clock <= now == after.clock && after.ttl == st.ttl && NeverIssued(st, id)
    && after.lineages == st.lineages[f := Lineage(user, ids + [id])]
    && (f in st.lineages ==> st.lineages[f].owner == user && ids != [] && ids[|ids| - 1] in st.table)
    && after.table ==
         if ids == [] then st.table[id := Token(user, f, secret, false, None, now + st.ttl)]
         else
           var last := ids[|ids| - 1];
           if last !in st.table then st.table
           else st.table[id := Token(user, f, secret, false, None, now + st.ttl)]
                        [last := st.table[last].(revoked := true, replacedBy := Some(id))]
  }

  lemma ExtendsChain(st: State, after: State, f: Text, user: Text, id: Text, secret: Text, now: int)
    requires Inv(st) && id !in st.table && Extends(st, after, f, user, id, secret, now)
    ensures ChainOk(after, f)
  {
    var ids, longer := IdsOf(st, f), IdsOf(st, f) + [id];
    if f in st.lineages {
      assert ChainOk(st, f);
    }
    forall i | 0 <= i < |longer| ensures LinkOk(after, f, i) {
      if i < |ids| {
        assert LinkOk(st, f, i);
        assert i < |ids| - 1 ==> OrderOk(st, ids, i, |ids| - 1);
      }
    }
    forall i, j | 0 <= i < j < |longer| ensures OrderOk(after, longer, i, j) {
      assert LinkOk(st, f, i);
      if j < |ids| {
        assert OrderOk(st, ids, i, j);
      }
    }
  }

  lemma ExtendsOthers(st: State, after: State, f: Text, user: Text, id: Text, secret: Text, now: int, g: Text)
    requires Inv(st) && id !in st.table && Extends(st, after, f, user, id, secret, now) && g in st.lineages && g != f
    ensures ChainOk(after, g)
  {
    var ids := st.lineages[g].ids;
    assert ChainOk(st, g);
    forall i | 0 <= i < |ids|
      ensures ids[i] in after.table <==> ids[i] in st.table
      ensures ids[i] in st.table ==> after.table[ids[i]] == st.table[ids[i]]
    {
      assert InLineage(st, ids[i], g) && !InLineage(st, ids[i], f);
    }
    forall i | 0 <= i < |ids| ensures LinkOk(after, g, i) {
      assert LinkOk(st, g, i);
    }
    forall i, j | 0 <= i < j < |ids| ensures OrderOk(after, ids, i, j) {
      assert OrderOk(st, ids, i, j);
    }
  }

  lemma ExtendsKeeps(st: State, after: State, f: Text, user: Text, id: Text, secret: Text, now: int)
    requires Inv(st) && id !in st.table && Extends(st, after, f, user, id, secret, now)
    ensures Inv(after)
  {
    forall g | g in after.lineages ensures ChainOk(after, g) {
      if g == f {
        ExtendsChain(st, after, f, user, id, secret, now);
      } else {
        ExtendsOthers(st, after, f, user, id, secret, now, g);
      }
    }
    forall k | k in after.table ensures InLineage(after, k, after.table[k].familyId) {
      if k != id {
        assert InLineage(st, k, st.table[k].familyId);
      }
    }
    forall g, h, k | InLineage(after, k, g) && InLineage(after, k, h) ensures g == h {
      if k != id {
        assert InLineage(st, k, g) && InLineage(st, k, h);
      }
    }
  }

  lemma NeverIssuedNotStored(st: State, id: Text)
    requires Inv(st) && NeverIssued(st, id)
    ensures id !in st.table
  {
    forall k | k in st.table ensures k != id {
      assert InLineage(st, k, st.table[k].familyId);
    }
  }

  /** An unrevoked token is the last of its family. */
  lemma LiveIsLast(st: State, id: Text)
    requires Inv(st) && id in st.table && !st.table[id].revoked
    ensures var f := st.table[id].familyId;
            && f in st.lineages && st.lineages[f].owner == st.table[id].userId
            && st.lineages[f].ids != [] && st.lineages[f].ids[|st.lineages[f].ids| - 1] == id
  {
    var f := st.table[id].familyId;
    assert InLineage(st, id, f) && ChainOk(st, f);
    var i :| 0 <= i < |st.lineages[f].ids| && st.lineages[f].ids[i] == id;
    assert LinkOk(st, f, i);
  }

  lemma RotateKeeps(st: State, presented: Text, user: Text, id: Text, secret: Text, now: int)
    requires Inv(st) && st.clock <= now && NeverIssued(st, id)
    requires Load(st.table, presented).Some? ==> st.table[Load(st.table, presented).value].userId == user
    ensures Inv(Rotate(st, presented, user, id, secret, now).0)
  {
    var found := Load(st.table, presented);
    var after := Rotate(st, presented, user, id, secret, now).0;
    if found.Some? && !st.table[found.value].revoked && st.table[found.value].expiresAt > now {
      LiveIsLast(st, found.value);
      NeverIssuedNotStored(st, id);
      ExtendsKeeps(st, after, st.table[found.value].familyId, user, id, secret, now);
    } else {
      RevokingKeeps(st, after);
    }
  }

  /** Every possible call keeps the families chains. */
  lemma StepKeeps(st: State, ev: Event)
    requires Inv(st) && Possible(st, ev)
    ensures Inv(Step(st, ev)) && st.clock <= Step(st, ev).clock
  {
    match ev
    case Login(user, family, id, secret, now) =>
      NeverIssuedNotStored(st, id);
      ExtendsKeeps(st, Step(st, ev), family, user, id, secret, now);
    case Refreshing(presented, active, id, secret, now) =>
      if Refresh(st, presented, active, id, secret, now).1.Unauthorized? {
        RevokingKeeps(st, Step(st, ev));
      } else {
        RotateKeeps(st, presented, PeekUser(st.table, presented).value, id, secret, now);
      }
    case Purging(now) => PurgeKeeps(st, now);
    case _ => RevokingKeeps(st, Step(st, ev));
  }

  lemma {:induction false} RunKeeps(st: State, events: seq<Event>)
    requires Inv(st) && PossibleRun(st, events)
    ensures Inv(Run(st, events))
    decreases |events|
  {
    if events != [] {
      StepKeeps(st, events[0]);
      RunKeeps(Step(st, events[0]), events[1..]);
    }
  }

  lemma EmptyInv(st: State)
    requires st.table == map[] && st.lineages == map[]
    ensures Inv(st)
  {}

  /** At most one token of a family is unrevoked. */
  lemma OneLivePerFamily(st: State, a: Text, b: Text)
    requires Inv(st) && a in st.table && b in st.table && st.table[a].familyId == st.table[b].familyId
    requires !st.table[a].revoked && !st.table[b].revoked
    ensures a == b
  {
    LiveIsLast(st, a);
    LiveIsLast(st, b);
  }

  /** No stored replacedBy dangles: it names a stored token of the same family and user that expires no earlier. */
  lemma NoDanglingLink(st: State, id: Text)
    requires Inv(st) && id in st.table && st.table[id].replacedBy.Some?
    ensures var next := st.table[id].replacedBy.value;
            && next in st.table && next != id && st.table[id].revoked
            && st.table[next].familyId == st.table[id].familyId && st.table[next].userId == st.table[id].userId
            && st.table[id].expiresAt <= st.table[next].expiresAt
  {
    var f := st.table[id].familyId;
    assert InLineage(st, id, f) && ChainOk(st, f);
    var ids := st.lineages[f].ids;
    var i :| 0 <= i < |ids| && ids[i] == id;
    assert LinkOk(st, f, i);
    assert OrderOk(st, ids, i, i + 1);
    assert LinkOk(st, f, i + 1);
  }

  /** A purge takes the oldest tokens of a family first: what survives is the end of the chain. */
  lemma PurgeTakesPrefix(st: State, f: Text, now: int, i: nat, j: nat)
    requires Inv(st) && f in st.lineages && i < j < |st.lineages[f].ids|
    ensures var ids, left := st.lineages[f].ids, Purge(st, now).table;
            ids[j] in st.table && ids[j] !in left ==> ids[i] !in left
  {
    assert ChainOk(st, f) && OrderOk(st, st.lineages[f].ids, i, j);
  }

  /** Both hold over every run from an empty table. */
  lemma OneLiveOverRuns(st: State, events: seq<Event>, a: Text, b: Text)
    requires st.table == map[] && st.lineages == map[] && PossibleRun(st, events)
    requires var t := Run(st, events).table;
             a in t && b in t && t[a].familyId == t[b].familyId && !t[a].revoked && !t[b].revoked
    ensures a == b
  {
    EmptyInv(st);
    RunKeeps(st, events);
    OneLivePerFamily(Run(st, events), a, b);
  }

  lemma NoDanglingOverRuns(st: State, events: seq<Event>, id: Text)
    requires st.table == map[] && st.lineages == map[] && PossibleRun(st, events)
    requires id in Run(st, events).table && Run(st, events).table[id].replacedBy.Some?
    ensures var t := Run(st, events).table;
            var next := t[id].replacedBy.value;
            && next in t && next != id && t[id].revoked && t[next].familyId == t[id].familyId
            && t[next].userId == t[id].userId && t[id].expiresAt <= t[next].expiresAt
  {
    EmptyInv(st);
    RunKeeps(st, events);
    NoDanglingLink(Run(st, events), id);
  }

  /** A purge keeps exactly the tokens that have not expired before the instant, as they are. */
  lemma PurgeLeaves(st: State, now: int, id: Text)
    ensures id in Purge(st, now).table <==> id in st.table && now <= st.table[id].expiresAt
    ensures id in Purge(st, now).table ==> Purge(st, now).table[id] == st.table[id]
  {}

  // ----- Dead families -----

  /** A family that has been used and has no unrevoked token left. */
  ghost predicate Dead(st: State, f: Text) {
    f in st.lineages && forall id :: id in st.table && st.table[id].familyId == f ==> st.table[id].revoked
  }

  /** The text presents some token of family f. */
  ghost predicate PresentsMember(st: State, f: Text, presented: Text) {
    f in st.lineages && IdPart(presented) in st.lineages[f].ids
  }

  lemma MemberOfFamily(st: State, f: Text, id: Text)
    requires Inv(st) && InLineage(st, id, f) && id in st.table
    ensures st.table[id].familyId == f && st.table[id].userId == st.lineages[f].owner
  {
    var i :| 0 <= i < |st.lineages[f].ids| && st.lineages[f].ids[i] == id;
    assert ChainOk(st, f) && LinkOk(st, f, i);
  }

  /** No member of a dead family is accepted. */
  lemma DeadRefuses(st: State, f: Text, presented: Text, active: set<Text>, id: Text, secret: Text, now: int)
    requires Inv(st) && Dead(st, f) && PresentsMember(st, f, presented)
    ensures !Refresh(st, presented, active, id, secret, now).1.Issued?
  {
    if IdPart(presented) in st.table {
      MemberOfFamily(st, f, IdPart(presented));
    }
  }

  /** A dead family stays dead, and gets no new members, whatever is called. */
  lemma StepKeepsDead(st: State, f: Text, ev: Event)
    requires Inv(st) && Possible(st, ev) && Dead(st, f)
    ensures Dead(Step(st, ev), f) && Step(st, ev).lineages[f] == st.lineages[f]
  {
    if ev.Refreshing? {
      var found := Load(st.table, ev.presented);
      if Refresh(st, ev.presented, ev.active, ev.id, ev.secret, ev.now).1.Issued? {
        LiveIsLast(st, found.value);
        assert st.table[found.value].familyId != f;
      }
    }
  }

  lemma {:induction false} RunKeepsDead(st: State, f: Text, events: seq<Event>)
    requires Inv(st) && PossibleRun(st, events) && Dead(st, f)
    ensures Inv(Run(st, events)) && Dead(Run(st, events), f) && Run(st, events).lineages[f] == st.lineages[f]
    decreases |events|
  {
    if events != [] {
      StepKeeps(st, events[0]);
      StepKeepsDead(st, f, events[0]);
      RunKeepsDead(Step(st, events[0]), f, events[1..]);
    }
  }

  /** Once a family is dead no continuation ever accepts one of its tokens again. */
  lemma DeadForever(st: State, f: Text, events: seq<Event>, presented: Text, active: set<Text>, id: Text,
                    secret: Text, now: int)
    requires Inv(st) && PossibleRun(st, events) && Dead(st, f) && PresentsMember(st, f, presented)
    ensures !Refresh(Run(st, events), presented, active, id, secret, now).1.Issued?
  {
    RunKeepsDead(st, f, events);
    DeadRefuses(Run(st, events), f, presented, active, id, secret, now);
  }

  /** Presenting a revoked token with its right secret is reuse and kills its family. */
  lemma ReuseKills(st: State, presented: Text, user: Text, id: Text, secret: Text, now: int)
    requires Inv(st) && Proves(st, presented) && st.table[IdPart(presented)].revoked
    ensures Rotate(st, presented, user, id, secret, now).1.Reused?
    ensures Dead(Rotate(st, presented, user, id, secret, now).0, st.table[IdPart(presented)].familyId)
    ensures PresentsMember(st, st.table[IdPart(presented)].familyId, presented)
  {
    assert InLineage(st, IdPart(presented), st.table[IdPart(presented)].familyId);
  }

  /** Logging out with the live token kills its family. */
  lemma LogoutKills(st: State, presented: Text)
    requires Inv(st) && Load(st.table, presented).Some? && !st.table[IdPart(presented)].revoked
    ensures Dead(Revoke(st, presented), st.table[IdPart(presented)].familyId)
  {
    var id := IdPart(presented);
    LiveIsLast(st, id);
    forall k | k in st.table && st.table[k].familyId == st.table[id].familyId && k != id ensures st.table[k].revoked {
      if !st.table[k].revoked {
        OneLivePerFamily(st, k, id);
      }
    }
  }

  lemma RevokeFamilyKills(st: State, f: Text)
    requires f in st.lineages
    ensures Dead(RevokeFamily(st, f), f)
  {}

  /** Changing the password kills every family of the user. */
  lemma PasswordChangeKills(st: State, user: Text, f: Text)
    requires Inv(st) && f in st.lineages && st.lineages[f].owner == user
    ensures Dead(RevokeUser(st, user), f)
  {
    forall id | id in st.table && st.table[id].familyId == f ensures st.table[id].userId == user {
      assert InLineage(st, id, f);
      MemberOfFamily(st, f, id);
    }
  }

  /**
   After a password change no token issued to the user before, nor a descendant of one, is accepted in
   any continuation.
   */
  lemma PasswordChangeLocksOut(st: State, user: Text, f: Text, events: seq<Event>, presented: Text, active: set<Text>,
                               id: Text, secret: Text, now: int)
    requires Inv(st) && f in st.lineages && st.lineages[f].owner == user && PresentsMember(st, f, presented)
    requires PossibleRun(RevokeUser(st, user), events)
    ensures !Refresh(Run(RevokeUser(st, user), events), presented, active, id, secret, now).1.Issued?
  {
    StepKeeps(st, PasswordChange(user));
    PasswordChangeKills(st, user, f);
    DeadForever(RevokeUser(st, user), f, events, presented, active, id, secret, now);
  }

  /** A refresh succeeds exactly with the unexpired last token of a live family of an active user. */
  lemma RefreshSucceedsIff(st: State, presented: Text, active: set<Text>, id: Text, secret: Text, now: int)
    requires Inv(st)
    ensures Refresh(st, presented, active, id, secret, now).1.Issued? <==>
            exists f :: f in st.lineages && AcceptedLast(st, f, presented, active, now)
  {
    var shown := IdPart(presented);
    if Refresh(st, presented, active, id, secret, now).1.Issued? {
      LiveIsLast(st, shown);
      assert AcceptedLast(st, st.table[shown].familyId, presented, active, now);
    }
    if f :| f in st.lineages && AcceptedLast(st, f, presented, active, now) {
      assert InLineage(st, shown, f);
      MemberOfFamily(st, f, shown);
    }
  }

  // ----- What a refresh and a logout do -----

  /** The text names a stored token and carries its secret. */
  predicate Proves(st: State, presented: Text) {
    var id, secret := IdPart(presented), SecretPart(presented);
    id != "" && secret != "" && id in st.table && st.table[id].secret == secret
  }

  /** The text names a stored token of an active user. */
  predicate NamesActive(st: State, presented: Text, active: set<Text>) {
    var id := IdPart(presented);
    id != "" && id in st.table && st.table[id].userId in active
  }

  /** Which outcome a refresh has, by what is presented: reuse is any revoked token with its right secret. */
  lemma RefreshDecides(st: State, presented: Text, active: set<Text>, id: Text, secret: Text, now: int)
    ensures var outcome := Refresh(st, presented, active, id, secret, now).1;
            && (outcome == Unauthorized <==> !NamesActive(st, presented, active))
            && (outcome == UnknownToken <==> NamesActive(st, presented, active) && !Proves(st, presented))
            && (outcome == Reused <==>
                  && NamesActive(st, presented, active) && Proves(st, presented)
                  && st.table[IdPart(presented)].revoked)
            && (outcome == Expired <==>
                  && NamesActive(st, presented, active) && Proves(st, presented)
                  && !st.table[IdPart(presented)].revoked && st.table[IdPart(presented)].expiresAt <= now)
            && (outcome.Issued? ==> outcome == Issued(id))
  {}

  /**
   What a refresh leaves: a refused text changes no token, reuse revokes the tokens of the family and touches no
   other, and a success replaces the presented token by one new token of the same user and family.
   */
  lemma RefreshLeaves(st: State, presented: Text, active: set<Text>, id: Text, secret: Text, now: int)
    requires id !in st.table
    ensures var (after, outcome) := Refresh(st, presented, active, id, secret, now);
            var shown := IdPart(presented);
            && after.clock == now
            && (outcome.Unauthorized? || outcome.UnknownToken? || outcome.Expired? ==> after.table == st.table)
            && (outcome.Reused? ==>
                  && after.table.Keys == st.table.Keys
                  && forall k :: k in st.table ==>
                       after.table[k] == if st.table[k].familyId == st.table[shown].familyId
                                         then st.table[k].(revoked := true) else st.table[k])
            && (outcome.Issued? ==>
                  && after.table.Keys == st.table.Keys + {id}
                  && (forall k :: k in st.table && k != shown ==> after.table[k] == st.table[k])
                  && after.table[shown] == st.table[shown].(revoked := true, replacedBy := Some(id))
                  && after.table[id] ==
                     Token(st.table[shown].userId, st.table[shown].familyId, secret, false, None, now + st.ttl))
  {}

  /** A revoked token of an active user, presented with its secret, is reuse and kills its family. */
  lemma ReplayKills(st: State, presented: Text, active: set<Text>, id: Text, secret: Text, now: int)
    requires Inv(st) && NamesActive(st, presented, active) && Proves(st, presented) && st.table[IdPart(presented)].revoked
    ensures var (after, outcome) := Refresh(st, presented, active, id, secret, now);
            outcome == Reused && Dead(after, st.table[IdPart(presented)].familyId)
  {
    RefreshDecides(st, presented, active, id, secret, now);
    ReuseKills(st, presented, st.table[IdPart(presented)].userId, id, secret, now);
  }

  /**
   Over runs: once a rotated token that is still stored is presented again with its secret, no token of its
   family is ever accepted, the one that replaced it included.
   */
  lemma ReplayIsFatal(st: State, replay: Event, events: seq<Event>, shown: Text, active: set<Text>, id: Text,
                      secret: Text, now: int)
    requires Inv(st) && replay.Refreshing? && Possible(st, replay)
    requires NamesActive(st, replay.presented, replay.active) && Proves(st, replay.presented)
    requires st.table[IdPart(replay.presented)].replacedBy.Some? || st.table[IdPart(replay.presented)].revoked
    requires PossibleRun(Step(st, replay), events)
    requires PresentsMember(Run(Step(st, replay), events), st.table[IdPart(replay.presented)].familyId, shown)
    ensures !Refresh(Run(Step(st, replay), events), shown, active, id, secret, now).1.Issued?
  {
    var f := st.table[IdPart(replay.presented)].familyId;
    if st.table[IdPart(replay.presented)].replacedBy.Some? {
      NoDanglingLink(st, IdPart(replay.presented));
    }
    ReplayKills(st, replay.presented, replay.active, replay.id, replay.secret, replay.now);
    StepKeeps(st, replay);
    RunKeepsDead(Step(st, replay), f, events);
    DeadRefuses(Run(Step(st, replay), events), f, shown, active, id, secret, now);
  }

  /** A logout revokes the token it is given, if the text proves it, and touches no other. */
  lemma RevokeLeaves(st: State, presented: Text)
    ensures var after := Revoke(st, presented);
            && after.lineages == st.lineages && after.clock == st.clock && after.table.Keys == st.table.Keys
            && (forall k :: k in st.table && k != IdPart(presented) ==> after.table[k] == st.table[k])
            && (Proves(st, presented) ==>
                  after.table[IdPart(presented)] == st.table[IdPart(presented)].(revoked := true))
            && (!Proves(st, presented) ==> after.table == st.table)
  {}

  ghost predicate AcceptedLast(st: State, f: Text, presented: Text, active: set<Text>, now: int)
    requires f in st.lineages
  {
    var ids := st.lineages[f].ids;
    && ids != [] && ids[|ids| - 1] == IdPart(presented) && IdPart(presented) in st.table && IdPart(presented) != ""
    && SecretPart(presented) != "" && st.table[IdPart(presented)].secret == SecretPart(presented)
    && !st.table[IdPart(presented)].revoked && now < st.table[IdPart(presented)].expiresAt
    && st.lineages[f].owner in active
  }

  /** The token handed out by a login or a refresh is accepted next, until it expires, while its user is active. */
  lemma IssuedIsAccepted(st: State, ev: Event, active: set<Text>, id: Text, secret: Text, now: int)
    requires Inv(st) && Possible(st, ev)
    requires ev.Login? || (ev.Refreshing? && Refresh(st, ev.presented, ev.active, ev.id, ev.secret, ev.now).1.Issued?)
    requires now < ev.now + st.ttl
    requires active >= (if ev.Login? then {ev.user} else ev.active)
    ensures Refresh(Step(st, ev), TokenText(ev.id, ev.secret), active, id, secret, now).1 == Issued(id)
  {
    TextSplits(ev.id, ev.secret);
    NeverIssuedNotStored(st, ev.id);
  }
}
