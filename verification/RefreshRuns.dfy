/**
  What the refresh-token store promises over every run: a token is accepted at
  most once, replaying a spent token revokes its family for good, and a family
  never forks.
 */
module RefreshRuns {
  import opened Wrappers
  import opened RefreshTokens

  datatype Event = Event(op: Op, now: int)

  /**
    The rows together with what happened so far: the family every token was
    minted into, the tokens that were rotated, the families found reused.
   */
  datatype History = History(rows: Rows, familyOf: map<string, string>, spent: set<string>, dead: set<string>)

  const Start := History(map[], map[], {}, {})

  function Advance(h: History, op: Op, now: int, ttl: int): History {
    var (rows, reply) := Apply(h.rows, op, now, ttl);
    match op
    case Issue(_, family, raw) =>
      if reply.Granted? then h.(rows := rows, familyOf := h.familyOf[raw.value := family.value]) else h.(rows := rows)
    case Rotate(token, raw) =>
      if reply.Granted? then
        h.(rows := rows, familyOf := h.familyOf[raw.value := h.rows[token].family], spent := h.spent + {token})
      else if reply == Reuse then h.(rows := rows, dead := h.dead + {h.rows[token].family})
      else h.(rows := rows)
    case _ => h.(rows := rows)
  }

  /** The state before the n-th call. */
  function Exec(run: seq<Event>, ttl: int, n: nat): History
    requires n <= |run|
  {
    if n == 0 then Start else Advance(Exec(run, ttl, n - 1), run[n - 1].op, run[n - 1].now, ttl)
  }

  function ReplyAt(run: seq<Event>, ttl: int, i: nat): Reply
    requires i < |run|
  {
    Apply(Exec(run, ttl, i).rows, run[i].op, run[i].now, ttl).1
  }

  /** Random values never repeat: a minted token is new, and so is the family of an Issue. */
  predicate Fresh(h: History, op: Op) {
    && (op.Issue? && op.raw.Some? ==> op.raw.value !in h.familyOf)
    && (op.Rotate? && op.raw.Some? ==> op.raw.value !in h.familyOf)
    && (op.Issue? && op.family.Some? ==> op.family.value !in h.familyOf.Values)
  }

  ghost predicate FreshRun(run: seq<Event>, ttl: int) {
    forall i :: 0 <= i < |run| ==> Fresh(Exec(run, ttl, i), run[i].op)
  }

  // ---------------------------------------------------------------- the invariant

  ghost predicate RowOk(h: History, t: string)
    requires t in h.rows
  {
    && t in h.familyOf && h.familyOf[t] == h.rows[t].family
    && (t in h.spent ==> h.rows[t].consumed)
    && h.rows[t].family !in h.dead
  }

  /** Two rows of one family belong to one tenant, and at most one of them is unconsumed. */
  ghost predicate PairOk(h: History, t: string, t': string)
    requires t in h.rows && t' in h.rows
  {
    h.rows[t].family == h.rows[t'].family && t != t' ==>
      h.rows[t].tenant == h.rows[t'].tenant && (h.rows[t].consumed || h.rows[t'].consumed)
  }

  ghost predicate Inv(h: History) {
    && (forall t :: t in h.rows ==> RowOk(h, t))
    && (forall t, t' :: t in h.rows && t' in h.rows ==> PairOk(h, t, t'))
    && h.spent <= h.familyOf.Keys && h.dead <= h.familyOf.Values
  }

  lemma DropKeepsInv(h: History, rows: Rows)
    requires Inv(h) && forall t :: t in rows ==> t in h.rows && rows[t] == h.rows[t]
    ensures Inv(h.(rows := rows))
  {
    var h' := h.(rows := rows);
    forall t | t in rows ensures RowOk(h', t) { assert RowOk(h, t); }
    forall t, t' | t in rows && t' in rows ensures PairOk(h', t, t') { assert PairOk(h, t, t'); }
  }

  lemma IssueKeepsInv(h: History, op: Op, now: int, ttl: int)
    requires Inv(h) && Fresh(h, op) && op.Issue?
    ensures Inv(Advance(h, op, now, ttl))
  {
    var h' := Advance(h, op, now, ttl);
    if Apply(h.rows, op, now, ttl).1.Granted? {
      var raw := op.raw.value;
      assert raw !in h.rows;
      KeepsFamilies(h, raw, op.family.value);
      forall t | t in h'.rows ensures RowOk(h', t) { if t != raw { assert RowOk(h, t); } }
      forall t, t' | t in h'.rows && t' in h'.rows ensures PairOk(h', t, t') {
        if t != raw { assert RowOk(h, t); assert h.familyOf[t] in h.familyOf.Values; }
        if t' != raw { assert RowOk(h, t'); assert h.familyOf[t'] in h.familyOf.Values; }
        if t != raw && t' != raw { assert PairOk(h, t, t'); }
      }
    }
  }

  lemma KeepsFamilies(h: History, raw: string, family: string)
    requires raw !in h.familyOf
    ensures h.familyOf.Values <= h.familyOf[raw := family].Values
  {
    var after := h.familyOf[raw := family];
    forall f | f in h.familyOf.Values ensures f in after.Values {
      var t :| t in h.familyOf && h.familyOf[t] == f;
      assert t in after && after[t] == f;
    }
  }

  lemma RotateKeepsInv(h: History, op: Op, now: int, ttl: int)
    requires Inv(h) && Fresh(h, op) && op.Rotate?
    ensures Inv(Advance(h, op, now, ttl))
  {
    var (rows, reply) := Apply(h.rows, op, now, ttl);
    if reply.Granted? {
      GrantKeepsInv(h, op.token, op.raw.value, now + ttl);
    } else if reply == Reuse {
      var f := h.rows[op.token].family;
      DropKeepsInv(h, rows);
      assert RowOk(h, op.token) && h.familyOf[op.token] in h.familyOf.Values;
      var h' := Advance(h, op, now, ttl);
      forall t | t in h'.rows ensures RowOk(h', t) { assert RowOk(h, t); }
      forall t, t' | t in h'.rows && t' in h'.rows ensures PairOk(h', t, t') { assert PairOk(h, t, t'); }
    } else {
      DropKeepsInv(h, rows);
    }
  }

  lemma GrantKeepsInv(h: History, token: string, raw: string, expiresAt: int)
    requires Inv(h) && token in h.rows && !h.rows[token].consumed && raw !in h.familyOf
    ensures Inv(History(Succeed(h.rows, token, raw, expiresAt), h.familyOf[raw := h.rows[token].family],
                        h.spent + {token}, h.dead))
  {
    var f := h.rows[token].family;
    var h' := History(Succeed(h.rows, token, raw, expiresAt), h.familyOf[raw := f], h.spent + {token}, h.dead);
    assert RowOk(h, token);
    assert raw !in h.rows;
    KeepsFamilies(h, raw, f);
    forall t | t in h'.rows ensures RowOk(h', t) { if t != raw { assert RowOk(h, t); } }
    forall t, t' | t in h'.rows && t' in h'.rows ensures PairOk(h', t, t') {
      if t != raw { assert PairOk(h, t, token); }
      if t' != raw { assert PairOk(h, token, t'); }
      if t != raw && t' != raw { assert PairOk(h, t, t'); }
    }
  }

  lemma {:induction false} RunKeepsInv(run: seq<Event>, ttl: int, n: nat)
    requires FreshRun(run, ttl) && n <= |run|
    ensures Inv(Exec(run, ttl, n))
  {
    if n > 0 {
      RunKeepsInv(run, ttl, n - 1);
      var h, op, now := Exec(run, ttl, n - 1), run[n - 1].op, run[n - 1].now;
      assert Fresh(h, op);
      match op
      case Issue(_, _, _) => IssueKeepsInv(h, op, now, ttl);
      case Rotate(_, _) => RotateKeepsInv(h, op, now, ttl);
      case _ => DropKeepsInv(h, Apply(h.rows, op, now, ttl).0);
    }
  }

  /** What has happened stays happened. */
  lemma {:induction false} HistoryGrows(run: seq<Event>, ttl: int, m: nat, n: nat)
    requires m <= n <= |run|
    ensures Exec(run, ttl, m).spent <= Exec(run, ttl, n).spent && Exec(run, ttl, m).dead <= Exec(run, ttl, n).dead
  {
    if m < n { HistoryGrows(run, ttl, m, n - 1); }
  }

  lemma SpentToken(h: History, token: string, raw: Option<string>, now: int, ttl: int)
    requires Inv(h) && token in h.spent
    ensures !Apply(h.rows, Rotate(token, raw), now, ttl).1.Granted?
    ensures token != "" && token in h.rows && now < h.rows[token].expiresAt ==>
              Apply(h.rows, Rotate(token, raw), now, ttl).1 == Reuse
  {
    if token in h.rows { assert RowOk(h, token); }
  }

  lemma DeadFamily(h: History, family: string)
    requires Inv(h) && family in h.dead
    ensures forall t :: t in h.rows ==> h.rows[t].family != family
    ensures forall t :: t in h.familyOf && h.familyOf[t] == family ==> t !in h.rows
  {
    forall t | t in h.rows ensures h.rows[t].family != family && h.familyOf[t] != family { assert RowOk(h, t); }
  }

  predicate Rotates(run: seq<Event>, ttl: int, i: nat, token: string) {
    i < |run| && run[i].op.Rotate? && run[i].op.token == token && ReplyAt(run, ttl, i).Granted?
  }

  lemma RotatedIsSpent(run: seq<Event>, ttl: int, token: string, i: nat, j: nat)
    requires FreshRun(run, ttl) && i < j <= |run| && Rotates(run, ttl, i, token)
    ensures Inv(Exec(run, ttl, j)) && token in Exec(run, ttl, j).spent
  {
    assert token in Exec(run, ttl, i + 1).spent;
    HistoryGrows(run, ttl, i + 1, j);
    RunKeepsInv(run, ttl, j);
  }

  // ---------------------------------------------------------------- the promises

  /** Each token rotates successfully at most once. */
  lemma RotatesAtMostOnce(run: seq<Event>, ttl: int, token: string, i: nat, j: nat)
    requires FreshRun(run, ttl) && i < j && Rotates(run, ttl, i, token)
    ensures !Rotates(run, ttl, j, token)
  {
    if j < |run| && run[j].op.Rotate? {
      RotatedIsSpent(run, ttl, token, i, j);
      SpentToken(Exec(run, ttl, j), token, run[j].op.raw, run[j].now, ttl);
    }
  }

  /** Replaying a rotated token that is unexpired and still stored is answered as reuse. */
  lemma ReplayIsDetected(run: seq<Event>, ttl: int, token: string, i: nat, j: nat)
    requires FreshRun(run, ttl) && i < j < |run| && Rotates(run, ttl, i, token)
    requires run[j].op.Rotate? && run[j].op.token == token && token != ""
    requires token in Exec(run, ttl, j).rows && run[j].now < Exec(run, ttl, j).rows[token].expiresAt
    ensures ReplyAt(run, ttl, j) == Reuse
  {
    RotatedIsSpent(run, ttl, token, i, j);
    SpentToken(Exec(run, ttl, j), token, run[j].op.raw, run[j].now, ttl);
  }

  predicate MintedInto(h: History, token: string, family: string) {
    token in h.familyOf && h.familyOf[token] == family
  }

  lemma ReuseStep(h: History, op: Op, now: int, ttl: int)
    requires op.Rotate? && Apply(h.rows, op, now, ttl).1 == Reuse
    ensures op.token in h.rows && h.rows[op.token].family in Advance(h, op, now, ttl).dead
  {
  }

  lemma ReuseAt(run: seq<Event>, ttl: int, i: nat, family: string)
    requires i < |run| && run[i].op.Rotate? && ReplyAt(run, ttl, i) == Reuse
    requires run[i].op.token in Exec(run, ttl, i).rows ==> family == Exec(run, ttl, i).rows[run[i].op.token].family
    ensures family in Exec(run, ttl, i + 1).dead
  {
    ReuseStep(Exec(run, ttl, i), run[i].op, run[i].now, ttl);
  }

  lemma ReuseMarksDead(run: seq<Event>, ttl: int, i: nat, n: nat, family: string)
    requires i < n <= |run| && run[i].op.Rotate? && ReplyAt(run, ttl, i) == Reuse
    requires family == Exec(run, ttl, i).rows[run[i].op.token].family
    ensures family in Exec(run, ttl, n).dead
  {
    ReuseAt(run, ttl, i, family);
    HistoryGrows(run, ttl, i + 1, n);
  }

  /**
    Once reuse is detected the family is empty, stays empty, and no token ever
    minted into it is accepted again.
   */
  lemma ReuseKillsFamily(run: seq<Event>, ttl: int, i: nat, n: nat, family: string)
    requires FreshRun(run, ttl) && i < n <= |run| && run[i].op.Rotate? && ReplyAt(run, ttl, i) == Reuse
    requires family == Exec(run, ttl, i).rows[run[i].op.token].family
    ensures forall t :: t in Exec(run, ttl, n).rows ==> Exec(run, ttl, n).rows[t].family != family
    ensures n < |run| && run[n].op.Rotate? && MintedInto(Exec(run, ttl, n), run[n].op.token, family) ==>
              ReplyAt(run, ttl, n) == Invalid
  {
    ReuseMarksDead(run, ttl, i, n, family);
    RunKeepsInv(run, ttl, n);
    DeadFamily(Exec(run, ttl, n), family);
  }

  /** Every family has one tenant and at most one token that still rotates. */
  lemma FamilyNeverForks(run: seq<Event>, ttl: int, n: nat, t: string, t': string)
    requires FreshRun(run, ttl) && n <= |run| && t in Exec(run, ttl, n).rows && t' in Exec(run, ttl, n).rows
    requires Exec(run, ttl, n).rows[t].family == Exec(run, ttl, n).rows[t'].family
    ensures Exec(run, ttl, n).rows[t].tenant == Exec(run, ttl, n).rows[t'].tenant
    ensures !Exec(run, ttl, n).rows[t].consumed && !Exec(run, ttl, n).rows[t'].consumed ==> t == t'
  {
    RunKeepsInv(run, ttl, n);
    assert PairOk(Exec(run, ttl, n), t, t');
  }

  // ---------------------------------------------------------------- the life of a token

  /** The call may end the token: it presents it, revokes it or its tenant, or is answered as a reuse in its family. */
  predicate Ends(rows: Rows, op: Op, now: int, ttl: int, token: string)
    requires token in rows
  {
    match op
    case Issue(_, _, _) => false
    case Rotate(t, _) =>
      t == token || (t in rows && rows[t].family == rows[token].family && Apply(rows, op, now, ttl).1 == Reuse)
    case Revoke(t) => t == token
    case RevokeAll(tenant) => tenant == rows[token].tenant
  }

  /** The token the i-th call grants, if it grants one. */
  function GrantedAt(run: seq<Event>, ttl: int, i: nat): Option<string>
    requires i < |run|
  {
    var reply := ReplyAt(run, ttl, i);
    if reply.Granted? then Some(reply.raw) else None
  }

  lemma GrantStoresRow(run: seq<Event>, ttl: int, i: nat, token: string)
    requires i < |run| && GrantedAt(run, ttl, i) == Some(token)
    ensures token in Exec(run, ttl, i + 1).rows && token in Exec(run, ttl, i + 1).familyOf
    ensures var row := Exec(run, ttl, i + 1).rows[token];
            !row.consumed && row.expiresAt == run[i].now + ttl && row.tenant == ReplyAt(run, ttl, i).tenant
  {}

  lemma RowStays(h: History, op: Op, now: int, ttl: int, token: string)
    requires token in h.rows && token in h.familyOf && Fresh(h, op) && !Ends(h.rows, op, now, ttl, token)
    ensures token in Advance(h, op, now, ttl).rows && Advance(h, op, now, ttl).rows[token] == h.rows[token]
    ensures token in Advance(h, op, now, ttl).familyOf
  {}

  lemma StaysGone(h: History, op: Op, now: int, ttl: int, token: string)
    requires token !in h.rows && token in h.familyOf && Fresh(h, op)
    ensures token !in Advance(h, op, now, ttl).rows && token in Advance(h, op, now, ttl).familyOf
  {}

  lemma {:induction false} RowLives(run: seq<Event>, ttl: int, i: nat, j: nat, token: string)
    requires FreshRun(run, ttl) && i < j <= |run| && GrantedAt(run, ttl, i) == Some(token)
    requires forall n {:trigger run[n]} :: i < n < j ==>
      token in Exec(run, ttl, n).rows ==> !Ends(Exec(run, ttl, n).rows, run[n].op, run[n].now, ttl, token)
    ensures token in Exec(run, ttl, j).rows && Exec(run, ttl, j).rows[token] == Exec(run, ttl, i + 1).rows[token]
    ensures token in Exec(run, ttl, j).familyOf
  {
    if j == i + 1 {
      GrantStoresRow(run, ttl, i, token);
    } else {
      RowLives(run, ttl, i, j - 1, token);
      assert Fresh(Exec(run, ttl, j - 1), run[j - 1].op);
      assert !Ends(Exec(run, ttl, j - 1).rows, run[j - 1].op, run[j - 1].now, ttl, token);
      RowStays(Exec(run, ttl, j - 1), run[j - 1].op, run[j - 1].now, ttl, token);
    }
  }

  /**
    A granted token that nothing has ended is accepted until it expires, for the tenant it
    was granted to, and is refused from then on.
   */
  lemma TokenLives(run: seq<Event>, ttl: int, i: nat, j: nat, token: string, raw: string)
    requires FreshRun(run, ttl) && i < j < |run| && GrantedAt(run, ttl, i) == Some(token) && token != ""
    requires run[j].op == Rotate(token, Some(raw))
    requires forall n {:trigger run[n]} :: i < n < j ==>
      token in Exec(run, ttl, n).rows ==> !Ends(Exec(run, ttl, n).rows, run[n].op, run[n].now, ttl, token)
    ensures ReplyAt(run, ttl, j) == if run[j].now < run[i].now + ttl
                                    then Granted(raw, ReplyAt(run, ttl, i).tenant, run[j].now + ttl) else Invalid
  {
    GrantStoresRow(run, ttl, i, token);
    RowLives(run, ttl, i, j, token);
  }

  /** A minted token that is no longer stored never comes back. */
  lemma {:induction false} GoneForGood(run: seq<Event>, ttl: int, m: nat, n: nat, token: string)
    requires FreshRun(run, ttl) && m <= n <= |run|
    requires token in Exec(run, ttl, m).familyOf && token !in Exec(run, ttl, m).rows
    ensures token in Exec(run, ttl, n).familyOf && token !in Exec(run, ttl, n).rows
  {
    if m < n {
      GoneForGood(run, ttl, m, n - 1, token);
      assert Fresh(Exec(run, ttl, n - 1), run[n - 1].op);
      StaysGone(Exec(run, ttl, n - 1), run[n - 1].op, run[n - 1].now, ttl, token);
    }
  }

  lemma RevokeRemoves(h: History, op: Op, now: int, ttl: int, token: string)
    requires token in h.rows && token in h.familyOf && token != ""
    requires op == Revoke(token) || (op.RevokeAll? && op.tenant == h.rows[token].tenant != "")
    ensures token !in Advance(h, op, now, ttl).rows && token in Advance(h, op, now, ttl).familyOf
  {}

  /** A token that was revoked, alone or with its tenant, is refused ever after. */
  lemma RevokedIsRefused(run: seq<Event>, ttl: int, i: nat, j: nat, token: string)
    requires FreshRun(run, ttl) && i < j < |run| && token in Exec(run, ttl, i).rows && token != ""
    requires || run[i].op == Revoke(token)
             || (run[i].op.RevokeAll? && run[i].op.tenant == Exec(run, ttl, i).rows[token].tenant != "")
    requires run[j].op.Rotate? && run[j].op.token == token
    ensures ReplyAt(run, ttl, j) == Invalid
  {
    RunKeepsInv(run, ttl, i);
    assert RowOk(Exec(run, ttl, i), token);
    RevokeRemoves(Exec(run, ttl, i), run[i].op, run[i].now, ttl, token);
    GoneForGood(run, ttl, i + 1, j, token);
  }
}
