/**
  Refresh tokens with rotation on use and stolen-token detection.  The store
  keeps one row per token that is still remembered; `MemoryRefreshTokenStore`
  holds the rows in a map, the SQL stores (see SqlRefreshTokens) in a table.
  Rows are keyed by the token itself: its SHA-256 digest is taken as injective.
 */
module RefreshTokens {
  import opened Wrappers

  datatype Row = Row(tenant: string, family: string, expiresAt: int, consumed: bool)

  type Rows = map<string, Row>

  /**
    Randomness is an input: `family` and `raw` are the values rand.Read yields,
    None when it fails.
   */
  datatype Op =
    | Issue(tenant: string, family: Option<string>, raw: Option<string>)
    | Rotate(token: string, raw: Option<string>)
    | Revoke(token: string)
    | RevokeAll(tenant: string)

  datatype Reply = Granted(raw: string, tenant: string, expiresAt: int) | Invalid | Reuse | Error | Done

  // ---------------------------------------------------------------- what one call does

  function DropFamily(rows: Rows, family: string): Rows {
    map t | t in rows && rows[t].family != family :: rows[t]
  }

  function DropTenant(rows: Rows, tenant: string): Rows {
    map t | t in rows && rows[t].tenant != tenant :: rows[t]
  }

  /** Mark the presented token consumed and add its successor. */
  function Succeed(rows: Rows, token: string, raw: string, expiresAt: int): Rows
    requires token in rows
  {
    rows[token := rows[token].(consumed := true)][raw := Row(rows[token].tenant, rows[token].family, expiresAt, false)]
  }

  function Apply(rows: Rows, op: Op, now: int, ttl: int): (Rows, Reply) {
    match op
    case Issue(tenant, family, raw) =>
      if tenant == "" || family.None? || raw.None? then (rows, Error)
      else (rows[raw.value := Row(tenant, family.value, now + ttl, false)], Granted(raw.value, tenant, now + ttl))
    case Rotate(token, raw) =>
      if token == "" || token !in rows then (rows, Invalid)
      else if now >= rows[token].expiresAt then (rows - {token}, Invalid)
      else if rows[token].consumed then (DropFamily(rows, rows[token].family), Reuse)
      else if raw.None? then (rows, Error)
      else (Succeed(rows, token, raw.value, now + ttl), Granted(raw.value, rows[token].tenant, now + ttl))
    case Revoke(token) =>
      (if token == "" then rows else rows - {token}, Done)
    case RevokeAll(tenant) =>
      (if tenant == "" then rows else DropTenant(rows, tenant), Done)
  }

  class MemoryRefreshTokenStore {
    var rows: Rows
    const ttl: int

    constructor (ttl: int)
      ensures rows == map[] && (ttl > 0 ==> this.ttl == ttl)
    {
      rows := map[];
      // DefaultRefreshTokenTTL: thirty days in nanoseconds
      this.ttl := if ttl <= 0 then 2_592_000_000_000_000 else ttl;
    }

    method IssueToken(tenant: string, family: Option<string>, raw: Option<string>, now: int) returns (reply: Reply)
      modifies this
      ensures (rows, reply) == Apply(old(rows), Issue(tenant, family, raw), now, ttl)
    {
      if tenant == "" {
        return Error;
      }
      if family.None? {
        return Error;
      }
      if raw.None? {
        return Error;
      }
      var expiresAt := now + ttl;
      rows := rows[raw.value := Row(tenant, family.value, expiresAt, false)];
      return Granted(raw.value, tenant, expiresAt);
    }

    method RotateToken(token: string, raw: Option<string>, now: int) returns (reply: Reply)
      modifies this
      ensures (rows, reply) == Apply(old(rows), Rotate(token, raw), now, ttl)
    {
      if token == "" {
        return Invalid;
      }
      if token !in rows {
        return Invalid;
      }
      var row := rows[token];
      if !(now < row.expiresAt) {
        rows := rows - {token};
        return Invalid;
      }
      if row.consumed {
        RevokeFamilyLocked(row.family);
        return Reuse;
      }
      if raw.None? {
        return Error;
      }
      var expiresAt := now + ttl;
      rows := rows[token := row.(consumed := true)];
      rows := rows[raw.value := Row(row.tenant, row.family, expiresAt, false)];
      return Granted(raw.value, row.tenant, expiresAt);
    }

    method RevokeToken(token: string)
      modifies this
      ensures rows == Apply(old(rows), Revoke(token), 0, ttl).0
    {
      if token == "" {
        return;
      }
      rows := rows - {token};
    }

    method RevokeAllForTenant(tenant: string)
      modifies this
      ensures rows == Apply(old(rows), RevokeAll(tenant), 0, ttl).0
    {
      if tenant == "" {
        return;
      }
      var todo := rows.Keys;
      while todo != {}
        invariant todo <= old(rows).Keys
        invariant rows == map t | t in old(rows) && (t in todo || old(rows)[t].tenant != tenant) :: old(rows)[t]
        decreases |todo|
      {
        var t :| t in todo;
        todo := todo - {t};
        if rows[t].tenant == tenant {
          rows := rows - {t};
        }
      }
    }

    method RevokeFamilyLocked(family: string)
      modifies this
      ensures rows == DropFamily(old(rows), family)
    {
      var todo := rows.Keys;
      while todo != {}
        invariant todo <= old(rows).Keys
        invariant rows == map t | t in old(rows) && (t in todo || old(rows)[t].family != family) :: old(rows)[t]
        decreases |todo|
      {
        var t :| t in todo;
        todo := todo - {t};
        if rows[t].family == family {
          rows := rows - {t};
        }
      }
    }
  }
}
