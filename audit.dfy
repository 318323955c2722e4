/** The v0.14 audit trail (`registrar_auditoria`) and the permission guard
    (`requer_permissao`) that the dashboard screens sit behind. The audit
    file is modelled as the list it holds; the clock is a parameter. */
module Audit {
  import opened Common
  import opened Users

  /** The trail keeps the most recent 1000 entries. */
  const Limit: nat := 1000

  datatype AuditEntry = AuditEntry(timestamp: string, user: string, action: string, detail: string)

  /** Trimming before appending one entry trims to the same list as
      appending to the untrimmed one. */
  lemma KeepLastAppend<T>(s: seq<T>, e: T, n: nat)
    ensures KeepLast(KeepLast(s, n) + [e], n) == KeepLast(s + [e], n)
  {
    var k := KeepLast(s, n);
    if |s| > n && n > 0 {
      assert (k + [e])[1..] == (s + [e])[|s| + 1 - n..];
    }
  }

  /** The trail after recording `es` one by one. */
  function RecordAll(log: seq<AuditEntry>, es: seq<AuditEntry>): seq<AuditEntry>
    decreases |es|
  {
    if es == [] then log else RecordAll(KeepLast(log + [es[0]], Limit), es[1..])
  }

  /** However many entries are recorded, the trail is the newest 1000 of the
      whole history, in order. */
  lemma {:induction false} RecordAllKeepsNewest(log: seq<AuditEntry>, es: seq<AuditEntry>)
    requires |log| <= Limit
    ensures RecordAll(log, es) == KeepLast(log + es, Limit)
    decreases |es|
  {
    if es == [] {
    } else {
      var next := KeepLast(log + [es[0]], Limit);
      RecordAllKeepsNewest(next, es[1..]);
      assert log + es == (log + [es[0]]) + es[1..];
      KeepLastConcat(log + [es[0]], es[1..], Limit);
    }
  }

  lemma {:induction false} KeepLastConcat<T>(s: seq<T>, t: seq<T>, n: nat)
    ensures KeepLast(KeepLast(s, n) + t, n) == KeepLast(s + t, n)
    decreases |t|
  {
    if t != [] {
      var init, last := t[..|t| - 1], t[|t| - 1];
      assert t == init + [last];
      KeepLastConcat(s, init, n);
      assert KeepLast(s, n) + t == (KeepLast(s, n) + init) + [last];
      assert s + t == (s + init) + [last];
      KeepLastAppend(KeepLast(s, n) + init, last, n);
      KeepLastAppend(s + init, last, n);
    }
  }

  /** The audit file, as the list of entries it holds. */
  class AuditLog {
    var entries: seq<AuditEntry>

    ghost predicate Valid()
      reads this
    {
      |entries| <= Limit
    }

    constructor ()
      ensures Valid() && entries == []
    {
      entries := [];
    }

    /** `registrar_auditoria`: appends one entry and drops the oldest past 1000. */
    method Record(now: string, user: string, action: string, detail: string)
      modifies this
      ensures Valid()
      ensures entries == KeepLast(old(entries) + [AuditEntry(now, user, action, detail)], Limit)
    {
      var all := entries + [AuditEntry(now, user, action, detail)];
      if |all| > Limit {
        all := all[|all| - Limit..];
      }
      entries := all;
    }
  }

  // ------------------------------------------------------------------------
  // Permissions

  /** The guard's `niveis.get(nivel, 0)`: any other level ranks as an operator. */
  function Rank(level: string): (r: nat)
    ensures r <= 2
    ensures r == 2 <==> level == Administrator
    ensures r == 1 <==> level == Supervisor
  {
    if level == Administrator then 2 else if level == Supervisor then 1 else 0
  }

  /** The level a session runs with: a user record without one counts as an operator. */
  function SessionLevel(level: Option<string>): (l: string)
    ensures level.Some? ==> l == level.value
    ensures level.None? ==> Rank(l) == 0
  {
    level.GetOr(Operator)
  }

  /** The guard's test: a screen for administrators admits only them, one for
      supervisors admits supervisors and administrators, and any other
      required level admits everybody. */
  function Allowed(level: Option<string>, required: string): (b: bool)
    ensures required == Administrator ==> (b <==> level == Some(Administrator))
    ensures required == Supervisor ==> (b <==> level == Some(Supervisor) || level == Some(Administrator))
    ensures required != Administrator && required != Supervisor ==> b
  {
    Rank(SessionLevel(level)) >= Rank(required)
  }

  /** The guarded dashboard screens. */
  datatype Screen = RemovePart | Report | UserManagement | Settings

  /** The level each guarded screen asks for: an operator reaches none of
      them, a supervisor reaches only part removal, an administrator reaches
      them all. */
  function RequiredLevel(screen: Screen): (l: string)
    ensures !Allowed(Some(Operator), l) && !Allowed(None, l)
    ensures Allowed(Some(Supervisor), l) <==> screen == RemovePart
    ensures Allowed(Some(Administrator), l)
  {
    match screen
    case RemovePart => Supervisor
    case _ => Administrator
  }

  /** The wrapper `requer_permissao` puts around a screen: it lets the call
      through when the session's rank reaches the required one, and otherwise
      records the refusal in the audit trail. */
  method Guard(log: AuditLog, level: Option<string>, required: string, user: string,
               screenName: string, now: string) returns (allowed: bool)
    modifies log
    ensures allowed <==> Allowed(level, required)
    ensures allowed ==> log.entries == old(log.entries)
    ensures !allowed ==> log.entries == KeepLast(old(log.entries)
              + [AuditEntry(now, user, "ACESSO_NEGADO", "Tentativa de acessar " + screenName)], Limit)
  {
    allowed := Rank(SessionLevel(level)) >= Rank(required);
    if !allowed {
      log.Record(now, user, "ACESSO_NEGADO", "Tentativa de acessar " + screenName);
    }
  }
}
