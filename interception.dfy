/**
 * Which events the extension takes away from the server log: the audit prefix,
 * and, when their toggles are on, the connection and disconnection messages.
 */
module Interception {
  import opened Wrappers
  import opened Text

  /** PGAUDIT_PREFIX_LINE and PGAUDIT_PREFIX_LINE_LENGTH (sizeof minus the NUL). */
  const AuditPrefix: string := "AUDIT: "
  const AuditPrefixLength: nat := 7

  /** pgAuditLogToFileConnPrefixes and pgAuditLogToFileConnPrefixesLen. */
  const ConnPrefixes: seq<string> := [
    "connection authenticated: identity=",
    "connection authorized: user=",
    "connection received: host=",
    "password authentication failed for user",
    "replication connection authorized: user="
  ]
  const ConnPrefixesLen: seq<nat> := [35, 28, 26, 39, 40]

  /** pgAuditLogToFileDisconnPrefixes and pgAuditLogToFileDisconnPrefixesLen. */
  const DisconnPrefixes: seq<string> := ["disconnection: session time:"]
  const DisconnPrefixesLen: seq<nat> := [28]

  /** Each length table matches its prefix table, entry by entry, and no prefix holds a NUL. */
  predicate TableAgrees(prefixes: seq<string>, lens: seq<nat>) {
    |prefixes| == |lens| &&
    forall i :: 0 <= i < |lens| ==> lens[i] == |prefixes[i]| && Nul !in prefixes[i]
  }

  lemma TablesAgree()
    ensures TableAgrees(ConnPrefixes, ConnPrefixesLen)
    ensures TableAgrees(DisconnPrefixes, DisconnPrefixesLen)
    ensures |AuditPrefix| == AuditPrefixLength && Nul !in AuditPrefix
  {
    forall i | 0 <= i < |ConnPrefixesLen|
      ensures ConnPrefixesLen[i] == |ConnPrefixes[i]| && Nul !in ConnPrefixes[i]
    {
      ConnPrefixAgrees(i);
    }
  }

  lemma ConnPrefixAgrees(i: nat)
    requires i < |ConnPrefixesLen|
    ensures ConnPrefixesLen[i] == |ConnPrefixes[i]| && Nul !in ConnPrefixes[i]
  {
    var p := ConnPrefixes[i];
    if i == 0 { assert p == "connection authenticated: identity="; }
    else if i == 1 { assert p == "connection authorized: user="; }
    else if i == 2 { assert p == "connection received: host="; }
    else if i == 3 { assert p == "password authentication failed for user"; }
    else { assert p == "replication connection authorized: user="; }
  }

  /** pg_strncasecmp(msg, prefixes[i], lens[i]) == 0 for some entry of the table. */
  predicate MatchesTable(msg: string, prefixes: seq<string>, lens: seq<nat>)
    requires |prefixes| == |lens|
  {
    exists i :: 0 <= i < |lens| && CaseEqualPrefix(msg, prefixes[i], lens[i])
  }

  /** What pgauditlogtofile_is_prefixed decides: a connection prefix with its toggle on, or a disconnection prefix with its toggle on. */
  predicate Prefixed(msg: string, logConnections: bool, logDisconnections: bool) {
    (logConnections && MatchesTable(msg, ConnPrefixes, ConnPrefixesLen)) ||
    (logDisconnections && MatchesTable(msg, DisconnPrefixes, DisconnPrefixesLen))
  }

  /**
   * pgauditlogtofile_is_prefixed: scans each enabled table in order while no
   * entry has matched yet.
   */
  method IsPrefixed(msg: string, logConnections: bool, logDisconnections: bool) returns (found: bool)
    ensures found == Prefixed(msg, logConnections, logDisconnections)
  {
    found := false;
    if logConnections {
      var i := 0;
      while !found && i < |ConnPrefixesLen|
        invariant 0 <= i <= |ConnPrefixesLen|
        invariant found <==> exists j :: 0 <= j < i && CaseEqualPrefix(msg, ConnPrefixes[j], ConnPrefixesLen[j])
      {
        found := CaseEqualPrefix(msg, ConnPrefixes[i], ConnPrefixesLen[i]);
        i := i + 1;
      }
    }
    assert found == (logConnections && MatchesTable(msg, ConnPrefixes, ConnPrefixesLen));
    if logDisconnections {
      var i := 0;
      ghost var before := found;
      while !found && i < |DisconnPrefixesLen|
        invariant 0 <= i <= |DisconnPrefixesLen|
        invariant found <==> before || exists j :: 0 <= j < i && CaseEqualPrefix(msg, DisconnPrefixes[j], DisconnPrefixesLen[j])
        invariant before ==> found
      {
        found := CaseEqualPrefix(msg, DisconnPrefixes[i], DisconnPrefixesLen[i]);
        i := i + 1;
      }
    }
  }

  /**
   * The decision pgauditlogtofile_emit_log takes for an enabled extension: the
   * number of leading characters the record leaves out (exclude_nchars), or
   * None when the event stays with the server log alone.
   */
  function ExcludeChars(msg: string, logConnections: bool, logDisconnections: bool): (r: Option<nat>)
    ensures r == Some(AuditPrefixLength) <==> CaseEqualPrefix(msg, AuditPrefix, AuditPrefixLength)
    ensures r == Some(0) <==> !CaseEqualPrefix(msg, AuditPrefix, AuditPrefixLength) && Prefixed(msg, logConnections, logDisconnections)
    ensures r.None? <==> !CaseEqualPrefix(msg, AuditPrefix, AuditPrefixLength) && !Prefixed(msg, logConnections, logDisconnections)
    ensures r.Some? ==> r.value <= |msg|
  {
    if CaseEqualPrefix(msg, AuditPrefix, AuditPrefixLength) then
      CaseEqualPrefixMeans(msg, AuditPrefix, AuditPrefixLength);
      Some(AuditPrefixLength)
    else if Prefixed(msg, logConnections, logDisconnections) then Some(0)
    else None
  }

  /**
   * The branches of pgauditlogtofile_emit_log that choose exclude_nchars: the
   * audit prefix first, then the connection tables; -1 when neither matches.
   */
  method ChooseExcludeChars(msg: string, logConnections: bool, logDisconnections: bool) returns (exclude: int)
    ensures exclude >= 0 <==> ExcludeChars(msg, logConnections, logDisconnections).Some?
    ensures exclude >= 0 ==> exclude == ExcludeChars(msg, logConnections, logDisconnections).value
    ensures exclude < 0 ==> exclude == -1
  {
    exclude := -1;
    if CaseEqualPrefix(msg, AuditPrefix, AuditPrefixLength) {
      exclude := AuditPrefixLength;
    } else {
      var found := IsPrefixed(msg, logConnections, logDisconnections);
      if found {
        exclude := 0;
      }
    }
  }

  /** The audit prefix is matched exactly when the message starts with "AUDIT: " in any ASCII case. */
  lemma AuditPrefixIgnoresCase(msg: string, logConnections: bool, logDisconnections: bool)
    ensures ExcludeChars(msg, logConnections, logDisconnections) == Some(AuditPrefixLength) <==>
      |msg| >= 7 && forall i :: 0 <= i < 7 ==> ToLowerAscii(msg[i]) == ToLowerAscii(AuditPrefix[i])
  {
    CaseEqualPrefixMeans(msg, AuditPrefix, AuditPrefixLength);
  }

  /** With both toggles off, only the audit prefix is intercepted. */
  lemma TogglesOffOnlyAudit(msg: string)
    ensures ExcludeChars(msg, false, false).Some? <==> CaseEqualPrefix(msg, AuditPrefix, AuditPrefixLength)
  {
  }

  /** A lower-case "audit: " is intercepted with the prefix left out. */
  lemma LowerCaseAuditIntercepted()
    ensures ExcludeChars("audit: x", false, false) == Some(7)
  {
    CaseEqualPrefixMeans("audit: x", AuditPrefix, AuditPrefixLength);
  }

  /** With connection logging on, a received-connection message is intercepted whole. */
  lemma ConnectionReceivedIntercepted()
    ensures ExcludeChars("connection received: host=[local]", true, false) == Some(0)
    ensures ExcludeChars("connection received: host=[local]", false, false) == None
  {
    var msg := "connection received: host=[local]";
    CaseEqualPrefixMeans(msg, AuditPrefix, AuditPrefixLength);
    assert msg[0] == 'c';
    CaseEqualPrefixMeans(msg, ConnPrefixes[2], ConnPrefixesLen[2]);
    assert CaseEqualPrefix(msg, ConnPrefixes[2], ConnPrefixesLen[2]);
  }
}
