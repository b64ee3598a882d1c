/**
  The name of the current world or server, used as a directory name for the
  chunk cache. The client state it reads is given as optional values.
 */
module Session {
  import opened Wrappers

  /**
    What the client knows about the session: the level name of the integrated
    server, if one runs; the address of the current server entry, if any; and
    whether the client is connected to Realms.
   */
  datatype ClientState = ClientState(integratedLevelName: Option<string>,
                                     serverAddress: Option<string>,
                                     connectedToRealms: bool)

  /** `String.replace(':', '_')`: every colon becomes an underscore, nothing else changes. */
  function ReplaceColons(s: string): (r: string)
    ensures |r| == |s|
    ensures forall i :: 0 <= i < |s| ==> r[i] == (if s[i] == ':' then '_' else s[i])
  {
    if s == [] then []
    else [if s[0] == ':' then '_' else s[0]] + ReplaceColons(s[1..])
  }

  /** `getCurrentWorldOrServerName`: the first of these that applies. */
  function SessionName(c: ClientState): (r: string)
    ensures c.integratedLevelName.Some? ==> r == c.integratedLevelName.value
    ensures c.integratedLevelName.None? && c.serverAddress.Some? ==> r == ReplaceColons(c.serverAddress.value)
    ensures c.integratedLevelName.None? && c.serverAddress.None? ==>
      r == if c.connectedToRealms then "realms" else "unknown"
  {
    if c.integratedLevelName.Some? then c.integratedLevelName.value
    else if c.serverAddress.Some? then ReplaceColons(c.serverAddress.value)
    else if c.connectedToRealms then "realms"
    else "unknown"
  }

  /** A server-derived name has the address's length, no colon, and every other character of the address. */
  lemma ServerNameHasNoColon(c: ClientState)
    requires c.integratedLevelName.None? && c.serverAddress.Some?
    ensures |SessionName(c)| == |c.serverAddress.value| && ':' !in SessionName(c)
    ensures forall i :: 0 <= i < |SessionName(c)| && c.serverAddress.value[i] != ':' ==>
      SessionName(c)[i] == c.serverAddress.value[i]
  {
  }

  /** Replacing colons twice is replacing them once. */
  lemma {:induction false} ReplaceColonsIdempotent(s: string)
    ensures ReplaceColons(ReplaceColons(s)) == ReplaceColons(s)
  {
    if s != [] {
      ReplaceColonsIdempotent(s[1..]);
    }
  }

  /** A string without colons is its own replacement. */
  lemma {:induction false} ReplaceColonsNoColon(s: string)
    requires ':' !in s
    ensures ReplaceColons(s) == s
  {
    if s != [] {
      ReplaceColonsNoColon(s[1..]);
    }
  }
}
