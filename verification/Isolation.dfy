/** Isolation keys (pkg/circuit/isolation.go).  A nil key is None. */
module Isolation {
  import opened Bytes
  import opened Decimal
  import opened Wrappers

  const NONE := 0
  const DESTINATION := 1
  const CREDENTIAL := 2
  const PORT := 3
  const SESSION := 4

  /** Levels are plain integers, as in the source; only 0..4 are named. */
  datatype IsolationKey = IsolationKey(level: int, destination: string, credentials: string,
                                       sourcePort: uint16, sessionToken: string)

  function Key(k: Option<IsolationKey>): string {
    if k.None? || k.value.level == NONE then ""
    else if k.value.level == DESTINATION then "dest:" + k.value.destination
    else if k.value.level == CREDENTIAL then "creds:" + k.value.credentials
    else if k.value.level == PORT then "port:" + FormatNat(k.value.sourcePort)
    else if k.value.level == SESSION then "session:" + k.value.sessionToken
    else ""
  }

  predicate Equals(k: Option<IsolationKey>, other: Option<IsolationKey>) {
    if k.None? && other.None? then true
    else if k.None? || other.None? then false
    else if k.value.level != other.value.level then false
    else if k.value.level == NONE then true
    else if k.value.level == DESTINATION then k.value.destination == other.value.destination
    else if k.value.level == CREDENTIAL then k.value.credentials == other.value.credentials
    else if k.value.level == PORT then k.value.sourcePort == other.value.sourcePort
    else if k.value.level == SESSION then k.value.sessionToken == other.value.sessionToken
    else false
  }

  /** One of the four levels that name a pool. */
  predicate Known(k: Option<IsolationKey>) {
    k.Some? && DESTINATION <= k.value.level <= SESSION
  }

  /** The payload behind the level's prefix. */
  function Payload(k: IsolationKey): string
    requires Known(Some(k))
  {
    if k.level == DESTINATION then k.destination
    else if k.level == CREDENTIAL then k.credentials
    else if k.level == PORT then FormatNat(k.sourcePort)
    else k.sessionToken
  }

  function Prefix(level: int): string
    requires DESTINATION <= level <= SESSION
  {
    if level == DESTINATION then "dest:" else if level == CREDENTIAL then "creds:"
    else if level == PORT then "port:" else "session:"
  }

  lemma KnownKeysDecode(a: IsolationKey, b: IsolationKey)
    requires Known(Some(a)) && Known(Some(b)) && Key(Some(a)) == Key(Some(b))
    ensures a.level == b.level && Payload(a) == Payload(b)
  {
    var s := Key(Some(a));
    assert s == Prefix(a.level) + Payload(a) && s == Prefix(b.level) + Payload(b);
    assert s[0] == Prefix(a.level)[0] && s[0] == Prefix(b.level)[0];
    assert Payload(a) == s[|Prefix(a.level)|..];
    assert Payload(b) == s[|Prefix(b.level)|..];
  }

  /** The keys as they are spelled; a level without a name spells nothing. */
  lemma KeysSpelled(destination: string, credentials: string, port: uint16, token: string, level: int)
    ensures Key(Some(IsolationKey(1, destination, credentials, port, token))) == "dest:" + destination
    ensures Key(Some(IsolationKey(2, destination, credentials, port, token))) == "creds:" + credentials
    ensures Key(Some(IsolationKey(3, destination, credentials, port, token))) == "port:" + FormatNat(port)
    ensures Key(Some(IsolationKey(4, destination, credentials, port, token))) == "session:" + token
    ensures level < 1 || level > 4 ==> Key(Some(IsolationKey(level, destination, credentials, port, token))) == ""
  {
  }

  /** `Key()` is equal exactly when `Equals` holds, except between two keys neither of which has a
      known level: there it agrees only for two nil keys or two keys of level none. */
  lemma KeyAgreesWithEquals(a: Option<IsolationKey>, b: Option<IsolationKey>)
    ensures (Key(a) == Key(b) <==> Equals(a, b)) <==>
            (Known(a) || Known(b) || (a.None? && b.None?)
             || (a.Some? && b.Some? && a.value.level == NONE && b.value.level == NONE))
  {
    if Known(a) && Known(b) {
      if Key(a) == Key(b) {
        KnownKeysDecode(a.value, b.value);
        FormatNatInjective(a.value.sourcePort, b.value.sourcePort);
      }
    } else if Known(a) {
      assert Key(a) == Prefix(a.value.level) + Payload(a.value);
    } else if Known(b) {
      assert Key(b) == Prefix(b.value.level) + Payload(b.value);
    }
  }
}
