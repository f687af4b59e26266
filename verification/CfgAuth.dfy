/** Credentials of the five kinds: their names, and the memory they share. */
module CfgAuth {
  import opened CfgJson

  datatype AuthType = NoAuth | Basic | Bearer | Token | ApiKey

  const AUTH_TYPE_SIZE: nat := 8

  function AuthName(a: AuthType): string {
    match a
    case NoAuth => "none"
    case Basic => "basic"
    case Bearer => "bearer"
    case Token => "token"
    case ApiKey => "api_key"
  }

  function AuthOf(s: string): AuthType {
    if s == "basic" then Basic
    else if s == "bearer" then Bearer
    else if s == "token" then Token
    else if s == "api_key" then ApiKey
    else NoAuth
  }

  /** Names are read into a buffer that is just long enough for the longest of them. */
  function ReadAuthType(s: string): AuthType {
    AuthOf(Cut(s, AUTH_TYPE_SIZE))
  }

  lemma AuthNameReadsBack(a: AuthType)
    ensures ReadAuthType(AuthName(a)) == a
  {
    assert "token"[0] != "basic"[0];
  }

  /** What is left in `onto` when the credentials in `from` have been saved and loaded. */
  function RestoredAuth(t: AuthType, from: Memory, onto: Memory): Memory {
    match t
    case NoAuth => onto
    case Basic => WriteBasic(onto, ReadStr(from, 0), ReadStr(from, USER_SIZE))
    case Bearer => WriteStr(onto, 0, AUTH_SIZE, ReadStr(from, 0))
    case Token => WriteStr(onto, 0, AUTH_SIZE, ReadStr(from, 0))
    case ApiKey => WriteStr(onto, 0, AUTH_SIZE, ReadStr(from, 0))
  }

  lemma AuthRestoredTwice(t: AuthType, from: Memory, onto: Memory)
    ensures var r := RestoredAuth(t, from, onto); RestoredAuth(t, r, onto) == r
  {
    if t.Basic? {
      BasicRewrites(onto, ReadStr(from, 0), ReadStr(from, USER_SIZE));
    } else if !t.NoAuth? {
      TokenRewrites(onto, ReadStr(from, 0));
    }
  }

  /** The texts that count when credentials of a kind are compared. */
  function AuthText(t: AuthType, m: Memory): (string, string) {
    match t
    case NoAuth => ("", "")
    case Basic => (ReadStr(m, 0), ReadStr(m, USER_SIZE))
    case Bearer => (ReadStr(m, 0), "")
    case Token => (ReadStr(m, 0), "")
    case ApiKey => (ReadStr(m, 0), "")
  }

  /** The texts fit into the buffers of their kind. */
  predicate AuthFits(t: AuthType, m: Memory) {
    if t.Basic? then |AuthText(t, m).0| < USER_SIZE && |AuthText(t, m).1| < USER_SIZE
    else |AuthText(t, m).0| < AUTH_SIZE
  }

  /** Credentials survive saving and loading exactly if they fit. */
  lemma RestoredAuthText(t: AuthType, from: Memory, onto: Memory)
    ensures AuthText(t, RestoredAuth(t, from, onto)) == AuthText(t, from) <==> AuthFits(t, from)
  {
    if t.Basic? {
      ReadBasic(onto, ReadStr(from, 0), ReadStr(from, USER_SIZE));
    } else if !t.NoAuth? {
      ReadAfterWrite(onto, 0, AUTH_SIZE, ReadStr(from, 0));
    }
  }
}
