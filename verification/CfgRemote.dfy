/** Saving and loading where the gateway gets its configuration from. */
module CfgRemote {
  import opened Lists
  import opened CfgJson
  import opened CfgAuth

  datatype RemoteCfg = RemoteCfg(use: bool, sslClient: bool, sslServer: bool, url: string, authType: AuthType,
                                 auth: Memory, refresh: nat)

  ghost predicate ValidRemote(c: RemoteCfg) {
    |c.url| < URL_SIZE && c.refresh < 0x1_0000
  }

  function SaveRemoteAuth(j: Json, c: RemoteCfg): Json {
    var j1 := j[Remote(AuthKind) := Text(AuthName(c.authType))];
    var first := Text(ReadStr(c.auth, 0));
    match c.authType
    case NoAuth => j1
    case Basic => j1[Remote(AuthUser) := first][Remote(AuthPass) := Text(ReadStr(c.auth, USER_SIZE))]
    case Bearer => j1[Remote(AuthBearer) := first]
    case Token => j1[Remote(AuthTokenItem) := first]
    case ApiKey => j1[Remote(AuthApiKeyItem) := first]
  }

  function SaveRemote(j: Json, c: RemoteCfg): Json {
    SaveRemoteAuth(j[Remote(CfgUse) := Flag(c.use)][Remote(CfgUrl) := Text(c.url)], c)
      [Remote(CfgSslClient) := Flag(c.sslClient)][Remote(CfgSslServer) := Flag(c.sslServer)]
      [Remote(RefreshInterval) := Num(c.refresh)]
  }

  /** Unlike the HTTP targets, the source of configurations knows no tokens and API keys. */
  function SupportedType(t: AuthType): AuthType {
    if t.Basic? || t.Bearer? then t else NoAuth
  }

  function ReadRemoteAuthType(s: string): AuthType {
    SupportedType(ReadAuthType(s))
  }

  /** A change of kind clears the memory of the old credentials. */
  function KeptMemory(before: RemoteCfg, t: AuthType): Memory {
    if before.authType != t then Repeat('\0', AUTH_SIZE) else before.auth
  }

  function LoadRemoteText(j: Json, t: AuthType, m: Memory): Memory {
    match t
    case NoAuth => m
    case Basic => StoreText(j, Remote(AuthPass), StoreText(j, Remote(AuthUser), m, 0, USER_SIZE), USER_SIZE, USER_SIZE)
    case Bearer => StoreText(j, Remote(AuthBearer), m, 0, AUTH_SIZE)
    case Token => m
    case ApiKey => m
  }

  function LoadRemoteAuth(j: Json, before: RemoteCfg): RemoteCfg {
    if !HasText(j, Remote(AuthKind)) then before
    else
      var t := ReadRemoteAuthType(j[Remote(AuthKind)].text);
      before.(authType := t, auth := LoadRemoteText(j, t, KeptMemory(before, t)))
  }

  function LoadSource(j: Json, before: RemoteCfg): RemoteCfg {
    before.(use := BoolOr(j, Remote(CfgUse), before.use), url := TextOr(j, Remote(CfgUrl), URL_SIZE, before.url))
  }

  function LoadOptions(j: Json, before: RemoteCfg): RemoteCfg {
    before.(sslClient := BoolOr(j, Remote(CfgSslClient), before.sslClient),
            sslServer := BoolOr(j, Remote(CfgSslServer), before.sslServer),
            refresh := Uint16Or(j, Remote(RefreshInterval), before.refresh))
  }

  function LoadRemote(j: Json, before: RemoteCfg): RemoteCfg {
    LoadOptions(j, LoadRemoteAuth(j, LoadSource(j, before)))
  }

  // ---------- what a saved configuration is loaded as ----------

  predicate HasRemoteAuth(j: Json, c: RemoteCfg) {
    && HasText(j, Remote(AuthKind)) && ReadAuthType(j[Remote(AuthKind)].text) == c.authType
    && (c.authType.Basic? ==> Has(j, Remote(AuthUser), Text(ReadStr(c.auth, 0)))
                              && Has(j, Remote(AuthPass), Text(ReadStr(c.auth, USER_SIZE))))
    && (c.authType.Bearer? ==> Has(j, Remote(AuthBearer), Text(ReadStr(c.auth, 0))))
  }

  predicate HasRemote(j: Json, c: RemoteCfg) {
    && Has(j, Remote(CfgUse), Flag(c.use)) && Has(j, Remote(CfgUrl), Text(c.url)) && HasRemoteAuth(j, c)
    && Has(j, Remote(CfgSslClient), Flag(c.sslClient)) && Has(j, Remote(CfgSslServer), Flag(c.sslServer))
    && Has(j, Remote(RefreshInterval), Num(c.refresh))
  }

  lemma SaveRemoteAuthHas(j: Json, c: RemoteCfg)
    ensures HasRemoteAuth(SaveRemoteAuth(j, c), c)
    ensures Keeps(j, SaveRemoteAuth(j, c), Remote(CfgUse)) && Keeps(j, SaveRemoteAuth(j, c), Remote(CfgUrl))
  {
    AuthNameReadsBack(c.authType);
  }

  lemma SaveRemoteHas(j: Json, c: RemoteCfg)
    ensures HasRemote(SaveRemote(j, c), c)
  {
    SaveRemoteAuthHas(j[Remote(CfgUse) := Flag(c.use)][Remote(CfgUrl) := Text(c.url)], c);
  }

  lemma RemoteKept(j: Json, j': Json, c: RemoteCfg)
    requires HasRemote(j, c) && forall r :: Keeps(j, j', Remote(r))
    ensures HasRemote(j', c)
  {
  }

  lemma SaveRemoteKeeps(j: Json, c: RemoteCfg, k: Key)
    requires !k.Remote?
    ensures Keeps(j, SaveRemote(j, c), k)
  {
  }

  function RestoredRemote(c: RemoteCfg, d: RemoteCfg): RemoteCfg {
    var t := SupportedType(c.authType);
    c.(authType := t, auth := RestoredAuth(t, c.auth, KeptMemory(d, t)))
  }

  lemma RemoteAuthReads(j: Json, c: RemoteCfg, before: RemoteCfg)
    requires HasRemoteAuth(j, c)
    ensures LoadRemoteAuth(j, before)
         == before.(authType := SupportedType(c.authType), auth := RestoredRemote(c, before).auth)
  {
  }

  lemma SavedRemoteLoads(j: Json, c: RemoteCfg, d: RemoteCfg)
    requires HasRemote(j, c) && ValidRemote(c)
    ensures LoadRemote(j, d) == RestoredRemote(c, d)
  {
    RemoteAuthReads(j, c, d.(use := c.use, url := c.url));
  }

  // ---------- results ----------

  lemma RemoteIdempotent(c: RemoteCfg, d: RemoteCfg)
    ensures RestoredRemote(RestoredRemote(c, d), d) == RestoredRemote(c, d)
  {
    var t := SupportedType(c.authType);
    AuthRestoredTwice(t, c.auth, KeptMemory(d, t));
  }

  /** The firmware's comparison. */
  predicate RemoteSame(a: RemoteCfg, b: RemoteCfg) {
    a.(auth := b.auth) == b && AuthText(a.authType, a.auth) == AuthText(b.authType, b.auth)
  }

  /** The credentials fit and are not of the two kinds that are saved but not understood when loaded. */
  predicate RemoteSurvives(c: RemoteCfg) {
    !c.authType.Token? && !c.authType.ApiKey? && AuthFits(c.authType, c.auth)
  }

  /** Exactly then saving and loading keep the configuration, as far as it is compared. */
  lemma RemoteSurvivesIff(c: RemoteCfg, d: RemoteCfg)
    ensures RemoteSame(RestoredRemote(c, d), c) <==> RemoteSurvives(c)
  {
    var t := SupportedType(c.authType);
    RestoredAuthText(t, c.auth, KeptMemory(d, t));
  }
}
