/** Saving and loading where reports are posted to: the HTTP targets and their credentials. */
module CfgHttp {
  import opened Lists
  import opened CfgJson
  import opened CfgAuth

  datatype DataFormat = Ruuvi | RawAndDecoded | Decoded

  datatype HttpCfg = HttpCfg(useHttpRuuvi: bool, useHttp: bool, sslClient: bool, sslServer: bool, extraPath: bool,
                             extraQuery: bool, extraHeaders: bool, url: string, period: nat, format: DataFormat,
                             authType: AuthType, auth: Memory)

  function FormatName(f: DataFormat): string {
    match f
    case Ruuvi => "ruuvi"
    case RawAndDecoded => "ruuvi_raw_and_decoded"
    case Decoded => "ruuvi_decoded"
  }

  function FormatOf(s: string): DataFormat {
    if s == "ruuvi_raw_and_decoded" then RawAndDecoded else if s == "ruuvi_decoded" then Decoded else Ruuvi
  }

  /** Names are read into a buffer that is just long enough for the longest of them. */
  function ReadFormat(s: string): DataFormat {
    FormatOf(Cut(s, FORMAT_SIZE))
  }

  lemma FormatReadsBack(f: DataFormat)
    ensures ReadFormat(FormatName(f)) == f
  {
  }

  /** The shape by which firmware before 1.14 meant the Ruuvi cloud. */
  predicate Legacy(c: HttpCfg, defaultUrl: string) {
    c.format == Ruuvi && c.authType == NoAuth && c.url == defaultUrl
  }

  // ---------- saving ----------

  function SaveAuth(j: Json, c: HttpCfg): Json {
    var j1 := j[Http(HttpAuth) := Text(AuthName(c.authType))];
    var first := Text(ReadStr(c.auth, 0));
    match c.authType
    case NoAuth => j1
    case Basic => j1[Http(HttpUser) := first][Http(HttpPass) := Text(ReadStr(c.auth, USER_SIZE))]
    case Bearer => j1[Http(HttpBearerToken) := first]
    case Token => j1[Http(HttpApiKey) := first]
    case ApiKey => j1[Http(HttpApiKey) := first]
  }

  function SaveTypes(j: Json, c: HttpCfg): Json {
    j[Http(HttpUrl) := Text(c.url)][Http(HttpPeriod) := Num(c.period)]
     [Http(HttpDataFormat) := Text(FormatName(c.format))]
  }

  function SaveFlags(j: Json, c: HttpCfg): Json {
    j[Http(HttpSslClient) := Flag(c.sslClient)][Http(HttpSslServer) := Flag(c.sslServer)]
     [Http(ExtraPath) := Flag(c.extraPath)][Http(ExtraQuery) := Flag(c.extraQuery)]
     [Http(ExtraHeaders) := Flag(c.extraHeaders)]
  }

  function SaveParams(j: Json, c: HttpCfg): Json {
    SaveFlags(SaveAuth(SaveTypes(j, c), c), c)
  }

  function SaveTargets(j: Json, ruuvi: bool, custom: bool): Json {
    j[Http(UseHttpRuuvi) := Flag(ruuvi)][Http(UseHttp) := Flag(custom)]
  }

  /** Saved in the way in which old and new firmware both read it as "post to Ruuvi". */
  predicate SavedAsDefault(c: HttpCfg, defaultUrl: string) {
    (c.useHttpRuuvi && !c.useHttp) || (c.useHttp && Legacy(c, defaultUrl))
  }

  function SaveHttp(j: Json, c: HttpCfg, d: HttpCfg, defaultUrl: string): Json {
    if SavedAsDefault(c, defaultUrl) then SaveParams(SaveTargets(j, true, true), d)
    else SaveParams(SaveTargets(j, c.useHttpRuuvi, c.useHttp), c)
  }

  // ---------- loading ----------

  function LoadAuth(j: Json, authType: AuthType, auth: Memory): Memory {
    match authType
    case NoAuth => auth
    case Basic =>
      StoreText(j, Http(HttpPass), StoreText(j, Http(HttpUser), auth, 0, USER_SIZE), USER_SIZE, USER_SIZE)
    case Bearer => StoreText(j, Http(HttpBearerToken), auth, 0, AUTH_SIZE)
    case Token => StoreText(j, Http(HttpApiKey), auth, 0, AUTH_SIZE)
    case ApiKey => StoreText(j, Http(HttpApiKey), auth, 0, AUTH_SIZE)
  }

  function LoadTypes(j: Json, before: HttpCfg): HttpCfg {
    before.(useHttpRuuvi := BoolOr(j, Http(UseHttpRuuvi), before.useHttpRuuvi),
            useHttp := BoolOr(j, Http(UseHttp), before.useHttp),
            format := if HasText(j, Http(HttpDataFormat)) then ReadFormat(j[Http(HttpDataFormat)].text)
                      else before.format,
            authType := if HasText(j, Http(HttpAuth)) then ReadAuthType(j[Http(HttpAuth)].text)
                        else before.authType,
            url := TextOr(j, Http(HttpUrl), URL_SIZE, before.url))
  }

  function Patched(c: HttpCfg, defaultUrl: string): HttpCfg {
    if Legacy(c, defaultUrl) then c.(useHttpRuuvi := true, useHttp := false) else c
  }

  /** Credentials are read, and the legacy shape is patched, only for a configuration that posts to a custom target. */
  function LoadCustom(j: Json, c: HttpCfg, defaultUrl: string): HttpCfg {
    if c.useHttp then Patched(c.(auth := LoadAuth(j, c.authType, c.auth)), defaultUrl) else c
  }

  function LoadRest(j: Json, c: HttpCfg): HttpCfg {
    c.(period := Uint32Or(j, Http(HttpPeriod), c.period),
       extraPath := BoolOr(j, Http(ExtraPath), c.extraPath), extraQuery := BoolOr(j, Http(ExtraQuery), c.extraQuery),
       extraHeaders := BoolOr(j, Http(ExtraHeaders), c.extraHeaders),
       sslClient := BoolOr(j, Http(HttpSslClient), c.sslClient),
       sslServer := BoolOr(j, Http(HttpSslServer), c.sslServer))
  }

  function LoadHttp(j: Json, before: HttpCfg, defaultUrl: string): HttpCfg {
    LoadRest(j, LoadCustom(j, LoadTypes(j, before), defaultUrl))
  }

  // ---------- what a saved configuration is loaded as ----------

  ghost predicate ValidHttp(c: HttpCfg) {
    |c.url| < URL_SIZE
  }

  /** The credentials are in the object, under the name of their kind. */
  predicate HasAuth(j: Json, c: HttpCfg) {
    && HasText(j, Http(HttpAuth)) && ReadAuthType(j[Http(HttpAuth)].text) == c.authType
    && (c.authType.Basic? ==> Has(j, Http(HttpUser), Text(ReadStr(c.auth, 0)))
                              && Has(j, Http(HttpPass), Text(ReadStr(c.auth, USER_SIZE))))
    && (c.authType.Bearer? ==> Has(j, Http(HttpBearerToken), Text(ReadStr(c.auth, 0))))
    && (c.authType.Token? || c.authType.ApiKey? ==> Has(j, Http(HttpApiKey), Text(ReadStr(c.auth, 0))))
  }

  predicate HasTypes(j: Json, c: HttpCfg) {
    && Has(j, Http(HttpUrl), Text(c.url)) && Has(j, Http(HttpPeriod), Num(c.period))
    && HasText(j, Http(HttpDataFormat)) && ReadFormat(j[Http(HttpDataFormat)].text) == c.format
  }

  predicate HasFlags(j: Json, c: HttpCfg) {
    && Has(j, Http(HttpSslClient), Flag(c.sslClient)) && Has(j, Http(HttpSslServer), Flag(c.sslServer))
    && Has(j, Http(ExtraPath), Flag(c.extraPath)) && Has(j, Http(ExtraQuery), Flag(c.extraQuery))
    && Has(j, Http(ExtraHeaders), Flag(c.extraHeaders))
  }

  predicate HasTargets(j: Json, ruuvi: bool, custom: bool) {
    Has(j, Http(UseHttpRuuvi), Flag(ruuvi)) && Has(j, Http(UseHttp), Flag(custom))
  }

  predicate HasParams(j: Json, c: HttpCfg) {
    HasTypes(j, c) && HasAuth(j, c) && HasFlags(j, c)
  }

  predicate HasHttp(j: Json, c: HttpCfg, d: HttpCfg, defaultUrl: string) {
    if SavedAsDefault(c, defaultUrl) then HasTargets(j, true, true) && HasParams(j, d)
    else HasTargets(j, c.useHttpRuuvi, c.useHttp) && HasParams(j, c)
  }

  lemma SaveTypesHas(j: Json, c: HttpCfg, ruuvi: bool, custom: bool)
    requires HasTargets(j, ruuvi, custom)
    ensures HasTypes(SaveTypes(j, c), c) && HasTargets(SaveTypes(j, c), ruuvi, custom)
  {
    FormatReadsBack(c.format);
  }

  lemma SaveAuthHas(j: Json, c: HttpCfg, ruuvi: bool, custom: bool)
    requires HasTypes(j, c) && HasTargets(j, ruuvi, custom)
    ensures var r := SaveAuth(j, c); HasAuth(r, c) && HasTypes(r, c) && HasTargets(r, ruuvi, custom)
  {
    AuthNameReadsBack(c.authType);
  }

  lemma SaveFlagsHas(j: Json, c: HttpCfg)
    ensures HasFlags(SaveFlags(j, c), c)
  {
  }

  lemma SaveFlagsKeepsTypes(j: Json, c: HttpCfg, ruuvi: bool, custom: bool)
    requires HasTypes(j, c) && HasTargets(j, ruuvi, custom)
    ensures HasTypes(SaveFlags(j, c), c) && HasTargets(SaveFlags(j, c), ruuvi, custom)
  {
  }

  lemma SaveFlagsKeepsAuth(j: Json, c: HttpCfg)
    requires HasAuth(j, c)
    ensures HasAuth(SaveFlags(j, c), c)
  {
  }

  lemma SaveParamsHas(j: Json, c: HttpCfg, ruuvi: bool, custom: bool)
    requires HasTargets(j, ruuvi, custom)
    ensures HasParams(SaveParams(j, c), c) && HasTargets(SaveParams(j, c), ruuvi, custom)
  {
    SaveTypesHas(j, c, ruuvi, custom);
    SaveAuthHas(SaveTypes(j, c), c, ruuvi, custom);
    SaveFlagsHas(SaveAuth(SaveTypes(j, c), c), c);
    SaveFlagsKeepsTypes(SaveAuth(SaveTypes(j, c), c), c, ruuvi, custom);
    SaveFlagsKeepsAuth(SaveAuth(SaveTypes(j, c), c), c);
  }

  lemma SaveHttpHas(j: Json, c: HttpCfg, d: HttpCfg, defaultUrl: string)
    ensures HasHttp(SaveHttp(j, c, d, defaultUrl), c, d, defaultUrl)
  {
    if SavedAsDefault(c, defaultUrl) {
      SaveParamsHas(SaveTargets(j, true, true), d, true, true);
    } else {
      SaveParamsHas(SaveTargets(j, c.useHttpRuuvi, c.useHttp), c, c.useHttpRuuvi, c.useHttp);
    }
  }

  /** Credentials are loaded over the default ones, and only for a custom target. */
  function LoadedAuth(c: HttpCfg, custom: bool, d: HttpCfg): Memory {
    if custom then RestoredAuth(c.authType, c.auth, d.auth) else d.auth
  }

  /** Loading what was saved of `c` with the given targets and credentials. */
  function RestoredAs(c: HttpCfg, ruuvi: bool, custom: bool, auth: Memory, defaultUrl: string): HttpCfg {
    var r := c.(useHttpRuuvi := ruuvi, useHttp := custom, period := Restored32(c.period), auth := auth);
    if custom then Patched(r, defaultUrl) else r
  }

  function Restored(c: HttpCfg, d: HttpCfg, defaultUrl: string): HttpCfg {
    if SavedAsDefault(c, defaultUrl) then RestoredAs(d, true, true, LoadedAuth(d, true, d), defaultUrl)
    else RestoredAs(c, c.useHttpRuuvi, c.useHttp, LoadedAuth(c, c.useHttp, d), defaultUrl)
  }

  lemma AuthReads(j: Json, c: HttpCfg, auth: Memory)
    requires HasAuth(j, c)
    ensures LoadAuth(j, c.authType, auth) == RestoredAuth(c.authType, c.auth, auth)
  {
  }

  lemma TypesRead(j: Json, c: HttpCfg, ruuvi: bool, custom: bool, before: HttpCfg)
    requires HasTargets(j, ruuvi, custom) && HasTypes(j, c) && HasAuth(j, c) && ValidHttp(c)
    ensures LoadTypes(j, before) == before.(useHttpRuuvi := ruuvi, useHttp := custom, format := c.format,
                                            authType := c.authType, url := c.url)
  {
  }

  lemma RestReads(j: Json, c: HttpCfg, before: HttpCfg)
    requires HasTypes(j, c) && HasFlags(j, c)
    ensures LoadRest(j, before) == before.(period := Restored32(c.period), extraPath := c.extraPath,
                                           extraQuery := c.extraQuery, extraHeaders := c.extraHeaders,
                                           sslClient := c.sslClient, sslServer := c.sslServer)
  {
    Uint32SurvivesIff(j, Http(HttpPeriod), c.period, before.period);
  }

  lemma LoadsAs(j: Json, c: HttpCfg, ruuvi: bool, custom: bool, d: HttpCfg, defaultUrl: string)
    requires HasTargets(j, ruuvi, custom) && HasParams(j, c) && ValidHttp(c)
    ensures LoadHttp(j, d, defaultUrl)
         == RestoredAs(c, ruuvi, custom, LoadedAuth(c, custom, d), defaultUrl)
  {
    var t := LoadTypes(j, d);
    TypesRead(j, c, ruuvi, custom, d);
    AuthReads(j, c, d.auth);
    var auth := LoadedAuth(c, custom, d);
    var t1 := t.(auth := auth);
    var t2 := if custom then Patched(t1, defaultUrl) else t1;
    assert t2 == LoadCustom(j, t, defaultUrl);
    RestReads(j, c, t2);
  }

  /** Items of other parts of the configuration may be added. */
  lemma HttpKept(j: Json, j': Json, c: HttpCfg, d: HttpCfg, defaultUrl: string)
    requires HasHttp(j, c, d, defaultUrl) && forall h :: Keeps(j, j', Http(h))
    ensures HasHttp(j', c, d, defaultUrl)
  {
  }

  lemma SaveAuthKeeps(j: Json, c: HttpCfg, k: Key)
    requires !k.Http?
    ensures Keeps(j, SaveAuth(j, c), k)
  {
  }

  lemma SaveParamsKeeps(j: Json, c: HttpCfg, k: Key)
    requires !k.Http?
    ensures Keeps(j, SaveParams(j, c), k)
  {
    SaveAuthKeeps(SaveTypes(j, c), c, k);
    assert Keeps(j, SaveTypes(j, c), k);
    var j2 := SaveAuth(SaveTypes(j, c), c);
    assert Keeps(j2, SaveFlags(j2, c), k);
  }

  lemma SaveHttpKeeps(j: Json, c: HttpCfg, d: HttpCfg, defaultUrl: string, k: Key)
    requires !k.Http?
    ensures Keeps(j, SaveHttp(j, c, d, defaultUrl), k)
  {
    if SavedAsDefault(c, defaultUrl) {
      SaveParamsKeeps(SaveTargets(j, true, true), d, k);
    } else {
      SaveParamsKeeps(SaveTargets(j, c.useHttpRuuvi, c.useHttp), c, k);
    }
  }

  /** Loading any object that has the saved items. */
  lemma SavedHttpLoads(j: Json, c: HttpCfg, d: HttpCfg, defaultUrl: string)
    requires HasHttp(j, c, d, defaultUrl) && ValidHttp(c) && ValidHttp(d)
    ensures LoadHttp(j, d, defaultUrl) == Restored(c, d, defaultUrl)
  {
    if SavedAsDefault(c, defaultUrl) {
      LoadsAs(j, d, true, true, d, defaultUrl);
    } else {
      LoadsAs(j, c, c.useHttpRuuvi, c.useHttp, d, defaultUrl);
    }
  }

  // ---------- results ----------

  lemma RestoredAsTwice(c: HttpCfg, ruuvi: bool, custom: bool, d: HttpCfg, defaultUrl: string)
    requires !SavedAsDefault(c.(useHttpRuuvi := ruuvi, useHttp := custom), defaultUrl)
    ensures var r := RestoredAs(c, ruuvi, custom, LoadedAuth(c, custom, d), defaultUrl);
            Restored(r, d, defaultUrl) == r
  {
    var r := RestoredAs(c, ruuvi, custom, LoadedAuth(c, custom, d), defaultUrl);
    if custom {
      AuthRestoredTwice(c.authType, c.auth, d.auth);
    }
  }

  /** Loading a configuration that was saved twice gives the same as loading it once. */
  lemma HttpIdempotent(c: HttpCfg, d: HttpCfg, defaultUrl: string)
    ensures Restored(Restored(c, d, defaultUrl), d, defaultUrl) == Restored(c, d, defaultUrl)
  {
    if SavedAsDefault(c, defaultUrl) {
      if !Legacy(d, defaultUrl) {
        RestoredAsTwice(d, true, true, d, defaultUrl);
      }
    } else {
      RestoredAsTwice(c, c.useHttpRuuvi, c.useHttp, d, defaultUrl);
    }
  }

  /** Where reports go: the legacy shape counts as Ruuvi. */
  predicate PostsToRuuvi(c: HttpCfg, defaultUrl: string) {
    c.useHttpRuuvi || (c.useHttp && Legacy(c, defaultUrl))
  }

  predicate PostsToCustom(c: HttpCfg, defaultUrl: string) {
    c.useHttp && !Legacy(c, defaultUrl)
  }

  lemma RestoredTargets(c: HttpCfg, ruuvi: bool, custom: bool, auth: Memory, defaultUrl: string)
    ensures var r := RestoredAs(c, ruuvi, custom, auth, defaultUrl);
            && PostsToRuuvi(r, defaultUrl) == (ruuvi || (custom && Legacy(c, defaultUrl)))
            && PostsToCustom(r, defaultUrl) == (custom && !Legacy(c, defaultUrl))
  {
  }

  /** Saving and loading keep the targets, unless the configuration is saved as the default one and the default itself
      does not have the legacy shape: then a custom target appears. The hard-coded default has it. */
  lemma TargetsKeptIff(c: HttpCfg, d: HttpCfg, defaultUrl: string)
    ensures var r := Restored(c, d, defaultUrl);
            && PostsToRuuvi(r, defaultUrl) == PostsToRuuvi(c, defaultUrl)
            && (PostsToCustom(r, defaultUrl) == PostsToCustom(c, defaultUrl)
                <==> !SavedAsDefault(c, defaultUrl) || Legacy(d, defaultUrl))
  {
    if SavedAsDefault(c, defaultUrl) {
      RestoredTargets(d, true, true, LoadedAuth(d, true, d), defaultUrl);
    } else {
      RestoredTargets(c, c.useHttpRuuvi, c.useHttp, LoadedAuth(c, c.useHttp, d), defaultUrl);
    }
  }

  /** The firmware's comparison of two HTTP configurations. */
  predicate HttpSame(a: HttpCfg, b: HttpCfg) {
    a.(auth := b.auth) == b && AuthText(a.authType, a.auth) == AuthText(b.authType, b.auth)
  }

  predicate SameParams(a: HttpCfg, b: HttpCfg) {
    a.(useHttpRuuvi := b.useHttpRuuvi, useHttp := b.useHttp, auth := b.auth) == b
  }

  /** With a custom target: it is not saved as the default, its period has 16 bits and its credentials fit. With Ruuvi
      alone: all else is as in a default of the legacy shape,
      with its period cut. With neither: the credentials read as the default's. */
  predicate HttpSurvives(c: HttpCfg, d: HttpCfg, defaultUrl: string) {
    if c.useHttp then !Legacy(c, defaultUrl) && c.period < 0x1_0000 && AuthFits(c.authType, c.auth)
    else if c.useHttpRuuvi then Legacy(d, defaultUrl) && SameParams(c, d.(period := Restored32(d.period)))
    else c.period < 0x1_0000 && AuthText(c.authType, c.auth) == AuthText(c.authType, d.auth)
  }

  lemma CustomHttpSurvivesIff(c: HttpCfg, d: HttpCfg, defaultUrl: string)
    requires c.useHttp
    ensures HttpSame(Restored(c, d, defaultUrl), c) <==> HttpSurvives(c, d, defaultUrl)
  {
    var r := Restored(c, d, defaultUrl);
    if !SavedAsDefault(c, defaultUrl) {
      RestoredAuthText(c.authType, c.auth, d.auth);
    } else if Legacy(d, defaultUrl) {
      assert !r.useHttp;
    } else {
      assert !Legacy(r, defaultUrl) && Legacy(c, defaultUrl);
    }
  }

  lemma RuuviHttpSurvivesIff(c: HttpCfg, d: HttpCfg, defaultUrl: string)
    requires c.useHttpRuuvi && !c.useHttp
    ensures HttpSame(Restored(c, d, defaultUrl), c) <==> HttpSurvives(c, d, defaultUrl)
  {
    var r := Restored(c, d, defaultUrl);
    if !Legacy(d, defaultUrl) {
      assert r.useHttp;
    } else {
      assert r == d.(useHttpRuuvi := true, useHttp := false, period := Restored32(d.period), auth := r.auth);
    }
  }

  /** Exactly then saving and loading keep the configuration, as far as the firmware compares it. */
  lemma HttpSurvivesIff(c: HttpCfg, d: HttpCfg, defaultUrl: string)
    ensures HttpSame(Restored(c, d, defaultUrl), c) <==> HttpSurvives(c, d, defaultUrl)
  {
    if c.useHttp {
      CustomHttpSurvivesIff(c, d, defaultUrl);
    } else if c.useHttpRuuvi {
      RuuviHttpSurvivesIff(c, d, defaultUrl);
    }
  }
}
