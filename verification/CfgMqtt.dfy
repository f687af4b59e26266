/** Saving and loading the MQTT settings. */
module CfgMqtt {
  import opened CfgJson

  datatype MqttFormat = Raw | RawAndDecoded | Decoded

  datatype MqttCfg = MqttCfg(use: bool, disableRetained: bool, sslClient: bool, sslServer: bool, transport: string,
                             format: MqttFormat, server: string, port: nat, interval: nat, prefix: string,
                             clientId: string, user: string, pass: string)

  const TRANSPORT_SIZE: nat := 8
  const SERVER_SIZE: nat := 256
  const PREFIX_SIZE: nat := 257
  const CLIENT_ID_SIZE: nat := 51
  const USER_SIZE: nat := 129
  const PASS_SIZE: nat := 257

  ghost predicate ValidMqtt(c: MqttCfg) {
    && |c.transport| < TRANSPORT_SIZE && |c.server| < SERVER_SIZE && c.port < 0x1_0000
    && |c.prefix| < PREFIX_SIZE && |c.clientId| < CLIENT_ID_SIZE && |c.user| < USER_SIZE && |c.pass| < PASS_SIZE
  }

  function FormatName(f: MqttFormat): string {
    match f
    case Raw => "ruuvi_raw"
    case RawAndDecoded => "ruuvi_raw_and_decoded"
    case Decoded => "ruuvi_decoded"
  }

  function ReadFormat(s: string): MqttFormat {
    var t := Cut(s, FORMAT_SIZE);
    if t == "ruuvi_raw_and_decoded" then RawAndDecoded else if t == "ruuvi_decoded" then Decoded else Raw
  }

  lemma FormatReadsBack(f: MqttFormat)
    ensures ReadFormat(FormatName(f)) == f
  {
  }

  // ---------- saving and loading ----------

  function SaveBroker(j: Json, c: MqttCfg): Json {
    j[Mqtt(UseMqtt) := Flag(c.use)][Mqtt(DisableRetained) := Flag(c.disableRetained)]
     [Mqtt(Transport) := Text(c.transport)][Mqtt(MqttFormat) := Text(FormatName(c.format))]
     [Mqtt(Server) := Text(c.server)][Mqtt(Port) := Num(c.port)][Mqtt(SendingInterval) := Num(c.interval)]
  }

  function SaveIdentity(j: Json, c: MqttCfg): Json {
    j[Mqtt(Prefix) := Text(c.prefix)][Mqtt(ClientId) := Text(c.clientId)][Mqtt(User) := Text(c.user)]
     [Mqtt(Pass) := Text(c.pass)][Mqtt(MqttSslClient) := Flag(c.sslClient)][Mqtt(MqttSslServer) := Flag(c.sslServer)]
  }

  function SaveMqtt(j: Json, c: MqttCfg): Json {
    SaveIdentity(SaveBroker(j, c), c)
  }

  function LoadBroker(j: Json, before: MqttCfg): MqttCfg {
    before.(use := BoolOr(j, Mqtt(UseMqtt), before.use),
            disableRetained := BoolOr(j, Mqtt(DisableRetained), before.disableRetained),
            transport := TextOr(j, Mqtt(Transport), TRANSPORT_SIZE, before.transport),
            format := if HasText(j, Mqtt(MqttFormat)) then ReadFormat(j[Mqtt(MqttFormat)].text) else Raw,
            server := TextOr(j, Mqtt(Server), SERVER_SIZE, before.server),
            port := Uint16Or(j, Mqtt(Port), before.port),
            interval := Uint32Or(j, Mqtt(SendingInterval), before.interval))
  }

  /** A missing or empty text is replaced by the default. */
  function TextOrDefault(j: Json, k: Key, size: nat, default: string): string
    requires size > 0
  {
    var t := TextOr(j, k, size, default);
    if t == "" then default else t
  }

  function LoadIdentity(j: Json, before: MqttCfg, d: MqttCfg): MqttCfg {
    before.(prefix := TextOrDefault(j, Mqtt(Prefix), PREFIX_SIZE, d.prefix),
            clientId := TextOrDefault(j, Mqtt(ClientId), CLIENT_ID_SIZE, d.clientId),
            user := TextOr(j, Mqtt(User), USER_SIZE, before.user),
            pass := TextOr(j, Mqtt(Pass), PASS_SIZE, before.pass),
            sslClient := if before.use then BoolOr(j, Mqtt(MqttSslClient), before.sslClient) else before.sslClient,
            sslServer := if before.use then BoolOr(j, Mqtt(MqttSslServer), before.sslServer) else before.sslServer)
  }

  function LoadMqtt(j: Json, before: MqttCfg, d: MqttCfg): MqttCfg {
    LoadIdentity(j, LoadBroker(j, before), d)
  }

  // ---------- what saved settings are loaded as ----------

  predicate HasBroker(j: Json, c: MqttCfg) {
    && Has(j, Mqtt(UseMqtt), Flag(c.use)) && Has(j, Mqtt(DisableRetained), Flag(c.disableRetained))
    && Has(j, Mqtt(Transport), Text(c.transport))
    && HasText(j, Mqtt(MqttFormat)) && ReadFormat(j[Mqtt(MqttFormat)].text) == c.format
    && Has(j, Mqtt(Server), Text(c.server)) && Has(j, Mqtt(Port), Num(c.port))
    && Has(j, Mqtt(SendingInterval), Num(c.interval))
  }

  predicate HasIdentity(j: Json, c: MqttCfg) {
    && Has(j, Mqtt(Prefix), Text(c.prefix)) && Has(j, Mqtt(ClientId), Text(c.clientId))
    && Has(j, Mqtt(User), Text(c.user)) && Has(j, Mqtt(Pass), Text(c.pass))
    && Has(j, Mqtt(MqttSslClient), Flag(c.sslClient)) && Has(j, Mqtt(MqttSslServer), Flag(c.sslServer))
  }

  predicate HasMqtt(j: Json, c: MqttCfg) {
    HasBroker(j, c) && HasIdentity(j, c)
  }

  lemma SaveBrokerHas(j: Json, c: MqttCfg)
    ensures HasBroker(SaveBroker(j, c), c)
  {
    FormatReadsBack(c.format);
  }

  lemma SaveIdentityHas(j: Json, c: MqttCfg)
    ensures HasIdentity(SaveIdentity(j, c), c)
  {
  }

  lemma SaveIdentityKeeps(j: Json, c: MqttCfg)
    requires HasBroker(j, c)
    ensures HasBroker(SaveIdentity(j, c), c)
  {
  }

  lemma SaveMqttHas(j: Json, c: MqttCfg)
    ensures HasMqtt(SaveMqtt(j, c), c)
  {
    SaveBrokerHas(j, c);
    SaveIdentityHas(SaveBroker(j, c), c);
    SaveIdentityKeeps(SaveBroker(j, c), c);
  }

  lemma MqttKept(j: Json, j': Json, c: MqttCfg)
    requires HasMqtt(j, c) && forall m :: Keeps(j, j', Mqtt(m))
    ensures HasMqtt(j', c)
  {
  }

  lemma SavedMqttStays(j: Json, j': Json, c: MqttCfg)
    requires forall m :: Keeps(SaveMqtt(j, c), j', Mqtt(m))
    ensures HasMqtt(j', c)
  {
    SaveMqttHas(j, c);
    MqttKept(SaveMqtt(j, c), j', c);
  }

  lemma SaveMqttKeeps(j: Json, c: MqttCfg, k: Key)
    requires !k.Mqtt?
    ensures Keeps(j, SaveMqtt(j, c), k)
  {
    assert Keeps(j, SaveBroker(j, c), k);
  }

  function OrDefault(s: string, default: string): string {
    if s == "" then default else s
  }

  function RestoredMqtt(c: MqttCfg, d: MqttCfg): MqttCfg {
    c.(interval := Restored32(c.interval), prefix := OrDefault(c.prefix, d.prefix),
       clientId := OrDefault(c.clientId, d.clientId),
       sslClient := if c.use then c.sslClient else d.sslClient, sslServer := if c.use then c.sslServer else d.sslServer)
  }

  lemma BrokerLoads(j: Json, c: MqttCfg, before: MqttCfg)
    requires HasBroker(j, c) && ValidMqtt(c)
    ensures LoadBroker(j, before)
         == before.(use := c.use, disableRetained := c.disableRetained, transport := c.transport, format := c.format,
                    server := c.server, port := c.port, interval := Restored32(c.interval))
  {
    Uint32SurvivesIff(j, Mqtt(SendingInterval), c.interval, before.interval);
  }

  lemma IdentityLoads(j: Json, c: MqttCfg, before: MqttCfg, d: MqttCfg)
    requires HasIdentity(j, c) && ValidMqtt(c) && before.use == c.use
    ensures LoadIdentity(j, before, d)
         == before.(prefix := OrDefault(c.prefix, d.prefix), clientId := OrDefault(c.clientId, d.clientId),
                    user := c.user, pass := c.pass, sslClient := if c.use then c.sslClient else before.sslClient,
                    sslServer := if c.use then c.sslServer else before.sslServer)
  {
  }

  lemma SavedMqttLoads(j: Json, c: MqttCfg, d: MqttCfg)
    requires HasMqtt(j, c) && ValidMqtt(c)
    ensures LoadMqtt(j, d, d) == RestoredMqtt(c, d)
  {
    BrokerLoads(j, c, d);
    IdentityLoads(j, c, LoadBroker(j, d), d);
  }

  // ---------- results ----------

  lemma MqttIdempotent(c: MqttCfg, d: MqttCfg)
    ensures RestoredMqtt(RestoredMqtt(c, d), d) == RestoredMqtt(c, d)
  {
  }

  /** The interval has 16 bits, an empty prefix or client id is the default one, and the certificate flags of unused
      settings are the default ones. */
  predicate MqttSurvives(c: MqttCfg, d: MqttCfg) {
    && c.interval < 0x1_0000 && (c.prefix == "" ==> d.prefix == "") && (c.clientId == "" ==> d.clientId == "")
    && (!c.use ==> c.sslClient == d.sslClient && c.sslServer == d.sslServer)
  }

  /** Exactly then saving and loading keep the settings. */
  lemma MqttSurvivesIff(c: MqttCfg, d: MqttCfg)
    ensures RestoredMqtt(c, d) == c <==> MqttSurvives(c, d)
  {
  }
}
