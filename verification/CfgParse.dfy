/** Loading a JSON object over a configuration that is changed in place, and comparing configurations. */
module CfgParse {
  import opened Lists
  import opened CfgJson
  import opened CfgAuth
  import CfgHttp
  import CfgRemote
  import CfgMqtt
  import CfgLan
  import CfgNtp
  import CfgScan
  import CfgUpdate
  import CfgModel

  class GwCfg {
    var remote: CfgRemote.RemoteCfg
    var http: CfgHttp.HttpCfg
    var stat: CfgUpdate.StatCfg
    var mqtt: CfgMqtt.MqttCfg
    var lan: CfgLan.LanCfg
    var update: CfgUpdate.UpdateCfg
    var ntp: CfgNtp.NtpCfg
    var scan: CfgScan.ScanCfg
    var companyId: nat
    var companyUse: bool
    var allowListed: bool
    var coordinates: string
    var filterCount: nat
    const filterMacs: array<Mac>

    ghost function Filter(): CfgScan.FilterCfg
      reads `companyId, `companyUse, `allowListed, `coordinates, `filterCount, filterMacs
    {
      CfgScan.FilterCfg(companyId, companyUse, allowListed, filterCount, filterMacs[..], coordinates)
    }

    ghost function View(): CfgModel.Cfg
      reads this, filterMacs
    {
      CfgModel.Cfg(remote, http, stat, mqtt, lan, update, ntp, scan, Filter())
    }

    /** A copy of the defaults. */
    constructor (d: CfgModel.Cfg)
      ensures View() == d && fresh(filterMacs)
    {
      remote, http, stat, mqtt, lan := d.remote, d.http, d.stat, d.mqtt, d.lan;
      update, ntp, scan := d.update, d.ntp, d.scan;
      companyId, companyUse, allowListed := d.filter.companyId, d.filter.companyUse, d.filter.allowListed;
      coordinates, filterCount := d.filter.coordinates, d.filter.count;
      filterMacs := new Mac[|d.filter.macs|](i requires 0 <= i < |d.filter.macs| => d.filter.macs[i]);
    }

    // ---------- HTTP ----------

    method ParseHttpAuth(j: Json)
      modifies this`http
      ensures http == old(http).(auth := CfgHttp.LoadAuth(j, old(http).authType, old(http).auth))
    {
      var auth := http.auth;
      match http.authType {
        case NoAuth =>
        case Basic =>
          auth := StoreText(j, Http(HttpUser), auth, 0, USER_SIZE);
          auth := StoreText(j, Http(HttpPass), auth, USER_SIZE, USER_SIZE);
        case Bearer =>
          auth := StoreText(j, Http(HttpBearerToken), auth, 0, AUTH_SIZE);
        case Token =>
          auth := StoreText(j, Http(HttpApiKey), auth, 0, AUTH_SIZE);
        case ApiKey =>
          auth := StoreText(j, Http(HttpApiKey), auth, 0, AUTH_SIZE);
      }
      http := http.(auth := auth);
    }

    method PatchHttpLegacy(defaultUrl: string)
      modifies this`http
      ensures http == CfgHttp.Patched(old(http), defaultUrl)
    {
      if http.format.Ruuvi? && http.authType.NoAuth? && http.url == defaultUrl {
        http := http.(useHttpRuuvi := true);
        http := http.(useHttp := false);
      }
    }

    method ParseHttpTypes(j: Json)
      modifies this`http
      ensures http == CfgHttp.LoadTypes(j, old(http))
    {
      var useHttpRuuvi := BoolOr(j, Http(UseHttpRuuvi), http.useHttpRuuvi);
      var useHttp := BoolOr(j, Http(UseHttp), http.useHttp);
      var format := http.format;
      if HasText(j, Http(HttpDataFormat)) {
        format := CfgHttp.ReadFormat(j[Http(HttpDataFormat)].text);
      }
      var authType := http.authType;
      if HasText(j, Http(HttpAuth)) {
        authType := ReadAuthType(j[Http(HttpAuth)].text);
      }
      var url := TextOr(j, Http(HttpUrl), URL_SIZE, http.url);
      http := http.(useHttpRuuvi := useHttpRuuvi, useHttp := useHttp, format := format, authType := authType,
                    url := url);
    }

    method ParseHttpRest(j: Json)
      modifies this`http
      ensures http == CfgHttp.LoadRest(j, old(http))
    {
      var c := http;
      c := c.(period := Uint32Or(j, Http(HttpPeriod), c.period));
      c := c.(extraPath := BoolOr(j, Http(ExtraPath), c.extraPath));
      c := c.(extraQuery := BoolOr(j, Http(ExtraQuery), c.extraQuery));
      c := c.(extraHeaders := BoolOr(j, Http(ExtraHeaders), c.extraHeaders));
      c := c.(sslClient := BoolOr(j, Http(HttpSslClient), c.sslClient));
      c := c.(sslServer := BoolOr(j, Http(HttpSslServer), c.sslServer));
      http := c;
    }

    method ParseHttp(j: Json, defaultUrl: string)
      modifies this`http
      ensures http == CfgHttp.LoadHttp(j, old(http), defaultUrl)
    {
      ParseHttpTypes(j);
      if http.useHttp {
        ParseHttpAuth(j);
        PatchHttpLegacy(defaultUrl);
      }
      ParseHttpRest(j);
    }

    // ---------- remote configuration ----------

    method ParseRemoteAuth(j: Json)
      modifies this`remote
      ensures remote == CfgRemote.LoadRemoteAuth(j, old(remote))
    {
      if !HasText(j, Remote(AuthKind)) {
        return;
      }
      var t := CfgRemote.ReadRemoteAuthType(j[Remote(AuthKind)].text);
      var auth := remote.auth;
      if remote.authType != t {
        auth := Repeat('\0', AUTH_SIZE);
      }
      if t.Basic? {
        auth := StoreText(j, Remote(AuthUser), auth, 0, USER_SIZE);
        auth := StoreText(j, Remote(AuthPass), auth, USER_SIZE, USER_SIZE);
      } else if t.Bearer? {
        auth := StoreText(j, Remote(AuthBearer), auth, 0, AUTH_SIZE);
      }
      remote := remote.(authType := t, auth := auth);
    }

    method ParseRemote(j: Json)
      modifies this`remote
      ensures remote == CfgRemote.LoadRemote(j, old(remote))
    {
      remote := remote.(use := BoolOr(j, Remote(CfgUse), remote.use));
      remote := remote.(url := TextOr(j, Remote(CfgUrl), URL_SIZE, remote.url));
      ParseRemoteAuth(j);
      remote := remote.(sslClient := BoolOr(j, Remote(CfgSslClient), remote.sslClient));
      remote := remote.(sslServer := BoolOr(j, Remote(CfgSslServer), remote.sslServer));
      remote := remote.(refresh := Uint16Or(j, Remote(RefreshInterval), remote.refresh));
    }

    // ---------- statistics, MQTT ----------

    method ParseHttpStat(j: Json)
      modifies this`stat
      ensures stat == CfgUpdate.LoadStat(j, old(stat))
    {
      var c := stat;
      c := c.(use := BoolOr(j, HttpStat(UseHttpStat), c.use));
      c := c.(url := TextOr(j, HttpStat(StatUrl), URL_SIZE, c.url));
      c := c.(user := TextOr(j, HttpStat(StatUser), USER_SIZE, c.user));
      c := c.(pass := TextOr(j, HttpStat(StatPass), USER_SIZE, c.pass));
      if c.use {
        c := c.(sslClient := BoolOr(j, HttpStat(StatSslClient), c.sslClient));
        c := c.(sslServer := BoolOr(j, HttpStat(StatSslServer), c.sslServer));
      }
      stat := c;
    }

    method ParseBroker(j: Json)
      modifies this`mqtt
      ensures mqtt == CfgMqtt.LoadBroker(j, old(mqtt))
    {
      var c := mqtt;
      c := c.(use := BoolOr(j, Mqtt(UseMqtt), c.use));
      c := c.(disableRetained := BoolOr(j, Mqtt(DisableRetained), c.disableRetained));
      c := c.(transport := TextOr(j, Mqtt(Transport), CfgMqtt.TRANSPORT_SIZE, c.transport));
      var format := CfgMqtt.Raw;
      if HasText(j, Mqtt(MqttFormat)) {
        format := CfgMqtt.ReadFormat(j[Mqtt(MqttFormat)].text);
      }
      c := c.(format := format);
      c := c.(server := TextOr(j, Mqtt(Server), CfgMqtt.SERVER_SIZE, c.server));
      c := c.(port := Uint16Or(j, Mqtt(Port), c.port));
      c := c.(interval := Uint32Or(j, Mqtt(SendingInterval), c.interval));
      mqtt := c;
    }

    method ParseIdentity(j: Json, d: CfgMqtt.MqttCfg)
      modifies this`mqtt
      ensures mqtt == CfgMqtt.LoadIdentity(j, old(mqtt), d)
    {
      var prefix := TextOr(j, Mqtt(Prefix), CfgMqtt.PREFIX_SIZE, d.prefix);
      if prefix == "" {
        prefix := d.prefix;
      }
      var clientId := TextOr(j, Mqtt(ClientId), CfgMqtt.CLIENT_ID_SIZE, d.clientId);
      if clientId == "" {
        clientId := d.clientId;
      }
      var c := mqtt.(prefix := prefix, clientId := clientId);
      c := c.(user := TextOr(j, Mqtt(User), CfgMqtt.USER_SIZE, c.user));
      c := c.(pass := TextOr(j, Mqtt(Pass), CfgMqtt.PASS_SIZE, c.pass));
      if c.use {
        c := c.(sslClient := BoolOr(j, Mqtt(MqttSslClient), c.sslClient));
        c := c.(sslServer := BoolOr(j, Mqtt(MqttSslServer), c.sslServer));
      }
      mqtt := c;
    }

    method ParseMqtt(j: Json, d: CfgMqtt.MqttCfg)
      modifies this`mqtt
      ensures mqtt == CfgMqtt.LoadMqtt(j, old(mqtt), d)
    {
      ParseBroker(j);
      ParseIdentity(j, d);
    }

    // ---------- LAN, updates, time ----------

    method ParseLanUser(j: Json, d: CfgLan.LanCfg, z: CfgLan.Sizes)
      modifies this`lan
      ensures lan == CfgLan.LoadUser(j, old(lan), d, z)
    {
      if !(Lan(LanType) in j && j[Lan(LanType)].LanTypeName?) {
        return;
      }
      var c := lan.(kind := j[Lan(LanType)].kind);
      match c.kind {
        case KindBasic | KindDigest | KindRuuvi =>
          c := c.(user := TextOr(j, Lan(LanUser), z.user, c.user));
          c := c.(pass := TextOr(j, Lan(LanPass), z.pass, c.pass));
        case KindDefault =>
          c := c.(user := d.user, pass := d.pass);
        case KindAllow | KindDeny | KindBearer =>
          c := c.(user := "", pass := "");
      }
      if c.kind.KindRuuvi? && d.user == c.user && d.pass == c.pass {
        c := c.(kind := KindDefault);
      }
      lan := c;
    }

    method ParseLanAuth(j: Json, d: CfgLan.LanCfg, z: CfgLan.Sizes)
      modifies this`lan
      ensures lan == CfgLan.LoadLan(j, old(lan), d, z)
    {
      ParseLanUser(j, d, z);
      lan := lan.(apiKey := TextOr(j, Lan(LanApiKey), z.key, lan.apiKey));
      lan := lan.(apiKeyRw := TextOr(j, Lan(LanApiKeyRw), z.key, lan.apiKeyRw));
    }

    method ParseUpdate(j: Json)
      modifies this`update
      ensures update == CfgUpdate.LoadUpdate(j, old(update))
    {
      var c := update;
      if HasText(j, Update(Cycle)) {
        c := c.(cycle := CfgUpdate.ReadCycle(j[Update(Cycle)].text));
      }
      c := c.(weekdays := Uint8Or(j, Update(Weekdays), c.weekdays));
      c := c.(from := Uint8Or(j, Update(IntervalFrom), c.from));
      c := c.(to := Uint8Or(j, Update(IntervalTo), c.to));
      c := c.(tzOffset := Int8Or(j, Update(TzOffset), c.tzOffset));
      c := c.(fwUpdateUrl := TextOr(j, Update(FwUpdateUrl), URL_SIZE, c.fwUpdateUrl));
      update := c;
    }

    method ParseNtp(j: Json)
      modifies this`ntp
      ensures ntp == CfgNtp.LoadNtp(j, old(ntp))
    {
      var c := ntp;
      c := c.(use := BoolOr(j, Ntp(NtpUse), c.use));
      if c.use {
        c := c.(useDhcp := BoolOr(j, Ntp(NtpUseDhcp), c.useDhcp));
        if !c.useDhcp {
          c := c.(server1 := TextOr(j, Ntp(Server1), CfgNtp.SERVER_SIZE, c.server1));
          c := c.(server2 := TextOr(j, Ntp(Server2), CfgNtp.SERVER_SIZE, c.server2));
          c := c.(server3 := TextOr(j, Ntp(Server3), CfgNtp.SERVER_SIZE, c.server3));
          c := c.(server4 := TextOr(j, Ntp(Server4), CfgNtp.SERVER_SIZE, c.server4));
        }
      } else {
        c := c.(useDhcp := false);
      }
      ntp := c;
    }

    // ---------- scanning and filtering ----------

    method ParseScanItems(j: Json) returns (converting: bool)
      modifies this`scan
      ensures scan == CfgScan.LoadScanItems(j, old(scan))
      ensures converting == CfgScan.HasFlag(j, Scan(ExtendedPayload))
    {
      var codedPhy := BoolOr(j, Scan(CodedPhy), scan.codedPhy);
      var phy1M := BoolOr(j, Scan(Phy1M), scan.phy1M);
      converting := CfgScan.HasFlag(j, Scan(ExtendedPayload));
      var phy2M := BoolOr(j, Scan(ExtendedPayload), scan.phy2M);
      phy2M := BoolOr(j, Scan(Phy2M), phy2M);
      var channel37 := BoolOr(j, Scan(Channel37), scan.channel37);
      var channel38 := BoolOr(j, Scan(Channel38), scan.channel38);
      var channel39 := BoolOr(j, Scan(Channel39), scan.channel39);
      scan := scan.(codedPhy := codedPhy, phy1M := phy1M, phy2M := phy2M,
                    channel37 := channel37, channel38 := channel38, channel39 := channel39);
    }

    method LooksDefault(c: CfgScan.ScanCfg) returns (looksDefault: bool)
      ensures looksDefault == CfgScan.LooksDefault(c)
    {
      looksDefault := true;
      if c.codedPhy || !c.phy1M || !c.phy2M {
        looksDefault := false;
      }
      if !c.channel37 || !c.channel38 || !c.channel39 {
        looksDefault := false;
      }
    }

    method ParseScan(j: Json, d: CfgScan.ScanCfg)
      modifies this`scan
      ensures scan == CfgScan.LoadScan(j, old(scan), d)
    {
      var defaultExists := CfgScan.HasFlag(j, Scan(ScanDefault));
      scan := scan.(isDefault := BoolOr(j, Scan(ScanDefault), scan.isDefault));
      if scan.isDefault {
        scan := d;
        return;
      }
      var converting := ParseScanItems(j);
      if converting && !defaultExists {
        var looksDefault := LooksDefault(scan);
        scan := if looksDefault then d.(isDefault := true) else scan.(isDefault := false);
      }
    }

    /** `fits` is false if the next thing to do is not defined: writing behind the end of the array. */
    method ParseMacList(names: seq<Option<Mac>>) returns (fits: bool)
      modifies this`filterCount, filterMacs
      ensures fits <==> CfgScan.MacsFit(names, filterMacs.Length)
      ensures fits ==>
                filterMacs[..] == CfgScan.LoadMacs(old(filterMacs[..]), names, |names|) && filterCount == |names|
    {
      var arrIdx := 0;
      for i := 0 to |names|
        invariant arrIdx == i
        invariant CfgScan.MacsFit(names[..i], filterMacs.Length)
        invariant filterMacs[..] == CfgScan.LoadMacs(old(filterMacs[..]), names, i)
      {
        if names[i].Some? {
          if arrIdx >= filterMacs.Length {
            return false;
          }
          filterMacs[arrIdx] := names[i].value;
        }
        arrIdx := arrIdx + 1;
      }
      assert names[..|names|] == names;
      filterCount := arrIdx;
      fits := true;
    }

    method ParseFilter(j: Json) returns (fits: bool)
      requires filterMacs.Length == CfgScan.MAX_NUM_SENSORS
      modifies this`companyId, this`companyUse, this`allowListed, this`coordinates, this`filterCount, filterMacs
      ensures fits <==> CfgScan.ListFits(j)
      ensures fits ==> Filter() == CfgScan.LoadFilter(j, old(Filter()))
    {
      companyId := Uint16Or(j, Scan(CompanyId), companyId);
      companyUse := BoolOr(j, Scan(CompanyUse), companyUse);
      allowListed := BoolOr(j, Scan(AllowListed), allowListed);
      if Scan(FilterList) in j && j[Scan(FilterList)].MacNames? {
        fits := ParseMacList(j[Scan(FilterList)].macs);
        if !fits {
          return;
        }
      }
      fits := true;
      coordinates := TextOr(j, Scan(Coordinates), CfgScan.COORDINATES_SIZE, coordinates);
    }

    // ---------- everything ----------

    method ParseTargets(j: Json, f: CfgModel.Firmware)
      modifies this`remote, this`http, this`stat, this`mqtt
      ensures remote == CfgRemote.LoadRemote(j, old(remote)) && http == CfgHttp.LoadHttp(j, old(http), f.defaultUrl)
      ensures stat == CfgUpdate.LoadStat(j, old(stat)) && mqtt == CfgMqtt.LoadMqtt(j, old(mqtt), f.d.mqtt)
    {
      ParseRemote(j);
      ParseHttp(j, f.defaultUrl);
      ParseHttpStat(j);
      ParseMqtt(j, f.d.mqtt);
    }

    method ParseSettings(j: Json, f: CfgModel.Firmware)
      modifies this`lan, this`update, this`ntp, this`scan
      ensures lan == CfgLan.LoadLan(j, old(lan), f.d.lan, f.z) && update == CfgUpdate.LoadUpdate(j, old(update))
      ensures ntp == CfgNtp.LoadNtp(j, old(ntp)) && scan == CfgScan.LoadScan(j, old(scan), f.d.scan)
    {
      ParseLanAuth(j, f.d.lan, f.z);
      ParseUpdate(j);
      ParseNtp(j);
      ParseScan(j, f.d.scan);
    }

    method ParseRest(j: Json, f: CfgModel.Firmware) returns (fits: bool)
      requires filterMacs.Length == CfgScan.MAX_NUM_SENSORS
      modifies this`lan, this`update, this`ntp, this`scan
      modifies this`companyId, this`companyUse, this`allowListed, this`coordinates, this`filterCount, filterMacs
      ensures lan == CfgLan.LoadLan(j, old(lan), f.d.lan, f.z) && update == CfgUpdate.LoadUpdate(j, old(update))
      ensures ntp == CfgNtp.LoadNtp(j, old(ntp)) && scan == CfgScan.LoadScan(j, old(scan), f.d.scan)
      ensures fits <==> CfgScan.ListFits(j)
      ensures fits ==> Filter() == CfgScan.LoadFilter(j, old(Filter()))
    {
      ghost var filter := Filter();
      ParseSettings(j, f);
      assert Filter() == filter;
      fits := ParseFilter(j);
    }

    method ParseParts(j: Json, f: CfgModel.Firmware) returns (fits: bool)
      requires filterMacs.Length == CfgScan.MAX_NUM_SENSORS
      modifies this, filterMacs
      ensures remote == CfgRemote.LoadRemote(j, old(remote)) && http == CfgHttp.LoadHttp(j, old(http), f.defaultUrl)
      ensures stat == CfgUpdate.LoadStat(j, old(stat)) && mqtt == CfgMqtt.LoadMqtt(j, old(mqtt), f.d.mqtt)
      ensures lan == CfgLan.LoadLan(j, old(lan), f.d.lan, f.z) && update == CfgUpdate.LoadUpdate(j, old(update))
      ensures ntp == CfgNtp.LoadNtp(j, old(ntp)) && scan == CfgScan.LoadScan(j, old(scan), f.d.scan)
      ensures fits <==> CfgScan.ListFits(j)
      ensures fits ==> Filter() == CfgScan.LoadFilter(j, old(Filter()))
    {
      ghost var filter := Filter();
      ParseTargets(j, f);
      assert Filter() == filter;
      fits := ParseRest(j, f);
    }

    /** Loads an object over the defaults, which this configuration is a copy of. */
    method Parse(j: Json, f: CfgModel.Firmware) returns (fits: bool)
      requires View() == f.d && filterMacs.Length == CfgScan.MAX_NUM_SENSORS
      modifies this, filterMacs
      ensures fits <==> CfgScan.ListFits(j)
      ensures fits ==> View() == CfgModel.Load(j, f)
    {
      fits := ParseParts(j, f);
    }
  }

  /** The firmware's loop over the two lists. */
  method CompareMacLists(a: CfgScan.FilterCfg, b: CfgScan.FilterCfg) returns (same: bool)
    requires a.count <= |a.macs| && b.count <= |b.macs|
    ensures same <==> a.macs[..a.count] == b.macs[..b.count]
  {
    if a.count != b.count {
      return false;
    }
    for i := 0 to a.count
      invariant forall k :: 0 <= k < i ==> a.macs[k] == b.macs[k]
    {
      if a.macs[i] != b.macs[i] {
        assert a.macs[..a.count][i] != b.macs[..b.count][i];
        return false;
      }
    }
    same := true;
  }
}
