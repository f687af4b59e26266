/** Generating the JSON object item by item. Adding an item can fail for lack of memory, and then generating fails. */
module CfgGenerate {
  import opened Lists
  import opened CfgJson
  import opened CfgAuth
  import CfgHttp
  import CfgRemote
  import CfgMqtt
  import CfgLan
  import CfgNtp
  import CfgScan
  import CfgUpdate
  import CfgModel

  datatype Outcome = Done | NoMemory {
    predicate IsFailure() {
      NoMemory?
    }

    function PropagateFailure(): Outcome
      requires IsFailure()
    {
      this
    }
  }

  class JsonObject {
    var items: Json

    constructor ()
      ensures items == map[]
    {
      items := map[];
    }

    method Add(k: Key, v: Value) returns (r: Outcome)
      modifies this
      ensures items == if r.Done? then old(items)[k := v] else old(items)
    {
      r := *;
      if r.Done? {
        items := items[k := v];
      }
    }

    method AddHttpAuth(c: CfgHttp.HttpCfg) returns (r: Outcome)
      modifies this
      ensures r.Done? ==> items == CfgHttp.SaveAuth(old(items), c)
    {
      r := Done;
      :- Add(Http(HttpAuth), Text(AuthName(c.authType)));
      match c.authType
      case NoAuth =>
        return Done;
      case Basic =>
        :- Add(Http(HttpUser), Text(ReadStr(c.auth, 0)));
        r := Add(Http(HttpPass), Text(ReadStr(c.auth, USER_SIZE)));
      case Bearer => r := Add(Http(HttpBearerToken), Text(ReadStr(c.auth, 0)));
      case Token => r := Add(Http(HttpApiKey), Text(ReadStr(c.auth, 0)));
      case ApiKey => r := Add(Http(HttpApiKey), Text(ReadStr(c.auth, 0)));
    }

    method AddHttpParams(c: CfgHttp.HttpCfg) returns (r: Outcome)
      modifies this
      ensures r.Done? ==> items == CfgHttp.SaveParams(old(items), c)
    {
      r := Done;
      :- Add(Http(HttpUrl), Text(c.url));
      :- Add(Http(HttpPeriod), Num(c.period));
      :- Add(Http(HttpDataFormat), Text(CfgHttp.FormatName(c.format)));
      assert items == CfgHttp.SaveTypes(old(items), c);
      :- AddHttpAuth(c);
      :- Add(Http(HttpSslClient), Flag(c.sslClient));
      :- Add(Http(HttpSslServer), Flag(c.sslServer));
      :- Add(Http(ExtraPath), Flag(c.extraPath));
      :- Add(Http(ExtraQuery), Flag(c.extraQuery));
      r := Add(Http(ExtraHeaders), Flag(c.extraHeaders));
    }

    method AddHttpDefault(d: CfgHttp.HttpCfg) returns (r: Outcome)
      modifies this
      ensures r.Done? ==> items == CfgHttp.SaveParams(CfgHttp.SaveTargets(old(items), true, true), d)
    {
      r := Done;
      :- Add(Http(UseHttpRuuvi), Flag(true));
      :- Add(Http(UseHttp), Flag(true));
      r := AddHttpParams(d);
    }

    method AddItemsHttp(c: CfgHttp.HttpCfg, d: CfgHttp.HttpCfg, defaultUrl: string) returns (r: Outcome)
      modifies this
      ensures r.Done? ==> items == CfgHttp.SaveHttp(old(items), c, d, defaultUrl)
    {
      if c.useHttpRuuvi && !c.useHttp {
        r := AddHttpDefault(d);
        return;
      }
      if c.useHttp && c.format.Ruuvi? && c.authType.NoAuth? && c.url == defaultUrl {
        r := AddHttpDefault(d);
        return;
      }
      :- Add(Http(UseHttpRuuvi), Flag(c.useHttpRuuvi));
      :- Add(Http(UseHttp), Flag(c.useHttp));
      r := AddHttpParams(c);
    }

    method AddRemoteAuth(c: CfgRemote.RemoteCfg) returns (r: Outcome)
      modifies this
      ensures r.Done? ==> items == CfgRemote.SaveRemoteAuth(old(items), c)
    {
      r := Done;
      :- Add(Remote(AuthKind), Text(AuthName(c.authType)));
      match c.authType
      case NoAuth =>
        return Done;
      case Basic =>
        :- Add(Remote(AuthUser), Text(ReadStr(c.auth, 0)));
        r := Add(Remote(AuthPass), Text(ReadStr(c.auth, USER_SIZE)));
      case Bearer => r := Add(Remote(AuthBearer), Text(ReadStr(c.auth, 0)));
      case Token => r := Add(Remote(AuthTokenItem), Text(ReadStr(c.auth, 0)));
      case ApiKey => r := Add(Remote(AuthApiKeyItem), Text(ReadStr(c.auth, 0)));
    }

    method AddItemsRemote(c: CfgRemote.RemoteCfg) returns (r: Outcome)
      modifies this
      ensures r.Done? ==> items == CfgRemote.SaveRemote(old(items), c)
    {
      r := Done;
      :- Add(Remote(CfgUse), Flag(c.use));
      :- Add(Remote(CfgUrl), Text(c.url));
      :- AddRemoteAuth(c);
      :- Add(Remote(CfgSslClient), Flag(c.sslClient));
      :- Add(Remote(CfgSslServer), Flag(c.sslServer));
      r := Add(Remote(RefreshInterval), Num(c.refresh));
    }

    method AddItemsHttpStat(c: CfgUpdate.StatCfg) returns (r: Outcome)
      modifies this
      ensures r.Done? ==> items == CfgUpdate.SaveStat(old(items), c)
    {
      r := Done;
      :- Add(HttpStat(UseHttpStat), Flag(c.use));
      :- Add(HttpStat(StatUrl), Text(c.url));
      :- Add(HttpStat(StatUser), Text(c.user));
      :- Add(HttpStat(StatPass), Text(c.pass));
      :- Add(HttpStat(StatSslClient), Flag(c.sslClient));
      r := Add(HttpStat(StatSslServer), Flag(c.sslServer));
    }

    method AddItemsMqtt(c: CfgMqtt.MqttCfg) returns (r: Outcome)
      modifies this
      ensures r.Done? ==> items == CfgMqtt.SaveMqtt(old(items), c)
    {
      r := Done;
      :- Add(Mqtt(UseMqtt), Flag(c.use));
      :- Add(Mqtt(DisableRetained), Flag(c.disableRetained));
      :- Add(Mqtt(Transport), Text(c.transport));
      :- Add(Mqtt(MqttFormat), Text(CfgMqtt.FormatName(c.format)));
      :- Add(Mqtt(Server), Text(c.server));
      :- Add(Mqtt(Port), Num(c.port));
      :- Add(Mqtt(SendingInterval), Num(c.interval));
      :- Add(Mqtt(Prefix), Text(c.prefix));
      :- Add(Mqtt(ClientId), Text(c.clientId));
      :- Add(Mqtt(User), Text(c.user));
      :- Add(Mqtt(Pass), Text(c.pass));
      :- Add(Mqtt(MqttSslClient), Flag(c.sslClient));
      r := Add(Mqtt(MqttSslServer), Flag(c.sslServer));
    }

    method AddItemsLanAuth(c: CfgLan.LanCfg, d: CfgLan.LanCfg) returns (r: Outcome)
      modifies this
      ensures r.Done? ==> items == CfgLan.SaveLan(old(items), c, d)
    {
      r := Done;
      :- Add(Lan(LanType), LanTypeName(CfgLan.ShownKind(c, d)));
      :- Add(Lan(LanUser), Text(c.user));
      if CfgLan.HasPassword(c.kind) {
        r := Done;
        :- Add(Lan(LanPass), Text(c.pass));
      }
      :- Add(Lan(LanApiKey), Text(c.apiKey));
      r := Add(Lan(LanApiKeyRw), Text(c.apiKeyRw));
    }

    method AddItemsUpdate(c: CfgUpdate.UpdateCfg) returns (r: Outcome)
      modifies this
      ensures r.Done? ==> items == CfgUpdate.SaveUpdate(old(items), c)
    {
      r := Done;
      :- Add(Update(Cycle), Text(CfgUpdate.CycleName(c.cycle)));
      :- Add(Update(Weekdays), Num(c.weekdays));
      :- Add(Update(IntervalFrom), Num(c.from));
      :- Add(Update(IntervalTo), Num(c.to));
      :- Add(Update(TzOffset), Num(c.tzOffset));
      r := Add(Update(FwUpdateUrl), Text(c.fwUpdateUrl));
    }

    method AddItemsNtp(c: CfgNtp.NtpCfg) returns (r: Outcome)
      modifies this
      ensures r.Done? ==> items == CfgNtp.SaveNtp(old(items), c)
    {
      r := Done;
      :- Add(Ntp(NtpUse), Flag(c.use));
      :- Add(Ntp(NtpUseDhcp), Flag(c.useDhcp));
      :- Add(Ntp(Server1), Text(c.server1));
      :- Add(Ntp(Server2), Text(c.server2));
      :- Add(Ntp(Server3), Text(c.server3));
      r := Add(Ntp(Server4), Text(c.server4));
    }

    method AddItemsScan(c: CfgScan.ScanCfg) returns (r: Outcome)
      modifies this
      ensures r.Done? ==> items == CfgScan.SaveScan(old(items), c)
    {
      r := Done;
      :- Add(Scan(CodedPhy), Flag(c.codedPhy));
      :- Add(Scan(Phy1M), Flag(c.phy1M));
      :- Add(Scan(Phy2M), Flag(c.phy2M));
      :- Add(Scan(Channel37), Flag(c.channel37));
      :- Add(Scan(Channel38), Flag(c.channel38));
      :- Add(Scan(Channel39), Flag(c.channel39));
      r := Add(Scan(ScanDefault), Flag(c.isDefault));
    }

    /** The list grows name by name inside the object. */
    method AddMacList(macs: seq<Mac>) returns (r: Outcome)
      modifies this
      ensures r.Done? ==> items == old(items)[Scan(FilterList) := MacNames(CfgScan.Names(macs))]
    {
      var names: seq<Option<Mac>> := [];
      :- Add(Scan(FilterList), MacNames(names));
      for i := 0 to |macs|
        invariant names == CfgScan.Names(macs[..i])
        invariant items == old(items)[Scan(FilterList) := MacNames(names)]
      {
        var created: bool := *;
        if !created {
          return NoMemory;
        }
        names := names + [Some(macs[i])];
        items := items[Scan(FilterList) := MacNames(names)];
      }
      assert macs[..|macs|] == macs;
      r := Done;
    }

    method AddItemsFilter(c: CfgScan.FilterCfg) returns (r: Outcome)
      requires c.count <= |c.macs|
      modifies this
      ensures r.Done? ==> items == CfgScan.SaveFilter(old(items), c)
    {
      r := Done;
      :- Add(Scan(CompanyId), Num(c.companyId));
      :- Add(Scan(CompanyUse), Flag(c.companyUse));
      :- Add(Scan(AllowListed), Flag(c.allowListed));
      :- AddMacList(c.macs[..c.count]);
      r := Add(Scan(Coordinates), Text(c.coordinates));
    }
  }

  method GenerateTargets(o: JsonObject, c: CfgModel.Cfg, f: CfgModel.Firmware) returns (r: Outcome)
    requires c.filter.count <= |c.filter.macs| && o.items == map[]
    modifies o
    ensures r.Done? ==> o.items == CfgModel.SaveParts(c, f, 4)
  {
    r := Done;
    :- o.AddItemsRemote(c.remote);
    assert o.items == CfgModel.SaveParts(c, f, 1);
    :- o.AddItemsHttp(c.http, f.d.http, f.defaultUrl);
    assert o.items == CfgModel.SaveParts(c, f, 2);
    :- o.AddItemsHttpStat(c.stat);
    assert o.items == CfgModel.SaveParts(c, f, 3);
    r := o.AddItemsMqtt(c.mqtt);
  }

  method GenerateSettings(o: JsonObject, c: CfgModel.Cfg, f: CfgModel.Firmware) returns (r: Outcome)
    requires c.filter.count <= |c.filter.macs| && o.items == CfgModel.SaveParts(c, f, 4)
    modifies o
    ensures r.Done? ==> o.items == CfgModel.Save(c, f)
  {
    r := Done;
    :- o.AddItemsLanAuth(c.lan, f.d.lan);
    assert o.items == CfgModel.SaveParts(c, f, 5);
    :- o.AddItemsUpdate(c.update);
    assert o.items == CfgModel.SaveParts(c, f, 6);
    :- o.AddItemsNtp(c.ntp);
    assert o.items == CfgModel.SaveParts(c, f, 7);
    :- o.AddItemsScan(c.scan);
    r := o.AddItemsFilter(c.filter);
  }

  /** The object with all parts, for saving. */
  method Generate(c: CfgModel.Cfg, f: CfgModel.Firmware) returns (r: Outcome, j: Json)
    requires c.filter.count <= |c.filter.macs|
    ensures r.Done? ==> j == CfgModel.Save(c, f)
  {
    var o := new JsonObject();
    j := map[];
    r := GenerateTargets(o, c, f);
    if r.Done? {
      r := GenerateSettings(o, c, f);
      j := o.items;
    }
  }
}
