/** The whole configuration, saved as one JSON object and loaded over the defaults. */
module CfgModel {
  import opened CfgJson
  import opened CfgHttp
  import opened CfgRemote
  import opened CfgMqtt
  import opened CfgLan
  import opened CfgNtp
  import opened CfgScan
  import opened CfgUpdate

  datatype Cfg = Cfg(remote: RemoteCfg, http: HttpCfg, stat: StatCfg, mqtt: MqttCfg, lan: LanCfg, update: UpdateCfg,
                     ntp: NtpCfg, scan: ScanCfg, filter: FilterCfg)

  /** What is the same for all configurations of one firmware: the defaults, the URL of the Ruuvi cloud, and the sizes
      of the HTTP server's buffers. */
  datatype Firmware = Firmware(d: Cfg, defaultUrl: string, z: Sizes)

  ghost predicate Valid(c: Cfg, f: Firmware) {
    && ValidRemote(c.remote) && ValidHttp(c.http) && ValidStat(c.stat) && ValidMqtt(c.mqtt) && ValidLan(c.lan, f.z)
    && ValidUpdate(c.update) && ValidNtp(c.ntp) && ValidFilter(c.filter)
  }

  const PARTS: nat := 8

  function PartOf(k: Key): (n: nat)
    ensures 1 <= n <= PARTS
  {
    match k
    case Remote(_) => 1
    case Http(_) => 2
    case HttpStat(_) => 3
    case Mqtt(_) => 4
    case Lan(_) => 5
    case Update(_) => 6
    case Ntp(_) => 7
    case Scan(_) => 8
  }

  function SavePart(j: Json, c: Cfg, f: Firmware, n: nat): Json
    requires 1 <= n <= PARTS && c.filter.count <= |c.filter.macs|
  {
    if n == 1 then SaveRemote(j, c.remote)
    else if n == 2 then SaveHttp(j, c.http, f.d.http, f.defaultUrl)
    else if n == 3 then SaveStat(j, c.stat)
    else if n == 4 then SaveMqtt(j, c.mqtt)
    else if n == 5 then SaveLan(j, c.lan, f.d.lan)
    else if n == 6 then SaveUpdate(j, c.update)
    else if n == 7 then SaveNtp(j, c.ntp)
    else SaveFilter(SaveScan(j, c.scan), c.filter)
  }

  function SaveParts(c: Cfg, f: Firmware, n: nat): Json
    requires n <= PARTS && c.filter.count <= |c.filter.macs|
  {
    if n == 0 then map[] else SavePart(SaveParts(c, f, n - 1), c, f, n)
  }

  function Save(c: Cfg, f: Firmware): Json
    requires c.filter.count <= |c.filter.macs|
  {
    SaveParts(c, f, PARTS)
  }

  function Load(j: Json, f: Firmware): Cfg
    requires |f.d.filter.macs| == MAX_NUM_SENSORS
  {
    var d := f.d;
    Cfg(LoadRemote(j, d.remote), LoadHttp(j, d.http, f.defaultUrl), LoadStat(j, d.stat), LoadMqtt(j, d.mqtt, d.mqtt),
        LoadLan(j, d.lan, d.lan, f.z), LoadUpdate(j, d.update), LoadNtp(j, d.ntp), LoadScan(j, d.scan, d.scan),
        LoadFilter(j, d.filter))
  }

  // ---------- the parts do not disturb each other ----------

  lemma SavePartKeeps(j: Json, c: Cfg, f: Firmware, n: nat, k: Key)
    requires 1 <= n <= PARTS && c.filter.count <= |c.filter.macs| && PartOf(k) != n
    ensures Keeps(j, SavePart(j, c, f, n), k)
  {
    if n == 1 { SaveRemoteKeeps(j, c.remote, k); }
    else if n == 2 { SaveHttpKeeps(j, c.http, f.d.http, f.defaultUrl, k); }
    else if n == 3 { SaveStatKeeps(j, c.stat, k); }
    else if n == 4 { SaveMqttKeeps(j, c.mqtt, k); }
    else if n == 5 { SaveLanKeeps(j, c.lan, f.d.lan, k); }
    else if n == 6 { SaveUpdateKeeps(j, c.update, k); }
    else if n == 7 { SaveNtpKeeps(j, c.ntp, k); }
    else { SaveScanKeeps(j, c.filter, c.scan, k); }
  }

  lemma {:induction false} LaterPartsKeep(c: Cfg, f: Firmware, n: nat, m: nat, k: Key)
    requires n <= m <= PARTS && c.filter.count <= |c.filter.macs| && PartOf(k) == n
    ensures Keeps(SaveParts(c, f, n), SaveParts(c, f, m), k)
    decreases m - n
  {
    if n < m {
      LaterPartsKeep(c, f, n, m - 1, k);
      SavePartKeeps(SaveParts(c, f, m - 1), c, f, m, k);
    }
  }

  lemma PartKept(c: Cfg, f: Firmware, n: nat)
    requires 1 <= n <= PARTS && c.filter.count <= |c.filter.macs|
    ensures forall k :: PartOf(k) == n ==> Keeps(SaveParts(c, f, n), Save(c, f), k)
  {
    forall k | PartOf(k) == n ensures Keeps(SaveParts(c, f, n), Save(c, f), k) {
      LaterPartsKeep(c, f, n, PARTS, k);
    }
  }

  lemma SaveHasRemote(c: Cfg, f: Firmware)
    requires c.filter.count <= |c.filter.macs|
    ensures HasRemote(Save(c, f), c.remote)
  {
    var j := SaveParts(c, f, 0);
    var j' := SaveRemote(j, c.remote);
    assert j' == SaveParts(c, f, 1);
    PartKept(c, f, 1);
    SaveRemoteHas(j, c.remote);
    RemoteKept(j', Save(c, f), c.remote);
  }

  lemma SaveHasHttp(c: Cfg, f: Firmware)
    requires c.filter.count <= |c.filter.macs|
    ensures HasHttp(Save(c, f), c.http, f.d.http, f.defaultUrl)
  {
    var j := SaveParts(c, f, 1);
    var j' := SaveHttp(j, c.http, f.d.http, f.defaultUrl);
    assert j' == SaveParts(c, f, 2);
    PartKept(c, f, 2);
    SaveHttpHas(j, c.http, f.d.http, f.defaultUrl);
    HttpKept(j', Save(c, f), c.http, f.d.http, f.defaultUrl);
  }

  lemma SaveHasStat(c: Cfg, f: Firmware)
    requires c.filter.count <= |c.filter.macs|
    ensures HasStat(Save(c, f), c.stat)
  {
    var j := SaveParts(c, f, 2);
    var j' := SaveStat(j, c.stat);
    assert j' == SaveParts(c, f, 3);
    PartKept(c, f, 3);
    SaveStatHas(j, c.stat);
    StatKept(j', Save(c, f), c.stat);
  }

  lemma SaveHasMqtt(c: Cfg, f: Firmware)
    requires c.filter.count <= |c.filter.macs|
    ensures HasMqtt(Save(c, f), c.mqtt)
  {
    var j := SaveParts(c, f, 3);
    var j' := SaveMqtt(j, c.mqtt);
    assert j' == SaveParts(c, f, 4);
    PartKept(c, f, 4);
    forall m ensures Keeps(j', Save(c, f), Mqtt(m)) {
      assert PartOf(Mqtt(m)) == 4;
    }
    SavedMqttStays(j, Save(c, f), c.mqtt);
  }

  lemma SaveHasLan(c: Cfg, f: Firmware)
    requires c.filter.count <= |c.filter.macs|
    ensures HasLan(Save(c, f), c.lan, f.d.lan)
  {
    var j := SaveParts(c, f, 4);
    var j' := SaveLan(j, c.lan, f.d.lan);
    assert j' == SaveParts(c, f, 5);
    PartKept(c, f, 5);
    SaveLanHas(j, c.lan, f.d.lan);
    LanKept(j', Save(c, f), c.lan, f.d.lan);
  }

  lemma SaveHasUpdate(c: Cfg, f: Firmware)
    requires c.filter.count <= |c.filter.macs|
    ensures HasUpdate(Save(c, f), c.update)
  {
    var j := SaveParts(c, f, 5);
    var j' := SaveUpdate(j, c.update);
    assert j' == SaveParts(c, f, 6);
    PartKept(c, f, 6);
    SaveUpdateHas(j, c.update);
    UpdateKept(j', Save(c, f), c.update);
  }

  lemma SaveHasNtp(c: Cfg, f: Firmware)
    requires c.filter.count <= |c.filter.macs|
    ensures HasNtp(Save(c, f), c.ntp)
  {
    var j := SaveParts(c, f, 6);
    var j' := SaveNtp(j, c.ntp);
    assert j' == SaveParts(c, f, 7);
    PartKept(c, f, 7);
    SaveNtpHas(j, c.ntp);
    NtpKept(j', Save(c, f), c.ntp);
  }

  lemma SaveHasScan(c: Cfg, f: Firmware)
    requires c.filter.count <= |c.filter.macs|
    ensures HasScan(Save(c, f), c.scan) && HasFilter(Save(c, f), c.filter)
  {
    SaveScanHas(SaveParts(c, f, 7), c.scan);
    SaveFilterHas(SaveScan(SaveParts(c, f, 7), c.scan), c.filter, c.scan);
  }

  // ---------- results ----------

  function RestoredCfg(c: Cfg, f: Firmware): Cfg
    requires c.filter.count <= |c.filter.macs| && c.filter.count <= |f.d.filter.macs|
  {
    Cfg(RestoredRemote(c.remote, f.d.remote), Restored(c.http, f.d.http, f.defaultUrl), RestoredStat(c.stat, f.d.stat),
        RestoredMqtt(c.mqtt, f.d.mqtt), RestoredLan(c.lan, f.d.lan), c.update, RestoredNtp(c.ntp, f.d.ntp),
        RestoredScan(c.scan, f.d.scan), RestoredFilter(c.filter, f.d.filter))
  }

  lemma SavedListFits(c: Cfg, f: Firmware)
    requires Valid(c, f)
    ensures ListFits(Save(c, f))
  {
    SaveHasScan(c, f);
  }

  lemma SavedLoads(c: Cfg, f: Firmware)
    requires Valid(c, f) && Valid(f.d, f)
    ensures ListFits(Save(c, f)) && Load(Save(c, f), f) == RestoredCfg(c, f)
  {
    var j := Save(c, f);
    SaveHasRemote(c, f);
    SavedRemoteLoads(j, c.remote, f.d.remote);
    SaveHasHttp(c, f);
    SavedHttpLoads(j, c.http, f.d.http, f.defaultUrl);
    SaveHasStat(c, f);
    SavedStatLoads(j, c.stat, f.d.stat);
    SaveHasMqtt(c, f);
    SavedMqttLoads(j, c.mqtt, f.d.mqtt);
    SaveHasLan(c, f);
    SavedLanLoads(j, c.lan, f.d.lan, f.z);
    SaveHasUpdate(c, f);
    SavedUpdateLoads(j, c.update, f.d.update);
    SaveHasNtp(c, f);
    SavedNtpLoads(j, c.ntp, f.d.ntp);
    SaveHasScan(c, f);
    SavedScanLoads(j, c.scan, f.d.scan);
    SavedListFits(c, f);
    SavedFilterLoads(j, c.filter, f.d.filter);
  }

  lemma RestoredIsValid(c: Cfg, f: Firmware)
    requires Valid(c, f) && Valid(f.d, f)
    ensures Valid(RestoredCfg(c, f), f)
  {
  }

  /** Loading a configuration that was saved twice gives exactly what loading it once gave. */
  lemma SaveLoadIdempotent(c: Cfg, f: Firmware)
    requires Valid(c, f) && Valid(f.d, f)
    ensures ListFits(Save(c, f))
    ensures var once := Load(Save(c, f), f);
            && Valid(once, f) && ListFits(Save(once, f))
            && Load(Save(once, f), f) == once
  {
    var once := RestoredCfg(c, f);
    SavedLoads(c, f);
    RestoredIsValid(c, f);
    SavedLoads(once, f);
    RemoteIdempotent(c.remote, f.d.remote);
    HttpIdempotent(c.http, f.d.http, f.defaultUrl);
    MqttIdempotent(c.mqtt, f.d.mqtt);
    LanIdempotent(c.lan, f.d.lan);
    NtpIdempotent(c.ntp, f.d.ntp);
    ScanIdempotent(c.scan, f.d.scan);
    FilterIdempotent(c.filter, f.d.filter);
  }

  /** The firmware's comparison of two configurations. */
  predicate Same(a: Cfg, b: Cfg)
    requires a.filter.count <= |a.filter.macs| && b.filter.count <= |b.filter.macs|
  {
    && RemoteSame(a.remote, b.remote) && HttpSame(a.http, b.http) && a.stat == b.stat && a.mqtt == b.mqtt
    && a.lan == b.lan && a.update == b.update && a.ntp == b.ntp && a.scan == b.scan && FilterSame(a.filter, b.filter)
  }

  predicate Survives(c: Cfg, f: Firmware) {
    && RemoteSurvives(c.remote) && HttpSurvives(c.http, f.d.http, f.defaultUrl) && StatSurvives(c.stat, f.d.stat)
    && MqttSurvives(c.mqtt, f.d.mqtt) && LanSurvives(c.lan, f.d.lan) && NtpSurvives(c.ntp, f.d.ntp)
    && ScanSurvives(c.scan, f.d.scan)
  }

  /** Saving and loading give back the same configuration, by the firmware's own comparison, if and only if each part
      meets its condition. */
  lemma RoundTripIff(c: Cfg, f: Firmware)
    requires Valid(c, f) && Valid(f.d, f)
    ensures ListFits(Save(c, f))
    ensures var once := Load(Save(c, f), f);
            Valid(once, f) && (Same(once, c) <==> Survives(c, f))
  {
    SavedLoads(c, f);
    RestoredIsValid(c, f);
    RemoteSurvivesIff(c.remote, f.d.remote);
    HttpSurvivesIff(c.http, f.d.http, f.defaultUrl);
    StatSurvivesIff(c.stat, f.d.stat);
    MqttSurvivesIff(c.mqtt, f.d.mqtt);
    LanSurvivesIff(c.lan, f.d.lan);
    NtpSurvivesIff(c.ntp, f.d.ntp);
    ScanSurvivesIff(c.scan, f.d.scan);
    FilterSurvives(c.filter, f.d.filter);
  }

  /** Saved configurations are loaded over the defaults. If those call their scan settings default, as the hard-coded
      ones do, an object from before version 1.16, which says nothing about that, is loaded as the default scan
      settings: none of its scan items counts. */
  lemma OldScanItemsIgnored(j: Json, f: Firmware)
    requires |f.d.filter.macs| == MAX_NUM_SENSORS
    requires f.d.scan.isDefault && Scan(ScanDefault) !in j
    ensures Load(j, f).scan == f.d.scan
  {
  }

  /** With a default of the legacy shape, as the hard-coded one has it, loading a saved configuration keeps which
      targets receive posts. */
  lemma TargetsSurvive(c: Cfg, f: Firmware)
    requires Valid(c, f) && Valid(f.d, f) && Legacy(f.d.http, f.defaultUrl)
    ensures ListFits(Save(c, f))
    ensures var once := Load(Save(c, f), f);
            && PostsToRuuvi(once.http, f.defaultUrl) == PostsToRuuvi(c.http, f.defaultUrl)
            && PostsToCustom(once.http, f.defaultUrl) == PostsToCustom(c.http, f.defaultUrl)
  {
    SavedLoads(c, f);
    TargetsKeptIff(c.http, f.d.http, f.defaultUrl);
  }
}
