/** Saving and loading what the nRF52 scans for and which of it is relayed. */
module CfgScan {
  import opened Lists
  import opened CfgJson

  const MAX_NUM_SENSORS: nat := 100
  const COORDINATES_SIZE: nat := 64

  datatype ScanCfg = ScanCfg(isDefault: bool, codedPhy: bool, phy1M: bool, phy2M: bool, channel37: bool,
                             channel38: bool, channel39: bool)

  /** `macs` is the whole array, of which the first `count` entries count. */
  datatype FilterCfg = FilterCfg(companyId: nat, companyUse: bool, allowListed: bool, count: nat, macs: seq<Mac>,
                                 coordinates: string)

  ghost predicate ValidFilter(c: FilterCfg) {
    && c.companyId < 0x1_0000 && |c.macs| == MAX_NUM_SENSORS && c.count <= MAX_NUM_SENSORS
    && |c.coordinates| < COORDINATES_SIZE
  }

  // ---------- scanning ----------

  function SaveScan(j: Json, c: ScanCfg): Json {
    j[Scan(CodedPhy) := Flag(c.codedPhy)][Scan(Phy1M) := Flag(c.phy1M)][Scan(Phy2M) := Flag(c.phy2M)]
     [Scan(Channel37) := Flag(c.channel37)][Scan(Channel38) := Flag(c.channel38)][Scan(Channel39) := Flag(c.channel39)]
     [Scan(ScanDefault) := Flag(c.isDefault)]
  }

  /** Since version 1.16 the item for the 2 Mbit PHY has another name; the old name is read first. */
  function LoadScanItems(j: Json, before: ScanCfg): ScanCfg {
    before.(codedPhy := BoolOr(j, Scan(CodedPhy), before.codedPhy),
            phy1M := BoolOr(j, Scan(Phy1M), before.phy1M),
            phy2M := BoolOr(j, Scan(Phy2M), BoolOr(j, Scan(ExtendedPayload), before.phy2M)),
            channel37 := BoolOr(j, Scan(Channel37), before.channel37),
            channel38 := BoolOr(j, Scan(Channel38), before.channel38),
            channel39 := BoolOr(j, Scan(Channel39), before.channel39))
  }

  predicate HasFlag(j: Json, k: Key) {
    k in j && j[k].Flag?
  }

  predicate LooksDefault(c: ScanCfg) {
    !c.codedPhy && c.phy1M && c.phy2M && c.channel37 && c.channel38 && c.channel39
  }

  function LoadScan(j: Json, before: ScanCfg, d: ScanCfg): ScanCfg {
    var c := before.(isDefault := BoolOr(j, Scan(ScanDefault), before.isDefault));
    if c.isDefault then d
    else
      var r := LoadScanItems(j, c);
      if HasFlag(j, Scan(ExtendedPayload)) && !HasFlag(j, Scan(ScanDefault)) then
        if LooksDefault(r) then d.(isDefault := true) else r.(isDefault := false)
      else r
  }

  predicate HasScan(j: Json, c: ScanCfg) {
    && Has(j, Scan(CodedPhy), Flag(c.codedPhy)) && Has(j, Scan(Phy1M), Flag(c.phy1M))
    && Has(j, Scan(Phy2M), Flag(c.phy2M)) && Has(j, Scan(Channel37), Flag(c.channel37))
    && Has(j, Scan(Channel38), Flag(c.channel38)) && Has(j, Scan(Channel39), Flag(c.channel39))
    && Has(j, Scan(ScanDefault), Flag(c.isDefault))
  }

  function RestoredScan(c: ScanCfg, d: ScanCfg): ScanCfg {
    if c.isDefault then d else c
  }

  lemma SaveScanHas(j: Json, c: ScanCfg)
    ensures HasScan(SaveScan(j, c), c)
  {
  }

  lemma SavedItemsLoad(j: Json, c: ScanCfg, before: ScanCfg)
    requires HasScan(j, c) && before.isDefault == c.isDefault
    ensures LoadScanItems(j, before) == c
  {
  }

  lemma SavedScanLoads(j: Json, c: ScanCfg, d: ScanCfg)
    requires HasScan(j, c)
    ensures LoadScan(j, d, d) == RestoredScan(c, d)
  {
    if !c.isDefault {
      SavedItemsLoad(j, c, d.(isDefault := false));
    }
  }

  lemma ScanIdempotent(c: ScanCfg, d: ScanCfg)
    ensures RestoredScan(RestoredScan(c, d), d) == RestoredScan(c, d)
  {
  }

  /** What is called default is the default. */
  predicate ScanSurvives(c: ScanCfg, d: ScanCfg) {
    c.isDefault ==> c == d
  }

  lemma ScanSurvivesIff(c: ScanCfg, d: ScanCfg)
    ensures RestoredScan(c, d) == c <==> ScanSurvives(c, d)
  {
  }

  lemma SaysNothing(j: Json, c: ScanCfg)
    requires Scan(ScanDefault) !in j
    ensures c.(isDefault := BoolOr(j, Scan(ScanDefault), c.isDefault)) == c && !HasFlag(j, Scan(ScanDefault))
  {
  }

  lemma ItemsKeepDefault(j: Json, c: ScanCfg)
    ensures var r := LoadScanItems(j, c); r.isDefault == c.isDefault && r.(isDefault := c.isDefault) == r
    ensures HasFlag(j, Scan(ExtendedPayload)) && Scan(Phy2M) !in j ==>
              LoadScanItems(j, c).phy2M == j[Scan(ExtendedPayload)].flag
  {
  }

  /** A configuration from before version 1.16 has the old item and says nothing about defaults. It is converted only
      if the configuration it is loaded over is not a default one; otherwise none of its scan items is looked at. */
  lemma OldScanConfigConverted(j: Json, before: ScanCfg, d: ScanCfg)
    requires HasFlag(j, Scan(ExtendedPayload)) && Scan(ScanDefault) !in j && Scan(Phy2M) !in j
    ensures before.isDefault ==> LoadScan(j, before, d) == d
    ensures !before.isDefault ==>
              var r := LoadScanItems(j, before);
              && r.phy2M == j[Scan(ExtendedPayload)].flag
              && LoadScan(j, before, d) == if LooksDefault(r) then d.(isDefault := true) else r
  {
    SaysNothing(j, before);
    ItemsKeepDefault(j, before);
  }

  // ---------- filtering ----------

  function Names(macs: seq<Mac>): seq<Option<Mac>> {
    seq(|macs|, i requires 0 <= i < |macs| => Some(macs[i]))
  }

  function SaveFilter(j: Json, c: FilterCfg): Json
    requires c.count <= |c.macs|
  {
    j[Scan(CompanyId) := Num(c.companyId)][Scan(CompanyUse) := Flag(c.companyUse)]
     [Scan(AllowListed) := Flag(c.allowListed)][Scan(FilterList) := MacNames(Names(c.macs[..c.count]))]
     [Scan(Coordinates) := Text(c.coordinates)]
  }

  /** A name that is no MAC address leaves the array entry as it was, but it is counted. */
  function LoadMacs(macs: seq<Mac>, names: seq<Option<Mac>>, n: nat): (r: seq<Mac>)
    requires n <= |names|
    ensures |r| == |macs|
  {
    if n == 0 then macs
    else
      var r := LoadMacs(macs, names, n - 1);
      if names[n - 1].Some? && n <= |macs| then r[n - 1 := names[n - 1].value] else r
  }

  lemma {:induction false} LoadMacsAt(macs: seq<Mac>, names: seq<Option<Mac>>, n: nat, i: nat)
    requires n <= |names| && i < |macs|
    ensures LoadMacs(macs, names, n)[i] == if i < n && names[i].Some? then names[i].value else macs[i]
  {
    if n > 0 {
      LoadMacsAt(macs, names, n - 1, i);
    }
  }

  /** Every MAC address of the list has a place in the array. The loader does not check that, and it is only defined
      what it does if it is so. */
  predicate MacsFit(names: seq<Option<Mac>>, size: nat) {
    forall i :: size <= i < |names| ==> names[i].None?
  }

  predicate ListFits(j: Json) {
    Scan(FilterList) in j && j[Scan(FilterList)].MacNames? ==> MacsFit(j[Scan(FilterList)].macs, MAX_NUM_SENSORS)
  }

  function LoadFilter(j: Json, before: FilterCfg): FilterCfg
    requires |before.macs| == MAX_NUM_SENSORS
  {
    var c := before.(companyId := Uint16Or(j, Scan(CompanyId), before.companyId),
                     companyUse := BoolOr(j, Scan(CompanyUse), before.companyUse),
                     allowListed := BoolOr(j, Scan(AllowListed), before.allowListed),
                     coordinates := TextOr(j, Scan(Coordinates), COORDINATES_SIZE, before.coordinates));
    if Scan(FilterList) in j && j[Scan(FilterList)].MacNames? then
      var names := j[Scan(FilterList)].macs;
      c.(macs := LoadMacs(before.macs, names, |names|), count := |names|)
    else c
  }

  predicate HasFilter(j: Json, c: FilterCfg)
    requires c.count <= |c.macs|
  {
    && Has(j, Scan(CompanyId), Num(c.companyId)) && Has(j, Scan(CompanyUse), Flag(c.companyUse))
    && Has(j, Scan(AllowListed), Flag(c.allowListed)) && Has(j, Scan(FilterList), MacNames(Names(c.macs[..c.count])))
    && Has(j, Scan(Coordinates), Text(c.coordinates))
  }

  lemma SaveFilterHas(j: Json, c: FilterCfg, s: ScanCfg)
    requires c.count <= |c.macs| && HasScan(j, s)
    ensures HasFilter(SaveFilter(j, c), c) && HasScan(SaveFilter(j, c), s)
  {
  }

  lemma SaveScanKeeps(j: Json, c: FilterCfg, s: ScanCfg, k: Key)
    requires c.count <= |c.macs| && !k.Scan?
    ensures Keeps(j, SaveFilter(SaveScan(j, s), c), k)
  {
    assert Keeps(j, SaveScan(j, s), k);
  }

  function RestoredFilter(c: FilterCfg, d: FilterCfg): FilterCfg
    requires c.count <= |c.macs| && c.count <= |d.macs|
  {
    c.(macs := c.macs[..c.count] + d.macs[c.count..])
  }

  lemma SavedFilterLoads(j: Json, c: FilterCfg, d: FilterCfg)
    requires ValidFilter(c) && ValidFilter(d) && HasFilter(j, c)
    ensures LoadFilter(j, d) == RestoredFilter(c, d)
  {
    var names := Names(c.macs[..c.count]);
    var r := LoadMacs(d.macs, names, |names|);
    forall i: nat | i < |r| ensures r[i] == if i < c.count then c.macs[i] else d.macs[i] {
      LoadMacsAt(d.macs, names, |names|, i);
    }
  }

  lemma FilterIdempotent(c: FilterCfg, d: FilterCfg)
    requires ValidFilter(c) && ValidFilter(d)
    ensures RestoredFilter(RestoredFilter(c, d), d) == RestoredFilter(c, d)
  {
    assert RestoredFilter(c, d).macs[..c.count] == c.macs[..c.count];
  }

  /** The firmware's comparison. */
  predicate FilterSame(a: FilterCfg, b: FilterCfg)
    requires a.count <= |a.macs| && b.count <= |b.macs|
  {
    a.(macs := b.macs) == b && a.macs[..a.count] == b.macs[..b.count]
  }

  lemma FilterSurvives(c: FilterCfg, d: FilterCfg)
    requires ValidFilter(c) && ValidFilter(d)
    ensures FilterSame(RestoredFilter(c, d), c)
  {
  }
}
