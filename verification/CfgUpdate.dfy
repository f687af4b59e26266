/** Saving and loading the statistics target and the update settings. */
module CfgUpdate {
  import opened CfgJson

  const CYCLE_SIZE: nat := 20

  datatype StatCfg = StatCfg(use: bool, sslClient: bool, sslServer: bool, url: string, user: string, pass: string)

  ghost predicate ValidStat(c: StatCfg) {
    |c.url| < URL_SIZE && |c.user| < USER_SIZE && |c.pass| < USER_SIZE
  }

  function SaveStat(j: Json, c: StatCfg): Json {
    j[HttpStat(UseHttpStat) := Flag(c.use)][HttpStat(StatUrl) := Text(c.url)][HttpStat(StatUser) := Text(c.user)]
     [HttpStat(StatPass) := Text(c.pass)][HttpStat(StatSslClient) := Flag(c.sslClient)]
     [HttpStat(StatSslServer) := Flag(c.sslServer)]
  }

  function LoadStatCerts(j: Json, c: StatCfg): StatCfg {
    if c.use then c.(sslClient := BoolOr(j, HttpStat(StatSslClient), c.sslClient),
                     sslServer := BoolOr(j, HttpStat(StatSslServer), c.sslServer))
    else c
  }

  function LoadStat(j: Json, before: StatCfg): StatCfg {
    LoadStatCerts(j, before.(use := BoolOr(j, HttpStat(UseHttpStat), before.use),
                             url := TextOr(j, HttpStat(StatUrl), URL_SIZE, before.url),
                             user := TextOr(j, HttpStat(StatUser), USER_SIZE, before.user),
                             pass := TextOr(j, HttpStat(StatPass), USER_SIZE, before.pass)))
  }

  predicate HasStat(j: Json, c: StatCfg) {
    && Has(j, HttpStat(UseHttpStat), Flag(c.use)) && Has(j, HttpStat(StatUrl), Text(c.url))
    && Has(j, HttpStat(StatUser), Text(c.user)) && Has(j, HttpStat(StatPass), Text(c.pass))
    && Has(j, HttpStat(StatSslClient), Flag(c.sslClient)) && Has(j, HttpStat(StatSslServer), Flag(c.sslServer))
  }

  lemma SaveStatHas(j: Json, c: StatCfg)
    ensures HasStat(SaveStat(j, c), c)
  {
  }

  lemma StatKept(j: Json, j': Json, c: StatCfg)
    requires HasStat(j, c) && forall s :: Keeps(j, j', HttpStat(s))
    ensures HasStat(j', c)
  {
  }

  lemma SaveStatKeeps(j: Json, c: StatCfg, k: Key)
    requires !k.HttpStat?
    ensures Keeps(j, SaveStat(j, c), k)
  {
  }

  function RestoredStat(c: StatCfg, d: StatCfg): StatCfg {
    if c.use then c else c.(sslClient := d.sslClient, sslServer := d.sslServer)
  }

  lemma SavedStatLoads(j: Json, c: StatCfg, d: StatCfg)
    requires HasStat(j, c) && ValidStat(c)
    ensures LoadStat(j, d) == RestoredStat(c, d)
  {
  }

  /** The certificate flags of an unused target are the default ones. */
  predicate StatSurvives(c: StatCfg, d: StatCfg) {
    !c.use ==> c.sslClient == d.sslClient && c.sslServer == d.sslServer
  }

  lemma StatSurvivesIff(c: StatCfg, d: StatCfg)
    ensures RestoredStat(c, d) == c <==> StatSurvives(c, d)
  {
  }

  // ---------- updates ----------

  datatype UpdateCycle = Regular | Beta | Manual

  datatype UpdateCfg = UpdateCfg(cycle: UpdateCycle, weekdays: nat, from: nat, to: nat, tzOffset: int,
                                 fwUpdateUrl: string)

  ghost predicate ValidUpdate(c: UpdateCfg) {
    && c.weekdays < 0x100 && c.from < 0x100 && c.to < 0x100 && -0x80 <= c.tzOffset < 0x80
    && |c.fwUpdateUrl| < URL_SIZE
  }

  function CycleName(c: UpdateCycle): string {
    match c
    case Regular => "regular"
    case Beta => "beta"
    case Manual => "manual"
  }

  function ReadCycle(s: string): UpdateCycle {
    var t := Cut(s, CYCLE_SIZE);
    if t == "beta" then Beta else if t == "manual" then Manual else Regular
  }

  lemma CycleReadsBack(c: UpdateCycle)
    ensures ReadCycle(CycleName(c)) == c
  {
  }

  function SaveUpdate(j: Json, c: UpdateCfg): Json {
    j[Update(Cycle) := Text(CycleName(c.cycle))][Update(Weekdays) := Num(c.weekdays)]
     [Update(IntervalFrom) := Num(c.from)][Update(IntervalTo) := Num(c.to)][Update(TzOffset) := Num(c.tzOffset)]
     [Update(FwUpdateUrl) := Text(c.fwUpdateUrl)]
  }

  function LoadUpdate(j: Json, before: UpdateCfg): UpdateCfg {
    before.(cycle := if HasText(j, Update(Cycle)) then ReadCycle(j[Update(Cycle)].text) else before.cycle,
            weekdays := Uint8Or(j, Update(Weekdays), before.weekdays),
            from := Uint8Or(j, Update(IntervalFrom), before.from),
            to := Uint8Or(j, Update(IntervalTo), before.to),
            tzOffset := Int8Or(j, Update(TzOffset), before.tzOffset),
            fwUpdateUrl := TextOr(j, Update(FwUpdateUrl), URL_SIZE, before.fwUpdateUrl))
  }

  predicate HasUpdate(j: Json, c: UpdateCfg) {
    && HasText(j, Update(Cycle)) && ReadCycle(j[Update(Cycle)].text) == c.cycle
    && Has(j, Update(Weekdays), Num(c.weekdays)) && Has(j, Update(IntervalFrom), Num(c.from))
    && Has(j, Update(IntervalTo), Num(c.to)) && Has(j, Update(TzOffset), Num(c.tzOffset))
    && Has(j, Update(FwUpdateUrl), Text(c.fwUpdateUrl))
  }

  lemma SaveUpdateHas(j: Json, c: UpdateCfg)
    ensures HasUpdate(SaveUpdate(j, c), c)
  {
    CycleReadsBack(c.cycle);
  }

  lemma UpdateKept(j: Json, j': Json, c: UpdateCfg)
    requires HasUpdate(j, c) && forall u :: Keeps(j, j', Update(u))
    ensures HasUpdate(j', c)
  {
  }

  lemma SaveUpdateKeeps(j: Json, c: UpdateCfg, k: Key)
    requires !k.Update?
    ensures Keeps(j, SaveUpdate(j, c), k)
  {
  }

  /** Update settings survive saving and loading as they are. */
  lemma SavedUpdateLoads(j: Json, c: UpdateCfg, d: UpdateCfg)
    requires HasUpdate(j, c) && ValidUpdate(c)
    ensures LoadUpdate(j, d) == c
  {
  }
}
