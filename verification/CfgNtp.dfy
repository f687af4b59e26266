/** Saving and loading where the time comes from. */
module CfgNtp {
  import opened CfgJson

  const SERVER_SIZE: nat := 32

  datatype NtpCfg = NtpCfg(use: bool, useDhcp: bool, server1: string, server2: string, server3: string, server4: string)

  ghost predicate ValidNtp(c: NtpCfg) {
    && |c.server1| < SERVER_SIZE && |c.server2| < SERVER_SIZE
    && |c.server3| < SERVER_SIZE && |c.server4| < SERVER_SIZE
  }

  function SaveNtp(j: Json, c: NtpCfg): Json {
    j[Ntp(NtpUse) := Flag(c.use)][Ntp(NtpUseDhcp) := Flag(c.useDhcp)][Ntp(Server1) := Text(c.server1)]
     [Ntp(Server2) := Text(c.server2)][Ntp(Server3) := Text(c.server3)][Ntp(Server4) := Text(c.server4)]
  }

  function LoadServers(j: Json, before: NtpCfg): NtpCfg {
    before.(server1 := TextOr(j, Ntp(Server1), SERVER_SIZE, before.server1),
            server2 := TextOr(j, Ntp(Server2), SERVER_SIZE, before.server2),
            server3 := TextOr(j, Ntp(Server3), SERVER_SIZE, before.server3),
            server4 := TextOr(j, Ntp(Server4), SERVER_SIZE, before.server4))
  }

  /** Servers are read only if they are in use. */
  function LoadNtp(j: Json, before: NtpCfg): NtpCfg {
    var use := BoolOr(j, Ntp(NtpUse), before.use);
    if !use then before.(use := use, useDhcp := false)
    else
      var c := before.(use := use, useDhcp := BoolOr(j, Ntp(NtpUseDhcp), before.useDhcp));
      if c.useDhcp then c else LoadServers(j, c)
  }

  predicate HasNtp(j: Json, c: NtpCfg) {
    && Has(j, Ntp(NtpUse), Flag(c.use)) && Has(j, Ntp(NtpUseDhcp), Flag(c.useDhcp))
    && Has(j, Ntp(Server1), Text(c.server1)) && Has(j, Ntp(Server2), Text(c.server2))
    && Has(j, Ntp(Server3), Text(c.server3)) && Has(j, Ntp(Server4), Text(c.server4))
  }

  lemma SaveNtpHas(j: Json, c: NtpCfg)
    ensures HasNtp(SaveNtp(j, c), c)
  {
  }

  lemma NtpKept(j: Json, j': Json, c: NtpCfg)
    requires HasNtp(j, c) && forall n :: Keeps(j, j', Ntp(n))
    ensures HasNtp(j', c)
  {
  }

  lemma SaveNtpKeeps(j: Json, c: NtpCfg, k: Key)
    requires !k.Ntp?
    ensures Keeps(j, SaveNtp(j, c), k)
  {
  }

  predicate UsesServers(c: NtpCfg) {
    c.use && !c.useDhcp
  }

  function RestoredNtp(c: NtpCfg, d: NtpCfg): NtpCfg {
    if UsesServers(c) then c else d.(use := c.use, useDhcp := c.use)
  }

  lemma SavedNtpLoads(j: Json, c: NtpCfg, d: NtpCfg)
    requires HasNtp(j, c) && ValidNtp(c)
    ensures LoadNtp(j, d) == RestoredNtp(c, d)
  {
  }

  lemma NtpIdempotent(c: NtpCfg, d: NtpCfg)
    ensures RestoredNtp(RestoredNtp(c, d), d) == RestoredNtp(c, d)
  {
  }

  /** Servers that are not in use are the default ones, and DHCP is off when NTP is. */
  predicate NtpSurvives(c: NtpCfg, d: NtpCfg) {
    || UsesServers(c)
    || (c.useDhcp == c.use && c.server1 == d.server1 && c.server2 == d.server2
        && c.server3 == d.server3 && c.server4 == d.server4)
  }

  /** Exactly then saving and loading keep the settings. */
  lemma NtpSurvivesIff(c: NtpCfg, d: NtpCfg)
    ensures RestoredNtp(c, d) == c <==> NtpSurvives(c, d)
  {
  }
}
