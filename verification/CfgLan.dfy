/** Saving and loading who may use the gateway's own web pages. */
module CfgLan {
  import opened CfgJson

  type pos = n: nat | n > 0 witness 1

  /** The sizes of the HTTP server's buffers. */
  datatype Sizes = Sizes(user: pos, pass: pos, key: pos)

  datatype LanCfg = LanCfg(kind: LanKind, user: string, pass: string, apiKey: string, apiKeyRw: string)

  ghost predicate ValidLan(c: LanCfg, z: Sizes) {
    |c.user| < z.user && |c.pass| < z.pass && |c.apiKey| < z.key && |c.apiKeyRw| < z.key
  }

  predicate HasPassword(kind: LanKind) {
    kind.KindBasic? || kind.KindDigest? || kind.KindRuuvi?
  }

  /** The default credentials under the gateway's own scheme are shown as "default". */
  function ShownKind(c: LanCfg, d: LanCfg): LanKind {
    if c.kind.KindRuuvi? && c.user == d.user && c.pass == d.pass then KindDefault else c.kind
  }

  function SaveLan(j: Json, c: LanCfg, d: LanCfg): Json {
    var j1 := j[Lan(LanType) := LanTypeName(ShownKind(c, d))][Lan(LanUser) := Text(c.user)];
    var j2 := if HasPassword(c.kind) then j1[Lan(LanPass) := Text(c.pass)] else j1;
    j2[Lan(LanApiKey) := Text(c.apiKey)][Lan(LanApiKeyRw) := Text(c.apiKeyRw)]
  }

  function LoadUser(j: Json, before: LanCfg, d: LanCfg, z: Sizes): LanCfg {
    if !(Lan(LanType) in j && j[Lan(LanType)].LanTypeName?) then before
    else
      var kind := j[Lan(LanType)].kind;
      var c :=
        if HasPassword(kind) then
          before.(kind := kind, user := TextOr(j, Lan(LanUser), z.user, before.user),
                  pass := TextOr(j, Lan(LanPass), z.pass, before.pass))
        else if kind.KindDefault? then before.(kind := kind, user := d.user, pass := d.pass)
        else before.(kind := kind, user := "", pass := "");
      c.(kind := ShownKind(c, d))
  }

  function LoadLan(j: Json, before: LanCfg, d: LanCfg, z: Sizes): LanCfg {
    LoadUser(j, before, d, z).(apiKey := TextOr(j, Lan(LanApiKey), z.key, before.apiKey),
                               apiKeyRw := TextOr(j, Lan(LanApiKeyRw), z.key, before.apiKeyRw))
  }

  predicate HasLan(j: Json, c: LanCfg, d: LanCfg) {
    && Has(j, Lan(LanType), LanTypeName(ShownKind(c, d))) && Has(j, Lan(LanUser), Text(c.user))
    && (HasPassword(c.kind) ==> Has(j, Lan(LanPass), Text(c.pass)))
    && Has(j, Lan(LanApiKey), Text(c.apiKey)) && Has(j, Lan(LanApiKeyRw), Text(c.apiKeyRw))
  }

  lemma SaveLanHas(j: Json, c: LanCfg, d: LanCfg)
    ensures HasLan(SaveLan(j, c, d), c, d)
  {
  }

  lemma LanKept(j: Json, j': Json, c: LanCfg, d: LanCfg)
    requires HasLan(j, c, d) && forall l :: Keeps(j, j', Lan(l))
    ensures HasLan(j', c, d)
  {
  }

  lemma SaveLanKeeps(j: Json, c: LanCfg, d: LanCfg, k: Key)
    requires !k.Lan?
    ensures Keeps(j, SaveLan(j, c, d), k)
  {
  }

  function RestoredLan(c: LanCfg, d: LanCfg): LanCfg {
    var shown := ShownKind(c, d);
    if HasPassword(shown) then c
    else if shown.KindDefault? then c.(kind := KindDefault, user := d.user, pass := d.pass)
    else c.(user := "", pass := "")
  }

  lemma SavedLanLoads(j: Json, c: LanCfg, d: LanCfg, z: Sizes)
    requires HasLan(j, c, d) && ValidLan(c, z)
    ensures LoadLan(j, d, d, z) == RestoredLan(c, d)
  {
  }

  lemma LanIdempotent(c: LanCfg, d: LanCfg)
    ensures RestoredLan(RestoredLan(c, d), d) == RestoredLan(c, d)
  {
  }

  /** Kinds without a password of their own carry none, the default kind carries the default credentials, and the
      default credentials are not spelled out. */
  predicate LanSurvives(c: LanCfg, d: LanCfg) {
    && (c.kind.KindRuuvi? ==> c.user != d.user || c.pass != d.pass)
    && (c.kind.KindDefault? ==> c.user == d.user && c.pass == d.pass)
    && (!HasPassword(c.kind) && !c.kind.KindDefault? ==> c.user == "" && c.pass == "")
  }

  /** Exactly then saving and loading keep the settings. */
  lemma LanSurvivesIff(c: LanCfg, d: LanCfg)
    ensures RestoredLan(c, d) == c <==> LanSurvives(c, d)
  {
  }
}
