/** The saved configuration as a JSON object, and how single values are read back from it. */
module CfgJson {
  import opened Lists

  datatype RemoteItem = CfgUse | CfgUrl | AuthKind | AuthUser | AuthPass | AuthBearer | AuthTokenItem | AuthApiKeyItem
                      | CfgSslClient | CfgSslServer | RefreshInterval
  datatype HttpItem = UseHttpRuuvi | UseHttp | HttpUrl | HttpPeriod | HttpDataFormat | HttpAuth | HttpUser | HttpPass
                    | HttpBearerToken | HttpApiKey | HttpSslClient | HttpSslServer | ExtraPath | ExtraQuery
                    | ExtraHeaders
  datatype HttpStatItem = UseHttpStat | StatUrl | StatUser | StatPass | StatSslClient | StatSslServer
  datatype MqttItem = UseMqtt | DisableRetained | Transport | MqttFormat | Server | Port | SendingInterval | Prefix
                    | ClientId | User | Pass | MqttSslClient | MqttSslServer
  datatype LanItem = LanType | LanUser | LanPass | LanApiKey | LanApiKeyRw
  datatype UpdateItem = Cycle | Weekdays | IntervalFrom | IntervalTo | TzOffset | FwUpdateUrl
  datatype NtpItem = NtpUse | NtpUseDhcp | Server1 | Server2 | Server3 | Server4
  datatype ScanItem = ScanDefault | CodedPhy | Phy1M | Phy2M | Channel37 | Channel38 | Channel39 | ExtendedPayload
                    | CompanyId | CompanyUse | AllowListed | FilterList | Coordinates

  /** The names of all items, by the part of the configuration they belong to. */
  datatype Key =
    | Remote(remote: RemoteItem)
    | Http(http: HttpItem)
    | HttpStat(stat: HttpStatItem)
    | Mqtt(mqtt: MqttItem)
    | Lan(lan: LanItem)
    | Update(update: UpdateItem)
    | Ntp(ntp: NtpItem)
    | Scan(scan: ScanItem)

  datatype LanKind = KindAllow | KindBasic | KindDigest | KindRuuvi | KindDeny | KindBearer | KindDefault

  type Mac = nat

  /** `LanTypeName` and `MacNames` stand for strings that the HTTP server's and the MAC address conversions produce
      and read; a name that is no MAC address is None. */
  datatype Value = Flag(flag: bool) | Num(num: int) | Text(text: string) | LanTypeName(kind: LanKind)
                 | MacNames(macs: seq<Option<Mac>>)

  type Json = map<Key, Value>

  predicate Has(j: Json, k: Key, v: Value) {
    k in j && j[k] == v
  }

  /** The item, if it was there, is still there with the same value. */
  predicate Keeps(j: Json, j': Json, k: Key) {
    k in j ==> Has(j', k, j[k])
  }

  // ---------- reading ----------

  const INT32_MAX: int := 0x7FFF_FFFF
  const INT32_MIN: int := -0x8000_0000

  /** The parser keeps numbers as 32-bit signed integers, saturated. */
  function ValueInt(n: int): (r: int)
    ensures INT32_MIN <= r <= INT32_MAX
  {
    if n >= INT32_MAX then INT32_MAX else if n <= INT32_MIN then INT32_MIN else n
  }

  function BoolOr(j: Json, k: Key, before: bool): bool {
    if k in j && j[k].Flag? then j[k].flag else before
  }

  /** The reader for 32-bit numbers keeps the low 16 bits only. */
  function Uint32Or(j: Json, k: Key, before: nat): nat {
    if k in j && j[k].Num? && ValueInt(j[k].num) >= 0 then ValueInt(j[k].num) % 0x1_0000 else before
  }

  function IntOr(j: Json, k: Key, before: int, lo: int, hi: int): int {
    if k in j && j[k].Num? && lo <= ValueInt(j[k].num) <= hi then ValueInt(j[k].num) else before
  }

  function Uint16Or(j: Json, k: Key, before: nat): nat {
    IntOr(j, k, before, 0, 0xFFFF)
  }

  function Uint8Or(j: Json, k: Key, before: nat): nat {
    IntOr(j, k, before, 0, 0xFF)
  }

  function Int8Or(j: Json, k: Key, before: int): int {
    IntOr(j, k, before, -0x80, 0x7F)
  }

  /** What fits into a buffer of `size` characters, with the terminator. */
  function Cut(s: string, size: nat): (r: string)
    requires size > 0
    ensures |r| < size && r <= s
  {
    if |s| < size then s else s[..size - 1]
  }

  predicate HasText(j: Json, k: Key) {
    k in j && j[k].Text?
  }

  function TextOr(j: Json, k: Key, size: nat, before: string): string
    requires size > 0
  {
    if HasText(j, k) then Cut(j[k].text, size) else before
  }

  /** What a 32-bit number is after saving and loading. */
  function Restored32(n: nat): nat {
    if n >= INT32_MAX then 0xFFFF else n % 0x1_0000
  }

  /** A 32-bit number survives saving and loading exactly if it has 16 bits. */
  lemma Uint32SurvivesIff(j: Json, k: Key, n: nat, before: nat)
    requires k in j && j[k] == Num(n)
    ensures Uint32Or(j, k, before) == n <==> n < 0x1_0000
    ensures Uint32Or(j, k, before) == Restored32(n)
  {
    assert INT32_MAX % 0x1_0000 == 0xFFFF;
  }

  // ---------- text in shared memory ----------

  const URL_SIZE: nat := 256
  const FORMAT_SIZE: nat := 22
  const AUTH_SIZE: nat := 256
  const USER_SIZE: nat := 51

  /** Credentials of all kinds share one piece of memory: a user at its start with the password behind, or a token. */
  type Memory = m: string | |m| == AUTH_SIZE witness Repeat('\0', AUTH_SIZE)

  /** From `at` to the terminator, or to the end if there is none. */
  function ReadStr(m: string, at: nat): (s: string)
    requires at <= |m|
    ensures '\0' !in s
    ensures at + |s| <= |m| && s == m[at..at + |s|]
    ensures at + |s| < |m| ==> m[at + |s|] == '\0'
    decreases |m| - at
  {
    if at == |m| || m[at] == '\0' then []
    else
      var rest := ReadStr(m, at + 1);
      assert [m[at]] + rest == m[at..at + 1 + |rest|];
      [m[at]] + rest
  }

  function WriteStr(m: Memory, at: nat, size: nat, s: string): Memory
    requires 0 < size && at + size <= |m|
  {
    m[..at] + Cut(s, size) + ['\0'] + m[at + |Cut(s, size)| + 1..]
  }

  /** Copies an item's text, if there is one, into the memory. */
  function StoreText(j: Json, k: Key, m: Memory, at: nat, size: nat): Memory
    requires 0 < size && at + size <= |m|
  {
    if HasText(j, k) then WriteStr(m, at, size, j[k].text) else m
  }

  lemma WriteStrParts(m: Memory, at: nat, size: nat, s: string)
    requires 0 < size && at + size <= |m|
    ensures var r, t := WriteStr(m, at, size, s), Cut(s, size);
            && r[..at] == m[..at]
            && r[at..at + |t|] == t && r[at + |t|] == '\0'
            && r[at + |t| + 1..] == m[at + |t| + 1..]
  {
  }

  /** The string that starts at `at` is the one whose terminator follows it. */
  lemma {:induction false} ReadStrIs(m: string, at: nat, s: string)
    requires at + |s| < |m| && m[at..at + |s|] == s && m[at + |s|] == '\0' && '\0' !in s
    ensures ReadStr(m, at) == s
    decreases |s|
  {
    if s != [] {
      assert m[at] == s[0] && s[0] in s;
      assert m[at + 1..at + |s|] == m[at..at + |s|][1..];
      ReadStrIs(m, at + 1, s[1..]);
      assert s == [s[0]] + s[1..];
    }
  }

  lemma ReadAfterWrite(m: Memory, at: nat, size: nat, s: string)
    requires 0 < size && at + size <= |m| && '\0' !in s
    ensures ReadStr(WriteStr(m, at, size, s), at) == Cut(s, size)
  {
    WriteStrParts(m, at, size, s);
    ReadStrIs(WriteStr(m, at, size, s), at, Cut(s, size));
  }

  /** User and password next to each other, as written one after the other. */
  function WriteBasic(m: Memory, user: string, pass: string): Memory {
    WriteStr(WriteStr(m, 0, USER_SIZE, user), USER_SIZE, USER_SIZE, pass)
  }

  lemma ReadBasic(m: Memory, user: string, pass: string)
    requires '\0' !in user && '\0' !in pass
    ensures ReadStr(WriteBasic(m, user, pass), 0) == Cut(user, USER_SIZE)
    ensures ReadStr(WriteBasic(m, user, pass), USER_SIZE) == Cut(pass, USER_SIZE)
  {
    var m1 := WriteStr(m, 0, USER_SIZE, user);
    var m2 := WriteStr(m1, USER_SIZE, USER_SIZE, pass);
    var u := Cut(user, USER_SIZE);
    WriteStrParts(m, 0, USER_SIZE, user);
    WriteStrParts(m1, USER_SIZE, USER_SIZE, pass);
    assert m2[..USER_SIZE] == m1[..USER_SIZE];
    assert m2[0..|u|] == m2[..USER_SIZE][0..|u|] == m1[..USER_SIZE][0..|u|] == u;
    assert m2[|u|] == m2[..USER_SIZE][|u|] == m1[|u|];
    ReadStrIs(m2, 0, u);
    ReadAfterWrite(m1, USER_SIZE, USER_SIZE, pass);
  }

  /** Writing what was read back writes the same. */
  lemma BasicRewrites(m: Memory, user: string, pass: string)
    requires '\0' !in user && '\0' !in pass
    ensures var w := WriteBasic(m, user, pass); WriteBasic(m, ReadStr(w, 0), ReadStr(w, USER_SIZE)) == w
  {
    ReadBasic(m, user, pass);
  }

  lemma TokenRewrites(m: Memory, token: string)
    requires '\0' !in token
    ensures var w := WriteStr(m, 0, AUTH_SIZE, token); WriteStr(m, 0, AUTH_SIZE, ReadStr(w, 0)) == w
  {
    ReadAfterWrite(m, 0, AUTH_SIZE, token);
  }
}
