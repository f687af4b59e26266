/** One firmware update run: application, web interface and nRF52 files are downloaded into the partitions of the slot
    that is not running, then the boot record is switched; or, if anything failed, those partitions are invalidated. */
module FwUpdateModel {
  import opened Lists
  import opened OtaSeq
  import opened OtaData
  import opened OtaStream
  import opened OtaWriterModel
  import opened FwDownloadModel

  const SLOTS: nat := 2

  /** A range of flash. */
  datatype Region = Region(addr: nat, size: nat)

  /** What is done to flash; `WriteEntry` writes an entry of the boot record. */
  datatype Op =
    | Erase(sector: Region, ok: bool)
    | Write(addr: nat, data: seq<byte>, ok: bool)
    | WriteEntry(sector: Region, ok: bool)

  /** The partitions that belong to one slot; a missing one could not be found in the partition table. */
  datatype Bank = Bank(app: Option<Region>, gwui: Option<Region>, nrf52: Option<Region>)

  /** A piece of a response body, with the response code it arrives under. */
  datatype Piece = Piece(code: nat, data: seq<byte>)

  /** How one request goes: what arrives, the response code in the end, and the network after that. */
  datatype Request = Request(pieces: seq<Piece>, code: nat, netDown: bool, netBack: bool)

  /** A file to download: whether there is memory for its URL and for the image writer, and how each request goes. */
  datatype Source = Source(url: bool, memory: bool, requests: seq<Request>)

  /** Everything a run meets. The n-th flash operation fails if n is in `failing`. `imageVerifies` is what verifying
      the written image and finding its key ends with, `verifiesAgain` the same at the boot switch; `recordFound` is
      whether the boot record is in the partition table, `erasedAnyway` what an erase of it that fails has done. */
  datatype Env = Env(failing: set<nat>, encrypted: bool, app: Source, imageVerifies: bool, keyMatches: bool,
                     gwui: Source, nrf52: Source, nrf52Flashed: bool, unconfirmed: bool,
                     verifiesAgain: bool, recordFound: bool, erasedAnyway: bool)

  type Trace = seq<Op>

  function At(op: Op): Region {
    match op
    case Erase(sector, _) => sector
    case Write(addr, data, _) => Region(addr, |data|)
    case WriteEntry(sector, _) => sector
  }

  function Sector(part: Region, offset: nat): Region {
    Region(part.addr + offset, SECTOR)
  }

  function EraseFrom(env: Env, t: Trace, part: Region, offset: nat, onlyFirst: bool): (Trace, bool)
    decreases if offset < part.size then part.size - offset else 0
  {
    if offset >= part.size then (t, true)
    else
      var ok := |t| !in env.failing;
      var t' := t + [Erase(Sector(part, offset), ok)];
      if !ok then (t', false)
      else if onlyFirst then (t', true)
      else EraseFrom(env, t', part, offset + SECTOR, onlyFirst)
  }

  function ErasePartition(env: Env, t: Trace, part: Region, onlyFirst: bool): (Trace, bool) {
    if part.size % SECTOR != 0 then (t, false) else EraseFrom(env, t, part, 0, onlyFirst)
  }

  /** The partition driver refuses what does not fit. */
  function WriteBlock(env: Env, t: Trace, part: Region, b: BlockWrite): (Trace, bool) {
    if b.offset + |b.data| > part.size then (t, false)
    else
      var ok := |t| !in env.failing;
      (t + [Write(part.addr + b.offset, b.data, ok)], ok)
  }

  /** Writes up to the first that fails; tells how many succeeded. */
  function WriteAll(env: Env, t: Trace, part: Region, plan: seq<BlockWrite>): (r: (Trace, nat))
    ensures r.1 <= |plan|
    decreases |plan|
  {
    if plan == [] then (t, 0)
    else
      var (t1, ok) := WriteBlock(env, t, part, plan[0]);
      if !ok then (t1, 0)
      else
        var (t2, done) := WriteAll(env, t1, part, plan[1..]);
        (t2, done + 1)
  }

  // ---------- downloading into a partition ----------

  /** Where a download is written. Only application images have a magic byte and may be encrypted. */
  datatype Target = Target(part: Region, image: bool, encrypted: bool)

  /** A download in progress: the writer, the pieces that were stored, whether there was an error, and how many bytes
      were received. */
  datatype Sink = Sink(trace: Trace, writer: Writer, stored: seq<seq<byte>>, isError: bool, downloaded: nat)

  predicate SinkReady(s: Sink) {
    |s.writer.tail| <= BLOCK && (!s.isError ==> OtaWriterModel.Ready(s.writer))
  }

  function StartAt(t: Trace): Sink {
    Sink(t, FRESH, [], false, 0)
  }

  function ProgressOf(s: Sink): Progress {
    Progress(Flatten(s.stored), s.isError, s.downloaded)
  }

  /** Hands a piece to the writer. */
  function Store(env: Env, target: Target, s: Sink, data: seq<byte>): (s': Sink)
    requires SinkReady(s) && !s.isError
    ensures SinkReady(s')
  {
    if target.image && Refuses(s.writer, data) then s.(isError := true)
    else
      var plan := Plan(target.encrypted, s.writer, data);
      var (t, done) := WriteAll(env, s.trace, target.part, plan);
      var w := OnWrite(target.encrypted, s.writer, data, done);
      if done == |plan| then s.(trace := t, writer := w, stored := s.stored + [data])
      else s.(trace := t, writer := w, isError := true)
  }

  function ReceivePiece(env: Env, target: Target, s: Sink, rangeStart: nat, p: Piece): (s': Sink)
    requires SinkReady(s)
    ensures SinkReady(s')
  {
    var counted := s.(downloaded := s.downloaded + |p.data|);
    if s.isError then counted
    else if p.code != ExpectedCode(rangeStart) then counted.(isError := !IsRedirect(p.code))
    else Store(env, target, counted, p.data)
  }

  function ReceivePieces(env: Env, target: Target, s: Sink, rangeStart: nat, pieces: seq<Piece>): (s': Sink)
    requires SinkReady(s)
    ensures SinkReady(s')
    decreases |pieces|
  {
    if pieces == [] then s
    else
      ReceivePiece(env, target, ReceivePieces(env, target, s, rangeStart, pieces[..|pieces| - 1]), rangeStart,
                   Last(pieces))
  }

  /** The pieces as the download sees them: with whether storing them succeeded. */
  function ChunksOf(env: Env, target: Target, s: Sink, rangeStart: nat, pieces: seq<Piece>): seq<Chunk>
    requires SinkReady(s)
    decreases |pieces|
  {
    if pieces == [] then []
    else
      ChunksOf(env, target, s, rangeStart, pieces[..|pieces| - 1])
      + [Chunk(Last(pieces).code, Last(pieces).data, !ReceivePieces(env, target, s, rangeStart, pieces).isError)]
  }

  function AttemptOf(env: Env, target: Target, s: Sink, r: Request): Attempt
    requires SinkReady(s)
  {
    Attempt(ChunksOf(env, target, s, s.downloaded, r.pieces), r.code, r.netDown, r.netBack)
  }

  datatype Fetched = Fetched(sink: Sink, attempts: seq<Attempt>, ok: bool)

  /** The requests in turn until one succeeds, one fails for good, or none is left. */
  function Fetch(env: Env, target: Target, s: Sink, requests: seq<Request>): (f: Fetched)
    requires SinkReady(s)
    ensures SinkReady(f.sink)
    decreases |requests|
  {
    if requests == [] then Fetched(s, [], false)
    else
      var a := AttemptOf(env, target, s, requests[0]);
      var s' := ReceivePieces(env, target, s, s.downloaded, requests[0].pieces);
      match StatusOf(a, s.downloaded)
      case Success => Fetched(s', [a], !s'.isError)
      case Failed => Fetched(s', [a], false)
      case Retry =>
        var rest := Fetch(env, target, s', requests[1..]);
        Fetched(rest.sink, [a] + rest.attempts, rest.ok)
  }

  /** A whole download, after the partition was erased. */
  function FetchAll(env: Env, target: Target, t: Trace, source: Source): (f: Fetched)
    ensures SinkReady(f.sink)
  {
    Fetch(env, target, StartAt(ErasePartition(env, t, target.part, false).0), Prefix(source.requests, MAX_RETRIES))
  }

  // ---------- the steps of a run ----------

  function AppTarget(env: Env, part: Region): Target {
    Target(part, true, env.encrypted)
  }

  function DataTarget(part: Region): Target {
    Target(part, false, false)
  }

  /** Ending an image writes what is left in the cache; an image of which nothing was written is refused. */
  function EndImage(env: Env, t: Trace, part: Region, w: Writer): (Trace, bool)
    requires |w.tail| <= BLOCK
  {
    if w.wrote == 0 then (t, false)
    else
      var (t', done) := WriteAll(env, t, part, FinalBlock(w));
      (t', done == |FinalBlock(w)|)
  }

  /** The image is ended even if the download failed. */
  function UpdateApp(env: Env, t: Trace, app: Option<Region>, pendingVerify: bool): (Trace, bool) {
    if app.None? || !env.app.url || pendingVerify then (t, false)
    else
      var (t1, erased) := ErasePartition(env, t, app.value, false);
      if !erased || !env.app.memory then (t1, false)
      else
        var f := FetchAll(env, AppTarget(env, app.value), t, env.app);
        var (t2, ended) := EndImage(env, f.sink.trace, app.value, f.sink.writer);
        (t2, f.ok && ended && env.imageVerifies && env.keyMatches)
  }

  function UpdateData(env: Env, t: Trace, part: Option<Region>, source: Source): (Trace, bool) {
    if part.None? || !source.url then (t, false)
    else
      var (t1, erased) := ErasePartition(env, t, part.value, false);
      if !erased then (t1, false)
      else
        var f := FetchAll(env, DataTarget(part.value), t, source);
        (f.sink.trace, f.ok)
  }

  function UpdateBothData(env: Env, t: Trace, next: Bank): (Trace, bool) {
    var (t2, gwui) := UpdateData(env, t, next.gwui, env.gwui);
    if gwui then UpdateData(env, t2, next.nrf52, env.nrf52) else (t2, false)
  }

  function DoActions(env: Env, next: Bank, pendingVerify: bool): (Trace, bool) {
    var (t1, app) := UpdateApp(env, [], next.app, pendingVerify);
    if !app then (t1, false)
    else
      var (t2, data) := UpdateBothData(env, t1, next);
      (t2, data && env.nrf52Flashed)
  }

  function Invalidate(env: Env, t: Trace, part: Option<Region>): Trace {
    if part.None? then t else ErasePartition(env, t, part.value, true).0
  }

  /** An image that still waits for confirmation keeps the other application, which it may have to roll back to. */
  function InvalidateAll(env: Env, t: Trace, next: Bank): Trace {
    var t1 := if env.unconfirmed then t else Invalidate(env, t, next.app);
    Invalidate(env, Invalidate(env, t1, next.gwui), next.nrf52)
  }

  // ---------- the boot switch ----------

  const OTADATA := Region(0xD000, 0x2000)

  function EntrySector(index: nat): Region {
    Sector(OTADATA, index * SECTOR)
  }

  datatype SwitchResult = SwitchResult(trace: Trace, record: Record, ok: bool)

  /** The entry that does not count is erased and written; what becomes of the record is `SetBoot`. */
  function SwitchBoot(crc: Crc, env: Env, t: Trace, o: Record, running: nat): SwitchResult
    requires running < SLOTS
  {
    var erases, writes := |t| !in env.failing, |t| + 1 !in env.failing;
    var sector := SectorFlash(erases, env.erasedAnyway, writes);
    var flash := [sector, sector];
    var (r, o') := SetBoot(crc, o, env.recordFound, Ota(1 - running), env.verifiesAgain, Some(running), SLOTS, flash);
    var at := EntrySector(SwitchPlan(crc, o, Some(running), 1 - running, SLOTS).index);
    var ops :=
      if !env.verifiesAgain || !env.recordFound then []
      else [Erase(at, erases)] + if erases then [WriteEntry(at, writes)] else [];
    SwitchResult(t + ops, o', r == Ok)
  }

  /** `switching` is whether the boot switch was reached. */
  datatype Result = Result(ok: bool, switching: bool, trace: Trace, record: Record)

  function PendingVerifyNow(crc: Crc, o: Record, running: nat): bool {
    GetState(crc, o, running, SLOTS) == Found(PendingVerify)
  }

  /** How a run ends after its actions: with the boot switch, or by invalidating. */
  function Finish(crc: Crc, env: Env, o: Record, running: nat, next: Bank, t: Trace, done: bool): Result
    requires running < SLOTS
  {
    if !done then Result(false, false, InvalidateAll(env, t, next), o)
    else
      var s := SwitchBoot(crc, env, t, o, running);
      Result(s.ok, true, if s.ok then s.trace else InvalidateAll(env, s.trace, next), s.record)
  }

  function Run(crc: Crc, env: Env, o: Record, running: nat, next: Bank): Result
    requires running < SLOTS
  {
    var (t, done) := DoActions(env, next, PendingVerifyNow(crc, o, running));
    Finish(crc, env, o, running, next, t, done)
  }

  // ---------- the partition table ----------

  function BankOf(slot: nat): Bank
    requires slot < SLOTS
  {
    if slot == 0 then
      Bank(Some(Region(0x100000, 0x400000)), Some(Region(0x500000, 0xC0000)), Some(Region(0x5C0000, 0x40000)))
    else
      Bank(Some(Region(0x600000, 0x400000)), Some(Region(0xA00000, 0xC0000)), Some(Region(0xAC0000, 0x40000)))
  }
}
