/**
 The transfer manager: chunked uploads and downloads, each handler one atomic
 step over the table of transfers and the files they touch.
 */
module Transfers {
  import opened Basics
  import opened Chunks

  datatype Error =
    | TransferNotFound | InvalidRequest | InvalidPath | FileNotFound | PermissionDenied
    | FileTooLarge | MaxTransfers | DiskFull | IoError | HashMismatch | FileChanged

  datatype Result<T> = Ok(value: T) | Err(error: Error)

  datatype Path = Path(dir: string, name: string)

  const TEMP_PREFIX := ".gx_tmp_"
  const MAX_CHUNK_RETRIES: nat := 3
  const MIN_CHUNK_SIZE: nat := 1024

  function TempPath(dir: string, id: string): Path { Path(dir, TEMP_PREFIX + id) }

  datatype Direction = Upload | Download

  datatype Phase = Init | Transferring | Paused | Verifying | Complete | Failed | Aborted

  /** For an upload `path` is where the file will be, for a download where it is. */
  datatype Transfer = Transfer(
    direction: Direction, path: Path, fileSize: nat, fileHash: string, chunkSize: nat, totalChunks: nat,
    sourceMtime: Option<nat>, temp: Option<Path>,
    phase: Phase, done: seq<bool>, bytes: nat, errors: nat, lastActivity: nat)

  datatype Config = Config(
    hash: Bytes -> string, maxConcurrent: nat, chunkSize: nat, maxFileSize: nat, staleTimeout: nat)

  datatype State = State(transfers: map<string, Transfer>, files: map<Path, Bytes>)

  // ----- What one lock-held section does to a transfer -----

  predicate Active(p: Phase) { p in {Init, Transferring, Paused} }

  predicate AllDone(done: seq<bool>) { forall i :: 0 <= i < |done| ==> done[i] }

  function Marked(done: seq<bool>, index: nat): seq<bool> {
    if index < |done| then done[index := true] else done
  }

  /** Bad chunks a transfer survives, as a `u32` product. */
  function RetryLimit(totalChunks: nat): nat { MAX_CHUNK_RETRIES * totalChunks % U32 }

  function NoteBadHash(t: Transfer, now: nat): Transfer {
    var errors := (t.errors + 1) % U32;
    t.(errors := errors, lastActivity := now,
       phase := if errors >= RetryLimit(t.totalChunks) then Failed else t.phase)
  }

  /** The last chunk moves the transfer on, whatever phase it is in by then. */
  function MarkReceived(t: Transfer, index: nat, len: nat, now: nat): Transfer {
    var done := Marked(t.done, index);
    t.(done := done, bytes := t.bytes + len, lastActivity := now,
       phase := if AllDone(done) then Verifying else t.phase)
  }

  function MarkServed(t: Transfer, index: nat, len: nat, now: nat): Transfer {
    var done := Marked(t.done, index);
    t.(done := done, bytes := t.bytes + len, lastActivity := now,
       phase := if AllDone(done) then Complete else t.phase)
  }

  function PausedIfRunning(t: Transfer): Transfer {
    if t.phase in {Transferring, Init} then t.(phase := Paused) else t
  }

  predicate Stale(t: Transfer, now: nat, timeout: nat) {
    t.phase in {Paused, Failed, Aborted, Complete} && t.lastActivity + timeout < now
  }

  function RunningCount(transfers: map<string, Transfer>): nat {
    |set id | id in transfers && transfers[id].phase in {Init, Transferring}|
  }

  // ----- Files -----

  /** Removal is best effort: files in `stuck` stay. */
  function Remove(files: map<Path, Bytes>, p: Path, stuck: set<Path>): map<Path, Bytes> {
    if p in stuck then files else files - {p}
  }

  function Rename(files: map<Path, Bytes>, from: Path, to: Path): map<Path, Bytes>
    requires from in files
  {
    (files - {from})[to := files[from]]
  }

  /** How the file system answers while a chunk is received and the upload finalized. */
  datatype Io = Io(opens: bool, written: nat, syncs: bool, hashes: bool, renames: bool, stuck: set<Path>)

  predicate Writes(io: Io, data: Bytes) { |data| <= io.written && io.syncs }

  predicate Works(io: Io, data: Bytes) { io.opens && Writes(io, data) && io.hashes && io.renames }

  // ----- Handlers -----

  datatype UploadRequest = UploadRequest(
    dir: string, filename: string, fileSize: nat, fileHash: string, chunkSize: nat, totalChunks: nat)

  /** What the directory and the disk say about an upload. */
  datatype UploadEnv = UploadEnv(
    pathError: Option<Error>, hasSpace: bool, creates: bool, allocates: bool, stuck: set<Path>)

  datatype Accepted = Accepted(chunkSize: nat, totalChunks: nat)

  predicate ValidFilename(name: string) {
    name != "" && '/' !in name && '\\' !in name && name != ".."
  }

  function UploadChunkSize(requested: nat): nat {
    if requested < MIN_CHUNK_SIZE then MIN_CHUNK_SIZE else requested
  }

  function UploadRefusal(c: Config, s: State, req: UploadRequest, env: UploadEnv): Option<Error> {
    if env.pathError.Some? then env.pathError
    else if !ValidFilename(req.filename) then Some(InvalidPath)
    else if req.fileSize > c.maxFileSize then Some(FileTooLarge)
    else if RunningCount(s.transfers) >= c.maxConcurrent then Some(MaxTransfers)
    else if !env.hasSpace then Some(DiskFull)
    else if req.totalChunks != ComputeChunks(req.fileSize, UploadChunkSize(req.chunkSize)) then Some(InvalidRequest)
    else if !env.creates then Some(IoError)
    else None
  }

  function NewUpload(req: UploadRequest, id: string, now: nat): Transfer {
    Transfer(Upload, Path(req.dir, req.filename), req.fileSize, req.fileHash,
             UploadChunkSize(req.chunkSize), req.totalChunks, None, Some(TempPath(req.dir, id)),
             Transferring, seq(req.totalChunks, _ => false), 0, 0, now)
  }

  function InitUpload(
      c: Config, s: State, req: UploadRequest, id: string, env: UploadEnv, now: nat): (State, Result<Accepted>) {
    var refusal := UploadRefusal(c, s, req, env);
    var temp := TempPath(req.dir, id);
    if refusal.Some? then (s, Err(refusal.value))
    else if !env.allocates then (s.(files := Remove(s.files[temp := []], temp, env.stuck)), Err(DiskFull))
    else (State(s.transfers[id := NewUpload(req, id, now)], s.files[temp := Zeros(req.fileSize)]),
          Ok(Accepted(UploadChunkSize(req.chunkSize), req.totalChunks)))
  }

  datatype DownloadEnv = DownloadEnv(pathError: Option<Error>, hashes: bool, mtime: Option<nat>)

  function DownloadChunkSize(c: Config, requested: Option<nat>): nat {
    if requested.Some? then requested.value else c.chunkSize
  }

  function DownloadRefusal(c: Config, s: State, path: Path, env: DownloadEnv): Option<Error> {
    if env.pathError.Some? then env.pathError
    else if path !in s.files then Some(FileNotFound)
    else if |s.files[path]| > c.maxFileSize then Some(FileTooLarge)
    else if RunningCount(s.transfers) >= c.maxConcurrent then Some(MaxTransfers)
    else if !env.hashes then Some(IoError)
    else None
  }

  /** Counting the chunks of a non-empty file divides by the chunk size, before the file is hashed. */
  predicate DividesByZero(c: Config, s: State, path: Path, requested: Option<nat>, env: DownloadEnv) {
    && DownloadRefusal(c, s, path, env.(hashes := true)).None?
    && s.files[path] != [] && DownloadChunkSize(c, requested) == 0
  }

  function NewDownload(c: Config, path: Path, file: Bytes, chunkSize: nat, mtime: Option<nat>, now: nat): Transfer
    requires file != [] ==> chunkSize > 0
  {
    var total := ComputeChunks(|file|, chunkSize);
    Transfer(Download, path, |file|, c.hash(file), chunkSize, total, mtime, None,
             Transferring, seq(total, _ => false), 0, 0, now)
  }

  function InitDownload(
      c: Config, s: State, path: Path, requested: Option<nat>, id: string, env: DownloadEnv, now: nat)
    : (State, Result<Accepted>)
    requires !DividesByZero(c, s, path, requested, env)
  {
    var refusal := DownloadRefusal(c, s, path, env);
    if refusal.Some? then (s, Err(refusal.value)) else
      var t := NewDownload(c, path, s.files[path], DownloadChunkSize(c, requested), env.mtime, now);
      (s.(transfers := s.transfers[id := t]), Ok(Accepted(t.chunkSize, t.totalChunks)))
  }

  predicate Receivable(s: State, id: string, index: nat) {
    && id in s.transfers
    && var t := s.transfers[id];
       t.direction.Upload? && t.phase.Transferring? && index < t.totalChunks
  }

  /** Chunk length is not checked; the bytes go where the index says. */
  function ReceiveChunk(
      c: Config, s: State, id: string, index: nat, chunkHash: string, data: Bytes, now: nat, io: Io)
    : (State, Result<bool>)
  {
    if id !in s.transfers then (s, Err(TransferNotFound))
    else if !Receivable(s, id, index) then (s, Err(InvalidRequest)) else
      var t := s.transfers[id];
      if c.hash(data) != chunkHash then
        (s.(transfers := s.transfers[id := NoteBadHash(t, now)]), Ok(false))
      else if t.temp.None? || t.temp.value !in s.files || !io.opens then (s, Err(IoError)) else
        var temp := t.temp.value;
        var landed := WriteAt(s.files[temp], index * t.chunkSize, data[..Min(io.written, |data|)]);
        var files := s.files[temp := landed];
        if !Writes(io, data) then (s.(files := files), Err(IoError)) else
          var t' := MarkReceived(t, index, |data|, now);
          var s' := State(s.transfers[id := t'], files);
          if !AllDone(t'.done) then (s', Ok(true)) else
            var (s'', error) := Finalize(c, s', id, temp, t.fileHash, t.path, io);
            (s'', if error.Some? then Err(error.value) else Ok(true))
  }

  /** The whole-file hash is checked unless none was announced; then the temp file is renamed into place. */
  function Finalize(
      c: Config, s: State, id: string, temp: Path, expected: string, final: Path, io: Io): (State, Option<Error>)
    requires id in s.transfers && temp in s.files
  {
    var t := s.transfers[id];
    var actual := c.hash(s.files[temp]);
    if !io.hashes then (s, Some(IoError))
    else if expected != "" && actual != expected then
      (State(s.transfers[id := t.(phase := Failed)], Remove(s.files, temp, io.stuck)), Some(HashMismatch))
    else
      var t' := if expected == "" then t.(fileHash := actual) else t;
      if !io.renames then (State(s.transfers[id := t'], Remove(s.files, temp, io.stuck)), Some(IoError))
      else (State(s.transfers[id := t'.(phase := Complete)], Rename(s.files, temp, final)), None)
  }

  datatype Stat = StatFails | Stat(mtime: Option<nat>)

  predicate SourceChanged(t: Transfer, stat: Stat) {
    t.sourceMtime.Some? && stat.Stat? && stat.mtime != t.sourceMtime
  }

  predicate Servable(s: State, id: string, index: nat) {
    && id in s.transfers
    && var t := s.transfers[id];
       t.direction.Download? && t.phase in {Transferring, Paused} && index < t.totalChunks
  }

  /** Reading past the end of the file is an error, unless nothing is asked for. */
  function ReadExact(file: Bytes, offset: nat, len: nat): Option<Bytes> {
    if len == 0 then Some([])
    else if offset + len <= |file| then Some(file[offset..offset + len])
    else None
  }

  function ServeChunk(s: State, id: string, index: nat, stat: Stat, readable: bool, now: nat)
    : (State, Result<Bytes>)
  {
    if id !in s.transfers then (s, Err(TransferNotFound))
    else if !Servable(s, id, index) then (s, Err(InvalidRequest)) else
      var t := s.transfers[id];
      if SourceChanged(t, stat) then (s, Err(FileChanged))
      else if t.path !in s.files || !readable then (s, Err(IoError)) else
        var len := ChunkLen(t.fileSize, t.chunkSize, index);
        var data := ReadExact(s.files[t.path], index * t.chunkSize, len);
        if data.None? then (s, Err(IoError))
        else (s.(transfers := s.transfers[id := MarkServed(t, index, len, now)]), Ok(data.value))
  }

  function DoneIndices(done: seq<bool>, k: nat): (r: seq<nat>)
    requires k <= |done|
  {
    if k == 0 then []
    else DoneIndices(done, k - 1) + if done[k - 1] then [k - 1] else []
  }

  function Resume(s: State, id: string, now: nat): (State, Result<seq<nat>>) {
    if id !in s.transfers then (s, Err(TransferNotFound)) else
      var t := s.transfers[id];
      if t.phase !in {Paused, Transferring} then (s, Err(InvalidRequest))
      else (s.(transfers := s.transfers[id := t.(phase := Transferring, lastActivity := now)]),
            Ok(DoneIndices(t.done, |t.done|)))
  }

  /** Works from every phase. */
  function Abort(s: State, id: string, stuck: set<Path>): (State, Option<Error>) {
    if id !in s.transfers then (s, Some(TransferNotFound)) else
      var t := s.transfers[id];
      (State(s.transfers[id := t.(phase := Aborted)],
             if t.temp.Some? then Remove(s.files, t.temp.value, stuck) else s.files), None)
  }

  function PauseAll(s: State): State {
    s.(transfers := map id | id in s.transfers :: PausedIfRunning(s.transfers[id]))
  }

  function StaleIds(s: State, now: nat, timeout: nat): set<string> {
    set id | id in s.transfers && Stale(s.transfers[id], now, timeout)
  }

  function TempsOf(transfers: map<string, Transfer>, ids: set<string>): set<Path> {
    set id | id in ids && id in transfers && transfers[id].temp.Some? :: transfers[id].temp.value
  }

  function SweepStale(c: Config, s: State, now: nat, stuck: set<Path>): (State, set<string>) {
    var ids := StaleIds(s, now, c.staleTimeout);
    (State(s.transfers - ids, s.files - (TempsOf(s.transfers, ids) - stuck)), ids)
  }

  lemma TempsGrow(transfers: map<string, Transfer>, ids: set<string>, id: string)
    requires id in transfers
    ensures TempsOf(transfers, ids + {id})
         == TempsOf(transfers, ids) + if transfers[id].temp.Some? then {transfers[id].temp.value} else {}
  {
  }

  // ----- The manager -----

  class TransferManager {
    const config: Config
    var transfers: map<string, Transfer>
    var files: map<Path, Bytes>

    constructor (config: Config, files: map<Path, Bytes>)
      ensures this.config == config && View() == State(map[], files)
    {
      this.config, this.transfers, this.files := config, map[], files;
    }

    function View(): State
      reads this
    {
      State(transfers, files)
    }

    method InitiateUpload(req: UploadRequest, id: string, env: UploadEnv, now: nat) returns (r: Result<Accepted>)
      modifies this
      ensures (View(), r) == InitUpload(config, old(View()), req, id, env, now)
    {
      var refusal := UploadRefusal(config, View(), req, env);
      if refusal.Some? { return Err(refusal.value); }
      var temp := TempPath(req.dir, id);
      files := files[temp := []];
      if !env.allocates {
        files := Remove(files, temp, env.stuck);
        return Err(DiskFull);
      }
      files := files[temp := Zeros(req.fileSize)];
      assert files == old(files)[temp := Zeros(req.fileSize)];
      transfers := transfers[id := NewUpload(req, id, now)];
      return Ok(Accepted(UploadChunkSize(req.chunkSize), req.totalChunks));
    }

    method InitiateDownload(path: Path, requested: Option<nat>, id: string, env: DownloadEnv, now: nat)
      returns (r: Result<Accepted>)
      requires !DividesByZero(config, View(), path, requested, env)
      modifies this`transfers
      ensures (View(), r) == InitDownload(config, old(View()), path, requested, id, env, now)
    {
      var refusal := DownloadRefusal(config, View(), path, env);
      if refusal.Some? { return Err(refusal.value); }
      var t := NewDownload(config, path, files[path], DownloadChunkSize(config, requested), env.mtime, now);
      transfers := transfers[id := t];
      return Ok(Accepted(t.chunkSize, t.totalChunks));
    }

    method Receive(id: string, index: nat, chunkHash: string, data: Bytes, now: nat, io: Io)
      returns (r: Result<bool>)
      modifies this
      ensures (View(), r) == ReceiveChunk(config, old(View()), id, index, chunkHash, data, now, io)
    {
      if id !in transfers { return Err(TransferNotFound); }
      var t := transfers[id];
      if !t.direction.Upload? || !t.phase.Transferring? || index >= t.totalChunks { return Err(InvalidRequest); }

      if config.hash(data) != chunkHash {
        transfers := transfers[id := NoteBadHash(t, now)];
        return Ok(false);
      }

      if t.temp.None? || t.temp.value !in files || !io.opens { return Err(IoError); }
      var temp := t.temp.value;
      var part := data[..Min(io.written, |data|)];
      files := files[temp := WriteAt(files[temp], index * t.chunkSize, part)];
      if !Writes(io, data) { return Err(IoError); }

      transfers := transfers[id := MarkReceived(t, index, |data|, now)];
      if AllDone(transfers[id].done) {
        var error := VerifyAndFinalize(id, temp, t.fileHash, t.path, io);
        if error.Some? { return Err(error.value); }
      }
      return Ok(true);
    }

    method VerifyAndFinalize(id: string, temp: Path, expected: string, final: Path, io: Io)
      returns (error: Option<Error>)
      requires id in transfers && temp in files
      modifies this
      ensures (View(), error) == Finalize(config, old(View()), id, temp, expected, final, io)
    {
      if !io.hashes { return Some(IoError); }
      var actual := config.hash(files[temp]);
      if expected == "" {
        transfers := transfers[id := transfers[id].(fileHash := actual)];
      } else if actual != expected {
        files := Remove(files, temp, io.stuck);
        transfers := transfers[id := transfers[id].(phase := Failed)];
        return Some(HashMismatch);
      }
      if !io.renames {
        files := Remove(files, temp, io.stuck);
        assert transfers == Finalize(config, old(View()), id, temp, expected, final, io).0.transfers;
        return Some(IoError);
      }
      files := Rename(files, temp, final);
      transfers := transfers[id := transfers[id].(phase := Complete)];
      assert transfers == Finalize(config, old(View()), id, temp, expected, final, io).0.transfers;
      return None;
    }

    method Serve(id: string, index: nat, stat: Stat, readable: bool, now: nat) returns (r: Result<Bytes>)
      modifies this`transfers
      ensures (View(), r) == ServeChunk(old(View()), id, index, stat, readable, now)
    {
      if id !in transfers { return Err(TransferNotFound); }
      var t := transfers[id];
      if !t.direction.Download? || t.phase !in {Transferring, Paused} || index >= t.totalChunks {
        return Err(InvalidRequest);
      }
      if SourceChanged(t, stat) { return Err(FileChanged); }
      if t.path !in files || !readable { return Err(IoError); }
      var len := ChunkLen(t.fileSize, t.chunkSize, index);
      var data := ReadExact(files[t.path], index * t.chunkSize, len);
      if data.None? { return Err(IoError); }
      transfers := transfers[id := MarkServed(t, index, len, now)];
      return Ok(data.value);
    }

    method ResumeTransfer(id: string, now: nat) returns (r: Result<seq<nat>>)
      modifies this`transfers
      ensures (View(), r) == Resume(old(View()), id, now)
    {
      if id !in transfers { return Err(TransferNotFound); }
      var t := transfers[id];
      if t.phase !in {Paused, Transferring} { return Err(InvalidRequest); }
      transfers := transfers[id := t.(phase := Transferring, lastActivity := now)];
      var received: seq<nat> := [];
      for i := 0 to |t.done|
        invariant received == DoneIndices(t.done, i)
      {
        if t.done[i] { received := received + [i]; }
      }
      return Ok(received);
    }

    method AbortTransfer(id: string, stuck: set<Path>) returns (error: Option<Error>)
      modifies this
      ensures (View(), error) == Abort(old(View()), id, stuck)
    {
      if id !in transfers { return Some(TransferNotFound); }
      var t := transfers[id];
      transfers := transfers[id := t.(phase := Aborted)];
      if t.temp.Some? { files := Remove(files, t.temp.value, stuck); }
      return None;
    }

    /** No transfer is running afterwards; which can still be resumed, and all else about them, is as before. */
    method PauseEverything()
      modifies this`transfers
      ensures View() == PauseAll(old(View()))
      ensures RunningCount(transfers) == 0 && transfers.Keys == old(transfers.Keys)
      ensures forall id :: id in transfers ==>
                var t, t' := old(transfers[id]), transfers[id];
                t' == t.(phase := t'.phase) && (Active(t'.phase) <==> Active(t.phase))
    {
      transfers := map id | id in transfers :: PausedIfRunning(transfers[id]);
      assert (set id | id in transfers && transfers[id].phase in {Init, Transferring}) == {};
    }

    method Sweep(now: nat, stuck: set<Path>) returns (removed: set<string>)
      modifies this
      ensures (View(), removed) == SweepStale(config, old(View()), now, stuck)
    {
      ghost var was := View();
      var stale := StaleIds(View(), now, config.staleTimeout);
      var left := stale;
      removed := {};
      assert files == was.files - (TempsOf(was.transfers, removed) - stuck);
      hide TempsOf;
      while left != {}
        invariant removed + left == stale && removed !! left
        invariant transfers == was.transfers - removed
        invariant files == was.files - (TempsOf(was.transfers, removed) - stuck)
      {
        var id :| id in left;
        var t := transfers[id];
        transfers := transfers - {id};
        if t.temp.Some? { files := Remove(files, t.temp.value, stuck); }
        TempsGrow(was.transfers, removed, id);
        removed, left := removed + {id}, left - {id};
      }
    }
  }
}
