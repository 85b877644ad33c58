/**
 The server's stored state and its handlers as functions on it: blob store and index tables
 (crates/server/src/storage), upload, registration, release and garbage collection.
 */
module Store {
  import opened Basics
  import opened XetCore
  import opened Frames
  import opened XorbMeta

  type Owner = string

  /** A stored object with the store's own upload time. */
  datatype Blob = Blob(bytes: seq<Byte>, mtime: int)

  datatype Claim = Claim(logicalBytes: nat, createdAt: int)

  /** One chunk_index row; the three columns together are the primary key. */
  datatype Row = Row(chunk: Hash, xorb: Hash, index: nat)

  datatype State = State(
    xorbs: map<Hash, Blob>,
    shards: map<Hash, Blob>,
    fileIndex: map<Hash, Hash>,
    claims: map<(Hash, Owner), Claim>,
    rows: seq<Row>,
    layouts: map<Hash, XorbLayout>)

  const EMPTY: State := State(map[], map[], map[], map[], [], map[])

  datatype Caller = Caller(owner: Owner, admin: bool)

  const SERIALIZED_SLACK: nat := 4 * 1024 * 1024
  const MAX_SHARD_SIZE: nat := 64 * 1024 * 1024

  // The raw content cap of a xorb, 64 MiB (crates/server/src/routes/xorb.rs:52).
  ghost predicate StandardLimits(x: Xet) {
    x.maxXorbBytes == 64 * 1024 * 1024
  }

  // ---- tables ----

  function PutAbsent(m: map<Hash, Blob>, h: Hash, bytes: seq<Byte>, now: int): map<Hash, Blob> {
    if h in m then m else m[h := Blob(bytes, now)]
  }

  // INSERT ... ON CONFLICT DO NOTHING
  function PutRow(rows: seq<Row>, r: Row): seq<Row> {
    if r in rows then rows else rows + [r]
  }

  function PutBatch(rows: seq<Row>, entries: seq<Row>): seq<Row> {
    if entries == [] then rows
    else PutRow(PutBatch(rows, entries[..|entries| - 1]), entries[|entries| - 1])
  }

  // DELETE FROM chunk_index WHERE xorb_hash = h
  function DropRows(rows: seq<Row>, h: Hash): seq<Row> {
    if rows == [] then []
    else DropRows(rows[..|rows| - 1], h) + if rows[|rows| - 1].xorb == h then [] else [rows[|rows| - 1]]
  }

  // SELECT ... WHERE chunk_hash = c ORDER BY rowid
  function Locations(rows: seq<Row>, c: Hash): seq<Row> {
    if rows == [] then []
    else Locations(rows[..|rows| - 1], c) + if rows[|rows| - 1].chunk == c then [rows[|rows| - 1]] else []
  }

  function Owners(claims: map<(Hash, Owner), Claim>, f: Hash): set<Owner> {
    set k | k in claims && k.0 == f :: k.1
  }

  // A second claim by the same owner carries the new size and the time of the first.
  function Upsert(claims: map<(Hash, Owner), Claim>, f: Hash, o: Owner, bytes: nat, now: int): map<(Hash, Owner), Claim> {
    if (f, o) in claims then claims[(f, o) := Claim(bytes, claims[(f, o)].createdAt)]
    else claims[(f, o) := Claim(bytes, now)]
  }

  // ---- what a term means on the stored xorbs ----

  predicate TermInStore(x: Xet, xorbs: map<Hash, Blob>, t: Term) {
    && t.xorb in xorbs
    && t.start < t.end <= |FramesOf(x, xorbs[t.xorb].bytes)|
  }

  // The frames a term selects.
  function TermFrames(x: Xet, xorbs: map<Hash, Blob>, t: Term): seq<Frame> {
    if TermInStore(x, xorbs, t) then FramesOf(x, xorbs[t.xorb].bytes)[t.start..t.end] else []
  }

  function TermBytes(x: Xet, xorbs: map<Hash, Blob>, t: Term): seq<Byte> {
    Join(Raws(TermFrames(x, xorbs, t)))
  }

  function UnpackedLen(fs: seq<Frame>): nat {
    Sum(Lens(Raws(fs)))
  }

  // What a list of terms says the file is made of: every chunk with its size, term after term.
  function FileChunks(x: Xet, xorbs: map<Hash, Blob>, entries: seq<Entry>): seq<Sized> {
    if entries == [] then []
    else
      FileChunks(x, xorbs, entries[..|entries| - 1])
      + SizedOf(x, TermFrames(x, xorbs, entries[|entries| - 1].term))
  }

  function SizesOf(chunks: seq<Sized>): (r: seq<nat>)
    ensures |r| == |chunks| && forall i :: 0 <= i < |chunks| ==> r[i] == chunks[i].1
  {
    seq(|chunks|, i requires 0 <= i < |chunks| => chunks[i].1)
  }

  function LogicalBytes(x: Xet, xorbs: map<Hash, Blob>, entries: seq<Entry>): nat {
    Sum(SizesOf(FileChunks(x, xorbs, entries)))
  }

  // ---- what registration validates ----

  predicate ValidTerm(x: Xet, xorbs: map<Hash, Blob>, e: Entry) {
    && TermInStore(x, xorbs, e.term)
    && x.rangeHash(HashesOf(x, TermFrames(x, xorbs, e.term))) == e.check
    && Wrap(UnpackedLen(TermFrames(x, xorbs, e.term))) == e.term.unpacked
  }

  predicate ValidFile(x: Xet, xorbs: map<Hash, Blob>, b: FileBlock) {
    && b.entries != [] && b.hasVerification
    && (forall i :: 0 <= i < |b.entries| ==> ValidTerm(x, xorbs, b.entries[i]))
    && x.fileHash(FileChunks(x, xorbs, b.entries)) == b.hash
  }

  predicate ValidUpload(x: Xet, xorbs: map<Hash, Blob>, body: seq<Byte>) {
    && |body| <= MAX_SHARD_SIZE
    && x.shardFooterSize(body) == Some(0)
    && x.parseShard(body).Some?
    && forall i :: 0 <= i < |x.parseShard(body).value.files| ==>
         ValidFile(x, xorbs, x.parseShard(body).value.files[i])
  }

  // ---- handlers ----

  function BodyLayout(x: Xet, body: seq<Byte>): XorbLayout {
    LayoutOf(InfoOf(x, FramesOf(x, body)), |body|)
  }

  function XorbRows(h: Hash, hashes: seq<Hash>): (r: seq<Row>)
    ensures |r| == |hashes| && forall i :: 0 <= i < |r| ==> r[i] == Row(hashes[i], h, i)
  {
    seq(|hashes|, i requires 0 <= i < |hashes| => Row(hashes[i], h, i))
  }

  predicate AcceptsXorb(x: Xet, st: State, h: Hash, body: seq<Byte>) {
    && |body| <= x.maxXorbBytes + SERIALIZED_SLACK
    && h !in st.xorbs
    && ValidatedInfo(x, body, h).Ok? && ValidatedInfo(x, body, h).value.numChunks != 0
  }

  // post_xorb: blob, then chunk rows, then layout.
  function PostXorb(x: Xet, st: State, h: Hash, body: seq<Byte>, now: int): State {
    if !AcceptsXorb(x, st, h, body) then st
    else st.(
      xorbs := PutAbsent(st.xorbs, h, body, now),
      rows := PutBatch(st.rows, XorbRows(h, HashesOf(x, FramesOf(x, body)))),
      layouts := st.layouts[h := BodyLayout(x, body)])
  }

  function IndexFiles(index: map<Hash, Hash>, files: seq<FileBlock>, shard: Hash): map<Hash, Hash> {
    if files == [] then index
    else IndexFiles(index, files[..|files| - 1], shard)[files[|files| - 1].hash := shard]
  }

  function ClaimFiles(x: Xet, xorbs: map<Hash, Blob>, claims: map<(Hash, Owner), Claim>,
                      files: seq<FileBlock>, owner: Owner, now: int): map<(Hash, Owner), Claim>
  {
    if files == [] then claims
    else
      var last := files[|files| - 1];
      Upsert(ClaimFiles(x, xorbs, claims, files[..|files| - 1], owner, now),
             last.hash, owner, LogicalBytes(x, xorbs, last.entries), now)
  }

  function CasRows(cas: seq<CasBlock>): seq<Row> {
    if cas == [] then []
    else CasRows(cas[..|cas| - 1]) + XorbRows(cas[|cas| - 1].xorb, cas[|cas| - 1].chunks)
  }

  // register_shard, once the upload is valid: store, index and claim, then chunk rows.
  function Register(x: Xet, st: State, owner: Owner, body: seq<Byte>, now: int): State {
    if !ValidUpload(x, st.xorbs, body) then st
    else
      var shard := x.parseShard(body).value;
      var sh := x.dataHash(body);
      st.(
        shards := PutAbsent(st.shards, sh, body, now),
        fileIndex := IndexFiles(st.fileIndex, shard.files, sh),
        claims := ClaimFiles(x, st.xorbs, st.claims, shard.files, owner, now),
        rows := PutBatch(st.rows, CasRows(shard.cas)))
  }

  function WithoutFile(st: State, f: Hash): State {
    st.(
      claims := map k | k in st.claims && k.0 != f :: st.claims[k],
      fileIndex := st.fileIndex - {f})
  }

  // delete_file: release the caller's claim; the last release removes the file.
  function Delete(st: State, caller: Caller, f: Hash): State {
    if f !in st.fileIndex then st
    else
      var owners := Owners(st.claims, f);
      if owners == {} then (if caller.admin then WithoutFile(st, f) else st)
      else if (f, caller.owner) !in st.claims then st
      else if |owners| == 1 then WithoutFile(st, f)
      else st.(claims := st.claims - {(f, caller.owner)})
  }

  // ---- garbage collection ----

  function LiveShards(st: State): set<Hash> {
    set f | f in st.fileIndex :: st.fileIndex[f]
  }

  function ShardFiles(x: Xet, shards: map<Hash, Blob>, s: Hash): seq<FileBlock> {
    if s in shards && x.parseShard(shards[s].bytes).Some? then x.parseShard(shards[s].bytes).value.files else []
  }

  // Xorbs of the blocks whose file currently resolves to shard `s`.
  function BlockXorbs(index: map<Hash, Hash>, files: seq<FileBlock>, s: Hash): set<Hash> {
    set b, e | b in files && b.hash in index && index[b.hash] == s && e in b.entries :: e.term.xorb
  }

  function Marked(x: Xet, st: State, live: set<Hash>): set<Hash> {
    set s, h | s in live && h in BlockXorbs(st.fileIndex, ShardFiles(x, st.shards, s), s) :: h
  }

  function Reachable(x: Xet, st: State): set<Hash> {
    Marked(x, st, LiveShards(st))
  }

  predicate CorruptShard(x: Xet, st: State, s: Hash) {
    s in st.shards && x.parseShard(st.shards[s].bytes).None?
  }

  predicate InGrace(now: int, grace: int, mtime: int) {
    now - mtime < grace
  }

  // What a sweep leaves of one object table.
  function Swept(m: map<Hash, Blob>, live: set<Hash>, now: int, grace: int): map<Hash, Blob> {
    map h | h in m && (h in live || InGrace(now, grace, m[h].mtime)) :: m[h]
  }

  function Condemned(m: map<Hash, Blob>, live: set<Hash>, now: int, grace: int): set<Hash> {
    m.Keys - Swept(m, live, now, grace).Keys
  }

  function DropAllRows(rows: seq<Row>, gone: set<Hash>): seq<Row> {
    if rows == [] then []
    else DropAllRows(rows[..|rows| - 1], gone) + if rows[|rows| - 1].xorb in gone then [] else [rows[|rows| - 1]]
  }

  // run_gc as one step; a corrupt live shard aborts it before anything is deleted.
  function Gc(x: Xet, st: State, now: int, grace: int): State {
    if exists s :: s in LiveShards(st) && CorruptShard(x, st, s) then st
    else
      var gone := Condemned(st.xorbs, Reachable(x, st), now, grace);
      st.(
        xorbs := Swept(st.xorbs, Reachable(x, st), now, grace),
        shards := Swept(st.shards, LiveShards(st), now, grace),
        rows := DropAllRows(st.rows, gone),
        layouts := st.layouts - gone)
  }

  // ---- whole runs ----

  datatype Event =
    | UploadXorb(hash: Hash, body: seq<Byte>, at: int)
    | RegisterShard(owner: Owner, shardBody: seq<Byte>, registeredAt: int)
    | DeleteFile(caller: Caller, file: Hash)
    | CollectGarbage(now: int, grace: int)

  function Step(x: Xet, st: State, e: Event): State {
    match e
    case UploadXorb(h, body, now) => PostXorb(x, st, h, body, now)
    case RegisterShard(owner, body, now) => Register(x, st, owner, body, now)
    case DeleteFile(caller, f) => Delete(st, caller, f)
    case CollectGarbage(now, grace) => Gc(x, st, now, grace)
  }

  function Run(x: Xet, st: State, events: seq<Event>): State
    decreases |events|
  {
    if events == [] then st else Run(x, Step(x, st, events[0]), events[1..])
  }
}
