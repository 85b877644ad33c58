/**
 The library side of the system. Hashes, compression, footers and the shard byte format
 come from xet-core, whose code is not part of this model: they are the fields of one
 record, and what the proofs need of them is stated as predicates over that record.
 */
module XetCore {
  import opened Basics

  /** The eight bytes in front of every chunk: version u8, length u24, scheme u8, length u24. */
  datatype Header = Header(version: Byte, compressed: nat, scheme: Byte, uncompressed: nat)

  /** Xorb metadata: per chunk its hash, where its frame ends, and where its bytes end once unpacked. */
  datatype XorbInfo = XorbInfo(
    numChunks: nat,
    chunkHashes: seq<Hash>,
    boundaryOffsets: seq<nat>,
    unpackedOffsets: seq<nat>)

  /** One reconstruction term: chunks start..end of a xorb, declared to unpack to `unpacked` bytes. */
  datatype Term = Term(xorb: Hash, unpacked: nat, start: nat, end: nat)

  /** A term with its verification hash, as file blocks of a shard carry them. */
  datatype Entry = Entry(term: Term, check: Hash)

  datatype FileBlock = FileBlock(hash: Hash, hasVerification: bool, entries: seq<Entry>)

  datatype CasBlock = CasBlock(xorb: Hash, chunks: seq<Hash>)

  datatype Shard = Shard(files: seq<FileBlock>, cas: seq<CasBlock>)

  /** A chunk hash with the chunk's size, what xorb and file hashes aggregate. */
  type Sized = (Hash, nat)

  datatype Xet = Xet(
    acceptsHeader: Header -> bool,                          // parse_chunk_header
    lz4: seq<Byte> -> Option<seq<Byte>>,                    // decompression, may fail
    pack: seq<Byte> -> (Byte, seq<Byte>),                   // scheme and payload chosen for a chunk
    footerOf: seq<seq<Byte>> -> seq<Byte>,                  // metadata footer of a serialised xorb
    deserializeChunks: seq<Byte> -> Option<(seq<Byte>, seq<nat>)>, // deserialize_chunks
    readFooter: seq<Byte> -> Option<XorbInfo>,              // XorbObject::deserialize
    validateXorb: (seq<Byte>, Hash) -> Option<Option<XorbInfo>>, // validate_xorb_object
    dataHash: seq<Byte> -> Hash,                            // compute_data_hash
    xorbHash: seq<Sized> -> Hash,                           // xorb_hash
    fileHash: seq<Sized> -> Hash,                           // file_hash
    rangeHash: seq<Hash> -> Hash,                           // range_hash_from_chunks
    hmac: (Hash, Hash) -> Hash,                             // chunk hash, key
    dedupEligible: Hash -> bool,                            // hash_is_global_dedup_eligible
    shardFooterSize: seq<Byte> -> Option<nat>,              // MDBShardFileHeader::deserialize
    parseShard: seq<Byte> -> Option<Shard>,                 // MDBMinimalShard::from_reader
    printShard: Shard -> seq<Byte>,
    maxXorbBytes: nat,
    maxXorbChunks: nat)

  // ---- hypotheses, each used only where a statement names it ----

  ghost predicate DataHashInjective(x: Xet) {
    forall a, b :: x.dataHash(a) == x.dataHash(b) ==> a == b
  }

  ghost predicate XorbHashInjective(x: Xet) {
    forall a, b :: x.xorbHash(a) == x.xorbHash(b) ==> a == b
  }

  ghost predicate FileHashInjective(x: Xet) {
    forall a, b :: x.fileHash(a) == x.fileHash(b) ==> a == b
  }

  ghost predicate HmacInjective(x: Xet, key: Hash) {
    forall a, b :: x.hmac(a, key) == x.hmac(b, key) ==> a == b
  }

  // Only version 0 headers parse (docs/SPECIFICATION.md section 4.2).
  ghost predicate OnlyVersionZero(x: Xet) {
    forall h :: x.acceptsHeader(h) ==> h.version == 0
  }

  // What the shard writer prints parses back, and carries no footer.
  ghost predicate ShardsPrint(x: Xet) {
    forall s :: x.parseShard(x.printShard(s)) == Some(s) && x.shardFooterSize(x.printShard(s)) == Some(0)
  }
}
