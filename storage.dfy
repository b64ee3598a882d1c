/**
  The chunk storages a loading job reads from, seen only at their interface.

  A storage answers a read of one chunk coordinate with a stored tag, with
  nothing, or with an I/O failure, and turns a tag into a chunk or refuses it
  (an incompatible record). How tags are encoded on disk is not part of this
  model. The manager owns a primary storage and, optionally, a read-only
  fallback storage.
 */
module ChunkStorage {
  import opened Wrappers
  import opened ViewWindow

  /** A stored NBT compound tag, as opaque data. */
  datatype Tag = Tag(nbt: seq<int>)

  /** A fake chunk: its coordinate and, per vertical section, whether that section is empty. */
  datatype Chunk = Chunk(pos: Pos, emptySections: seq<bool>)

  /** The outcome of `FakeChunkStorage.loadTag`: a tag, null, or a thrown IOException. */
  datatype TagRead = Present(tag: Tag) | Absent | IoFailure

  /**
    One storage: what reading each coordinate yields, and what `deserialize`
    builds from a tag (None when the record does not fit the world).
   */
  datatype Storage = Storage(read: Pos -> TagRead, deserialize: (Pos, Tag) -> Option<Chunk>)

  /** Which storage a tag came from. */
  datatype Tier = Primary | Fallback

  datatype Found = Found(tag: Tag, from: Tier)

  /**
    `loadTag`: the primary storage's tag when it has one; otherwise, when a
    fallback exists, the fallback's tag; an I/O failure in either ends the
    lookup with nothing, without consulting the fallback.
   */
  function LoadTag(p: Pos, primary: Storage, fallback: Option<Storage>): (r: Option<Found>)
    ensures r.Some? && r.value.from == Primary <==> primary.read(p).Present?
    ensures r.Some? && r.value.from == Primary ==> r.value.tag == primary.read(p).tag
    ensures r.Some? && r.value.from == Fallback
        <==> primary.read(p).Absent? && fallback.Some? && fallback.value.read(p).Present?
    ensures r.Some? && r.value.from == Fallback ==> r.value.tag == fallback.value.read(p).tag
    ensures primary.read(p).IoFailure? ==> r.None?
  {
    match primary.read(p)
    case IoFailure => None
    case Present(tag) => Some(Found(tag, Primary))
    case Absent =>
      if fallback.None? then None
      else
        match fallback.value.read(p)
        case Present(tag) => Some(Found(tag, Fallback))
        case _ => None
  }

  /** The storage a tier names; a fallback tag can only exist when there is a fallback. */
  function TierStorage(tier: Tier, primary: Storage, fallback: Option<Storage>): Storage
    requires tier == Fallback ==> fallback.Some?
  {
    if tier == Primary then primary else fallback.value
  }

  /**
    What `LoadingJob.run` stores as its result when not cancelled: the chunk
    deserialized by the storage the tag came from, or None when no storage has
    a tag or deserialization refused it.
   */
  function JobOutcome(p: Pos, primary: Storage, fallback: Option<Storage>): Option<Chunk>
  {
    match LoadTag(p, primary, fallback)
    case None => None
    case Some(found) => TierStorage(found.from, primary, fallback).deserialize(p, found.tag)
  }

  /** The fallback is never consulted unless the primary returned nothing. */
  lemma FallbackOnlyAfterAbsent(p: Pos, primary: Storage, f1: Option<Storage>, f2: Option<Storage>)
    requires !primary.read(p).Absent?
    ensures LoadTag(p, primary, f1) == LoadTag(p, primary, f2)
    ensures JobOutcome(p, primary, f1) == JobOutcome(p, primary, f2)
  {
  }

  /** A job's chunk always comes from the first storage that held a tag for its coordinate. */
  lemma OutcomeSource(p: Pos, primary: Storage, fallback: Option<Storage>, c: Chunk)
    requires JobOutcome(p, primary, fallback) == Some(c)
    ensures primary.read(p).Present? ==> primary.deserialize(p, primary.read(p).tag) == Some(c)
    ensures primary.read(p).Absent? ==>
      fallback.Some? && fallback.value.read(p).Present?
      && fallback.value.deserialize(p, fallback.value.read(p).tag) == Some(c)
    ensures !primary.read(p).IoFailure?
  {
  }

  /**
    With no record in the primary storage and a usable record in the fallback
    for chunk (3,-2), the job yields the fallback's chunk.
   */
  lemma FallbackServesMissingChunk(primary: Storage, fb: Storage, tag: Tag, c: Chunk)
    requires primary.read(Pos(3, -2)) == Absent
    requires fb.read(Pos(3, -2)) == Present(tag)
    requires fb.deserialize(Pos(3, -2), tag) == Some(c)
    ensures LoadTag(Pos(3, -2), primary, Some(fb)) == Some(Found(tag, Fallback))
    ensures JobOutcome(Pos(3, -2), primary, Some(fb)) == Some(c)
  {
  }
}
