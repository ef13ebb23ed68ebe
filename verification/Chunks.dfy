/** Reading a file or a directory piece by piece. */
module Chunks {
  function Min(a: nat, b: nat): nat {
    if a < b then a else b
  }

  // ------------------------------------------------------------------- files

  /** `slice_blob`: the piece clamped to the contents on both sides. */
  function Slice<T>(bytes: seq<T>, offset: nat, size: nat): seq<T> {
    var start := Min(offset, |bytes|);
    bytes[start..Min(start + size, |bytes|)]
  }

  function Sum(sizes: seq<nat>): nat {
    if sizes == [] then 0 else sizes[0] + Sum(sizes[1..])
  }

  /** What consecutive reads of these sizes return, put together. Each continues where
      the one before stopped asking. */
  function ReadThrough<T>(bytes: seq<T>, offset: nat, sizes: seq<nat>): seq<T>
    decreases |sizes|
  {
    if sizes == [] then [] else Slice(bytes, offset, sizes[0]) + ReadThrough(bytes, offset + sizes[0], sizes[1..])
  }

  /** Consecutive chunks of any sizes make up exactly the range they cover... */
  lemma {:induction false} ChunksMakeTheRange<T>(bytes: seq<T>, offset: nat, sizes: seq<nat>)
    ensures ReadThrough(bytes, offset, sizes) == Slice(bytes, offset, Sum(sizes))
    decreases |sizes|
  {
    hide Slice;
    EmptySlice(bytes, offset);
    if sizes != [] {
      ChunksMakeTheRange(bytes, offset + sizes[0], sizes[1..]);
      SlicesJoin(bytes, offset, sizes[0], Sum(sizes[1..]));
    }
  }

  /** ... so they are the whole file exactly when they ask for all of it. */
  lemma ChunksMakeTheWhole<T>(bytes: seq<T>, sizes: seq<nat>)
    ensures ReadThrough(bytes, 0, sizes) == bytes <==> |bytes| <= Sum(sizes)
  {
    hide Sum, ReadThrough;
    ChunksMakeTheRange(bytes, 0, sizes);
    var got := Slice(bytes, 0, Sum(sizes));
    assert |got| == Min(Sum(sizes), |bytes|);
  }

  lemma EmptySlice<T>(bytes: seq<T>, offset: nat)
    ensures Slice(bytes, offset, 0) == []
  {
  }

  lemma SlicesJoin<T>(bytes: seq<T>, offset: nat, a: nat, b: nat)
    ensures Slice(bytes, offset, a) + Slice(bytes, offset + a, b) == Slice(bytes, offset, a + b)
  {
  }

  // ------------------------------------------------------------- directories

  /** The offset the next call starts from. */
  function Resume<T>(offset: nat, sent: seq<(nat, T)>): nat {
    if sent == [] then offset else sent[|sent| - 1].0
  }

  function Page<T>(entries: seq<T>, offset: nat, room: nat): seq<(nat, T)> {
    seq(Min(room, |entries|), i requires 0 <= i < Min(room, |entries|) => (offset + i + 1, entries[i]))
  }

  /** One directory reply: entries are added, each with the offset to resume after it,
      until the buffer takes no more. `room` is how many fit. */
  method FillReply<T>(entries: seq<T>, offset: nat, room: nat) returns (sent: seq<(nat, T)>)
    ensures sent == Page(entries, offset, room)
  {
    sent := [];
    for i := 0 to |entries|
      invariant |sent| == i <= room
      invariant forall k | 0 <= k < i :: sent[k] == (offset + k + 1, entries[k])
    {
      if |sent| == room {
        break;
      }
      sent := sent + [(offset + i + 1, entries[i])];
    }
  }

  function Names<T>(sent: seq<(nat, T)>): seq<T> {
    seq(|sent|, i requires 0 <= i < |sent| => sent[i].1)
  }

  /** A provider's `readdir`: the in-memory one drops the first `offset` entries... */
  function DropOffset<T>(all: seq<T>, offset: nat): seq<T> {
    all[Min(offset, |all|)..]
  }

  /** ... the projection lists everything at offset zero and nothing anywhere else. */
  function OnlyFromZero<T>(all: seq<T>, offset: nat): seq<T> {
    if offset > 0 then [] else all
  }

  datatype Provider = InMemory | OverProjection

  function Listed<T>(provider: Provider, all: seq<T>, offset: nat): seq<T> {
    if provider.InMemory? then DropOffset(all, offset) else OnlyFromZero(all, offset)
  }

  /** The entries a caller has after one reply per element of `rooms`. */
  function Paged<T>(provider: Provider, all: seq<T>, offset: nat, rooms: seq<nat>): seq<T>
    decreases |rooms|
  {
    if rooms == [] then [] else
    var sent := Page(Listed(provider, all, offset), offset, rooms[0]);
    Names(sent) + Paged(provider, all, Resume(offset, sent), rooms[1..])
  }

  /** One reply of the drop-offset provider is the next slice, and the caller resumes after it. */
  lemma OneReply<T>(all: seq<T>, offset: nat, room: nat)
    requires offset <= |all|
    ensures var sent := Page(DropOffset(all, offset), offset, room);
      && Names(sent) == Slice(all, offset, room)
      && Resume(offset, sent) == offset + |Slice(all, offset, room)| <= |all|
  {
    hide Sum;
    var entries := DropOffset(all, offset);
    var n := Min(room, |entries|);
    assert Names(Page(entries, offset, room)) == entries[..n];
    assert all[offset..][..n] == all[offset..offset + n];
  }

  /** A short slice ends at the end, so continuing after it is continuing after the room. */
  lemma SliceContinues<T>(all: seq<T>, offset: nat, a: nat, b: nat)
    requires offset <= |all|
    ensures Slice(all, offset + |Slice(all, offset, a)|, b) == Slice(all, offset + a, b)
  {
    if offset + a > |all| {
      assert Slice(all, offset + a, b) == [] == Slice(all, |all|, b);
    }
  }

  lemma PagedUnfolds<T>(all: seq<T>, offset: nat, rooms: seq<nat>)
    requires rooms != [] && offset <= |all|
    ensures var sent := Slice(all, offset, rooms[0]);
      offset + |sent| <= |all| && Paged(InMemory, all, offset, rooms) == sent + Paged(InMemory, all, offset + |sent|, rooms[1..])
  {
    hide Page, Names, Resume, DropOffset, Slice;
    OneReply(all, offset, rooms[0]);
  }

  /** Over the drop-offset provider every reply takes up exactly where the last one
      stopped, so nothing is skipped or repeated... */
  lemma {:induction false} DropOffsetPagingIsExact<T>(all: seq<T>, offset: nat, rooms: seq<nat>)
    requires offset <= |all|
    ensures Paged(InMemory, all, offset, rooms) == Slice(all, offset, Sum(rooms))
    decreases |rooms|
  {
    hide Slice, Page, Names, Resume, Listed;
    EmptySlice(all, offset);
    if rooms != [] {
      var a, b := rooms[0], Sum(rooms[1..]);
      PagedUnfolds(all, offset, rooms);
      SliceContinues(all, offset, a, b);
      SlicesJoin(all, offset, a, b);
      DropOffsetPagingIsExact(all, offset + |Slice(all, offset, a)|, rooms[1..]);
    }
  }

  /** ... and the listing is complete exactly when the buffers could hold it. */
  lemma DropOffsetPagingIsComplete<T>(all: seq<T>, rooms: seq<nat>)
    ensures Paged(InMemory, all, 0, rooms) == all <==> |all| <= Sum(rooms)
  {
    hide Sum, Paged;
    DropOffsetPagingIsExact(all, 0, rooms);
    var got := Slice(all, 0, Sum(rooms));
    assert |got| == Min(Sum(rooms), |all|);
  }

  /** Over the projection a caller gets what fitted in the first non-empty reply and never
      anything more, so a listing is complete exactly when one reply holds it. */
  lemma {:induction false} ProjectionPagingStopsAfterOneReply<T>(all: seq<T>, rooms: seq<nat>)
    requires rooms != [] && rooms[0] > 0
    ensures Paged(OverProjection, all, 0, rooms) == all[..Min(rooms[0], |all|)]
    ensures Paged(OverProjection, all, 0, rooms) == all <==> |all| <= rooms[0]
  {
    var sent := Page(all, 0, rooms[0]);
    assert Names(sent) == all[..Min(rooms[0], |all|)];
    if all == [] {
      NothingListed(all, 0, rooms[1..]);
    } else {
      NothingListed(all, Resume(0, sent), rooms[1..]);
    }
  }

  lemma {:induction false} NothingListed<T>(all: seq<T>, offset: nat, rooms: seq<nat>)
    requires offset > 0 || all == []
    ensures Paged(OverProjection, all, offset, rooms) == []
  {
    if rooms != [] {
      var sent := Page(OnlyFromZero(all, offset), offset, rooms[0]);
      assert sent == [];
      NothingListed(all, offset, rooms[1..]);
    }
  }
}
