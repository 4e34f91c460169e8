// The receiver of big values: payloads are copied piece by piece into the area
// (replication/_big_value_receiver.hpp).

module Receiver {
  import opened Common
  import opened Tiling
  import opened Stream

  function Min(a: nat, b: nat): nat {
    if a < b then a else b
  }

  class Receiver {
    const l: Layout
    const area: array<Byte>
    const headerBuf: array<Byte>
    var headers: map<nat, ChunkHeader>
    var offsets: map<nat, nat>
    var writePos: nat
    var received: nat
    var headerPos: nat
    var parsing: bool
    var wire: nat
    var size: nat
    var filled: nat

    ghost predicate Sound()
      reads this
    {
      l.page > 0 && area != headerBuf && headerBuf.Length == HEADER_SIZE && headerPos <= HEADER_SIZE
    }

    ghost function Seen(): State
      requires Sound()
      reads this, area, headerBuf
    {
      State(area[..], headers, offsets, writePos, received, headerBuf[..headerPos], parsing, wire, size, filled)
    }

    // handle_start: an area for the values that were announced.
    constructor (layout: Layout, areaSize: nat)
      requires layout.page > 0
      ensures Sound() && l == layout && Ok(l, Seen()) && Idle(Seen())
      ensures area.Length == areaSize && offsets == map[] && headers == map[] && writePos == 0 && received == 0
      ensures fresh(area) && fresh(headerBuf)
    {
      l := layout;
      area := new Byte[areaSize](_ => 0);
      headerBuf := new Byte[HEADER_SIZE](_ => 0);
      headers, offsets := map[], map[];
      writePos, received, headerPos, parsing := 0, 0, 0, true;
      wire, size, filled := 0, 0, 0;
      new;
      assert 0 % l.page == 0 by { UnitTimes(0, l.page); }
      assert headerBuf[..0] == [];
    }

    method CopyInto(dst: array<Byte>, at: nat, bytes: Bytes)
      requires at + |bytes| <= dst.Length
      modifies dst
      ensures dst[..] == Put(old(dst[..]), at, bytes)
    {
      var i := 0;
      while i < |bytes|
        invariant i <= |bytes|
        invariant dst[..] == Put(old(dst[..]), at, bytes[..i])
      {
        assert bytes[..i + 1] == bytes[..i] + [bytes[i]];
        PutNext(old(dst[..]), at, bytes[..i], bytes[i]);
        dst[at + i] := bytes[i];
        i := i + 1;
      }
      assert bytes[..|bytes|] == bytes;
    }

    // Reads header bytes; true when the header is complete.
    method ReadHeader(bytes: Bytes) returns (done: bool)
      requires Sound() && parsing && headerPos + |bytes| <= HEADER_SIZE
      modifies this`headerPos, headerBuf
      ensures Sound() && Seen() == old(Seen()).(header := old(Seen()).header + bytes)
      ensures done <==> headerPos == HEADER_SIZE
    {
      CopyInto(headerBuf, headerPos, bytes);
      headerPos := headerPos + |bytes|;
      assert headerBuf[..headerPos] == old(headerBuf[..headerPos]) + bytes;
      done := headerPos >= HEADER_SIZE;
    }

    // Decodes the header and writes that of the chunk; false if the area is too small.
    method OpenChunk() returns (ok: bool)
      requires Sound() && parsing && headerPos == HEADER_SIZE
      modifies `wire, `size, `filled, `parsing, `headers, `offsets
      ensures Sound() && ok == (old(writePos) + Room(l, size) <= area.Length)
      ensures Seen() == if ok then Opened(l, Decoded(old(Seen()))) else Decoded(old(Seen()))
    {
      var h := headerBuf[..headerPos];
      wire, size, filled, parsing := Number(h[..8]), Number(h[8..]), 0, false;
      var room := Room(l, size);
      if writePos + room > area.Length {
        return false;
      }
      headers := headers[writePos := ChunkHeader(room, l.areaOffset + writePos, received + 1 < l.expected)];
      offsets := offsets[wire := l.areaOffset + writePos + KEY_SIZE];
      ok := true;
    }

    // Copies value bytes; a complete value moves the write position on.
    method ReadData(bytes: Bytes)
      requires Sound() && !parsing && headerPos == HEADER_SIZE && Fits(Seen(), |bytes|)
      modifies this, area
      ensures Sound() && Seen() == Settle(l, Fill(old(Seen()), bytes))
    {
      CopyInto(area, writePos + KEY_SIZE + filled, bytes);
      filled := filled + |bytes|;
      if filled >= size {
        writePos := writePos + Room(l, size);
        received := received + 1;
        headerPos := 0;
        parsing := true;
        assert headerBuf[..0] == [];
      }
    }

    // One message: the same state as if its bytes had come one by one.
    method HandleData(payload: Bytes) returns (ok: bool, bytesDelta: nat, allReceived: bool)
      requires Sound() && Ok(l, Seen())
      modifies this, area, headerBuf
      ensures Sound() && ok == FeedAll(l, old(Seen()), payload).Going?
      ensures Seen() == FeedAll(l, old(Seen()), payload).state
      ensures bytesDelta == ValueBytes(l, old(Seen()), payload)
      ensures allReceived == (ok && received >= l.expected)
    {
      var i: nat := 0;
      bytesDelta, allReceived := 0, false;
      assert payload[0..] == payload;
      while i < |payload|
        invariant i <= |payload| && Sound() && Ok(l, Seen())
        invariant FeedAll(l, old(Seen()), payload) == FeedAll(l, Seen(), payload[i..])
        invariant ValueBytes(l, old(Seen()), payload) == bytesDelta + ValueBytes(l, Seen(), payload[i..])
      {
        ok := true;
        var data, headerBytes := 0, 0;
        ok, headerBytes, data := HandlePiece(payload[i..]);
        PieceBehind(payload, i, headerBytes + data);
        if !ok {
          return;
        }
        bytesDelta := bytesDelta + data;
        i := i + headerBytes + data;
      }
      assert payload[i..] == [];
      ok, allReceived := true, received >= l.expected;
    }

    // Takes as many value bytes as the chunk still needs.
    method TakeData(rest: Bytes) returns (data: nat)
      requires Sound() && InChunk(l, Seen())
      modifies this, area
      ensures Sound() && Ok(l, Seen()) && data <= |rest| && (old(filled < size) && rest != [] ==> data > 0)
      ensures Ok(l, Settle(l, old(Seen())))
      ensures FeedAll(l, Settle(l, old(Seen())), rest) == FeedAll(l, Seen(), rest[data..])
      ensures ValueBytes(l, Settle(l, old(Seen())), rest) == data + ValueBytes(l, Seen(), rest[data..])
    {
      hide FeedAll, ValueBytes, Room;
      data := Min(size - filled, |rest|);
      DataTaken(l, Seen(), rest, data);
      ReadData(rest[..data]);
    }

    // Takes header bytes; if the header is complete, the chunk is opened.
    method TakeHeader(rest: Bytes) returns (ok: bool, done: bool, n: nat)
      requires Sound() && Ok(l, Seen()) && parsing && rest != []
      modifies this, headerBuf
      ensures Sound() && 0 < n <= |rest|
      ensures ok && !done ==> Ok(l, Seen()) && n == |rest| && FeedAll(l, old(Seen()), rest) == Going(Seen())
      ensures ok && done ==> InChunk(l, Seen()) && Ok(l, Settle(l, Seen()))
      ensures ok && done ==> FeedAll(l, old(Seen()), rest) == FeedAll(l, Settle(l, Seen()), rest[n..])
      ensures ok && done ==> ValueBytes(l, old(Seen()), rest) == ValueBytes(l, Settle(l, Seen()), rest[n..])
      ensures !ok ==> FeedAll(l, old(Seen()), rest) == Overflow(Seen())
      ensures !(ok && done) ==> ValueBytes(l, old(Seen()), rest) == 0
    {
      hide FeedAll, ValueBytes, Room, Number;
      n := Min(HEADER_SIZE - headerPos, |rest|);
      ghost var s0 := Seen();
      FeedHeader(l, s0, rest[..n]);
      BoundariesDoNotMatter(l, s0, rest[..n], rest[n..]);
      assert rest[..n] + rest[n..] == rest;
      done := ReadHeader(rest[..n]);
      ok := true;
      if !done {
        assert rest[n..] == [] && rest[..n] == rest;
        return;
      }
      ok := OpenChunk();
      if ok {
        SettleKeepsOk(l, Seen());
      }
    }

    // One pass of the loop: header bytes if a header is due, then value bytes.
    method HandlePiece(rest: Bytes) returns (ok: bool, headerBytes: nat, data: nat)
      requires Sound() && Ok(l, Seen()) && rest != []
      modifies this, area, headerBuf
      ensures Sound() && headerBytes + data <= |rest|
      ensures ok ==> headerBytes + data > 0 && Ok(l, Seen())
      ensures ok ==> FeedAll(l, old(Seen()), rest) == FeedAll(l, Seen(), rest[headerBytes + data..])
      ensures ok ==> ValueBytes(l, old(Seen()), rest) == data + ValueBytes(l, Seen(), rest[headerBytes + data..])
      ensures !ok ==> FeedAll(l, old(Seen()), rest) == Overflow(Seen()) && ValueBytes(l, old(Seen()), rest) == 0 && data == 0
    {
      hide Room, Settle, Number;
      headerBytes, data, ok := 0, 0, true;
      if parsing {
        var done;
        ok, done, headerBytes := TakeHeader(rest);
        if !ok || !done {
          return;
        }
      } else {
        SettleIsLast(l, Seen());
      }
      data := TakeData(rest[headerBytes..]);
      PieceBehind(rest, headerBytes, data);
    }
  }

  // In a chunk that may be complete already.
  ghost predicate InChunk(l: Layout, s: State) {
    && l.page > 0 && s.writePos % l.page == 0 && !s.parsing && |s.header| == HEADER_SIZE
    && s.filled <= s.size && s.writePos + Room(l, s.size) <= |s.area|
  }

  lemma {:induction false} SettleIsLast(l: Layout, s: State)
    requires Ok(l, s) && !s.parsing
    ensures Settle(l, s) == s && InChunk(l, s)
  {
  }

  lemma {:induction false} DataTaken(l: Layout, s: State, rest: Bytes, n: nat)
    requires InChunk(l, s) && n <= |rest| && s.filled + n <= s.size && (n == 0 ==> rest == [] || s.filled == s.size)
    ensures Ok(l, Settle(l, s)) && Fits(s, n) && Ok(l, Settle(l, Fill(s, rest[..n])))
    ensures FeedAll(l, Settle(l, s), rest) == FeedAll(l, Settle(l, Fill(s, rest[..n])), rest[n..])
    ensures ValueBytes(l, Settle(l, s), rest) == n + ValueBytes(l, Settle(l, Fill(s, rest[..n])), rest[n..])
  {
    hide Room, Ok, Feed;
    DataFits(l, s, n);
    SettleKeepsOk(l, s);
    SettleKeepsOk(l, Fill(s, rest[..n]));
    if n == 0 {
      assert Put(s.area, s.writePos + KEY_SIZE + s.filled, []) == s.area;
      assert rest[..0] == [] && rest[0..] == rest;
    } else {
      FeedData(l, s, rest[..n]);
      BoundariesDoNotMatter(l, s, rest[..n], rest[n..]);
      assert rest[..n] + rest[n..] == rest;
    }
  }

  lemma {:induction false} PutNext(area: Bytes, at: nat, bytes: Bytes, b: Byte)
    requires at + |bytes| + 1 <= |area|
    ensures Put(area, at, bytes + [b]) == Put(area, at, bytes)[at + |bytes| := b]
  {
  }

  lemma {:induction false} PieceBehind(payload: Bytes, i: nat, n: nat)
    requires i + n <= |payload|
    ensures payload[i..][n..] == payload[i + n..]
  {
  }
}
