// The stream of big values, byte by byte (replication/_big_value_receiver.hpp): what a receiver
// holds after any bytes, whatever messages they came in.

module Stream {
  import opened Common
  import opened Tiling

  const HEADER_SIZE := 12
  const KEY_SIZE := 16

  type Bytes = seq<Byte>

  // What _FreeKey in front of a stored value says.
  datatype ChunkHeader = ChunkHeader(size: nat, offset: nat, successor: bool)

  // What is fixed for one transfer.
  datatype Layout = Layout(page: nat, areaOffset: nat, expected: nat)

  datatype State = State(area: Bytes, headers: map<nat, ChunkHeader>, offsets: map<nat, nat>, writePos: nat, received: nat,
                         header: Bytes, parsing: bool, wire: nat, size: nat, filled: nat)

  datatype Outcome = Going(state: State) | Overflow(state: State)

  // A little-endian number.
  function Number(bytes: Bytes): nat {
    if bytes == [] then 0 else bytes[0] + 256 * Number(bytes[1..])
  }

  // What a value of this size takes in the area.
  function Room(l: Layout, size: nat): (r: nat)
    requires l.page > 0
    ensures r % l.page == 0 && KEY_SIZE + size <= r < KEY_SIZE + size + l.page
  {
    RoundUp(KEY_SIZE + size, l.page)
  }

  ghost predicate Ok(l: Layout, s: State) {
    && l.page > 0 && s.writePos % l.page == 0 && s.writePos <= |s.area|
    && (s.parsing ==> |s.header| < HEADER_SIZE)
    && (!s.parsing ==> |s.header| == HEADER_SIZE && s.filled < s.size && s.writePos + Room(l, s.size) <= |s.area|)
  }

  // Overwrites what lies from position at on.
  function Put(area: Bytes, at: nat, bytes: Bytes): (r: Bytes)
    requires at + |bytes| <= |area|
    ensures |r| == |area|
  {
    area[..at] + bytes + area[at + |bytes|..]
  }

  function Close(l: Layout, s: State): State
    requires l.page > 0
  {
    s.(writePos := s.writePos + Room(l, s.size), received := s.received + 1, header := [], parsing := true)
  }

  // A chunk whose bytes are all there is done.
  function Settle(l: Layout, s: State): State
    requires l.page > 0
  {
    if s.filled >= s.size then Close(l, s) else s
  }

  function Decoded(s: State): State
    requires |s.header| == HEADER_SIZE
  {
    s.(wire := Number(s.header[..8]), size := Number(s.header[8..]), filled := 0, parsing := false)
  }

  // The header of the next chunk and its entry among the offsets.
  function Opened(l: Layout, s: State): State
    requires l.page > 0
  {
    s.(headers := s.headers[s.writePos := ChunkHeader(Room(l, s.size), l.areaOffset + s.writePos, s.received + 1 < l.expected)],
       offsets := s.offsets[s.wire := l.areaOffset + s.writePos + KEY_SIZE])
  }

  // A complete header opens a chunk, if the area has room for it.
  function Open(l: Layout, s: State): Outcome
    requires l.page > 0 && |s.header| == HEADER_SIZE
  {
    var d := Decoded(s);
    if s.writePos + Room(l, d.size) > |s.area| then Overflow(d) else Going(Settle(l, Opened(l, d)))
  }

  predicate Fits(s: State, n: nat) {
    s.filled + n <= s.size && s.writePos + KEY_SIZE + s.filled + n <= |s.area|
  }

  function Fill(s: State, bytes: Bytes): State
    requires Fits(s, |bytes|)
  {
    s.(area := Put(s.area, s.writePos + KEY_SIZE + s.filled, bytes), filled := s.filled + |bytes|)
  }

  lemma {:induction false} DataFits(l: Layout, s: State, n: nat)
    requires l.page > 0 && s.filled + n <= s.size && s.writePos + Room(l, s.size) <= |s.area|
    ensures Fits(s, n)
  {
  }

  // One byte of the stream.
  ghost function Feed(l: Layout, s: State, b: Byte): Outcome
    requires Ok(l, s)
  {
    if s.parsing then
      var t := s.(header := s.header + [b]);
      if |t.header| < HEADER_SIZE then Going(t) else Open(l, t)
    else
      DataFits(l, s, 1);
      Going(Settle(l, Fill(s, [b])))
  }

  lemma {:induction false} RoomIsPages(l: Layout, pos: nat, size: nat)
    requires l.page > 0 && pos % l.page == 0
    ensures (pos + Room(l, size)) % l.page == 0 && KEY_SIZE + size <= Room(l, size)
  {
    var r := Room(l, size);
    var p, q := pos / l.page, r / l.page;
    assert pos == p * l.page && r == q * l.page;
    assert pos + r == (p + q) * l.page;
    UnitTimes(p + q, l.page);
  }

  lemma {:induction false} SettleKeepsOk(l: Layout, s: State)
    requires l.page > 0 && s.writePos % l.page == 0 && s.writePos + Room(l, s.size) <= |s.area|
    requires !s.parsing && |s.header| == HEADER_SIZE && s.filled <= s.size
    ensures Ok(l, Settle(l, s))
  {
    RoomIsPages(l, s.writePos, s.size);
  }

  lemma {:induction false} FeedKeepsOk(l: Layout, s: State, b: Byte)
    requires Ok(l, s)
    ensures Feed(l, s, b).Going? ==> Ok(l, Feed(l, s, b).state)
  {
    if s.parsing {
      var t := s.(header := s.header + [b]);
      if |t.header| == HEADER_SIZE && Open(l, t).Going? {
        SettleKeepsOk(l, Opened(l, Decoded(t)));
      }
    } else {
      DataFits(l, s, 1);
      SettleKeepsOk(l, Fill(s, [b]));
    }
  }

  ghost function FeedAll(l: Layout, s: State, bytes: Bytes): (r: Outcome)
    requires Ok(l, s)
    ensures r.Going? ==> Ok(l, r.state)
    decreases |bytes|
  {
    if bytes == [] then Going(s)
    else
      FeedKeepsOk(l, s, bytes[0]);
      match Feed(l, s, bytes[0])
      case Going(t) => FeedAll(l, t, bytes[1..])
      case Overflow(t) => Overflow(t)
  }

  // How many of the bytes belong to values rather than to headers.
  ghost function ValueBytes(l: Layout, s: State, bytes: Bytes): nat
    requires Ok(l, s)
    decreases |bytes|
  {
    if bytes == [] then 0
    else
      FeedKeepsOk(l, s, bytes[0]);
      match Feed(l, s, bytes[0])
      case Going(t) => (if s.parsing then 0 else 1) + ValueBytes(l, t, bytes[1..])
      case Overflow(_) => 0
  }

  // Message boundaries do not matter.
  lemma {:induction false} BoundariesDoNotMatter(l: Layout, s: State, p: Bytes, q: Bytes)
    requires Ok(l, s)
    ensures match FeedAll(l, s, p)
            case Going(t) =>
              && FeedAll(l, s, p + q) == FeedAll(l, t, q)
              && ValueBytes(l, s, p + q) == ValueBytes(l, s, p) + ValueBytes(l, t, q)
            case Overflow(t) => FeedAll(l, s, p + q) == Overflow(t) && ValueBytes(l, s, p + q) == ValueBytes(l, s, p)
    decreases |p|
  {
    if p == [] {
      assert p + q == q;
    } else {
      assert (p + q)[1..] == p[1..] + q && (p + q)[0] == p[0];
      FeedKeepsOk(l, s, p[0]);
      var r := Feed(l, s, p[0]);
      if r.Going? {
        BoundariesDoNotMatter(l, r.state, p[1..], q);
      }
    }
  }

  // ----- whole stretches of header or value bytes

  lemma {:induction false} FeedHeader(l: Layout, s: State, p: Bytes)
    requires Ok(l, s) && s.parsing && p != [] && |s.header| + |p| <= HEADER_SIZE
    ensures FeedAll(l, s, p) ==
            if |s.header| + |p| < HEADER_SIZE then Going(s.(header := s.header + p)) else Open(l, s.(header := s.header + p))
    ensures ValueBytes(l, s, p) == 0
    decreases |p|
  {
    var t := s.(header := s.header + [p[0]]);
    FeedKeepsOk(l, s, p[0]);
    assert [p[0]] + p[1..] == p && s.header + p == t.header + p[1..];
    if |p| > 1 {
      FeedHeader(l, t, p[1..]);
    } else {
      assert p[1..] == [] && t.header + [] == t.header;
    }
  }

  lemma {:induction false} PutTwice(area: Bytes, at: nat, b: Byte, rest: Bytes)
    requires at + 1 + |rest| <= |area|
    ensures Put(Put(area, at, [b]), at + 1, rest) == Put(area, at, [b] + rest)
  {
  }

  lemma {:induction false} FillTwice(s: State, b: Byte, rest: Bytes)
    requires Fits(s, 1 + |rest|)
    ensures Fits(s, 1) && Fits(Fill(s, [b]), |rest|) && Fill(Fill(s, [b]), rest) == Fill(s, [b] + rest)
  {
    PutTwice(s.area, s.writePos + KEY_SIZE + s.filled, b, rest);
  }

  lemma {:induction false} FeedValueByte(l: Layout, s: State, b: Byte)
    requires Ok(l, s) && !s.parsing
    ensures Fits(s, 1) && Feed(l, s, b) == Going(Settle(l, Fill(s, [b]))) && Ok(l, Settle(l, Fill(s, [b])))
    ensures s.filled + 1 < s.size ==> Settle(l, Fill(s, [b])) == Fill(s, [b])
  {
    DataFits(l, s, 1);
    FeedKeepsOk(l, s, b);
  }

  lemma {:induction false} FeedData(l: Layout, s: State, p: Bytes)
    requires Ok(l, s) && !s.parsing && p != [] && s.filled + |p| <= s.size
    ensures Fits(s, |p|) && FeedAll(l, s, p) == Going(Settle(l, Fill(s, p)))
    ensures ValueBytes(l, s, p) == |p|
    decreases |p|
  {
    hide Room, Put, Feed;
    DataFits(l, s, |p|);
    FeedValueByte(l, s, p[0]);
    FillTwice(s, p[0], p[1..]);
    assert [p[0]] + p[1..] == p;
    if |p| > 1 {
      FeedData(l, Fill(s, [p[0]]), p[1..]);
    } else {
      assert p[1..] == [] && p == [p[0]];
    }
  }

  // ----- sending and receiving

  // A value and the chunk offset it has at the sender.
  datatype Record = Record(wire: nat, data: Bytes)

  function LittleEndian(n: nat, k: nat): (r: Bytes)
    ensures |r| == k
  {
    if k == 0 then [] else [n % 256] + LittleEndian(n / 256, k - 1)
  }

  function Range(k: nat): nat {
    if k == 0 then 1 else 256 * Range(k - 1)
  }

  lemma {:induction false} NumberOfBytes(n: nat, k: nat)
    requires n < Range(k)
    ensures Number(LittleEndian(n, k)) == n
  {
    if k > 0 {
      NumberOfBytes(n / 256, k - 1);
      assert LittleEndian(n, k)[1..] == LittleEndian(n / 256, k - 1);
    }
  }

  ghost predicate Sendable(r: Record) {
    r.wire < Range(8) && |r.data| < Range(4)
  }

  function Encode(r: Record): Bytes {
    LittleEndian(r.wire, 8) + LittleEndian(|r.data|, 4) + r.data
  }

  function EncodeAll(rs: seq<Record>): Bytes {
    if rs == [] then [] else Encode(rs[0]) + EncodeAll(rs[1..])
  }

  // What the values take in the area.
  function Total(l: Layout, rs: seq<Record>): nat
    requires l.page > 0
  {
    if rs == [] then 0 else Room(l, |rs[0].data|) + Total(l, rs[1..])
  }

  ghost predicate Idle(s: State) {
    s.parsing && s.header == []
  }

  // The state after one whole value.
  function Stored(l: Layout, s: State, r: Record): State
    requires l.page > 0 && s.writePos + Room(l, |r.data|) <= |s.area|
  {
    var d := s.(header := HeaderOf(r), wire := r.wire, size := |r.data|, filled := 0, parsing := false);
    Close(l, Fill(Opened(l, d), r.data))
  }

  function HeaderOf(r: Record): Bytes {
    LittleEndian(r.wire, 8) + LittleEndian(|r.data|, 4)
  }

  lemma {:induction false} HeaderDecodes(s: State, r: Record)
    requires Sendable(r)
    ensures |HeaderOf(r)| == HEADER_SIZE
    ensures Decoded(s.(header := HeaderOf(r))) == s.(header := HeaderOf(r), wire := r.wire, size := |r.data|, filled := 0, parsing := false)
  {
    NumberOfBytes(r.wire, 8);
    NumberOfBytes(|r.data|, 4);
    assert HeaderOf(r)[..8] == LittleEndian(r.wire, 8) && HeaderOf(r)[8..] == LittleEndian(|r.data|, 4);
  }

  lemma {:induction false} HeaderOpens(l: Layout, s: State, r: Record)
    requires Ok(l, s) && Idle(s) && Sendable(r) && s.writePos + Room(l, |r.data|) <= |s.area|
    ensures var o := Opened(l, s.(header := HeaderOf(r), wire := r.wire, size := |r.data|, filled := 0, parsing := false));
      FeedAll(l, s, HeaderOf(r)) == Going(Settle(l, o)) && Ok(l, Settle(l, o))
  {
    HeaderDecodes(s, r);
    assert s.header + HeaderOf(r) == HeaderOf(r);
    FeedHeader(l, s, HeaderOf(r));
    SettleKeepsOk(l, Opened(l, Decoded(s.(header := HeaderOf(r)))));
  }

  lemma {:induction false} FeedRecord(l: Layout, s: State, r: Record)
    requires Ok(l, s) && Idle(s) && Sendable(r) && s.writePos + Room(l, |r.data|) <= |s.area|
    ensures FeedAll(l, s, Encode(r)) == Going(Stored(l, s, r))
  {
    hide FeedAll, ValueBytes, Room, Sendable;
    var o := Opened(l, s.(header := HeaderOf(r), wire := r.wire, size := |r.data|, filled := 0, parsing := false));
    HeaderOpens(l, s, r);
    BoundariesDoNotMatter(l, s, HeaderOf(r), r.data);
    assert HeaderOf(r) + r.data == Encode(r);
    if r.data == [] {
      RoomIsPages(l, s.writePos, |r.data|);
      assert Put(o.area, o.writePos + KEY_SIZE, []) == o.area;
      assert HeaderOf(r) + [] == HeaderOf(r);
    } else {
      FeedData(l, o, r.data);
    }
  }

  // Where the value is and what is recorded of it.
  ghost predicate Holds(l: Layout, s: State, pos: nat, r: Record, index: nat) {
    && l.page > 0 && pos % l.page == 0 && pos + KEY_SIZE + |r.data| <= |s.area|
    && s.area[pos + KEY_SIZE..][..|r.data|] == r.data
    && pos in s.headers && s.headers[pos] == ChunkHeader(Room(l, |r.data|), l.areaOffset + pos, index + 1 < l.expected)
  }

  ghost predicate KeepsBelow(s: State, t: State, pos: nat) {
    && |t.area| == |s.area| && pos <= |s.area| && t.area[..pos] == s.area[..pos]
    && forall p :: p in s.headers && p < pos ==> p in t.headers && t.headers[p] == s.headers[p]
  }

  lemma {:induction false} StoredHolds(l: Layout, s: State, r: Record)
    requires Ok(l, s) && Idle(s) && s.writePos + Room(l, |r.data|) <= |s.area|
    ensures var t := Stored(l, s, r);
      && Ok(l, t) && Idle(t) && t.writePos == s.writePos + Room(l, |r.data|) && t.received == s.received + 1
      && Holds(l, t, s.writePos, r, s.received) && KeepsBelow(s, t, s.writePos)
      && t.offsets == s.offsets[r.wire := l.areaOffset + s.writePos + KEY_SIZE]
  {
    RoomIsPages(l, s.writePos, |r.data|);
  }

  lemma {:induction false} HoldsStays(l: Layout, s: State, t: State, pos: nat, r: Record, index: nat, end: nat)
    requires Holds(l, s, pos, r, index) && KeepsBelow(s, t, end) && pos + KEY_SIZE + |r.data| <= end
    ensures Holds(l, t, pos, r, index)
  {
    var n := |r.data|;
    assert s.area[pos + KEY_SIZE..][..n] == s.area[..end][pos + KEY_SIZE..][..n];
    assert t.area[pos + KEY_SIZE..][..n] == t.area[..end][pos + KEY_SIZE..][..n];
  }

  // Where the k-th value goes.
  function Place(l: Layout, start: nat, rs: seq<Record>, k: nat): nat
    requires l.page > 0 && k < |rs|
    decreases k
  {
    if k == 0 then start else Place(l, start + Room(l, |rs[0].data|), rs[1..], k - 1)
  }

  // Every value is stored in its place.
  ghost predicate AllHeld(l: Layout, s: State, t: State, rs: seq<Record>)
    requires l.page > 0
  {
    forall k: nat :: k < |rs| ==> Holds(l, t, Place(l, s.writePos, rs, k), rs[k], s.received + k)
  }

  ghost predicate LastOfWire(rs: seq<Record>, k: nat) {
    k < |rs| && forall j :: k < j < |rs| ==> rs[j].wire != rs[k].wire
  }

  ghost predicate RecordedAt(l: Layout, s: State, t: State, rs: seq<Record>, k: nat)
    requires l.page > 0 && k < |rs|
  {
    rs[k].wire in t.offsets && t.offsets[rs[k].wire] == l.areaOffset + Place(l, s.writePos, rs, k) + KEY_SIZE
  }

  ghost predicate Mentions(rs: seq<Record>, w: nat) {
    exists k :: 0 <= k < |rs| && rs[k].wire == w
  }

  // The offsets lead to the last value sent for each sender offset, the others are as before.
  ghost predicate AllRecorded(l: Layout, s: State, t: State, rs: seq<Record>)
    requires l.page > 0
  {
    && (forall k: nat :: LastOfWire(rs, k) ==> RecordedAt(l, s, t, rs, k))
    && (forall w :: w in s.offsets && !Mentions(rs, w) ==> w in t.offsets && t.offsets[w] == s.offsets[w])
  }

  // What was sent is stored: every value in pages of its own, one behind the other.
  lemma {:induction false} SentIsStored(l: Layout, s: State, rs: seq<Record>)
    requires Ok(l, s) && Idle(s) && (forall k :: 0 <= k < |rs| ==> Sendable(rs[k])) && s.writePos + Total(l, rs) <= |s.area|
    ensures FeedAll(l, s, EncodeAll(rs)).Going?
    ensures var t := FeedAll(l, s, EncodeAll(rs)).state;
      && Idle(t) && t.writePos == s.writePos + Total(l, rs) && t.received == s.received + |rs|
      && AllHeld(l, s, t, rs) && AllRecorded(l, s, t, rs) && KeepsBelow(s, t, s.writePos)
    decreases |rs|
  {
    if rs != [] {
      hide Holds, Mentions, LastOfWire, RecordedAt, KeepsBelow;
      var u := Stored(l, s, rs[0]);
      FeedRecord(l, s, rs[0]);
      StoredHolds(l, s, rs[0]);
      BoundariesDoNotMatter(l, s, Encode(rs[0]), EncodeAll(rs[1..]));
      SentIsStored(l, u, rs[1..]);
      var t := FeedAll(l, u, EncodeAll(rs[1..])).state;
      HeldWithFirst(l, s, u, t, rs);
      RecordedWithFirst(l, s, u, t, rs);
      BelowTwice(s, u, t, s.writePos, u.writePos);
    }
  }

  lemma {:induction false} HeldWithFirst(l: Layout, s: State, u: State, t: State, rs: seq<Record>)
    requires l.page > 0 && rs != [] && u.writePos == s.writePos + Room(l, |rs[0].data|) && u.received == s.received + 1
    requires Holds(l, u, s.writePos, rs[0], s.received) && AllHeld(l, u, t, rs[1..]) && KeepsBelow(u, t, u.writePos)
    ensures AllHeld(l, s, t, rs)
  {
    HoldsStays(l, u, t, s.writePos, rs[0], s.received, u.writePos);
    hide Holds, Room;
    forall k: nat | k < |rs|
      ensures Holds(l, t, Place(l, s.writePos, rs, k), rs[k], s.received + k)
    {
      if k > 0 {
        assert Holds(l, t, Place(l, u.writePos, rs[1..], k - 1), rs[1..][k - 1], u.received + (k - 1));
      }
    }
  }

  lemma {:induction false} RecordedWithFirst(l: Layout, s: State, u: State, t: State, rs: seq<Record>)
    requires l.page > 0 && rs != [] && u.writePos == s.writePos + Room(l, |rs[0].data|)
    requires u.offsets == s.offsets[rs[0].wire := l.areaOffset + s.writePos + KEY_SIZE]
    requires AllRecorded(l, u, t, rs[1..])
    ensures AllRecorded(l, s, t, rs)
  {
    hide Room;
    var rest := rs[1..];
    forall k: nat | LastOfWire(rs, k)
      ensures RecordedAt(l, s, t, rs, k)
    {
      if k > 0 {
        assert rest[k - 1] == rs[k] && forall j :: 0 <= j < |rest| ==> rest[j] == rs[j + 1];
        assert LastOfWire(rest, k - 1);
        assert RecordedAt(l, u, t, rest, k - 1);
      } else {
        assert forall j :: 0 <= j < |rest| ==> rest[j] == rs[j + 1];
        assert !Mentions(rest, rs[0].wire);
      }
    }
    forall w | w in s.offsets && !Mentions(rs, w)
      ensures w in t.offsets && t.offsets[w] == s.offsets[w]
    {
      assert rs[0].wire != w && forall j :: 0 <= j < |rest| ==> rest[j] == rs[j + 1];
      assert !Mentions(rest, w);
    }
  }

  lemma {:induction false} BelowTwice(s: State, u: State, t: State, p: nat, q: nat)
    requires KeepsBelow(s, u, p) && KeepsBelow(u, t, q) && p <= q
    ensures KeepsBelow(s, t, p)
  {
    assert t.area[..p] == t.area[..q][..p] == u.area[..q][..p] == u.area[..p];
  }
}
