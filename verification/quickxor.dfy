/** The hash as the code computes it, in 160 lanes of a byte that make up the register only when it is finished. */
module QuickXorHash {
  import opened QuickXorRegister

  type Lanes = l: seq<Byte> | |l| == WIDTH_BITS witness seq(WIDTH_BITS, _ => 0)

  function NoLanes(): Lanes {
    seq(WIDTH_BITS, _ => 0)
  }

  function WithByte(lanes: Lanes, position: nat, value: Byte): Lanes {
    lanes[position % WIDTH_BITS := lanes[position % WIDTH_BITS] ^ value]
  }

  /** The bytes that start at `position` in the file, folded into the lanes. */
  function Updated(lanes: Lanes, position: nat, data: seq<Byte>): Lanes
    decreases |data|
  {
    if data == [] then lanes
    else WithByte(Updated(lanes, position, data[..|data| - 1]), position + |data| - 1, data[|data| - 1])
  }

  function Xored(a: Lanes, b: Lanes): Lanes {
    seq(WIDTH_BITS, l requires 0 <= l < WIDTH_BITS => a[l] ^ b[l])
  }

  /** The first `n` lanes, each placed where the bytes of its lane belong. */
  function LanesPlaced(lanes: Lanes, n: nat): Register
    requires n <= WIDTH_BITS
  {
    if n == 0 then Empty() else Placed(LanesPlaced(lanes, n - 1), ((n - 1) * SHIFT) % WIDTH_BITS, lanes[n - 1])
  }

  function Finished(lanes: Lanes, length: nat): Register {
    LengthPlaced(LanesPlaced(lanes, WIDTH_BITS), length, 8)
  }

  // ---------------------------------------------------------------- the lanes compute the published hash

  lemma {:induction false} NothingPlaced(n: nat)
    requires n <= WIDTH_BITS
    ensures LanesPlaced(NoLanes(), n) == Empty()
  {
    if n > 0 {
      NothingPlaced(n - 1);
      PlacedNothing(Empty(), ((n - 1) * SHIFT) % WIDTH_BITS);
    }
  }

  lemma {:induction false} OtherLane(lanes: Lanes, lane: nat, value: Byte, n: nat)
    requires n <= lane < WIDTH_BITS
    ensures LanesPlaced(lanes[lane := value], n) == LanesPlaced(lanes, n)
  {
    if n > 0 {
      OtherLane(lanes, lane, value, n - 1);
    }
  }

  /** A byte XORed into a lane is that byte placed in the register. */
  lemma {:induction false} ByteInLane(lanes: Lanes, lane: nat, value: Byte, n: nat)
    requires lane < n <= WIDTH_BITS
    ensures LanesPlaced(lanes[lane := lanes[lane] ^ value], n) == Placed(LanesPlaced(lanes, n), (lane * SHIFT) % WIDTH_BITS, value)
  {
    var more := lanes[lane := lanes[lane] ^ value];
    var before := LanesPlaced(lanes, n - 1);
    hide Placed;
    if lane == n - 1 {
      OtherLane(lanes, lane, lanes[lane] ^ value, n - 1);
      PlacedXor(before, (lane * SHIFT) % WIDTH_BITS, lanes[lane], value);
    } else {
      ByteInLane(lanes, lane, value, n - 1);
      PlacedCommute(before, (lane * SHIFT) % WIDTH_BITS, value, ((n - 1) * SHIFT) % WIDTH_BITS, lanes[n - 1]);
    }
  }

  lemma Remainder(a: nat, q: nat, r: nat)
    requires a == 160 * q + r && r < 160
    ensures a % 160 == r
  {
  }

  lemma SameOffset(k: nat)
    ensures (k % 160 * 11) % 160 == (11 * k) % 160
  {
    var q, y := k / 160, k % 160 * 11;
    Remainder(11 * k, 11 * q + y / 160, y % 160);
  }

  lemma {:induction false} LanesAreContent(content: seq<Byte>)
    ensures LanesPlaced(Updated(NoLanes(), 0, content), WIDTH_BITS) == ContentPlaced(content)
  {
    if content == [] {
      NothingPlaced(WIDTH_BITS);
    } else {
      var k := |content| - 1;
      LanesAreContent(content[..k]);
      ByteInLane(Updated(NoLanes(), 0, content[..k]), k % WIDTH_BITS, content[k], WIDTH_BITS);
      SameOffset(k);
      hide LanesPlaced, Placed;
    }
  }

  /** Of every content, the lanes finish with the hash as it is published. */
  lemma FinishedIsPublished(content: seq<Byte>)
    ensures Finished(Updated(NoLanes(), 0, content), |content|) == Published(content)
  {
    LanesAreContent(content);
  }

  lemma NextLane(position: nat)
    ensures var lane := position % WIDTH_BITS + 1; (position + 1) % WIDTH_BITS == if lane == WIDTH_BITS then 0 else lane
  {
  }

  lemma NothingUpdated(lanes: Lanes, position: nat)
    ensures Updated(lanes, position, []) == lanes
  {
  }

  lemma OneMoreUpdated(lanes: Lanes, position: nat, data: seq<Byte>, k: nat)
    requires k < |data|
    ensures Updated(lanes, position, data[..k + 1]) == WithByte(Updated(lanes, position, data[..k]), position + k, data[k])
  {
    assert data[..k + 1][..k] == data[..k];
  }

  /** However the content is split over updates, the lanes are the same. */
  lemma {:induction false} UpdatesJoin(lanes: Lanes, position: nat, a: seq<Byte>, b: seq<Byte>)
    ensures Updated(Updated(lanes, position, a), position + |a|, b) == Updated(lanes, position, a + b)
    decreases |b|
  {
    if b == [] {
      assert a + b == a;
    } else {
      UpdatesJoin(lanes, position, a, b[..|b| - 1]);
      assert (a + b)[..|a + b| - 1] == a + b[..|b| - 1];
    }
  }

  function Joined(chunks: seq<seq<Byte>>): seq<Byte> {
    if chunks == [] then [] else Joined(chunks[..|chunks| - 1]) + chunks[|chunks| - 1]
  }

  /** The lanes after one update for each chunk. */
  function UpdatedAll(chunks: seq<seq<Byte>>): Lanes {
    if chunks == [] then NoLanes()
    else Updated(UpdatedAll(chunks[..|chunks| - 1]), |Joined(chunks[..|chunks| - 1])|, chunks[|chunks| - 1])
  }

  lemma {:induction false} SplitDoesNotMatter(chunks: seq<seq<Byte>>)
    ensures UpdatedAll(chunks) == Updated(NoLanes(), 0, Joined(chunks))
    ensures Finished(UpdatedAll(chunks), |Joined(chunks)|) == Published(Joined(chunks))
  {
    if chunks != [] {
      var before := chunks[..|chunks| - 1];
      SplitDoesNotMatter(before);
      UpdatesJoin(NoLanes(), 0, Joined(before), chunks[|chunks| - 1]);
      hide Updated, Finished, Published;
    }
    FinishedIsPublished(Joined(chunks));
    hide Updated, Finished, Published;
  }

  // ---------------------------------------------------------------- pieces of a file

  /** A piece of a file: where it starts, and how long it is. */
  datatype Piece = Piece(start: nat, length: nat)
  {
    predicate Has(k: nat) {
      start <= k < start + length
    }
  }

  predicate Covered(pieces: seq<Piece>, k: nat) {
    exists piece <- pieces :: piece.Has(k)
  }

  ghost predicate Apart(a: seq<Piece>, b: seq<Piece>) {
    forall x <- a, y <- b, k: nat :: !(x.Has(k) && y.Has(k))
  }

  /** The lanes of those of a content's first `n` bytes that lie in some piece. */
  function LanesOver(content: seq<Byte>, pieces: seq<Piece>, n: nat): Lanes
    requires n <= |content|
  {
    if n == 0 then NoLanes()
    else if Covered(pieces, n - 1) then WithByte(LanesOver(content, pieces, n - 1), n - 1, content[n - 1])
    else LanesOver(content, pieces, n - 1)
  }

  function CountOver(pieces: seq<Piece>, n: nat): nat {
    if n == 0 then 0 else CountOver(pieces, n - 1) + if Covered(pieces, n - 1) then 1 else 0
  }

  lemma CoveredByEither(a: seq<Piece>, b: seq<Piece>, k: nat)
    ensures Covered(a + b, k) <==> Covered(a, k) || Covered(b, k)
    ensures Apart(a, b) ==> !(Covered(a, k) && Covered(b, k))
  {
  }

  lemma XoredWithByte(a: Lanes, b: Lanes, position: nat, value: Byte)
    ensures WithByte(Xored(a, b), position, value) == Xored(WithByte(a, position, value), b)
    ensures WithByte(Xored(a, b), position, value) == Xored(a, WithByte(b, position, value))
  {
    hide Xored;
    var lane := position % WIDTH_BITS;
    XorMoves(a[lane], b[lane], value);
    LaneXored(a, b, lane, value);
  }

  lemma LaneXored(a: Lanes, b: Lanes, lane: nat, value: Byte)
    requires lane < WIDTH_BITS
    requires a[lane] ^ b[lane] ^ value == (a[lane] ^ value) ^ b[lane] == a[lane] ^ (b[lane] ^ value)
    ensures Xored(a, b)[lane := Xored(a, b)[lane] ^ value] == Xored(a[lane := a[lane] ^ value], b)
    ensures Xored(a, b)[lane := Xored(a, b)[lane] ^ value] == Xored(a, b[lane := b[lane] ^ value])
  {
  }

  lemma XorMoves(x: Byte, y: Byte, z: Byte)
    ensures x ^ y ^ z == (x ^ z) ^ y
    ensures x ^ y ^ z == x ^ (y ^ z)
  {
  }

  lemma XorNothing(x: Byte)
    ensures x ^ 0 == x
  {
  }

  /** Pieces that do not overlap combine: their lanes XORed are the lanes of all of them. */
  lemma {:induction false} ApartCombine(content: seq<Byte>, a: seq<Piece>, b: seq<Piece>, n: nat)
    requires n <= |content| && Apart(a, b)
    ensures LanesOver(content, a + b, n) == Xored(LanesOver(content, a, n), LanesOver(content, b, n))
    ensures CountOver(a + b, n) == CountOver(a, n) + CountOver(b, n)
  {
    if n == 0 {
      XorNothing(0);
    } else {
      ApartCombine(content, a, b, n - 1);
      CoveredByEither(a, b, n - 1);
      XoredWithByte(LanesOver(content, a, n - 1), LanesOver(content, b, n - 1), n - 1, content[n - 1]);
      hide Xored, WithByte, Covered, Apart;
    }
  }

  lemma CoveredByOne(piece: Piece, k: nat)
    ensures Covered([piece], k) <==> piece.Has(k)
  {
  }

  /** The bytes of a piece that lie before `n`. */
  function BytesOf(content: seq<Byte>, piece: Piece, n: nat): seq<Byte>
    requires n <= |content|
  {
    if n <= piece.start then []
    else content[piece.start..if n <= piece.start + piece.length then n else piece.start + piece.length]
  }

  lemma OneByteMore(content: seq<Byte>, piece: Piece, n: nat)
    requires 0 < n <= |content|
    ensures var data := BytesOf(content, piece, n);
            if piece.Has(n - 1) then
              data != [] && data[..|data| - 1] == BytesOf(content, piece, n - 1) && piece.start + |data| - 1 == n - 1 && data[|data| - 1] == content[n - 1]
            else data == BytesOf(content, piece, n - 1)
  {
  }

  /** A hasher at a piece's offset that was given the piece's bytes holds the lanes of that piece of the file. */
  lemma {:induction false} PieceIsHashedAt(content: seq<Byte>, piece: Piece, n: nat)
    requires n <= |content|
    ensures LanesOver(content, [piece], n) == Updated(NoLanes(), piece.start, BytesOf(content, piece, n))
    ensures CountOver([piece], n) == |BytesOf(content, piece, n)|
  {
    if n > 0 {
      PieceIsHashedAt(content, piece, n - 1);
      CoveredByOne(piece, n - 1);
      hide Covered, WithByte;
      OneByteMore(content, piece, n);
      hide BytesOf;
    }
  }

  lemma {:induction false} AllCovered(content: seq<Byte>, pieces: seq<Piece>, n: nat)
    requires n <= |content| && forall k: nat :: k < n ==> Covered(pieces, k)
    ensures LanesOver(content, pieces, n) == Updated(NoLanes(), 0, content[..n])
    ensures CountOver(pieces, n) == n
  {
    if n > 0 {
      AllCovered(content, pieces, n - 1);
      assert content[..n][..n - 1] == content[..n - 1];
      hide WithByte;
    }
  }

  // ---------------------------------------------------------------- any pieces, in any order

  /** No two pieces overlap. */
  ghost predicate Disjoint(pieces: seq<Piece>) {
    forall i, j, k: nat :: 0 <= i < j < |pieces| ==> !(pieces[i].Has(k) && pieces[j].Has(k))
  }

  ghost predicate Partition(pieces: seq<Piece>, length: nat) {
    && Disjoint(pieces)
    && (forall piece <- pieces :: piece.start + piece.length <= length)
    && (forall k: nat :: k < length ==> Covered(pieces, k))
  }

  /** The lanes of a hasher at a piece's offset that was given the piece. */
  function HashedAt(content: seq<Byte>, piece: Piece): Lanes {
    Updated(NoLanes(), piece.start, BytesOf(content, piece, |content|))
  }

  /** The lanes and the length after the hashers of all pieces are combined, in the order given. */
  function Combined(content: seq<Byte>, pieces: seq<Piece>): Lanes {
    if pieces == [] then NoLanes()
    else
      Xored(Combined(content, pieces[..|pieces| - 1]), HashedAt(content, pieces[|pieces| - 1]))
  }

  function CombinedLength(content: seq<Byte>, pieces: seq<Piece>): nat {
    if pieces == [] then 0
    else CombinedLength(content, pieces[..|pieces| - 1]) + |BytesOf(content, pieces[|pieces| - 1], |content|)|
  }

  lemma {:induction false} CombinedAreOver(content: seq<Byte>, pieces: seq<Piece>)
    requires Disjoint(pieces)
    ensures Combined(content, pieces) == LanesOver(content, pieces, |content|)
    ensures CombinedLength(content, pieces) == CountOver(pieces, |content|)
  {
    if pieces == [] {
      NothingOver(content, |content|);
    } else {
      var before, last := pieces[..|pieces| - 1], pieces[|pieces| - 1];
      assert pieces == before + [last];
      LastIsApart(before, last);
      CombinedAreOver(content, before);
      PieceIsHashedAt(content, last, |content|);
      ApartCombine(content, before, [last], |content|);
      hide Apart, LanesOver, CountOver, Updated, BytesOf, Xored;
    }
  }

  lemma LastIsApart(before: seq<Piece>, last: Piece)
    requires Disjoint(before + [last])
    ensures Disjoint(before) && Apart(before, [last])
  {
    var all := before + [last];
    forall i, j, k: nat | 0 <= i < j < |before|
      ensures !(before[i].Has(k) && before[j].Has(k))
    {
      assert all[i] == before[i] && all[j] == before[j];
    }
    forall x, y, k: nat | x in before && y in [last]
      ensures !(x.Has(k) && y.Has(k))
    {
      var i :| 0 <= i < |before| && before[i] == x;
      assert all[i] == x && all[|before|] == last;
    }
  }

  lemma {:induction false} NothingOver(content: seq<Byte>, n: nat)
    requires n <= |content|
    ensures LanesOver(content, [], n) == NoLanes() && CountOver([], n) == 0
  {
    if n > 0 {
      NothingOver(content, n - 1);
    }
  }

  /** For every file and every way to cut it in pieces, hashed each at its offset and combined in any order: the hash of the whole. */
  lemma PiecesMakeTheWhole(content: seq<Byte>, pieces: seq<Piece>)
    requires Partition(pieces, |content|)
    ensures Finished(Combined(content, pieces), CombinedLength(content, pieces)) == Published(content)
  {
    CombinedAreOver(content, pieces);
    AllCovered(content, pieces, |content|);
    assert content[..|content|] == content;
    FinishedIsPublished(content);
    hide Finished, Published;
  }

  // ---------------------------------------------------------------- the hasher

  class QuickXor {
    const lanes: array<Byte>
    var length: nat
    const start: nat

    ghost predicate Valid()
      reads this
    {
      lanes.Length == WIDTH_BITS
    }

    /** For a piece of a file that begins at this offset. */
    constructor (offset: nat)
      ensures Valid() && fresh(lanes)
      ensures lanes[..] == NoLanes() && length == 0 && start == offset
    {
      lanes := new Byte[WIDTH_BITS](_ => 0);
      length := 0;
      start := offset;
    }

    /** Takes in a piece that was hashed by itself. */
    method Combine(other: QuickXor)
      requires Valid() && other.Valid()
      modifies this`length, lanes
      ensures lanes[..] == Xored(old(lanes[..]), old(other.lanes[..]))
      ensures length == old(length) + old(other.length)
    {
      var l := 0;
      while l < WIDTH_BITS
        invariant 0 <= l <= WIDTH_BITS
        invariant forall i :: 0 <= i < l ==> lanes[i] == old(lanes[i]) ^ old(other.lanes[i])
        invariant forall i :: l <= i < WIDTH_BITS ==> lanes[i] == old(lanes[i]) && other.lanes[i] == old(other.lanes[i])
        modifies lanes
      {
        lanes[l] := lanes[l] ^ other.lanes[l];
        l := l + 1;
      }
      length := length + other.length;
    }

    method Update(data: seq<Byte>)
      requires Valid()
      modifies this`length, lanes
      ensures lanes[..] == Updated(old(lanes[..]), start + old(length), data)
      ensures length == old(length) + |data|
    {
      hide Updated, WithByte;
      NothingUpdated(lanes[..], start + length);
      var lane := (start + length) % WIDTH_BITS;
      var k := 0;
      while k < |data|
        invariant 0 <= k <= |data| && lane == (start + length + k) % WIDTH_BITS
        invariant lanes[..] == Updated(old(lanes[..]), start + length, data[..k])
        modifies lanes
      {
        OneMoreUpdated(old(lanes[..]), start + length, data, k);
        XorInto(lane, data[k], start + length + k);
        NextLane(start + length + k);
        lane := lane + 1;
        if lane == WIDTH_BITS {
          lane := 0;
        }
        k := k + 1;
      }
      assert data[..k] == data;
      length := length + |data|;
    }

    method XorInto(lane: nat, value: Byte, ghost position: nat)
      requires Valid() && lane == position % WIDTH_BITS
      modifies lanes
      ensures lanes[..] == WithByte(old(lanes[..]), position, value)
    {
      lanes[lane] := lanes[lane] ^ value;
    }

    /** The hash: of the whole content, when its bytes are all in the lanes. */
    method Finish() returns (hash: seq<Byte>)
      requires Valid()
      ensures |hash| == LEN && Bits(hash) == Finished(lanes[..], length)
    {
      hide Bits, Placed, LengthByte;
      var register := new Byte[LEN](_ => 0);
      EmptyBits(register[..]);
      var lane := 0;
      while lane < WIDTH_BITS
        invariant 0 <= lane <= WIDTH_BITS
        invariant Bits(register[..]) == LanesPlaced(lanes[..], lane)
        modifies register
      {
        var value := lanes[lane];
        if value == 0 {
          PlacedNothing(Bits(register[..]), (lane * SHIFT) % WIDTH_BITS);
        } else {
          PlaceLane(register, (lane * SHIFT) % WIDTH_BITS, value);
        }
        lane := lane + 1;
      }
      var i := 0;
      while i < 8
        invariant 0 <= i <= 8
        invariant Bits(register[..]) == LengthPlaced(LanesPlaced(lanes[..], WIDTH_BITS), length, i)
        modifies register
      {
        PlaceByte(register, LEN - 8 + i, LengthByte(length, i));
        i := i + 1;
      }
      return register[..];
    }
  }

  method PlaceByte(register: array<Byte>, i: nat, value: Byte)
    requires register.Length == LEN && i < LEN
    modifies register
    ensures Bits(register[..]) == Placed(Bits(old(register[..])), 8 * i, value)
  {
    ByteXored(register[..], i, value);
    ghost var was := register[..];
    register[i] := register[i] ^ value;
    assert register[..] == was[i := was[i] ^ value];
  }

  lemma EmptyBits(bytes: Bytes)
    requires forall i :: 0 <= i < LEN ==> bytes[i] == 0
    ensures Bits(bytes) == Empty()
  {
  }

  /** Each bit set in a lane is turned over in the register. */
  method PlaceLane(register: array<Byte>, offset: nat, value: Byte)
    requires register.Length == LEN && offset < WIDTH_BITS
    modifies register
    ensures Bits(register[..]) == Placed(Bits(old(register[..])), offset, value)
  {
    var bit := 0;
    assert PlacedBits(Bits(register[..]), offset, value, 0) == Bits(register[..]);
    while bit < 8
      invariant 0 <= bit <= 8
      invariant Bits(register[..]) == PlacedBits(Bits(old(register[..])), offset, value, bit)
    {
      OneMoreBit(Bits(old(register[..])), offset, value, bit);
      if Bit(value, bit) {
        var position := (offset + bit) % WIDTH_BITS;
        BitFlips(register[..], position);
        ghost var was := register[..];
        register[position / 8] := register[position / 8] ^ Mask(position % 8);
        assert register[..] == was[position / 8 := was[position / 8] ^ Mask(position % 8)];
      }
      bit := bit + 1;
    }
  }
}
