/** Splitting what one read of the socket returned into frames. */
module Receiving {
  import opened Bytes

  const MAX_CLIENT_RX_BUFFER := 4096

  /** At most this many frames are taken from one read: a counter from ten is tested after each frame. */
  const MAX_FRAMES := 11

  /** Memory behind the received bytes that a frame length can reach. */
  const SLACK := 256

  type Memory = m: seq<byte> | SLACK <= |m| witness seq(SLACK, _ => 0)

  /** The piece at an offset: as long as its own second byte says. */
  function PieceAt(m: Memory, offset: nat): (p: seq<byte>)
    requires offset + SLACK < |m|
    ensures 1 <= |p| <= 256
  {
    m[offset..offset + m[offset + 1] + 1]
  }

  function Reader(m: Memory): nat -> seq<byte> {
    (offset: nat) => if offset + SLACK < |m| then PieceAt(m, offset) else []
  }

  /** `read` cuts pieces out of this memory. The loop carries it as a value, so that the solver does not cut
      slices at every step. */
  ghost predicate Reads(read: nat -> seq<byte>, m: Memory) {
    forall offset: nat {:trigger PieceAt(m, offset)} :: offset + SLACK < |m| ==> read(offset) == PieceAt(m, offset)
  }

  /** The pieces from an offset on, at most `left` of them. */
  function Pieces(read: nat -> seq<byte>, length: nat, offset: nat, left: nat): (r: seq<seq<byte>>)
    ensures |r| <= left
    decreases left
  {
    if left == 0 || offset >= length then []
    else [read(offset)] + Pieces(read, length, offset + |read(offset)|, left - 1)
  }

  function Concat(fs: seq<seq<byte>>): (r: seq<byte>) {
    if fs == [] then [] else fs[0] + Concat(fs[1..])
  }

  /** A frame names its own length. */
  predicate IsFrame(f: seq<byte>) {
    2 <= |f| && f[1] == |f| - 1
  }

  predicate AllFrames(fs: seq<seq<byte>>) {
    forall i :: 0 <= i < |fs| ==> IsFrame(fs[i])
  }

  /** A read begins with a frame: that frame is the first piece. */
  lemma FirstPiece(m: Memory, offset: nat, f: seq<byte>, rest: seq<byte>)
    requires offset + SLACK < |m| && IsFrame(f) && |f| <= 256
    requires offset + |f + rest| <= |m| && m[offset..offset + |f + rest|] == f + rest
    ensures PieceAt(m, offset) == f
    ensures m[offset + |f|..offset + |f| + |rest|] == rest
  {
    var all := m[offset..offset + |f + rest|];
    assert m[offset + 1] == all[1] == f[1];
    assert m[offset..offset + |f|] == all[..|f|] == f;
    assert m[offset + |f|..offset + |f| + |rest|] == all[|f|..];
  }

  /** The first `n` frames, or all of them. */
  function Take(fs: seq<seq<byte>>, n: nat): seq<seq<byte>> {
    if |fs| <= n then fs else fs[..n]
  }

  lemma TakeOne(fs: seq<seq<byte>>, n: nat)
    requires fs != [] && n > 0
    ensures Take(fs, n) == [fs[0]] + Take(fs[1..], n - 1)
  {
  }

  /** Splitting inverts concatenation, up to the number of frames one read is allowed. */
  lemma {:induction false} SplitInverts(read: nat -> seq<byte>, m: Memory, length: nat, offset: nat, fs: seq<seq<byte>>, left: nat)
    requires Reads(read, m) && length + SLACK < |m| && AllFrames(fs)
    requires offset + |Concat(fs)| == length && m[offset..length] == Concat(fs)
    ensures Pieces(read, length, offset, left) == Take(fs, left)
    decreases left
  {
    if fs == [] || left == 0 {
      assert Take(fs, left) == [];
    } else {
      var f, rest := fs[0], Concat(fs[1..]);
      assert f[1] == |f| - 1;
      FirstPiece(m, offset, f, rest);
      SplitInverts(read, m, length, offset + |f|, fs[1..], left - 1);
      OnePiece(read, length, offset, left, f, Take(fs[1..], left - 1));
      TakeOne(fs, left);
    }
  }

  lemma OnePiece(read: nat -> seq<byte>, length: nat, offset: nat, left: nat, piece: seq<byte>, more: seq<seq<byte>>)
    requires offset < length && left > 0 && read(offset) == piece && Pieces(read, length, offset + |piece|, left - 1) == more
    ensures Pieces(read, length, offset, left) == [piece] + more
  {
  }

  /** A read of whole frames is handed on completely if and only if there are at most eleven. */
  lemma HandedOnIff(m: Memory, length: nat, fs: seq<seq<byte>>)
    requires length + SLACK < |m| && AllFrames(fs)
    requires |Concat(fs)| == length && m[..length] == Concat(fs)
    ensures Pieces(Reader(m), length, 0, MAX_FRAMES) == fs <==> |fs| <= 11
    ensures Pieces(Reader(m), length, 0, MAX_FRAMES) <= fs
  {
    assert m[0..length] == m[..length];
    SplitInverts(Reader(m), m, length, 0, fs, MAX_FRAMES);
  }

  class Client {
    /** The first data of a connection is still to come. */
    var commInitStatus: bool
    var clientRxBuffer: seq<byte>

    constructor ()
      ensures commInitStatus && clientRxBuffer == []
    {
      commInitStatus, clientRxBuffer := true, [];
    }

    /** Hands on the pieces of a read one after the other. `codes` are the answers of the frame
        handlers, in the order of the calls; `first` is the answer of the initialisation. */
    method ClientReceivedData(m: Memory, length: nat, first: int, codes: nat -> int) returns (ret: int, handed: seq<seq<byte>>)
      requires length <= MAX_CLIENT_RX_BUFFER ==> length + SLACK < |m|
      modifies this
      ensures length > 4096 ==>
        ret == 0 && handed == [] && commInitStatus == old(commInitStatus) && clientRxBuffer == old(clientRxBuffer)
      ensures length <= 4096 ==> clientRxBuffer == m[..length] && !commInitStatus
      ensures length <= 4096 && old(commInitStatus) ==> ret == first && handed == []
      ensures length <= 4096 && !old(commInitStatus) ==>
        handed == Pieces(Reader(m), length, 0, MAX_FRAMES) && ret == if handed == [] then 0 else codes(|handed| - 1)
    {
      handed := [];
      if length > MAX_CLIENT_RX_BUFFER {
        return 0, handed;
      }
      clientRxBuffer := m[..length];
      if commInitStatus {
        commInitStatus := false;
        return first, handed;
      }
      ret, handed := SplitRead(m, length, MAX_FRAMES, codes, Reader(m));
    }
  }

  /** Takes piece after piece, until the read is used up or the counter has run out. */
  method SplitRead(m: Memory, length: nat, limit: nat, codes: nat -> int, ghost read: nat -> seq<byte>) returns (ret: int, handed: seq<seq<byte>>)
    requires length + SLACK < |m| && Reads(read, m)
    ensures handed == Pieces(read, length, 0, limit)
    ensures ret == if handed == [] then 0 else codes(|handed| - 1)
  {
    ret, handed := 0, [];
    var offset: nat, left := 0, limit;
    ghost var all := Pieces(read, length, 0, limit);
    while length > offset && left > 0
      invariant handed + Pieces(read, length, offset, left) == all
      invariant ret == if handed == [] then 0 else codes(|handed| - 1)
      decreases left
    {
      var piece, next := TakePiece(m, offset, read);
      NextPiece(read, length, offset, left, handed, piece, all);
      ret := codes(|handed|);
      handed := handed + [piece];
      offset := next;
      left := left - 1;
    }
  }

  lemma NextPiece(read: nat -> seq<byte>, length: nat, offset: nat, left: nat, handed: seq<seq<byte>>, piece: seq<byte>, all: seq<seq<byte>>)
    requires offset < length && left > 0 && read(offset) == piece
    requires handed + Pieces(read, length, offset, left) == all
    ensures (handed + [piece]) + Pieces(read, length, offset + |piece|, left - 1) == all
  {
    var more := Pieces(read, length, offset + |piece|, left - 1);
    OnePiece(read, length, offset, left, piece, more);
    MoveOver(handed, piece, more);
  }

  lemma MoveOver(a: seq<seq<byte>>, p: seq<byte>, b: seq<seq<byte>>)
    ensures (a + [p]) + b == a + ([p] + b)
  {
  }

  method TakePiece(m: Memory, offset: nat, ghost read: nat -> seq<byte>) returns (piece: seq<byte>, next: nat)
    requires offset + SLACK < |m| && Reads(read, m)
    ensures piece == read(offset) && next == offset + |piece|
  {
    var len := m[offset + 1] as int + 1;
    piece, next := m[offset..offset + len], offset + len;
    assert piece == PieceAt(m, offset);
  }
}
