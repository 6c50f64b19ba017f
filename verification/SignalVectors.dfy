/** Binary signals and the byte streams that NCodec objects open on them (dse/fmu/ncodec.c:377-522).
    A stream shares buffer and length with the signal, so SetString appends and resets reach it too. */
module SignalVectors {
  import opened Bytes
  import opened Sequences

  const SIZE_T: nat := 0x1_0000_0000_0000_0000
  const EINVAL: int := 22

  datatype SeekOp = SeekSet | SeekCur | SeekEnd | SeekReset | SeekUnknown

  /** The abstract stream: bytes before the position indicator, and bytes still to be read. */
  datatype Stream = Stream(consumed: seq<byte>, pending: seq<byte>)

  /** Where a seek lands, given the signal length; relative positions are added as size_t. */
  function SeekTarget(length: nat, pos: nat, offset: nat, op: SeekOp): nat {
    match op
    case SeekSet => if offset > length then length else offset
    case SeekCur => var p := (pos + offset) % SIZE_T; if p > length then length else p
    case SeekEnd => length
    case SeekReset => 0
    case SeekUnknown => pos
  }

  function Clamp(x: int, length: nat): nat {
    if x < 0 then 0 else if x > length then length else x
  }

  /** A relative seek by a signed distance clamps to the signal exactly when it does not go back past
      the start: the size_t sum wraps there and the stream moves to the end instead. */
  lemma {:induction false} RelativeSeekClamps(length: nat, pos: nat, distance: int)
    requires pos <= length < 0x1_0000_0000 && -0x8000_0000_0000_0000 <= distance < 0x8000_0000_0000_0000
    ensures SeekTarget(length, pos, distance % SIZE_T, SeekCur) == Clamp(pos + distance, length)
            <==> (pos + distance >= 0 || length == 0)
    ensures pos + distance < 0 ==> SeekTarget(length, pos, distance % SIZE_T, SeekCur) == length
  {
    var offset := distance % SIZE_T;
    assert offset == if distance < 0 then distance + SIZE_T else distance;
    if pos + distance >= 0 {
      assert (pos + offset) % SIZE_T == pos + distance;
    } else {
      assert (pos + offset) % SIZE_T == pos + distance + SIZE_T;
    }
  }

  /** The wrap in a run: seven bytes back from position 3 of ten bytes leads to the end. */
  lemma {:induction false} SeekBackLandsAtEnd()
    ensures SeekTarget(10, 3, (-7) % SIZE_T, SeekCur) == 10 != Clamp(3 - 7, 10)
  {
    RelativeSeekClamps(10, 3, -7);
  }

  // ----- whole runs of one stream -----

  /** What happens to a stream between two model steps and beyond: the importer appends, the codec reads,
      writes and seeks, a reset truncates. */
  datatype StreamCall =
    | Append(data: seq<byte>)
    | Read(update: bool)
    | Write(data: seq<byte>)
    | Seek(offset: nat, op: SeekOp)
    | Reset

  function NextStream(s: Stream, call: StreamCall): Stream {
    match call
    case Append(data) => Stream(s.consumed, s.pending + data)
    case Read(update) => if update then Stream(s.consumed + s.pending, []) else s
    case Write(data) => Stream(s.consumed + data, [])
    case Seek(offset, op) => if op == SeekReset then Stream([], []) else SplitAt(s, offset, op)
    case Reset => Stream([], [])
  }

  /** A seek moves the split and nothing else. */
  function SplitAt(s: Stream, offset: nat, op: SeekOp): Stream
    requires op != SeekReset
  {
    var content := s.consumed + s.pending;
    var p := SeekTarget(|content|, |s.consumed|, offset, op);
    Stream(content[..p], content[p..])
  }

  lemma {:induction false} SplitMoves(content: seq<byte>, at: nat, offset: nat, op: SeekOp)
    requires at <= |content| && op != SeekReset
    ensures var p := SeekTarget(|content|, at, offset, op);
            SplitAt(Stream(content[..at], content[at..]), offset, op) == Stream(content[..p], content[p..])
  {
    assert content[..at] + content[at..] == content;
  }

  /** Where each seek leaves the stream: at the given position, at a distance from the current one, at the end, or
      where it is; never behind the end. The bytes stay, except for a reset. */
  lemma {:induction false} SeekMeaning(s: Stream, offset: nat, op: SeekOp)
    ensures var next, length := NextStream(s, StreamCall.Seek(offset, op)), |s.consumed| + |s.pending|;
            && (op == SeekSet && offset <= length ==> |next.consumed| == offset)
            && (op == SeekSet && offset > length ==> next.pending == [])
            && (op == SeekCur && |s.consumed| + offset <= length < SIZE_T ==> |next.consumed| == |s.consumed| + offset)
            && (op == SeekCur && length < |s.consumed| + offset < SIZE_T ==> next.pending == [])
            && (op == SeekEnd ==> next.pending == [])
            && (op == SeekUnknown ==> next == s)
            && (op == SeekReset ==> next == Stream([], []))
            && (op != SeekReset ==> next.consumed + next.pending == s.consumed + s.pending)
  {
    var content := s.consumed + s.pending;
    assert content[..|s.consumed|] == s.consumed && content[|s.consumed|..] == s.pending;
    StreamStep(s, StreamCall.Seek(offset, op));
  }

  function RunStream(calls: seq<StreamCall>): Stream {
    if calls == [] then Stream([], []) else NextStream(RunStream(calls[..|calls| - 1]), calls[|calls| - 1])
  }

  /** The bytes of the signal by the history of the run: appends add to them, a write keeps what is before
      the position and adds its data, reads and seeks change nothing, and a reset clears them. */
  function Kept(calls: seq<StreamCall>): seq<byte> {
    if calls == [] then []
    else
      var earlier := calls[..|calls| - 1];
      match calls[|calls| - 1]
      case Append(data) => Kept(earlier) + data
      case Read(_) => Kept(earlier)
      case Write(data) =>
        var at := |RunStream(earlier).consumed|;
        (if at <= |Kept(earlier)| then Kept(earlier)[..at] else Kept(earlier)) + data
      case Seek(_, op) => if op == SeekReset then [] else Kept(earlier)
      case Reset => []
  }

  /** Everything handed out by reads that update the position, or written, since the last reset, in order. */
  function Delivered(calls: seq<StreamCall>): seq<byte> {
    if calls == [] then []
    else
      var earlier := calls[..|calls| - 1];
      match calls[|calls| - 1]
      case Append(_) => Delivered(earlier)
      case Read(update) => if update then Delivered(earlier) + RunStream(earlier).pending else Delivered(earlier)
      case Write(data) => Delivered(earlier) + data
      case Seek(_, op) => if op == SeekReset then [] else Delivered(earlier)
      case Reset => []
  }

  /** Everything appended since the last reset, in order. */
  function Arrived(calls: seq<StreamCall>): seq<byte> {
    if calls == [] then []
    else
      var earlier := calls[..|calls| - 1];
      match calls[|calls| - 1]
      case Append(data) => Arrived(earlier) + data
      case Seek(_, op) => if op == SeekReset then [] else Arrived(earlier)
      case Reset => []
      case _ => Arrived(earlier)
  }

  predicate NoWrites(calls: seq<StreamCall>) {
    forall k :: 0 <= k < |calls| ==> !calls[k].Write?
  }

  predicate NoMoves(calls: seq<StreamCall>) {
    forall k :: 0 <= k < |calls| ==> !calls[k].Seek? || calls[k].op == SeekReset
  }

  /** Conservation over every run of stream operations. Consumed and pending bytes are together exactly the
      bytes that were kept: the only bytes ever lost are those pending at a write. Without writes these are
      all that arrived. Without seeks the consumed bytes are what was handed out or written, in order; so no
      byte is handed out twice, or before it arrived. */
  lemma {:induction false} NothingLost(calls: seq<StreamCall>)
    ensures RunStream(calls).consumed + RunStream(calls).pending == Kept(calls)
    ensures NoWrites(calls) ==> Kept(calls) == Arrived(calls)
    ensures NoMoves(calls) ==> RunStream(calls).consumed == Delivered(calls)
  {
    if calls != [] {
      var earlier := calls[..|calls| - 1];
      NothingLost(earlier);
      StreamStep(RunStream(earlier), calls[|calls| - 1]);
    }
  }

  lemma {:induction false} StreamStep(s: Stream, call: StreamCall)
    ensures var next, content := NextStream(s, call), s.consumed + s.pending;
            next.consumed + next.pending ==
            match call
            case Append(data) => content + data
            case Read(_) => content
            case Write(data) => content[..|s.consumed|] + data
            case Seek(_, op) => if op == SeekReset then [] else content
            case Reset => []
  {
    var content := s.consumed + s.pending;
    match call
    case Append(data) => ConcatIsAssociative(s.consumed, s.pending, data);
    case Read(_) => assert s.consumed + s.pending + [] == content;
    case Write(_) => assert content[..|s.consumed|] == s.consumed;
    case Seek(offset, op) =>
      if op != SeekReset {
        var p := SeekTarget(|content|, |s.consumed|, offset, op);
        assert content[..p] + content[p..] == content;
      }
    case Reset =>
  }

  ghost function ContentsOf(binary: seq<seq<byte>>, length: seq<nat>): (r: seq<seq<byte>>)
    requires |binary| == |length| && forall i :: 0 <= i < |length| ==> length[i] <= |binary[i]|
    ensures |r| == |binary| && forall i :: 0 <= i < |r| ==> r[i] == binary[i][..length[i]]
  {
    seq(|binary|, i requires 0 <= i < |binary| => binary[i][..length[i]])
  }

  /** A vector of binary signals. `ncodec[i]` says that an NCodec stream is open on signal `i`,
      with position indicator `pos[i]`. A buffer keeps stale bytes beyond its length. */
  class SignalVector {
    const ncodec: seq<bool>
    var binary: seq<seq<byte>>
    var length: seq<nat>
    var pos: seq<nat>

    ghost predicate Valid()
      reads this
    {
      && |binary| == |length| == |pos| == |ncodec|
      && (forall i :: 0 <= i < |length| ==> length[i] <= |binary[i]|)
      && (forall i :: 0 <= i < |length| ==> pos[i] <= length[i])
    }

    /** The bytes of signal `i`. */
    function Content(i: nat): seq<byte>
      requires Valid() && i < |ncodec|
      reads this
    {
      binary[i][..length[i]]
    }

    ghost function View(i: nat): Stream
      requires Valid() && i < |ncodec|
      reads this
    {
      Stream(Content(i)[..pos[i]], Content(i)[pos[i]..])
    }

    /** Every signal but `i` is as before. */
    twostate predicate OthersKept(i: nat)
      reads this
    {
      && |binary| == |old(binary)| && |length| == |old(length)| && |pos| == |old(pos)|
      && (forall j :: 0 <= j < |binary| && j != i ==> binary[j] == old(binary)[j])
      && (forall j :: 0 <= j < |length| && j != i ==> length[j] == old(length)[j])
      && (forall j :: 0 <= j < |pos| && j != i ==> pos[j] == old(pos)[j])
    }

    constructor (ncodec: seq<bool>)
      ensures Valid() && this.ncodec == ncodec
      ensures forall i :: 0 <= i < |ncodec| ==> Content(i) == []
    {
      this.ncodec := ncodec;
      binary := seq(|ncodec|, i => []);
      length := seq(|ncodec|, i => 0);
      pos := seq(|ncodec|, i => 0);
    }

    /** dse_buffer_append: the data goes behind the current length, over stale bytes, growing the
        buffer if needed. For an open stream the data becomes pending. */
    method Append(i: nat, data: seq<byte>)
      requires Valid() && i < |ncodec|
      modifies this`binary, this`length
      ensures Valid() && OthersKept(i) && pos == old(pos)
      ensures Content(i) == old(Content(i)) + data
      ensures View(i) == NextStream(old(View(i)), StreamCall.Append(data))
    {
      var old_content := Content(i);
      var n := length[i] + |data|;
      var tail := if n < |binary[i]| then binary[i][n..] else [];
      var buffer := old_content + data + tail;
      assert buffer[..n] == old_content + data;
      binary := binary[i := buffer];
      length := length[i := n];
      assert Content(i)[..pos[i]] == old_content[..pos[i]];
      assert Content(i)[pos[i]..] == old_content[pos[i]..] + data;
    }

    /** stream_read: hands out exactly the pending bytes; they become consumed when the position is
        updated. Nothing is handed out at the end, and only there. */
    method Read(i: nat, update: bool) returns (data: seq<byte>)
      requires Valid() && i < |ncodec|
      modifies this`pos
      ensures Valid() && OthersKept(i)
      ensures data == old(View(i)).pending
      ensures View(i) == NextStream(old(View(i)), StreamCall.Read(update))
    {
      if pos[i] >= length[i] {
        assert Content(i)[pos[i]..] == [];
        return [];
      }
      data := Content(i)[pos[i]..];
      assert Content(i) == Content(i)[..pos[i]] + data;
      if update {
        pos := pos[i := length[i]];
      }
    }

    /** stream_write: replaces the pending bytes by the data and moves behind it. */
    method Write(i: nat, data: seq<byte>) returns (written: nat)
      requires Valid() && i < |ncodec|
      modifies this
      ensures Valid() && OthersKept(i)
      ensures written == |data|
      ensures View(i) == NextStream(old(View(i)), StreamCall.Write(data))
    {
      ghost var consumed := Content(i)[..pos[i]];
      var at, n := pos[i], length[i];
      if at > n {
        at := n;
      }
      length := length[i := at];
      assert Content(i) == consumed;
      Append(i, data);
      pos := pos[i := at + |data|];
      assert Content(i) == consumed + data;
      written := |data|;
    }

    /** stream_seek: moves the split between consumed and pending bytes; a reset empties the signal. */
    method Seek(i: nat, offset: nat, op: SeekOp) returns (rc: int)
      requires Valid() && i < |ncodec| && offset < SIZE_T
      modifies this`pos, this`length
      ensures Valid() && OthersKept(i) && binary == old(binary)
      ensures pos[i] == SeekTarget(old(length[i]), old(pos[i]), offset, op)
      ensures Content(i) == if op == SeekReset then [] else old(Content(i))
      ensures View(i) == NextStream(old(View(i)), StreamCall.Seek(offset, op))
      ensures rc == if op == SeekUnknown then -EINVAL else pos[i]
    {
      if op != SeekReset {
        SplitMoves(Content(i), pos[i], offset, op);
      }
      match op {
        case SeekSet =>
          pos := pos[i := if offset > length[i] then length[i] else offset];
        case SeekCur =>
          var p := (pos[i] + offset) % SIZE_T;
          pos := pos[i := if p > length[i] then length[i] else p];
        case SeekEnd =>
          pos := pos[i := length[i]];
        case SeekReset =>
          pos := pos[i := 0];
          length := length[i := 0];
        case SeekUnknown =>
          return -EINVAL;
      }
      return pos[i];
    }

    /** stream_tell */
    method Tell(i: nat) returns (at: nat)
      requires Valid() && i < |ncodec|
      ensures at == |View(i).consumed|
    {
      at := pos[i];
    }

    /** stream_eof: holds exactly when a read would hand out nothing. */
    method Eof(i: nat) returns (eof: bool)
      requires Valid() && i < |ncodec|
      ensures eof <==> View(i).pending == []
    {
      eof := !(pos[i] < length[i]);
    }

    /** The loop of fmu_default_signals_reset: truncates streams, clears the length of plain signals.
        Plain signals have no stream, so their position does not matter; it is 0 throughout. */
    method Reset()
      requires Valid() && PlainAtStart()
      modifies this`pos, this`length
      ensures Valid() && PlainAtStart() && binary == old(binary)
      ensures forall i :: 0 <= i < |ncodec| ==> Content(i) == []
      ensures forall i :: 0 <= i < |ncodec| ==> View(i) == NextStream(old(View(i)), StreamCall.Reset)
    {
      for i := 0 to |ncodec|
        invariant Valid() && PlainAtStart()
        invariant forall j :: 0 <= j < i ==> length[j] == 0
      {
        if ncodec[i] {
          var _ := Seek(i, 0, SeekReset);
        } else {
          length := length[i := 0];
        }
      }
    }

    /** All contents at once. */
    ghost function Contents(): (r: seq<seq<byte>>)
      requires Valid()
      reads this
      ensures |r| == |ncodec| && forall i :: 0 <= i < |r| ==> r[i] == Content(i)
    {
      ContentsOf(binary, length)
    }

    /** Reads all contents, as a model step does. */
    method Snapshot() returns (seen: seq<seq<byte>>)
      requires Valid()
      ensures seen == Contents()
    {
      seen := [];
      for i := 0 to |ncodec|
        invariant |seen| == i
        invariant forall j :: 0 <= j < i ==> seen[j] == Content(j)
      {
        seen := seen + [Content(i)];
      }
    }

    /** Stands for what a model step writes to the signals and does with their streams. */
    method Replace(contents: seq<seq<byte>>, positions: seq<nat>)
      requires Valid() && |contents| == |positions| == |ncodec|
      requires forall i :: 0 <= i < |contents| ==> positions[i] <= |contents[i]| && (!ncodec[i] ==> positions[i] == 0)
      modifies this
      ensures Valid() && PlainAtStart() && Contents() == contents
    {
      binary := contents;
      length := seq(|contents|, i requires 0 <= i < |contents| => |contents[i]|);
      pos := positions;
      assert forall i :: 0 <= i < |contents| ==> Content(i) == contents[i];
    }

    ghost predicate PlainAtStart()
      requires Valid()
      reads this
    {
      forall i :: 0 <= i < |ncodec| && !ncodec[i] ==> pos[i] == 0
    }
  }
}
