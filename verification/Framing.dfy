/**
  The wire format and both ends of a connection: messages are framed and queued by
  CNode::BeginMessage and EndMessage, written in pieces by SocketSendData, and put
  together again from arbitrary chunks by CNode::ReceiveMsgBytes (src/net.cpp, src/net.h,
  src/protocol.h).
*/
module Framing {
  import opened Primitives

  const START_SIZE: nat := 4
  const COMMAND_SIZE: nat := 12
  const SIZE_OFFSET: nat := 16
  const CHECKSUM_OFFSET: nat := 20
  const HEADER_SIZE: nat := 24
  const MAX_SIZE: nat := 0x0200_0000
  const MAX_PROTOCOL_MESSAGE_LENGTH: nat := 2 * 1024 * 1024
  const READ_AHEAD: nat := 256 * 1024
  const TWO_32: nat := 0x1_0000_0000

  /** An unsigned int in memory. */
  function ToLe(n: nat): (r: seq<byte>)
    ensures |r| == 4
  {
    [n % 256, n / 0x100 % 256, n / 0x1_0000 % 256, n / 0x100_0000 % 256]
  }

  function FromLe(b: seq<byte>): (r: nat)
    requires |b| == 4
  {
    b[0] as int + b[1] as int * 0x100 + b[2] as int * 0x1_0000 + b[3] as int * 0x100_0000
  }

  lemma LeRoundTrip(n: nat)
    requires n < TWO_32
    ensures FromLe(ToLe(n)) == n
  {
    assert n / 0x100 == n / 0x1_0000 * 256 + n / 0x100 % 256;
    assert n / 0x1_0000 == n / 0x100_0000 * 256 + n / 0x1_0000 % 256;
    assert n / 0x100_0000 < 256;
  }

  datatype Header = Header(start: seq<byte>, command: seq<byte>, size: nat, checksum: nat)

  function ParseHeader(b: seq<byte>): (r: Header)
    requires |b| == HEADER_SIZE
  {
    Header(b[..START_SIZE], b[START_SIZE..SIZE_OFFSET], FromLe(b[SIZE_OFFSET..CHECKSUM_OFFSET]), FromLe(b[CHECKSUM_OFFSET..]))
  }

  datatype Message = Message(command: seq<byte>, payload: seq<byte>)

  /** What both ends share: the network's start bytes and the first four bytes of the payload's hash. */
  datatype Net = Net(start: seq<byte>, checksum: seq<byte> -> nat)

  /** strncpy into the command field. */
  function Field(command: seq<byte>): (r: seq<byte>)
    ensures |r| == COMMAND_SIZE
  {
    seq(COMMAND_SIZE, i requires 0 <= i => if i < |command| then command[i] else 0)
  }

  /** strlen. */
  function FirstZero(b: seq<byte>): (n: nat)
    ensures n <= |b| && (forall i :: 0 <= i < n ==> b[i] != 0) && (n < |b| ==> b[n] == 0)
  {
    if b == [] || b[0] == 0 then 0 else 1 + FirstZero(b[1..])
  }

  /** CMessageHeader::GetCommand. */
  function GetCommand(field: seq<byte>): (r: seq<byte>)
    requires |field| == COMMAND_SIZE
  {
    if field[COMMAND_SIZE - 1] == 0 then field[..FirstZero(field)] else field
  }

  /** A name that fits the field. */
  predicate IsCommand(c: seq<byte>) { |c| <= COMMAND_SIZE && forall i :: 0 <= i < |c| ==> c[i] != 0 }

  /** The command read back is the one that was set. */
  lemma CommandReadBack(c: seq<byte>)
    requires IsCommand(c)
    ensures GetCommand(Field(c)) == c
  {
    var f := Field(c);
    assert f[..|c|] == c;
    if |c| < COMMAND_SIZE {
      assert f[|c|] == 0 && forall i :: 0 <= i < |c| ==> f[i] != 0;
    }
  }

  function HeaderBytes(net: Net, command: seq<byte>, size: nat, checksum: nat): (r: seq<byte>)
    requires |net.start| == START_SIZE
    ensures |r| == HEADER_SIZE
  {
    net.start + Field(command) + ToLe(size % TWO_32) + ToLe(checksum % TWO_32)
  }

  /** A message as it travels. */
  function Frame(net: Net, m: Message): (r: seq<byte>)
    requires |net.start| == START_SIZE
    ensures |r| == HEADER_SIZE + |m.payload|
  {
    HeaderBytes(net, m.command, |m.payload|, net.checksum(m.payload)) + m.payload
  }

  /** The bytes announce their own length. */
  predicate SelfDelimited(b: seq<byte>) {
    |b| >= HEADER_SIZE && |b| == HEADER_SIZE + ParseHeader(b[..HEADER_SIZE]).size
  }

  lemma FrameParses(net: Net, m: Message)
    requires |net.start| == START_SIZE && |m.payload| < TWO_32
    ensures SelfDelimited(Frame(net, m)) && Frame(net, m)[HEADER_SIZE..] == m.payload
    ensures ParseHeader(Frame(net, m)[..HEADER_SIZE]) ==
      Header(net.start, Field(m.command), |m.payload|, net.checksum(m.payload) % TWO_32)
  {
    hide ToLe, FromLe, Field;
    var size, sum := |m.payload|, net.checksum(m.payload) % TWO_32;
    var h := HeaderBytes(net, m.command, size, sum);
    assert Frame(net, m)[..HEADER_SIZE] == h && Frame(net, m)[HEADER_SIZE..] == m.payload;
    HeaderParts(net.start, Field(m.command), ToLe(size), ToLe(sum));
    LeRoundTrip(size);
    LeRoundTrip(sum);
  }

  lemma HeaderParts(a: seq<byte>, b: seq<byte>, c: seq<byte>, d: seq<byte>)
    requires |a| == START_SIZE && |b| == COMMAND_SIZE && |c| == 4 && |d| == 4
    ensures var h := a + b + c + d;
      h[..START_SIZE] == a && h[START_SIZE..SIZE_OFFSET] == b && h[SIZE_OFFSET..CHECKSUM_OFFSET] == c && h[CHECKSUM_OFFSET..] == d
  {
  }

  // ------------------------------------------------------------------ streams

  function Concat(s: seq<seq<byte>>): (r: seq<byte>) {
    if s == [] then [] else s[0] + Concat(s[1..])
  }

  lemma {:induction false} ConcatAppend(s: seq<seq<byte>>, t: seq<seq<byte>>)
    ensures Concat(s + t) == Concat(s) + Concat(t)
  {
    if s == [] {
      assert s + t == t;
    } else {
      var u := s + t;
      assert u != [] && u[0] == s[0] && u[1..] == s[1..] + t;
      ConcatAppend(s[1..], t);
      assert Concat(u) == s[0] + Concat(u[1..]);
      Regroup(s[0], Concat(s[1..]), Concat(t));
    }
  }

  lemma ConcatOne(b: seq<byte>)
    ensures Concat([b]) == b
  {
    assert [b][1..] == [];
  }

  /** A stream of self-delimited frames can be cut in one way only. */
  lemma {:induction false} OneWayToCut(done: seq<seq<byte>>, rest: seq<byte>, sent: seq<seq<byte>>)
    requires forall i :: 0 <= i < |done| ==> SelfDelimited(done[i])
    requires forall i :: 0 <= i < |sent| ==> SelfDelimited(sent[i])
    requires Concat(done) + rest <= Concat(sent)
    ensures done <= sent && rest <= Concat(sent[|done|..])
    decreases |done|
  {
    if done == [] {
      assert Concat(done) + rest == rest;
    } else {
      FirstFrame(done, rest, sent);
      OneWayToCut(done[1..], rest, sent[1..]);
      assert done == [done[0]] + done[1..] && sent == [sent[0]] + sent[1..];
      assert sent[1..][|done| - 1..] == sent[|done|..];
    }
  }

  lemma FirstFrame(done: seq<seq<byte>>, rest: seq<byte>, sent: seq<seq<byte>>)
    requires done != [] && SelfDelimited(done[0]) && (sent != [] ==> SelfDelimited(sent[0]))
    requires Concat(done) + rest <= Concat(sent)
    ensures sent != [] && done[0] == sent[0] && Concat(done[1..]) + rest <= Concat(sent[1..])
  {
    hide ParseHeader, Concat;
    Unroll(done);
    NoFrames();
    assert |Concat(sent)| >= |Concat(done) + rest| >= HEADER_SIZE;
    if sent != [] {
      Unroll(sent);
      Regroup(done[0], Concat(done[1..]), rest);
      SameStart(done[0], Concat(done[1..]) + rest, sent[0], Concat(sent[1..]));
    }
  }

  lemma NoFrames()
    ensures Concat([]) == []
  {
  }

  lemma Unroll(s: seq<seq<byte>>)
    requires s != []
    ensures Concat(s) == s[0] + Concat(s[1..])
  {
  }

  lemma SameStart(a: seq<byte>, x: seq<byte>, b: seq<byte>, y: seq<byte>)
    requires SelfDelimited(a) && SelfDelimited(b) && a + x <= b + y
    ensures a == b && x <= y
  {
    hide ParseHeader;
    var s, t := a + x, b + y;
    assert forall i :: 0 <= i < |s| ==> s[i] == t[i];
    assert forall i :: 0 <= i < |a| ==> a[i] == s[i];
    assert forall i :: 0 <= i < |b| ==> b[i] == t[i];
    assert a[..HEADER_SIZE] == b[..HEADER_SIZE];
    assert a == b;
    assert forall i :: 0 <= i < |x| ==> x[i] == s[|a| + i];
    assert forall i :: 0 <= i < |y| ==> y[i] == t[|b| + i];
  }

  // ------------------------------------------------------------------- sender

  class Sender {
    const net: Net
    var ssSend: seq<byte>
    var vSendMsg: seq<seq<byte>>
    var nSendOffset: nat
    var nSendSize: int

    /** Every byte the socket has taken, and every frame queued so far. */
    var wire: seq<byte>
    ghost var queued: seq<seq<byte>>

    ghost predicate Valid()
      reads this
    {
      && |net.start| == START_SIZE
      && (forall i :: 0 <= i < |vSendMsg| ==> |vSendMsg[i]| > 0)
      && (if vSendMsg == [] then nSendOffset == 0 else nSendOffset < |vSendMsg[0]|)
      && nSendSize == |Concat(vSendMsg)|
      && nSendOffset <= |Concat(vSendMsg)| && wire + Concat(vSendMsg)[nSendOffset..] == Concat(queued)
    }

    constructor (net: Net)
      requires |net.start| == START_SIZE
      ensures Valid() && queued == [] && wire == [] && vSendMsg == [] && ssSend == [] && this.net == net
    {
      this.net, ssSend, vSendMsg, nSendOffset, nSendSize := net, [], [], 0, 0;
      queued, wire := [], [];
    }

    /** The bytes that have been queued and not yet taken by the socket. */
    ghost function Waiting(): (r: seq<byte>)
      reads this
      requires Valid()
    {
      Concat(vSendMsg)[nSendOffset..]
    }

    /** BeginMessage, the payload written to ssSend, and EndMessage. */
    method PushMessage(m: Message, room: nat)
      requires Valid() && ssSend == [] && |m.payload| < TWO_32
      modifies this
      ensures Valid() && ssSend == [] && queued == old(queued) + [Frame(net, m)] && old(wire) <= wire
      ensures wire == if old(vSendMsg) == [] then Fill(old(wire), Frame(net, m), room) else old(wire)
    {
      ssSend := HeaderBytes(net, m.command, 0, 0);
      ssSend := ssSend + m.payload;
      EndMessage(m, room);
    }

    /** The frame is finished and queued, and written at once if the queue was empty. */
    method EndMessage(ghost m: Message, room: nat)
      requires Valid() && |m.payload| < TWO_32 && ssSend == HeaderBytes(net, m.command, 0, 0) + m.payload
      modifies this
      ensures Valid() && ssSend == [] && queued == old(queued) + [Frame(net, m)] && old(wire) <= wire
      ensures wire == if old(vSendMsg) == [] then Fill(old(wire), Frame(net, m), room) else old(wire)
    {
      var nSize := (|ssSend| - HEADER_SIZE) % TWO_32;
      ssSend := Splice(ssSend, SIZE_OFFSET, ToLe(nSize));
      assert ssSend[HEADER_SIZE..] == m.payload;
      var nChecksum := net.checksum(ssSend[HEADER_SIZE..]) % TWO_32;
      ssSend := Splice(ssSend, CHECKSUM_OFFSET, ToLe(nChecksum));
      assert ssSend == Frame(net, m);
      Enqueue();
      if |vSendMsg| == 1 {
        ConcatOne(vSendMsg[0]);
        assert vSendMsg == [Frame(net, m)] && Waiting() == Frame(net, m);
        SocketSendData(room);
      }
    }

    /** The finished frame goes to the end of the queue. */
    method Enqueue()
      requires Valid() && |ssSend| > 0
      modifies this
      ensures Valid() && ssSend == [] && queued == old(queued) + [old(ssSend)] && wire == old(wire)
      ensures vSendMsg == old(vSendMsg) + [old(ssSend)] && nSendOffset == old(nSendOffset)
    {
      EnqueueFacts(vSendMsg, nSendOffset, queued, wire, ssSend);
      hide Concat;
      queued := queued + [ssSend];
      vSendMsg := vSendMsg + [ssSend];
      nSendSize := nSendSize + |ssSend|;
      ssSend := [];
    }

    /** One send call on a socket with room for so many bytes; without room it takes nothing. */
    method Send(data: seq<byte>, room: nat) returns (n: nat)
      modifies this`wire
      ensures n == (if room < |data| then room else |data|) && wire == old(wire) + data[..n]
    {
      n := if room < |data| then room else |data|;
      wire := wire + data[..n];
    }

    /** SocketSendData: the socket's room is filled from the queue, in order; the assertions of the source hold. */
    method SocketSendData(room: nat)
      requires Valid()
      modifies this
      ensures Valid() && queued == old(queued) && ssSend == old(ssSend) && old(wire) <= wire
      ensures wire == Fill(old(wire), old(Waiting()), room)
    {
      hide Concat;
      var it := 0;
      var left := room;
      SliceAll(vSendMsg);
      ghost var was := wire;
      while it < |vSendMsg|
        invariant 0 <= it <= |vSendMsg| && vSendMsg == old(vSendMsg) && queued == old(queued) && ssSend == old(ssSend)
        invariant old(wire) <= wire && |wire| + left == |was| + room
        invariant if it == |vSendMsg| then nSendOffset == 0 else nSendOffset < |vSendMsg[it]|
        invariant nSendSize == |Concat(vSendMsg[it..])| && nSendOffset <= |Concat(vSendMsg[it..])|
        invariant wire + Concat(vSendMsg[it..])[nSendOffset..] == Concat(queued)
      {
        var data := vSendMsg[it];
        NextFrame(vSendMsg, it);
        assert |data| > nSendOffset;
        ghost var sent := wire;
        var nBytes := Send(data[nSendOffset..], left);
        left := left - nBytes;
        if nBytes > 0 {
          TakenFrom(sent, vSendMsg, it, nSendOffset, nBytes);
          nSendOffset := nSendOffset + nBytes;
          if nSendOffset == |data| {
            nSendOffset := 0;
            nSendSize := nSendSize - |data|;
            it := it + 1;
          } else {
            break;
          }
        } else {
          break;
        }
      }
      assert left == 0 || it == |vSendMsg|;
      if it == |vSendMsg| {
        NothingLeft(vSendMsg);
        assert nSendOffset == 0;
        assert nSendSize == 0;
      }
      Filled(was, old(Waiting()), wire, Concat(vSendMsg[it..])[nSendOffset..], room, left);
      vSendMsg := vSendMsg[it..];
    }
  }

  /** The wire after a socket with room for so many bytes has been offered data. */
  function Fill(wire: seq<byte>, data: seq<byte>, room: nat): (r: seq<byte>) {
    wire + data[..if room < |data| then room else |data|]
  }

  lemma Filled(was: seq<byte>, data: seq<byte>, wire: seq<byte>, rest: seq<byte>, room: nat, left: nat)
    requires was + data == wire + rest && was <= wire && |wire| + left == |was| + room && (left == 0 || rest == [])
    ensures wire == Fill(was, data, room)
  {
    var n := |wire| - |was|;
    assert wire == (was + data)[..|was| + n];
    assert (was + data)[..|was| + n] == was + data[..n];
  }

  /** memcpy into a buffer. */
  function Splice(buf: seq<byte>, pos: nat, data: seq<byte>): (r: seq<byte>)
    requires pos + |data| <= |buf|
    ensures |r| == |buf|
  {
    buf[..pos] + data + buf[pos + |data|..]
  }

  lemma EnqueueFacts(q: seq<seq<byte>>, offset: nat, queued: seq<seq<byte>>, wire: seq<byte>, frame: seq<byte>)
    requires offset <= |Concat(q)| && wire + Concat(q)[offset..] == Concat(queued)
    ensures Concat(q + [frame]) == Concat(q) + frame && Concat(queued + [frame]) == Concat(queued) + frame
    ensures wire + Concat(q + [frame])[offset..] == Concat(queued + [frame])
  {
    ConcatAppend(q, [frame]);
    ConcatAppend(queued, [frame]);
    ConcatOne(frame);
    hide Concat;
    assert (Concat(q) + frame)[offset..] == Concat(q)[offset..] + frame;
  }

  lemma SliceAll(q: seq<seq<byte>>)
    ensures q[0..] == q
  {
  }

  lemma NothingLeft(q: seq<seq<byte>>)
    ensures Concat(q[|q|..]) == []
  {
  }

  lemma NextFrame(q: seq<seq<byte>>, it: nat)
    requires it < |q|
    ensures Concat(q[it..]) == q[it] + Concat(q[it + 1..])
  {
    assert q[it..][0] == q[it] && q[it..][1..] == q[it + 1..];
  }

  /** Bytes taken from the current frame move from the queue to the wire. */
  lemma TakenFrom(wire: seq<byte>, q: seq<seq<byte>>, it: nat, offset: nat, n: nat)
    requires it < |q| && offset + n <= |q[it]|
    ensures |Concat(q[it..])| >= offset + n && |Concat(q[it..])| == |q[it]| + |Concat(q[it + 1..])|
    ensures wire + q[it][offset..][..n] + Concat(q[it..])[offset + n..] == wire + Concat(q[it..])[offset..]
    ensures offset + n == |q[it]| ==> Concat(q[it..])[offset + n..] == Concat(q[it + 1..])[0..]
  {
    NextFrame(q, it);
    hide Concat;
    var all := Concat(q[it..]);
    assert all[offset..] == q[it][offset..][..n] + all[offset + n..];
  }

  // ----------------------------------------------------------------- receiver

  /** CNetMessage: a message being received. */
  class NetMessage {
    var inData: bool
    var hdrbuf: seq<byte>
    var hdr: Header
    var nHdrPos: nat
    var vRecv: seq<byte>
    var nDataPos: nat

    ghost predicate Bounded()
      reads this
    {
      |hdrbuf| == HEADER_SIZE && nHdrPos <= HEADER_SIZE && nDataPos <= |vRecv|
    }

    ghost predicate Valid()
      reads this
    {
      && Bounded()
      && (inData ==> nHdrPos == HEADER_SIZE && hdr == ParseHeader(hdrbuf) && |vRecv| <= hdr.size <= MAX_PROTOCOL_MESSAGE_LENGTH)
      && (!inData ==> nHdrPos < HEADER_SIZE && vRecv == [])
    }

    /** The bytes absorbed so far. */
    ghost function Bytes(): (r: seq<byte>)
      reads this
      requires Bounded()
    {
      hdrbuf[..nHdrPos] + vRecv[..nDataPos]
    }

    constructor ()
      ensures Valid() && Bytes() == [] && !inData
    {
      inData, hdrbuf, nHdrPos, vRecv, nDataPos := false, seq(HEADER_SIZE, i => 0), 0, [], 0;
      hdr := Header([], [], 0, 0);
    }

    /** CNetMessage::complete. */
    predicate Complete()
      reads this
    {
      inData && hdr.size == nDataPos
    }

    /** A complete message holds one frame. */
    lemma CompleteIsFrame()
      requires Valid() && Complete()
      ensures SelfDelimited(Bytes()) && ParseHeader(Bytes()[..HEADER_SIZE]) == hdr && Bytes()[HEADER_SIZE..] == vRecv
    {
      assert Bytes()[..HEADER_SIZE] == hdrbuf;
      assert vRecv[..nDataPos] == vRecv;
    }

    /** An incomplete message is shorter than the frame that its header announces. */
    lemma PartialIsShort(frame: seq<byte>)
      requires Valid() && !Complete() && SelfDelimited(frame)
      ensures |Bytes()| >= HEADER_SIZE && Bytes()[..HEADER_SIZE] == frame[..HEADER_SIZE] ==> |Bytes()| < |frame|
    {
      hide ParseHeader;
      if inData {
        assert Bytes()[..HEADER_SIZE] == hdrbuf;
      }
    }

    /** CNetMessage::readHeader. */
    method ReadHeader(pch: seq<byte>) returns (handled: int)
      requires Valid() && !inData && pch != []
      modifies this
      ensures Bounded()
      ensures handled >= 0 ==> 0 < handled <= |pch| && Bytes() == old(Bytes()) + pch[..handled]
      ensures handled >= 0 && !(inData && hdr.size > MAX_PROTOCOL_MESSAGE_LENGTH) ==> Valid()
      ensures (handled < 0 || (inData && hdr.size > MAX_PROTOCOL_MESSAGE_LENGTH)) ==> Oversized(old(Bytes()) + pch)
    {
      var nRemaining := HEADER_SIZE - nHdrPos;
      var nCopy := if nRemaining <= |pch| then nRemaining else |pch|;
      ghost var was := Bytes();
      hdrbuf := Splice(hdrbuf, nHdrPos, pch[..nCopy]);
      nHdrPos := nHdrPos + nCopy;
      assert hdrbuf[..nHdrPos] == was + pch[..nCopy];
      if nHdrPos < HEADER_SIZE {
        return nCopy;
      }
      hdr := ParseHeader(hdrbuf);
      assert (was + pch)[..HEADER_SIZE] == hdrbuf;
      if hdr.size > MAX_SIZE {
        return -1;
      }
      inData := true;
      return nCopy;
    }

    /** CNetMessage::readData. */
    method ReadData(pch: seq<byte>) returns (handled: int)
      requires Valid() && inData && !Complete() && pch != []
      modifies this
      ensures Valid() && inData && 0 < handled <= |pch| && Bytes() == old(Bytes()) + pch[..handled]
    {
      var nRemaining := hdr.size - nDataPos;
      var nCopy := if nRemaining <= |pch| then nRemaining else |pch|;
      ghost var was := Bytes();
      if |vRecv| < nDataPos + nCopy {
        var want := nDataPos + nCopy + READ_AHEAD;
        vRecv := Resized(vRecv, if hdr.size <= want then hdr.size else want);
      }
      ghost var front := vRecv[..nDataPos];
      vRecv := Splice(vRecv, nDataPos, pch[..nCopy]);
      nDataPos := nDataPos + nCopy;
      assert vRecv[..nDataPos] == front + pch[..nCopy];
      handled := nCopy;
    }
  }

  function Resized(v: seq<byte>, n: nat): (r: seq<byte>)
    ensures |r| == n && forall i :: 0 <= i < n && i < |v| ==> r[i] == v[i]
  {
    seq(n, i requires 0 <= i => if i < |v| then v[i] else 0)
  }

  /** The stream starts with a header that announces more than is accepted. */
  predicate Oversized(b: seq<byte>) {
    |b| >= HEADER_SIZE && ParseHeader(b[..HEADER_SIZE]).size > MAX_PROTOCOL_MESSAGE_LENGTH
  }

  class Receiver {
    var vRecvMsg: seq<NetMessage>

    /** The bytes of every message so far, the last one perhaps still growing, and how many were handed on to processing. */
    ghost var log: seq<seq<byte>>
    ghost var nTaken: nat

    /** Every byte received. */
    var got: seq<byte>

    /** The message objects this node has created. */
    ghost var owned: set<NetMessage>

    ghost predicate Shape()
      reads this, owned
    {
      && (forall i :: 0 <= i < |vRecvMsg| ==> vRecvMsg[i] in owned)
      && (forall i, j :: 0 <= i < j < |vRecvMsg| ==> vRecvMsg[i] != vRecvMsg[j])
      && (forall i :: 0 <= i < |vRecvMsg| ==> vRecvMsg[i].Valid())
      && (forall i :: 0 <= i < |vRecvMsg| - 1 ==> vRecvMsg[i].Complete())
      && |log| == nTaken + |vRecvMsg|
    }

    ghost predicate Valid()
      reads this, owned
    {
      && Shape()
      && (forall i :: 0 <= i < |vRecvMsg| ==> vRecvMsg[i].Bytes() == log[nTaken + i])
      && (forall i :: 0 <= i < Whole() ==> SelfDelimited(log[i]))
      && got == Concat(log)
    }

    /** How many messages have been received in full. */
    ghost function Whole(): (r: nat)
      reads this, owned
      ensures r <= |log|
    {
      if vRecvMsg != [] && |log| > 0 && vRecvMsg[|vRecvMsg| - 1] in owned && !vRecvMsg[|vRecvMsg| - 1].Complete() then |log| - 1 else |log|
    }

    /** Every message received in full so far. */
    ghost function Completed(): (r: seq<seq<byte>>)
      reads this, owned
      requires Valid()
    {
      log[..Whole()]
    }

    constructor ()
      ensures Valid() && got == [] && log == [] && vRecvMsg == []
    {
      vRecvMsg, log, nTaken, got, owned := [], [], 0, [], {};
    }

    /** The message that takes the next bytes, a new one if the last is complete. */
    method Current() returns (msg: NetMessage)
      requires Valid()
      modifies this`vRecvMsg, this`log, this`owned
      ensures Valid() && vRecvMsg != [] && msg == vRecvMsg[|vRecvMsg| - 1] && !msg.Complete()
      ensures owned == old(owned) || (fresh(msg) && owned == old(owned) + {msg})
    {
      hide Concat, SelfDelimited, NetMessage.Bytes;
      if |vRecvMsg| == 0 || vRecvMsg[|vRecvMsg| - 1].Complete() {
        msg := new NetMessage();
        ConcatOne([]);
        ConcatAppend(log, [[]]);
        vRecvMsg := vRecvMsg + [msg];
        log := log + [[]];
        owned := owned + {msg};
      } else {
        msg := vRecvMsg[|vRecvMsg| - 1];
      }
    }

    /** One turn of the loop in ReceiveMsgBytes; a failure means that an oversized message was announced. */
    method Absorb(pch: seq<byte>) returns (handled: int)
      requires Valid() && pch != []
      modifies this, owned
      ensures old(owned) <= owned && fresh(owned - old(owned)) && nTaken == old(nTaken)
      ensures handled >= 0 ==> Valid() && 0 < handled <= |pch| && got == old(got) + pch[..handled]
      ensures handled < 0 ==> Refused(old(got) + pch)
    {
      hide Concat, SelfDelimited, Oversized, NetMessage.Bytes, Refused;
      var msg := Current();
      if !msg.inData {
        handled := msg.ReadHeader(pch);
      } else {
        handled := msg.ReadData(pch);
      }
      if handled < 0 {
        RefusedAt(log, pch);
        return;
      }
      if msg.inData && msg.hdr.size > MAX_PROTOCOL_MESSAGE_LENGTH {
        RefusedAt(log, pch);
        return -1;
      }
      got := got + pch[..handled];
      Record(msg, pch[..handled]);
    }

    /** The last message has grown. */
    ghost method Record(msg: NetMessage, more: seq<byte>)
      requires Shape() && vRecvMsg != [] && msg == vRecvMsg[|vRecvMsg| - 1] && got == Concat(log) + more
      requires forall i :: 0 <= i < |vRecvMsg| - 1 ==> vRecvMsg[i].Bytes() == log[nTaken + i]
      requires msg.Bytes() == log[|log| - 1] + more
      requires forall i :: 0 <= i < |log| - 1 ==> SelfDelimited(log[i])
      modifies this`log
      ensures Valid()
    {
      hide Concat, SelfDelimited, NetMessage.Bytes;
      ConcatLast(log, more);
      log := log[|log| - 1 := msg.Bytes()];
      if msg.Complete() {
        msg.CompleteIsFrame();
      }
    }

    /** CNode::ReceiveMsgBytes. */
    method ReceiveMsgBytes(pch: seq<byte>) returns (ok: bool)
      requires Valid()
      modifies this, owned
      ensures old(owned) <= owned && fresh(owned - old(owned)) && nTaken == old(nTaken)
      ensures ok ==> Valid() && got == old(got) + pch
      ensures !ok ==> Refused(old(got) + pch)
    {
      hide Refused, Receiver.Valid, Concat;
      var pos := 0;
      while pos < |pch|
        invariant 0 <= pos <= |pch| && Valid() && got == old(got) + pch[..pos]
        invariant old(owned) <= owned && fresh(owned - old(owned)) && nTaken == old(nTaken)
      {
        ghost var was := got;
        var handled := Absorb(pch[pos..]);
        assert was + pch[pos..] == old(got) + pch;
        if handled < 0 {
          return false;
        }
        assert pch[..pos] + pch[pos..][..handled] == pch[..pos + handled];
        pos := pos + handled;
      }
      ok := true;
    }

    /** ProcessMessages takes a complete message off the front of the queue. */
    method Take() returns (msg: NetMessage?)
      requires Valid()
      modifies this
      ensures Valid() && got == old(got) && Completed() == old(Completed())
      ensures owned == old(owned) && nTaken == old(nTaken) + if msg == null then 0 else 1
      ensures msg == null ==> nTaken == |Completed()|
      ensures msg != null ==> msg.Valid() && msg.Complete() && old(nTaken) < |Completed()| && msg.Bytes() == Completed()[old(nTaken)]
    {
      hide Concat, SelfDelimited, NetMessage.Bytes;
      msg := null;
      if |vRecvMsg| > 0 && vRecvMsg[0].Complete() {
        msg := vRecvMsg[0];
        nTaken := nTaken + 1;
        vRecvMsg := vRecvMsg[1..];
      }
    }
  }

  /** Whole frames followed by an oversized announcement. */
  ghost predicate Refused(stream: seq<byte>) {
    exists done, rest :: RefusedAfter(done, rest, stream)
  }

  ghost predicate RefusedAfter(done: seq<seq<byte>>, rest: seq<byte>, stream: seq<byte>) {
    && (forall i :: 0 <= i < |done| ==> SelfDelimited(done[i]))
    && stream == Concat(done) + rest && Oversized(rest)
  }

  lemma RefusedAt(log: seq<seq<byte>>, pch: seq<byte>)
    requires log != [] && (forall i :: 0 <= i < |log| - 1 ==> SelfDelimited(log[i])) && Oversized(log[|log| - 1] + pch)
    ensures Refused(Concat(log) + pch)
  {
    hide SelfDelimited, Oversized, Concat, Refused;
    var n := |log| - 1;
    LastFrame(log);
    Regroup(Concat(log[..n]), log[n], pch);
    RefusedWitness(log[..n], log[n] + pch, Concat(log) + pch);
  }

  lemma RefusedWitness(done: seq<seq<byte>>, rest: seq<byte>, stream: seq<byte>)
    requires (forall i :: 0 <= i < |done| ==> SelfDelimited(done[i])) && stream == Concat(done) + rest && Oversized(rest)
    ensures Refused(stream)
  {
    hide SelfDelimited, Oversized, Concat;
    assert RefusedAfter(done, rest, stream);
  }

  lemma Regroup(a: seq<byte>, b: seq<byte>, c: seq<byte>)
    ensures (a + b) + c == a + (b + c)
  {
  }

  lemma LastFrame(log: seq<seq<byte>>)
    requires log != []
    ensures Concat(log) == Concat(log[..|log| - 1]) + log[|log| - 1]
  {
    hide Concat;
    var n := |log| - 1;
    ConcatAppend(log[..n], [log[n]]);
    ConcatOne(log[n]);
    assert log == log[..n] + [log[n]];
  }

  lemma ConcatLast(log: seq<seq<byte>>, more: seq<byte>)
    requires log != []
    ensures Concat(log[|log| - 1 := log[|log| - 1] + more]) == Concat(log) + more
  {
    hide Concat;
    var n := |log| - 1;
    var grown := log[n := log[n] + more];
    LastFrame(log);
    LastFrame(grown);
    assert grown[..n] == log[..n];
  }

  // --------------------------------------------------------------- connection

  /** A message is queued, the socket with its present room is written to, some bytes arrive, or a message is processed. */
  datatype Op = Push(m: Message, room: nat) | Write(room: nat) | Deliver(n: nat) | Process

  /** A message as the processing code sees it. */
  datatype Received = Received(hdr: Header, payload: seq<byte>)

  function FramesOf(net: Net, sent: seq<Message>): (r: seq<seq<byte>>)
    requires |net.start| == START_SIZE
    ensures |r| == |sent| && forall i :: 0 <= i < |sent| ==> r[i] == Frame(net, sent[i])
  {
    seq(|sent|, i requires 0 <= i < |sent| => Frame(net, sent[i]))
  }

  predicate WithinLimit(m: Message) { |m.payload| <= MAX_PROTOCOL_MESSAGE_LENGTH }

  /** What arrives is what was sent, field by field. */
  ghost predicate Unaltered(net: Net, m: Message, r: Received) {
    && r.payload == m.payload && |r.hdr.command| == COMMAND_SIZE && (IsCommand(m.command) ==> GetCommand(r.hdr.command) == m.command)
    && r.hdr == Header(net.start, Field(m.command), |m.payload|, net.checksum(m.payload) % TWO_32)
  }

  lemma FramesDelimited(net: Net, sent: seq<Message>)
    requires |net.start| == START_SIZE && forall i :: 0 <= i < |sent| ==> WithinLimit(sent[i])
    ensures forall i :: 0 <= i < |sent| ==> SelfDelimited(FramesOf(net, sent)[i]) && !Oversized(FramesOf(net, sent)[i])
  {
    hide Frame, SelfDelimited, ParseHeader;
    forall i | 0 <= i < |sent| ensures SelfDelimited(FramesOf(net, sent)[i]) && !Oversized(FramesOf(net, sent)[i]) {
      FrameParses(net, sent[i]);
    }
  }

  /** No prefix of a stream of acceptable frames is refused. */
  lemma NeverRefused(stream: seq<byte>, sent: seq<seq<byte>>)
    requires forall i :: 0 <= i < |sent| ==> SelfDelimited(sent[i]) && !Oversized(sent[i])
    requires stream <= Concat(sent)
    ensures !Refused(stream)
  {
    hide SelfDelimited, Concat;
    forall done, rest ensures !RefusedAfter(done, rest, stream) {
      if (forall i :: 0 <= i < |done| ==> SelfDelimited(done[i])) && stream == Concat(done) + rest {
        OneWayToCut(done, rest, sent);
        NextNotOversized(rest, sent[|done|..]);
      }
    }
  }

  lemma NextNotOversized(rest: seq<byte>, sent: seq<seq<byte>>)
    requires forall i :: 0 <= i < |sent| ==> SelfDelimited(sent[i]) && !Oversized(sent[i])
    requires rest <= Concat(sent)
    ensures !Oversized(rest)
  {
    hide ParseHeader;
    if |rest| >= HEADER_SIZE && sent != [] {
      Unroll(sent);
      assert rest[..HEADER_SIZE] == Concat(sent)[..HEADER_SIZE] == sent[0][..HEADER_SIZE];
    }
  }

  /** The two ends agree: nothing is received that was not sent, and whole messages are the ones sent, in order. */
  ghost predicate Connected(s: Sender, r: Receiver, sent: seq<Message>)
    reads s, r, r.owned
  {
    && s.Valid() && r.Valid() && s.ssSend == [] && r.got <= s.wire
    && (forall i :: 0 <= i < |sent| ==> WithinLimit(sent[i]))
    && s.queued == FramesOf(s.net, sent)
  }

  /** The receiver's whole messages are a prefix of the sender's. */
  lemma InOrder(s: Sender, r: Receiver, sent: seq<Message>)
    requires Connected(s, r, sent)
    ensures r.Completed() <= FramesOf(s.net, sent)
  {
    hide SelfDelimited, Concat, Frame, NetMessage.Valid, NetMessage.Bytes;
    FramesDelimited(s.net, sent);
    var done := r.Completed();
    var rest := Concat(r.log[r.Whole()..]);
    ConcatAppend(done, r.log[r.Whole()..]);
    assert r.log == done + r.log[r.Whole()..];
    assert s.wire <= Concat(s.queued);
    OneWayToCut(done, rest, s.queued);
  }

  lemma {:induction false} LongerPrefix(frames: seq<seq<byte>>, d: nat, k: nat)
    requires d <= k <= |frames|
    ensures |Concat(frames[..d])| <= |Concat(frames[..k])|
  {
    hide Concat;
    if d < k {
      LongerPrefix(frames, d, k - 1);
      LastFrame(frames[..k]);
      assert frames[..k][..k - 1] == frames[..k - 1];
    }
  }

  /** Bytes that hold a whole frame have made a complete message of it. */
  lemma NoWholeFrameLeft(r: Receiver, frames: seq<seq<byte>>)
    requires r.Valid() && (forall i :: 0 <= i < |frames| ==> SelfDelimited(frames[i]))
    requires |r.Completed()| < |frames| && Concat(r.log[r.Whole()..]) <= Concat(frames[r.Whole()..])
    ensures |Concat(r.log[r.Whole()..])| < |frames[r.Whole()]|
  {
    hide SelfDelimited, Concat, NetMessage.Valid, NetMessage.Bytes, ParseHeader;
    var d := r.Whole();
    var rest, frame := Concat(r.log[d..]), frames[d];
    Unroll(frames[d..]);
    AtLeastHeader(frame);
    if d == |r.log| {
      NoFrames();
      assert r.log[d..] == [];
    } else {
      assert r.log[d..] == [r.log[d]];
      ConcatOne(r.log[d]);
      r.vRecvMsg[|r.vRecvMsg| - 1].PartialIsShort(frame);
      if |rest| >= HEADER_SIZE {
        assert rest[..HEADER_SIZE] == Concat(frames[d..])[..HEADER_SIZE] == frame[..HEADER_SIZE];
      }
    }
  }

  lemma AtLeastHeader(b: seq<byte>)
    requires SelfDelimited(b)
    ensures |b| >= HEADER_SIZE
  {
  }

  /** A sent message is complete exactly when the bytes that arrived reach to its end. */
  lemma CompleteWhenArrived(s: Sender, r: Receiver, sent: seq<Message>, k: nat)
    requires Connected(s, r, sent) && k <= |sent|
    ensures k <= |r.Completed()| <==> |Concat(FramesOf(s.net, sent)[..k])| <= |r.got|
  {
    hide SelfDelimited, Concat, Frame, NetMessage.Valid, NetMessage.Bytes;
    var frames, d := FramesOf(s.net, sent), r.Whole();
    FramesDelimited(s.net, sent);
    InOrder(s, r, sent);
    assert r.log == r.log[..d] + r.log[d..] && frames[..d] == r.Completed();
    ConcatAppend(r.log[..d], r.log[d..]);
    if k <= d {
      LongerPrefix(frames, k, d);
    } else {
      OneWayToCut(r.Completed(), Concat(r.log[d..]), frames);
      NoWholeFrameLeft(r, frames);
      LastFrame(frames[..d + 1]);
      assert frames[..d + 1][..d] == frames[..d];
      LongerPrefix(frames, d + 1, k);
    }
  }

  /** The next n bytes under way reach the other end. */
  method DeliverBytes(s: Sender, r: Receiver, n: nat, ghost sent: seq<Message>)
    requires Connected(s, r, sent) && |r.got| + n <= |s.wire|
    modifies r, r.owned
    ensures Connected(s, r, sent) && |r.got| == old(|r.got|) + n
    ensures r.nTaken == old(r.nTaken) && old(r.owned) <= r.owned && fresh(r.owned - old(r.owned))
  {
    hide Concat, Refused, SelfDelimited, Oversized, Frame, Receiver.Valid;
    var pos := |r.got|;
    FramesDelimited(s.net, sent);
    assert r.got + s.wire[pos..pos + n] == s.wire[..pos + n];
    assert s.wire[..pos + n] <= Concat(s.queued);
    NeverRefused(s.wire[..pos + n], s.queued);
    var ok := r.ReceiveMsgBytes(s.wire[pos..pos + n]);
  }

  /** The next whole message, if any, is processed. */
  method ProcessNext(s: Sender, r: Receiver, ghost sent: seq<Message>) returns (got: Option<Received>)
    requires Connected(s, r, sent)
    modifies r
    ensures Connected(s, r, sent) && r.owned == old(r.owned)
    ensures r.nTaken == old(r.nTaken) + if got.Some? then 1 else 0
    ensures got.None? ==> r.nTaken == |r.Completed()|
    ensures got.Some? ==> old(r.nTaken) < |sent| && Unaltered(s.net, sent[old(r.nTaken)], got.value)
  {
    hide Concat, SelfDelimited, Frame, Receiver.Valid, NetMessage.Bytes, NetMessage.Valid, ParseHeader;
    InOrder(s, r, sent);
    var msg := r.Take();
    if msg == null {
      return None;
    }
    msg.CompleteIsFrame();
    FrameParses(s.net, sent[r.nTaken - 1]);
    if IsCommand(sent[r.nTaken - 1].command) {
      CommandReadBack(sent[r.nTaken - 1].command);
    }
    got := Some(Received(msg.hdr, msg.vRecv));
  }

  /**
    Any interleaving of queueing, partial writes, arriving chunks and processing:
    what is processed is what was sent, in order and unaltered, and a message is ready for
    processing as soon as its last byte has arrived.
  */
  method Run(s: Sender, r: Receiver, ops: seq<Op>) returns (ghost sent: seq<Message>, processed: seq<Received>)
    requires Connected(s, r, []) && r.nTaken == 0
    requires forall i :: 0 <= i < |ops| && ops[i].Push? ==> WithinLimit(ops[i].m)
    modifies s, r, r.owned
    ensures Connected(s, r, sent) && r.Completed() <= FramesOf(s.net, sent)
    ensures |processed| <= |sent| && forall i :: 0 <= i < |processed| ==> Unaltered(s.net, sent[i], processed[i])
    ensures forall k :: 0 <= k <= |sent| ==> (k <= |r.Completed()| <==> |Concat(FramesOf(s.net, sent)[..k])| <= |r.got|)
  {
    hide Connected, Unaltered, WithinLimit;
    sent, processed := [], [];
    for i := 0 to |ops|
      invariant Connected(s, r, sent) && r.nTaken == |processed| <= |sent|
      invariant old(r.owned) <= r.owned && fresh(r.owned - old(r.owned))
      invariant forall k :: 0 <= k < |processed| ==> Unaltered(s.net, sent[k], processed[k])
    {
      match ops[i] {
        case Push(m, room) =>
          QueueMessage(s, r, m, room, sent);
          sent := sent + [m];
        case Write(room) =>
          WriteSome(s, r, room, sent);
        case Deliver(n) =>
          if |r.got| + n <= |s.wire| {
            DeliverBytes(s, r, n, sent);
          }
        case Process =>
          var got := ProcessNext(s, r, sent);
          if got.Some? {
            processed := processed + [got.value];
          }
      }
    }
    InOrder(s, r, sent);
    AllArrived(s, r, sent);
  }

  lemma AllArrived(s: Sender, r: Receiver, sent: seq<Message>)
    requires Connected(s, r, sent)
    ensures forall k :: 0 <= k <= |sent| ==> (k <= |r.Completed()| <==> |Concat(FramesOf(s.net, sent)[..k])| <= |r.got|)
  {
    hide Concat, Frame, Receiver.Completed;
    forall k | 0 <= k <= |sent| ensures k <= |r.Completed()| <==> |Concat(FramesOf(s.net, sent)[..k])| <= |r.got| {
      CompleteWhenArrived(s, r, sent, k);
    }
  }

  method QueueMessage(s: Sender, ghost r: Receiver, m: Message, room: nat, ghost sent: seq<Message>)
    requires Connected(s, r, sent) && WithinLimit(m)
    modifies s
    ensures Connected(s, r, sent + [m])
  {
    hide Concat, Frame, Receiver.Valid, Sender.Valid;
    ghost var wire := s.wire;
    StartOk(s);
    s.PushMessage(m, room);
    assert FramesOf(s.net, sent + [m]) == FramesOf(s.net, sent) + [Frame(s.net, m)];
    assert r.got <= wire <= s.wire;
  }

  method WriteSome(s: Sender, ghost r: Receiver, room: nat, ghost sent: seq<Message>)
    requires Connected(s, r, sent)
    modifies s
    ensures Connected(s, r, sent)
  {
    hide Concat, Frame, Receiver.Valid, Sender.Valid;
    ghost var wire := s.wire;
    StartOk(s);
    s.SocketSendData(room);
    assert r.got <= wire <= s.wire;
  }

  lemma StartOk(s: Sender)
    requires s.Valid()
    ensures |s.net.start| == START_SIZE
  {
  }
}
