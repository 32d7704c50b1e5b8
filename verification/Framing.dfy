/**
 The thread pool's file transfer: tran_file prints frames of a four-byte length and that many
 bytes, the client parses them from whatever pieces recv returns.
 */
module Framing {
  import opened Bytes
  import opened Sequences

  const BUFFER_SIZE: nat := 1000

  // ---- The stream -----------------------------------------------------------------------------

  function Frame(payload: seq<byte>): seq<byte> {
    ToBytes(|payload|, 4) + payload
  }

  /** How much one read of the file yields: what the script says when that is possible. */
  function ReadSize(pieces: seq<nat>, left: nat): (n: nat)
    ensures n <= BUFFER_SIZE && n <= left && (left > 0 ==> n > 0)
  {
    if pieces != [] && 0 < pieces[0] <= Min(BUFFER_SIZE, left) then pieces[0] else Min(BUFFER_SIZE, left)
  }

  function Rest(pieces: seq<nat>): seq<nat> { if pieces == [] then [] else pieces[1..] }

  /** The content frames and the empty frame that ends them. */
  function Body(file: seq<byte>, pieces: seq<nat>): seq<byte>
    decreases |file|
  {
    if file == [] then Frame([])
    else
      var n := ReadSize(pieces, |file|);
      Frame(file[..n]) + Body(file[n..], Rest(pieces))
  }

  function Header(name: seq<byte>, size: nat): seq<byte> {
    Frame(name) + Frame(ToBytes(size, 8))
  }

  function Stream(name: seq<byte>, file: seq<byte>, pieces: seq<nat>): seq<byte> {
    Header(name, |file|) + Body(file, pieces)
  }

  // ---- The parser -----------------------------------------------------------------------------

  /** A length prefix the client's buffer can take, or an incomplete one. */
  predicate LengthsFit(s: seq<byte>)
    decreases |s|
  {
    |s| < 4 || (FromBytes(s[..4]) <= BUFFER_SIZE &&
                (FromBytes(s[..4]) == 0 || |s| - 4 < FromBytes(s[..4]) || LengthsFit(s[4 + FromBytes(s[..4])..])))
  }

  /** What is written to the file and what is left of the stream when the loop breaks. */
  function ParseBody(s: seq<byte>): (seq<byte>, seq<byte>)
    decreases |s|
  {
    if |s| < 4 then ([], [])
    else
      var len := FromBytes(s[..4]);
      if len == 0 then ([], s[4..])
      else if |s| - 4 < len then ([], [])
      else
        var (out, rest) := ParseBody(s[4 + len..]);
        (s[4..4 + len] + out, rest)
  }

  lemma FrameLength(payload: seq<byte>, more: seq<byte>)
    requires |payload| <= BUFFER_SIZE
    ensures var s := Frame(payload) + more;
            && |s| == 4 + |payload| + |more| && FromBytes(s[..4]) == |payload|
            && s[4..4 + |payload|] == payload && s[4 + |payload|..] == more
  {
    var s := Frame(payload) + more;
    assert Pow256(4) == 0x1_0000_0000;
    FromToBytes(|payload|, 4);
    assert s[..4] == ToBytes(|payload|, 4);
  }

  /** Round trip: for every file and every way of reading it, the parser writes exactly the file. */
  lemma {:induction false} ParsePrinted(file: seq<byte>, pieces: seq<nat>)
    ensures ParseBody(Body(file, pieces)) == (file, [])
    decreases |file|
  {
    if file == [] {
      FrameLength([], []);
      assert Frame([]) + [] == Frame([]);
    } else {
      var n := ReadSize(pieces, |file|);
      FrameLength(file[..n], Body(file[n..], Rest(pieces)));
      assert file == file[..n] + file[n..];
      ParsePrinted(file[n..], Rest(pieces));
    }
  }

  lemma CutFrame(payload: seq<byte>, more: seq<byte>, cut: nat)
    requires 0 < |payload| <= BUFFER_SIZE && cut <= 4 + |payload| + |more|
    ensures |Frame(payload) + more| == 4 + |payload| + |more|
    ensures var s, n := (Frame(payload) + more)[..cut], 4 + |payload|;
            if cut < n then ParseBody(s).0 == [] && LengthsFit(s)
            else && ParseBody(s).0 == payload + ParseBody(more[..cut - n]).0
                 && LengthsFit(s) == LengthsFit(more[..cut - n])
  {
    FrameLength(payload, more);
    var whole, n := Frame(payload) + more, 4 + |payload|;
    var s := whole[..cut];
    if cut >= 4 {
      assert s[..4] == whole[..4];
      if cut >= n {
        assert s[4..n] == payload && s[n..] == more[..cut - n];
      }
    }
  }

  lemma CutEnd(cut: nat)
    requires cut <= 4
    ensures |Frame([])| == 4 && ParseBody(Frame([])[..cut]).0 == [] && LengthsFit(Frame([])[..cut])
  {
    FrameLength([], []);
    assert Frame([]) + [] == Frame([]);
    if cut == 4 {
      assert Frame([])[..cut] == Frame([]);
    }
  }

  /** A stream cut anywhere in the body gives a prefix of the file. */
  lemma {:induction false} ParseCut(file: seq<byte>, pieces: seq<nat>, cut: nat)
    requires cut <= |Body(file, pieces)|
    ensures ParseBody(Body(file, pieces)[..cut]).0 <= file
    ensures LengthsFit(Body(file, pieces)[..cut])
    decreases |file|
  {
    if file == [] {
      CutEnd(0);
      CutEnd(cut);
    } else {
      var n := ReadSize(pieces, |file|);
      var first, rest := file[..n], file[n..];
      var more := Body(rest, Rest(pieces));
      assert file == first + rest;
      CutFrame(first, more, 0);
      CutFrame(first, more, cut);
      if cut >= 4 + n {
        ParseCut(rest, Rest(pieces), cut - 4 - n);
        PrefixConcat(first, ParseBody(more[..cut - 4 - n]).0, rest);
      }
    }
  }

  // ---- The two programs -------------------------------------------------------------------------

  /** memcpy, read and recv all put bytes into the middle of a buffer. */
  method Fill(buf: array<byte>, at: nat, data: seq<byte>)
    requires at + |data| <= buf.Length
    modifies buf
    ensures buf[..] == old(buf[..at]) + data + old(buf[at + |data|..])
  {
    forall i | 0 <= i < |data| {
      buf[at + i] := data[i];
    }
  }

  /** send_n: however much each send takes, it all goes out. The script says how much that is. */
  method SendN(data: seq<byte>, script: nat -> nat) returns (sent: seq<byte>)
    ensures sent == data
  {
    var total := 0;
    sent := [];
    while total < |data|
      invariant total <= |data| && sent == data[..total]
    {
      var most := |data| - total;
      var taken := if 0 < script(total) <= most then script(total) else most;
      sent := sent + data[total..total + taken];
      total := total + taken;
    }
  }

  /** Sending the frame structure: its length field and the front of its buffer. */
  method SendFrame(buf: array<byte>, data: seq<byte>, script: nat -> nat) returns (sent: seq<byte>)
    requires |data| <= buf.Length
    modifies buf
    ensures sent == Frame(data)
  {
    Fill(buf, 0, data);
    assert buf[..|data|] == data;
    sent := SendN(ToBytes(|data|, 4) + buf[..|data|], script);
  }

  lemma BodyStep(before: seq<byte>, file: seq<byte>, pos: nat, script: seq<nat>, len: nat)
    requires pos < |file| && len == ReadSize(script, |file| - pos)
    ensures before + Body(file[pos..], script) ==
            (before + Frame(file[pos..pos + len])) + Body(file[pos + len..], Rest(script))
  {
    Assoc(before, Frame(file[pos..pos + len]), Body(file[pos + len..], Rest(script)));
    assert file[pos..][..len] == file[pos..pos + len];
    assert file[pos..][len..] == file[pos + len..];
  }

  /** The loop of tran_file over the file, and the empty frame after it. */
  method SendBody(buf: array<byte>, file: seq<byte>, pieces: seq<nat>, sends: nat -> nat) returns (out: seq<byte>)
    requires buf.Length == BUFFER_SIZE
    modifies buf
    ensures out == Body(file, pieces)
  {
    var pos, script := 0, pieces;
    out := [];
    assert file[0..] == file && out + Body(file[pos..], script) == Body(file, pieces);
    var len := ReadSize(script, |file| - pos);
    while len > 0
      invariant pos <= |file| && len == ReadSize(script, |file| - pos)
      invariant out + Body(file[pos..], script) == Body(file, pieces)
      decreases |file| - pos
    {
      BodyStep(out, file, pos, script, len);
      var sent := SendFrame(buf, file[pos..pos + len], sends);
      out := out + sent;
      pos := pos + len;
      script := Rest(script);
      len := ReadSize(script, |file| - pos);
    }
    assert file[pos..] == [];
    var last := SendFrame(buf, [], sends);
    out := out + last;
  }

  /** tran_file with its one buffer, filled again by every read. */
  method TranFile(name: seq<byte>, file: seq<byte>, pieces: seq<nat>, sends: nat -> nat) returns (stream: seq<byte>)
    requires |name| < BUFFER_SIZE
    ensures stream == Stream(name, file, pieces)
  {
    var buf := new byte[BUFFER_SIZE](_ => 0);
    stream := SendFrame(buf, name, sends);
    var sent := SendFrame(buf, ToBytes(|file|, 8), sends);
    stream := stream + sent;
    sent := SendBody(buf, file, pieces, sends);
    stream := stream + sent;
  }

  /**
   recv_n of the client: 0 when the buffer's front is filled, -2 when the stream ends before. The
   script says how much each recv returns; it never returns 0 while bytes are there.
   */
  method RecvN(buf: array<byte>, buflen: nat, stream: seq<byte>, pos: nat, script: nat -> nat)
    returns (r: int, pos': nat)
    requires buflen <= buf.Length && pos <= |stream|
    modifies buf
    ensures r == if |stream| - pos < buflen then -2 else 0
    ensures pos' == Min(|stream|, pos + buflen)
    ensures buf[..pos' - pos] == stream[pos..pos']
  {
    var total := 0;
    while total < buflen
      invariant total <= buflen && pos + total <= |stream|
      invariant buf[..total] == stream[pos..pos + total]
    {
      var most := Min(buflen - total, |stream| - pos - total);
      var got := if 0 < script(pos + total) <= most then script(pos + total) else most;
      if got == 0 {
        return -2, pos + total;
      }
      ghost var before := buf[..total];
      Fill(buf, total, stream[pos + total..pos + total + got]);
      assert buf[..total + got] == before + stream[pos + total..pos + total + got];
      total := total + got;
    }
    r, pos' := 0, pos + total;
  }

  /** The parser in positions of the stream: what is written from `at` on, and where the loop breaks. */
  function ParseFrom(stream: seq<byte>, at: nat): (r: (seq<byte>, nat))
    requires at <= |stream|
    ensures r.1 <= |stream|
    decreases |stream| - at
  {
    if |stream| - at < 4 then ([], |stream|)
    else
      var len := FromBytes(stream[at..at + 4]);
      if len == 0 then ([], at + 4)
      else if |stream| - at - 4 < len then ([], |stream|)
      else
        var more := ParseFrom(stream, at + 4 + len);
        (stream[at + 4..at + 4 + len] + more.0, more.1)
  }

  predicate FitFrom(stream: seq<byte>, at: nat)
    requires at <= |stream|
    decreases |stream| - at
  {
    |stream| - at < 4 ||
    var len := FromBytes(stream[at..at + 4]);
    len <= BUFFER_SIZE && (len == 0 || |stream| - at - 4 < len || FitFrom(stream, at + 4 + len))
  }

  lemma SuffixSlices(stream: seq<byte>, at: nat, len: nat)
    requires at + 4 + len <= |stream|
    ensures stream[at..][..4] == stream[at..at + 4]
    ensures stream[at..][4..4 + len] == stream[at + 4..at + 4 + len]
    ensures stream[at..][4 + len..] == stream[at + 4 + len..]
  {
  }

  /** The parser in positions is the parser of what is left of the stream. */
  lemma {:induction false} FromIsSuffix(stream: seq<byte>, at: nat)
    requires at <= |stream|
    ensures ParseFrom(stream, at).0 == ParseBody(stream[at..]).0
    ensures stream[ParseFrom(stream, at).1..] == ParseBody(stream[at..]).1
    decreases |stream| - at
  {
    if |stream| - at >= 4 {
      SuffixSlices(stream, at, 0);
      var len := FromBytes(stream[at..at + 4]);
      if 0 < len <= |stream| - at - 4 {
        SuffixSlices(stream, at, len);
        FromIsSuffix(stream, at + 4 + len);
      }
    }
  }

  lemma {:induction false} FitIsSuffix(stream: seq<byte>, at: nat)
    requires at <= |stream|
    ensures FitFrom(stream, at) == LengthsFit(stream[at..])
    decreases |stream| - at
  {
    if |stream| - at >= 4 {
      SuffixSlices(stream, at, 0);
      var len := FromBytes(stream[at..at + 4]);
      if 0 < len <= |stream| - at - 4 {
        SuffixSlices(stream, at, len);
        FitIsSuffix(stream, at + 4 + len);
      }
    }
  }

  lemma ParseStep(out: seq<byte>, stream: seq<byte>, at: nat, len: nat)
    requires at + 4 + len <= |stream| && FromBytes(stream[at..at + 4]) == len > 0
    ensures out + ParseFrom(stream, at).0 == (out + stream[at + 4..at + 4 + len]) + ParseFrom(stream, at + 4 + len).0
    ensures ParseFrom(stream, at).1 == ParseFrom(stream, at + 4 + len).1
  {
    Assoc(out, stream[at + 4..at + 4 + len], ParseFrom(stream, at + 4 + len).0);
  }

  /** The client's loop over content frames, from a stream that may end anywhere. */
  method ReceiveBody(stream: seq<byte>, start: nat, script: nat -> nat) returns (out: seq<byte>, count: nat, end: nat)
    requires start <= |stream| && FitFrom(stream, start)
    ensures (out, end) == ParseFrom(stream, start) && count == |out|
  {
    var buf := new byte[BUFFER_SIZE](_ => 0);
    out, count, end := [], 0, start;
    ghost var goal := ParseFrom(stream, start);
    assert out + goal.0 == goal.0;
    while true
      invariant start <= end <= |stream| && FitFrom(stream, end)
      invariant (out + ParseFrom(stream, end).0, ParseFrom(stream, end).1) == goal
      invariant count == |out|
      decreases |stream| - end
    {
      assert out + [] == out;
      var r, len, pos := ReceiveLength(stream, end, script);
      if r == -2 || len == 0 {
        end := pos;
        return;
      }
      ghost var at := end;
      r, end := RecvN(buf, len, stream, pos, script);
      if r == -2 {
        return;
      }
      ParseStep(out, stream, at, len);
      out := out + buf[..len];
      count := count + len;
    }
  }

  /** The four bytes of a frame's length. */
  method ReceiveLength(stream: seq<byte>, at: nat, script: nat -> nat) returns (r: int, len: nat, pos: nat)
    requires at <= |stream|
    ensures r == if |stream| - at < 4 then -2 else 0
    ensures pos == Min(|stream|, at + 4)
    ensures r == 0 ==> len == FromBytes(stream[at..at + 4])
  {
    var buf := new byte[4](_ => 0);
    r, pos := RecvN(buf, 4, stream, at, script);
    assert r == 0 ==> buf[..] == buf[..4] == stream[at..at + 4];
    len := FromBytes(buf[..]);
  }

  /** Writing from offset 0 into a file that was opened without truncating it. */
  function Overwrite(disk: seq<byte>, data: seq<byte>): seq<byte> {
    data + (if |data| < |disk| then disk[|data|..] else [])
  }

  lemma HeaderLayout(name: seq<byte>, size: nat, body: seq<byte>)
    requires |name| < BUFFER_SIZE && size < Pow256(8)
    ensures var whole, h := Header(name, size) + body, 4 + |name|;
            && |Header(name, size)| == h + 12
            && FromBytes(whole[..4]) == |name| && whole[4..h] == name
            && FromBytes(whole[h..h + 4]) == 8 && FromBytes(whole[h + 4..h + 12]) == size && whole[h + 12..] == body
  {
    var whole, h := Header(name, size) + body, 4 + |name|;
    var more := Frame(ToBytes(size, 8)) + body;
    assert whole == Frame(name) + more;
    FrameLength(name, more);
    FrameLength(ToBytes(size, 8), body);
    assert whole[h..h + 4] == more[..4] && whole[h + 4..h + 12] == more[4..12] && whole[h + 12..] == more[12..];
    FromToBytes(size, 8);
  }

  /** The name and size frames, as long as the stream holds them whole. */
  method ReceiveHeader(ghost name: seq<byte>, ghost length: nat, stream: seq<byte>, script: nat -> nat)
    returns (fileName: seq<byte>, size: nat, p: nat)
    requires |name| < BUFFER_SIZE && length < Pow256(8) && Header(name, length) <= stream
    ensures fileName == name && size == length && p == |Header(name, length)|
  {
    var buf := new byte[BUFFER_SIZE](_ => 0);
    assert stream == Header(name, length) + stream[|Header(name, length)|..];
    HeaderLayout(name, length, stream[|Header(name, length)|..]);
    var r, n;
    r, n, p := ReceiveLength(stream, 0, script);
    r, p := RecvN(buf, n, stream, p, script);
    fileName := buf[..n];
    r, n, p := ReceiveLength(stream, p, script);
    r, p := RecvN(buf, n, stream, p, script);
    size := FromBytes(buf[..n]);
  }

  /**
   The whole client. From the complete stream it writes exactly the server's bytes, counts exactly
   the announced size and leaves nothing unread; from a stream cut anywhere in the body it writes a
   prefix, whatever pieces recv returns.
   */
  method Client(ghost name: seq<byte>, ghost file: seq<byte>, ghost pieces: seq<nat>, stream: seq<byte>,
                script: nat -> nat, disk: seq<byte>)
    returns (fileName: seq<byte>, size: nat, written: seq<byte>, count: nat, left: seq<byte>)
    requires |name| < BUFFER_SIZE && |file| < Pow256(8)
    requires Header(name, |file|) <= stream <= Stream(name, file, pieces)
    ensures fileName == name && size == |file|
    ensures count <= size && written == Overwrite(disk, file[..count])
    ensures stream == Stream(name, file, pieces) ==> count == size && written == Overwrite(disk, file) && left == []
  {
    var p, out, end;
    ghost var body := Body(file, pieces);
    fileName, size, p := ReceiveHeader(name, |file|, stream, script);
    ghost var cut := |stream| - p;
    assert stream[p..] == body[..cut];
    ParseCut(file, pieces, cut);
    FromIsSuffix(stream, p);
    FitIsSuffix(stream, p);
    out, count, end := ReceiveBody(stream, p, script);
    written := Overwrite(disk, out);
    left := stream[end..];
    assert out == file[..count];
    if stream == Stream(name, file, pieces) {
      assert body[..cut] == body;
      ParsePrinted(file, pieces);
    }
  }

  /** The file on disk is the server's exactly when what was there before is not longer. */
  lemma OverwriteExactly(disk: seq<byte>, file: seq<byte>)
    ensures Overwrite(disk, file) == file <==> |disk| <= |file|
  {
    if |file| < |disk| {
      assert |Overwrite(disk, file)| == |disk|;
    }
  }
}
