/** The 1016-byte message of the network disk: two ints, a long and 1000 bytes of text. */
module Wire {
  import opened Bytes

  const MESSAGE_SIZE: nat := 1016
  const TEXT_SIZE: nat := 1000

  datatype Message = Message(len: nat, order: nat, fileSize: nat, text: seq<byte>)

  predicate Fits(m: Message) {
    m.len < Pow256(4) && m.order < Pow256(4) && m.fileSize < Pow256(8) && |m.text| == TEXT_SIZE
  }

  function Encode(m: Message): (s: seq<byte>)
    requires |m.text| == TEXT_SIZE
    ensures |s| == MESSAGE_SIZE
  {
    ToBytes(m.len, 4) + ToBytes(m.order, 4) + ToBytes(m.fileSize, 8) + m.text
  }

  function Decode(s: seq<byte>): Message
    requires |s| == MESSAGE_SIZE
  {
    Message(FromBytes(s[0..4]), FromBytes(s[4..8]), FromBytes(s[8..16]), s[16..])
  }

  lemma DecodeEncode(m: Message)
    requires Fits(m)
    ensures Decode(Encode(m)) == m
  {
    var a, b, c, s := ToBytes(m.len, 4), ToBytes(m.order, 4), ToBytes(m.fileSize, 8), Encode(m);
    assert s[0..4] == a && s[4..8] == b && s[8..16] == c && s[16..] == m.text;
    FromToBytes(m.len, 4);
    FromToBytes(m.order, 4);
    FromToBytes(m.fileSize, 8);
  }
}

/** send_n, recv_n and recv_file against a script of what each system call does. */
module SocketLoops {
  import opened Bytes

  /** What one call of send or recv does: move up to n bytes, fail with a retryable or a final error. */
  datatype Event = Moves(n: nat) | Retry | Fault

  predicate Harmless(script: seq<Event>) {
    forall k :: 0 <= k < |script| ==> script[k].Retry? || (script[k].Moves? && script[k].n >= 1)
  }

  /** Calls that move something. */
  function MoveCount(script: seq<Event>): nat {
    if script == [] then 0 else (if script[0].Moves? then 1 else 0) + MoveCount(script[1..])
  }

  /** send_n: the bytes that went out before the loop ended, and its result. */
  method SendN(buf: seq<byte>, script: seq<Event>) returns (r: int, sent: seq<byte>)
    ensures r in {-1, 0, 1} && sent <= buf
    ensures r == 1 <==> sent == buf
    ensures Harmless(script) && MoveCount(script) >= |buf| ==> r == 1
  {
    var total: nat, k: nat := 0, 0;
    assert script[0..] == script;
    while total < |buf|
      invariant total <= |buf| && k <= |script|
      invariant Harmless(script) && MoveCount(script) >= |buf| ==> MoveCount(script[k..]) >= |buf| - total
      decreases |script| - k
    {
      if k == |script| {
        return -1, buf[..total];
      }
      assert script[k..][0] == script[k] && script[k..][1..] == script[k + 1..];
      var event := script[k];
      k := k + 1;
      match event
      case Fault => return -1, buf[..total];
      case Retry =>
      case Moves(n) =>
        if n == 0 {
          return 0, buf[..total];
        }
        total := total + Min(n, |buf| - total);
    }
    r, sent := 1, buf[..total];
  }

  /**
   recv_n: fills the front of the buffer in place with what arrives. `incoming` is all that will
   ever arrive; after it recv returns 0.
   */
  method RecvN(buf: array<byte>, buflen: nat, incoming: seq<byte>, script: seq<Event>) returns (r: int, total: nat)
    requires buflen <= buf.Length
    modifies buf
    ensures r in {-1, 0, 1} && total <= buflen && total <= |incoming|
    ensures r == 1 <==> total == buflen
    ensures buf[..] == incoming[..total] + old(buf[total..])
    ensures Harmless(script) && MoveCount(script) >= buflen && |incoming| >= buflen ==> r == 1
  {
    total := 0;
    var k := 0;
    assert script[0..] == script;
    while total < buflen
      invariant total <= buflen && total <= |incoming| && k <= |script|
      invariant forall i :: 0 <= i < buf.Length ==> buf[i] == if i < total then incoming[i] else old(buf[i])
      invariant Harmless(script) && MoveCount(script) >= buflen ==> MoveCount(script[k..]) >= buflen - total
      decreases |script| - k
    {
      if k == |script| {
        return -1, total;
      }
      assert script[k..][0] == script[k] && script[k..][1..] == script[k + 1..];
      var event := script[k];
      k := k + 1;
      match event
      case Fault => return -1, total;
      case Retry =>
      case Moves(n) =>
        var got := Min(n, Min(buflen - total, |incoming| - total));
        if got == 0 {
          return 0, total;
        }
        forall i | 0 <= i < got {
          buf[total + i] := incoming[total + i];
        }
        total := total + got;
    }
    r := 1;
  }

  // ---- recv_file -----------------------------------------------------------------------------

  /** The receive loop of recv_file: result, and the file that has been appended to. */
  function Receive(file: seq<byte>, size: nat, incoming: seq<byte>, script: seq<Event>): (int, seq<byte>)
    decreases |script|
  {
    if |file| >= size then (1, file)
    else if script == [] || script[0].Fault? then (-1, file)
    else if script[0].Retry? then Receive(file, size, incoming, script[1..])
    else
      var n := Min(1000, Min(script[0].n, |incoming|));
      if n == 0 then (0, file)
      else Receive(file + incoming[..n], size, incoming[n..], script[1..])
  }

  /** recv_file after the sizes are exchanged: nothing to do when the local file is long enough. */
  function ReceiveFile(file: seq<byte>, size: nat, incoming: seq<byte>, script: seq<Event>): (int, seq<byte>) {
    if |file| >= size then (-1, file) else Receive(file, size, incoming, script)
  }

  method RecvFile(local: seq<byte>, size: nat, incoming: seq<byte>, script: seq<Event>)
    returns (r: int, file: seq<byte>)
    ensures (r, file) == ReceiveFile(local, size, incoming, script)
  {
    file := local;
    if |file| >= size {
      return -1, file;
    }
    var k, at := 0, 0;
    assert script[0..] == script && incoming[0..] == incoming;
    while |file| < size
      invariant k <= |script| && at <= |incoming|
      invariant Receive(file, size, incoming[at..], script[k..]) == Receive(local, size, incoming, script)
      decreases |script| - k
    {
      if k == |script| {
        return -1, file;
      }
      assert script[k..][0] == script[k] && script[k..][1..] == script[k + 1..];
      var event := script[k];
      k := k + 1;
      match event
      case Fault => return -1, file;
      case Retry =>
      case Moves(n) =>
        var got := Min(1000, Min(n, |incoming| - at));
        if got == 0 {
          return 0, file;
        }
        assert incoming[at..][..got] == incoming[at..at + got];
        assert incoming[at..][got..] == incoming[at + got..];
        file := file + incoming[at..at + got];
        at := at + got;
    }
    r := 1;
  }

  /** Whatever arrives of the rest of the server's file, the local file stays a prefix and never shrinks. */
  lemma {:induction false} ReceiveStaysPrefix(
    server: seq<byte>, file: seq<byte>, incoming: seq<byte>, script: seq<Event>)
    requires file <= server && incoming <= server[|file|..]
    ensures var (r, after) := Receive(file, |server|, incoming, script);
            file <= after <= server && (r == 1 <==> after == server)
    decreases |script|
  {
    if |file| < |server| && script != [] && !script[0].Fault? {
      if script[0].Retry? {
        ReceiveStaysPrefix(server, file, incoming, script[1..]);
      } else {
        var n := Min(1000, Min(script[0].n, |incoming|));
        if n > 0 {
          var next := file + incoming[..n];
          assert next == server[..|next|];
          assert incoming[n..] <= server[|next|..];
          ReceiveStaysPrefix(server, next, incoming[n..], script[1..]);
        }
      }
    }
  }

  /** With the whole rest arriving and enough harmless calls the file is completed. */
  lemma {:induction false} ReceiveCompletes(server: seq<byte>, file: seq<byte>, script: seq<Event>)
    requires file <= server && Harmless(script) && MoveCount(script) >= |server| - |file|
    ensures Receive(file, |server|, server[|file|..], script) == (1, server)
    decreases |script|
  {
    if |file| < |server| {
      if script[0].Retry? {
        ReceiveCompletes(server, file, script[1..]);
      } else {
        var rest := server[|file|..];
        var n := Min(1000, Min(script[0].n, |rest|));
        var next := file + rest[..n];
        assert next == server[..|next|] && rest[n..] == server[|next|..];
        ReceiveCompletes(server, next, script[1..]);
      }
    } else {
      assert file == server;
    }
  }

  /** One gets: the connection may break after any number of the bytes that follow. */
  datatype Attempt = Attempt(cut: nat, script: seq<Event>)

  /** The rest of the server's file, up to the byte at which the connection broke. */
  function Arriving(server: seq<byte>, have: nat, cut: nat): seq<byte>
    requires have <= |server|
  {
    server[have..][..Min(cut, |server| - have)]
  }

  function Attempts(server: seq<byte>, local: seq<byte>, attempts: seq<Attempt>): seq<byte>
    decreases |attempts|
  {
    if attempts == [] || |local| > |server| then local
    else
      var a := attempts[0];
      Attempts(server, ReceiveFile(local, |server|, Arriving(server, |local|, a.cut), a.script).1, attempts[1..])
  }

  /**
   Resumable download: over any sequence of attempts, each cut anywhere, a local copy that starts as
   a prefix of the server's file stays one and never shrinks.
   */
  lemma {:induction false} ResumedStaysPrefix(server: seq<byte>, local: seq<byte>, attempts: seq<Attempt>)
    requires local <= server
    ensures local <= Attempts(server, local, attempts) <= server
    decreases |attempts|
  {
    if attempts != [] {
      var a := attempts[0];
      if |local| < |server| {
        ReceiveStaysPrefix(server, local, Arriving(server, |local|, a.cut), a.script);
      }
      ResumedStaysPrefix(
        server, ReceiveFile(local, |server|, Arriving(server, |local|, a.cut), a.script).1, attempts[1..]);
    }
  }

  /** All the bytes arrive and the receiver gets to call recv often enough. */
  predicate Unbroken(a: Attempt, bytes: nat) {
    a.cut >= bytes && Harmless(a.script) && MoveCount(a.script) >= bytes
  }

  /** After any such history, the next recv_file returns 1 only with the whole file, and does if nothing breaks. */
  lemma ResumedCompletes(server: seq<byte>, local: seq<byte>, attempts: seq<Attempt>, last: Attempt)
    requires local <= server
    ensures var have := Attempts(server, local, attempts);
            && |have| <= |server|
            && var (r, file) := ReceiveFile(have, |server|, Arriving(server, |have|, last.cut), last.script);
               && (r == 1 ==> file == server)
               && (have != server && Unbroken(last, |server| - |have|) ==> r == 1)
  {
    ResumedStaysPrefix(server, local, attempts);
    var have := Attempts(server, local, attempts);
    if |have| < |server| {
      var arriving := Arriving(server, |have|, last.cut);
      ReceiveStaysPrefix(server, have, arriving, last.script);
      if Unbroken(last, |server| - |have|) {
        assert arriving == server[|have|..];
        ReceiveCompletes(server, have, last.script);
      }
    }
  }
}
