/**
 One gets or puts as two parties over two byte streams. The sender holds the file, the receiver
 holds the beginning of it that earlier attempts left. In gets the sender speaks first, in puts the
 receiver does; both compare the two sizes and then the rest of the file follows, or nothing.
 Every step moves some bytes; a broken connection is a run that stops.
 The sender's file may have changed between the stat that takes its size and the sendfile that reads it:
 on the server, other sessions may be writing to it, though it never gets shorter.
 */
module Exchange {
  import opened Bytes
  import opened Sequences
  import opened Wire

  /** The second party listens first. Streaming is the data part. */
  datatype Phase = Speaking | Listening | Streaming | Finished

  /** `output` is what is still to be sent, `heard` what has been received of the peer's message. */
  datatype Party = Party(phase: Phase, output: seq<byte>, heard: seq<byte>)

  datatype State = State(
    sender: Party, receiver: Party,
    toReceiver: seq<byte>, toSender: seq<byte>,
    local: seq<byte>)

  /**
   What stays the same: who speaks first and with what message, the file when its size is taken, the file
   as sendfile finds it, and the copy at the start.
   */
  datatype Setup = Setup(senderFirst: bool, first: Message, file: seq<byte>, later: seq<byte>, copy: seq<byte>)

  predicate SetupOk(c: Setup) {
    && Fits(c.first) && |c.file| < Pow256(8) && |c.copy| < Pow256(8)
    && c.first.fileSize == (if c.senderFirst then |c.file| else |c.copy|)
    && |c.file| <= |c.later|
  }

  /** sendfile from an offset is asked for as many bytes as the file had, not for what was left of it. */
  function Sendfile(c: Setup, offset: nat): seq<byte>
    requires offset < |c.later|
  {
    c.later[offset..Min(offset + |c.file|, |c.later|)]
  }

  /** The second party sends the message it received back with its own file size. */
  function Answer(heard: seq<byte>, size: nat): seq<byte>
    requires |heard| == MESSAGE_SIZE
  {
    Encode(Decode(heard).(fileSize := size))
  }

  function Initial(c: Setup): State
    requires |c.first.text| == TEXT_SIZE
  {
    var speaks := Party(Speaking, Encode(c.first), []);
    var listens := Party(Listening, [], []);
    if c.senderFirst then State(speaks, listens, [], [], c.copy) else State(listens, speaks, [], [], c.copy)
  }

  /** The size in the peer's message. */
  function PeerSize(p: Party): nat
    requires |p.heard| == MESSAGE_SIZE
  {
    Decode(p.heard).fileSize
  }

  /** send_file once both sizes are known: the bytes from the peer's size on, or nothing. */
  function SenderDecides(c: Setup, p: Party): Party
    requires |p.heard| == MESSAGE_SIZE && |c.file| <= |c.later|
  {
    if |c.file| <= PeerSize(p) then p.(phase := Finished, output := [])
    else p.(phase := Streaming, output := Sendfile(c, PeerSize(p)))
  }

  /** recv_file once both sizes are known. */
  function ReceiverDecides(p: Party, have: nat): Party
    requires |p.heard| == MESSAGE_SIZE
  {
    if have >= PeerSize(p) then p.(phase := Finished, output := []) else p.(phase := Streaming, output := [])
  }

  datatype Action = SenderSends(n: nat) | SenderReceives(n: nat) | ReceiverSends(n: nat) | ReceiverReceives(n: nat)

  predicate CanSend(p: Party, n: nat) {
    (p.phase == Speaking || p.phase == Streaming) && 1 <= n <= |p.output|
  }

  predicate CanHear(p: Party, channel: seq<byte>, n: nat) {
    p.phase == Listening && 1 <= n <= |channel| && |p.heard| + n <= MESSAGE_SIZE
  }

  predicate Allowed(s: State, a: Action) {
    match a
    case SenderSends(n) => CanSend(s.sender, n)
    case ReceiverSends(n) => s.receiver.phase == Speaking && CanSend(s.receiver, n)
    case SenderReceives(n) => CanHear(s.sender, s.toSender, n)
    case ReceiverReceives(n) =>
      || CanHear(s.receiver, s.toReceiver, n)
      || (s.receiver.phase == Streaming && 1 <= n <= |s.toReceiver| && n <= 1000 && |s.receiver.heard| == MESSAGE_SIZE)
  }

  /** After sending part of its output: the first party now listens, the second one decides. */
  function SenderSent(c: Setup, p: Party, n: nat): Party
    requires CanSend(p, n) && |c.file| <= |c.later|
  {
    var p' := p.(output := p.output[n..]);
    if p'.output != [] then p'
    else if p.phase == Streaming then p'.(phase := Finished)
    else if |p.heard| == MESSAGE_SIZE then SenderDecides(c, p')
    else p'.(phase := Listening)
  }

  function ReceiverSent(p: Party, n: nat, have: nat): Party
    requires CanSend(p, n)
  {
    var p' := p.(output := p.output[n..]);
    if p'.output != [] then p'
    else if |p.heard| == MESSAGE_SIZE then ReceiverDecides(p', have)
    else p'.(phase := Listening)
  }

  function SenderHeard(c: Setup, p: Party, piece: seq<byte>): Party
    requires |p.heard| + |piece| <= MESSAGE_SIZE && |c.file| <= |c.later|
  {
    var p' := p.(heard := p.heard + piece);
    if |p'.heard| < MESSAGE_SIZE then p'
    else if c.senderFirst then SenderDecides(c, p')
    else p'.(phase := Speaking, output := Answer(p'.heard, |c.file|))
  }

  function ReceiverHeard(c: Setup, p: Party, piece: seq<byte>, have: nat): Party
    requires |p.heard| + |piece| <= MESSAGE_SIZE
  {
    var p' := p.(heard := p.heard + piece);
    if |p'.heard| < MESSAGE_SIZE then p'
    else if !c.senderFirst then ReceiverDecides(p', have)
    else p'.(phase := Speaking, output := Answer(p'.heard, have))
  }

  /** The loop of recv_file appends all that one recv returns. */
  function ReceiverStreams(s: State, n: nat): State
    requires n <= |s.toReceiver| && |s.receiver.heard| == MESSAGE_SIZE
  {
    var local := s.local + s.toReceiver[..n];
    s.(local := local, toReceiver := s.toReceiver[n..],
       receiver := if |local| >= PeerSize(s.receiver) then s.receiver.(phase := Finished) else s.receiver)
  }

  function Apply(c: Setup, s: State, a: Action): State
    requires Allowed(s, a) && |c.file| <= |c.later|
  {
    match a
    case SenderSends(n) =>
      s.(toReceiver := s.toReceiver + s.sender.output[..n], sender := SenderSent(c, s.sender, n))
    case ReceiverSends(n) =>
      s.(toSender := s.toSender + s.receiver.output[..n], receiver := ReceiverSent(s.receiver, n, |s.local|))
    case SenderReceives(n) =>
      s.(toSender := s.toSender[n..], sender := SenderHeard(c, s.sender, s.toSender[..n]))
    case ReceiverReceives(n) =>
      if s.receiver.phase == Streaming then ReceiverStreams(s, n)
      else s.(toReceiver := s.toReceiver[n..],
              receiver := ReceiverHeard(c, s.receiver, s.toReceiver[..n], |s.local|))
  }

  predicate CanRun(c: Setup, s: State, run: seq<Action>)
    requires |c.file| <= |c.later|
    decreases |run|
  {
    run == [] || (Allowed(s, run[0]) && CanRun(c, Apply(c, s, run[0]), run[1..]))
  }

  function Run(c: Setup, s: State, run: seq<Action>): State
    requires |c.file| <= |c.later| && CanRun(c, s, run)
    decreases |run|
  {
    if run == [] then s else Run(c, Apply(c, s, run[0]), run[1..])
  }

  // ---- What the two streams amount to --------------------------------------------------------

  predicate DataFollows(c: Setup) { |c.copy| < |c.file| }

  /** What follows the messages. */
  function Data(c: Setup): seq<byte>
    requires |c.file| <= |c.later|
  {
    if DataFollows(c) then Sendfile(c, |c.copy|) else []
  }

  /** No data follows, or it starts at the beginning of the file, or the file has not grown. */
  predicate AsAnnounced(c: Setup) { !DataFollows(c) || c.copy == [] || |c.later| == |c.file| }

  /**
   What follows is the announced size minus the offset, and as much beyond the size as the file has grown, up
   to the offset.
   */
  lemma DataSize(c: Setup)
    requires |c.file| <= |c.later| && DataFollows(c)
    ensures |Data(c)| == |c.file| - |c.copy| + Min(|c.copy|, |c.later| - |c.file|)
    ensures |Data(c)| == |c.file| - |c.copy| <==> AsAnnounced(c)
  {
  }

  /** The copy is a beginning, not longer than announced, of what sendfile finds. */
  predicate Resumes(c: Setup) { |c.copy| <= |c.file| && c.copy <= c.later }

  /** After such a copy the data make up a beginning of what sendfile finds, from the announced size on. */
  lemma DataContinues(c: Setup)
    requires |c.file| <= |c.later| && Resumes(c)
    ensures c.later[..|c.file|] <= c.copy + Data(c) <= c.later
    ensures AsAnnounced(c) ==> c.copy + Data(c) == c.later[..|c.file|]
  {
    if DataFollows(c) {
      DataSize(c);
      var end := Min(|c.copy| + |c.file|, |c.later|);
      assert c.later[..|c.copy|] == c.copy;
      assert c.later[..|c.copy|] + c.later[|c.copy|..end] == c.later[..end];
      assert c.copy + Data(c) == c.later[..end];
    }
  }

  function SenderMessage(c: Setup): seq<byte>
    requires |c.first.text| == TEXT_SIZE
  {
    Encode(c.first.(fileSize := |c.file|))
  }

  function ReceiverMessage(c: Setup): seq<byte>
    requires |c.first.text| == TEXT_SIZE
  {
    Encode(c.first.(fileSize := |c.copy|))
  }

  /** What the sender has still to put on the stream. */
  function SenderOwes(c: Setup, p: Party): seq<byte>
    requires |c.first.text| == TEXT_SIZE && |c.file| <= |c.later|
  {
    match p.phase
    case Speaking => p.output + Data(c)
    case Listening => if c.senderFirst then Data(c) else SenderMessage(c) + Data(c)
    case Streaming => p.output
    case Finished => []
  }

  function ReceiverOwes(c: Setup, p: Party): seq<byte>
    requires |c.first.text| == TEXT_SIZE
  {
    match p.phase
    case Speaking => p.output
    case Listening => if c.senderFirst then ReceiverMessage(c) else []
    case Streaming => []
    case Finished => []
  }

  /** What the receiver has taken from the stream: the sender's message and the appended bytes. */
  function Taken(c: Setup, s: State): seq<byte>
    requires |c.copy| <= |s.local|
  {
    s.receiver.heard + s.local[|c.copy|..]
  }

  predicate PhaseOk(p: Party, first: bool) {
    match p.phase
    case Speaking => p.output != [] && (if first then p.heard == [] else |p.heard| == MESSAGE_SIZE)
    case Listening => p.output == [] && |p.heard| < MESSAGE_SIZE
    case Streaming => |p.heard| == MESSAGE_SIZE
    case Finished => |p.heard| == MESSAGE_SIZE && p.output == []
  }

  predicate Shape(c: Setup, s: State) {
    && PhaseOk(s.sender, c.senderFirst) && PhaseOk(s.receiver, !c.senderFirst)
    && (s.sender.phase == Streaming ==> s.sender.output != [] && DataFollows(c))
    && (s.receiver.phase == Streaming ==> s.receiver.output == [] && DataFollows(c) && |s.local| < |c.file|)
    && (s.receiver.phase == Speaking || s.receiver.phase == Listening ==> s.local == c.copy)
    && (s.receiver.phase == Finished ==> |s.local| >= |c.file|)
  }

  predicate Inv(c: Setup, s: State) {
    && SetupOk(c) && Shape(c, s)
    && c.copy <= s.local
    && Taken(c, s) + s.toReceiver + SenderOwes(c, s.sender) == SenderMessage(c) + Data(c)
    && s.sender.heard + s.toSender + ReceiverOwes(c, s.receiver) == ReceiverMessage(c)
  }

  lemma HeardSizes(c: Setup)
    requires SetupOk(c)
    ensures Decode(SenderMessage(c)) == c.first.(fileSize := |c.file|)
    ensures Decode(ReceiverMessage(c)) == c.first.(fileSize := |c.copy|)
  {
    DecodeEncode(c.first.(fileSize := |c.file|));
    DecodeEncode(c.first.(fileSize := |c.copy|));
  }

  /** A message that has been heard whole is the one that was sent. */
  lemma HeardWhole(heard: seq<byte>, rest: seq<byte>, message: seq<byte>, more: seq<byte>)
    requires |heard| == |message| && heard + rest == message + more
    ensures heard == message && rest == more
  {
    assert (heard + rest)[..|heard|] == heard && (message + more)[..|heard|] == message;
    assert (heard + rest)[|heard|..] == rest && (message + more)[|heard|..] == more;
  }

  lemma InitialInv(c: Setup)
    requires SetupOk(c)
    ensures Inv(c, Initial(c))
  {
    assert c.copy[|c.copy|..] == [];
    if c.senderFirst {
      assert c.first.(fileSize := |c.file|) == c.first;
    } else {
      assert c.first.(fileSize := |c.copy|) == c.first;
    }
  }

  /** Once the sender has heard a whole message it is the receiver's, and nothing more is coming. */
  lemma SenderHeardAll(c: Setup, s: State)
    requires Inv(c, s) && |s.sender.heard| == MESSAGE_SIZE
    ensures s.sender.heard == ReceiverMessage(c) && PeerSize(s.sender) == |c.copy|
    ensures s.toSender == [] && ReceiverOwes(c, s.receiver) == []
  {
    HeardSizes(c);
    assert s.sender.heard + (s.toSender + ReceiverOwes(c, s.receiver)) == ReceiverMessage(c) + [];
    HeardWhole(s.sender.heard, s.toSender + ReceiverOwes(c, s.receiver), ReceiverMessage(c), []);
  }

  lemma ReceiverHeardAll(c: Setup, s: State)
    requires Inv(c, s) && |s.receiver.heard| == MESSAGE_SIZE
    ensures s.receiver.heard == SenderMessage(c) && PeerSize(s.receiver) == |c.file|
    ensures s.local[|c.copy|..] + s.toReceiver + SenderOwes(c, s.sender) == Data(c)
  {
    HeardSizes(c);
    TakenApart(s.receiver.heard, s.local[|c.copy|..], s.toReceiver, SenderOwes(c, s.sender), SenderMessage(c), Data(c));
  }

  lemma TakenApart(
    heard: seq<byte>, local: seq<byte>, coming: seq<byte>, owed: seq<byte>, message: seq<byte>, data: seq<byte>)
    requires |heard| == |message| && heard + local + coming + owed == message + data
    ensures heard == message && local + coming + owed == data
  {
    assert heard + (local + coming + owed) == heard + local + coming + owed;
    HeardWhole(heard, local + coming + owed, message, data);
  }

  lemma SenderSentOwes(c: Setup, s: State, n: nat)
    requires Inv(c, s) && CanSend(s.sender, n)
    ensures var p := SenderSent(c, s.sender, n);
            && s.sender.output[..n] + SenderOwes(c, p) == SenderOwes(c, s.sender)
            && PhaseOk(p, c.senderFirst) && p.heard == s.sender.heard
            && (p.phase == Streaming ==> p.output != [] && DataFollows(c))
  {
    if |s.sender.heard| == MESSAGE_SIZE {
      SenderHeardAll(c, s);
      WholeSender(c, s.sender.(output := s.sender.output[n..]));
    }
    OwesAfterSending(s.sender.output, n, Data(c));
  }

  lemma OwesAfterSending(out: seq<byte>, n: nat, data: seq<byte>)
    requires n <= |out|
    ensures out[..n] + out[n..] == out
    ensures out[..n] + (out[n..] + data) == out + data
  {
    Assoc(out[..n], out[n..], data);
  }

  lemma ReceiverSentOwes(c: Setup, s: State, n: nat)
    requires Inv(c, s) && s.receiver.phase == Speaking && CanSend(s.receiver, n)
    ensures var p := ReceiverSent(s.receiver, n, |s.local|);
            && s.receiver.output[..n] + ReceiverOwes(c, p) == ReceiverOwes(c, s.receiver)
            && PhaseOk(p, !c.senderFirst) && p.heard == s.receiver.heard
            && (p.phase == Streaming ==> DataFollows(c))
            && (p.phase == Finished ==> |s.local| >= |c.file|)
  {
    var out := s.receiver.output;
    assert out == out[..n] + out[n..];
    if |s.receiver.heard| == MESSAGE_SIZE {
      ReceiverHeardAll(c, s);
    }
  }

  lemma SenderSendsKeepsInv(c: Setup, s: State, n: nat)
    requires Inv(c, s) && Allowed(s, SenderSends(n))
    ensures Inv(c, Apply(c, s, SenderSends(n)))
  {
    SenderSentOwes(c, s, n);
    var after := Apply(c, s, SenderSends(n));
    Regroup(Taken(c, s), s.toReceiver, s.sender.output[..n], SenderOwes(c, after.sender));
  }

  lemma ReceiverSendsKeepsInv(c: Setup, s: State, n: nat)
    requires Inv(c, s) && Allowed(s, ReceiverSends(n))
    ensures Inv(c, Apply(c, s, ReceiverSends(n)))
  {
    ReceiverSentOwes(c, s, n);
    var after := Apply(c, s, ReceiverSends(n));
    Regroup(s.sender.heard, s.toSender, s.receiver.output[..n], ReceiverOwes(c, after.receiver));
  }

  /** What a sender that has heard the whole of the receiver's message does next. */
  lemma WholeSender(c: Setup, p: Party)
    requires SetupOk(c) && p.heard == ReceiverMessage(c)
    ensures SenderDecides(c, p) == p.(phase := if DataFollows(c) then Streaming else Finished, output := Data(c))
    ensures Answer(p.heard, |c.file|) == SenderMessage(c)
    ensures DataFollows(c) ==> Data(c) != []
  {
    HeardSizes(c);
    if DataFollows(c) {
      DataSize(c);
    }
  }

  lemma SenderHeardOwes(c: Setup, s: State, n: nat)
    requires Inv(c, s) && CanHear(s.sender, s.toSender, n)
    ensures var p := SenderHeard(c, s.sender, s.toSender[..n]);
            && p.heard + s.toSender[n..] == s.sender.heard + s.toSender
            && PhaseOk(p, c.senderFirst) && SenderOwes(c, p) == SenderOwes(c, s.sender)
            && (p.phase == Streaming ==> p.output != [] && DataFollows(c))
  {
    var heard := s.sender.heard + s.toSender[..n];
    assert s.toSender == s.toSender[..n] + s.toSender[n..];
    assert heard + s.toSender[n..] == s.sender.heard + s.toSender;
    if |heard| == MESSAGE_SIZE {
      var rest := s.toSender[n..] + ReceiverOwes(c, s.receiver);
      assert heard + rest == ReceiverMessage(c) + [];
      HeardWhole(heard, rest, ReceiverMessage(c), []);
      WholeSender(c, s.sender.(heard := heard));
    }
  }

  lemma SenderReceivesKeepsInv(c: Setup, s: State, n: nat)
    requires Inv(c, s) && Allowed(s, SenderReceives(n))
    ensures Inv(c, Apply(c, s, SenderReceives(n)))
  {
    SenderHeardOwes(c, s, n);
  }

  /** What a receiver that has heard the whole of the sender's message does next. */
  lemma WholeReceiver(c: Setup, p: Party)
    requires SetupOk(c) && p.heard == SenderMessage(c)
    ensures ReceiverDecides(p, |c.copy|) == p.(phase := if DataFollows(c) then Streaming else Finished, output := [])
    ensures Answer(p.heard, |c.copy|) == ReceiverMessage(c)
  {
    HeardSizes(c);
  }

  lemma ReceiverHeardOwes(c: Setup, s: State, n: nat)
    requires Inv(c, s) && CanHear(s.receiver, s.toReceiver, n)
    ensures var p := ReceiverHeard(c, s.receiver, s.toReceiver[..n], |s.local|);
            && p.heard + s.toReceiver[n..] == s.receiver.heard + s.toReceiver
            && PhaseOk(p, !c.senderFirst) && ReceiverOwes(c, p) == ReceiverOwes(c, s.receiver)
            && (p.phase == Streaming ==> p.output == [] && DataFollows(c))
            && (p.phase == Finished ==> !DataFollows(c))
  {
    var heard := s.receiver.heard + s.toReceiver[..n];
    assert s.toReceiver == s.toReceiver[..n] + s.toReceiver[n..];
    assert heard + s.toReceiver[n..] == s.receiver.heard + s.toReceiver;
    if |heard| == MESSAGE_SIZE {
      assert s.local[|c.copy|..] == [] && Taken(c, s) == s.receiver.heard;
      var rest := s.toReceiver[n..] + SenderOwes(c, s.sender);
      assert heard + rest == SenderMessage(c) + Data(c);
      HeardWhole(heard, rest, SenderMessage(c), Data(c));
      WholeReceiver(c, s.receiver.(heard := heard));
    }
  }

  lemma ReceiverHearsKeepsInv(c: Setup, s: State, n: nat)
    requires Inv(c, s) && Allowed(s, ReceiverReceives(n)) && s.receiver.phase == Listening
    ensures Inv(c, Apply(c, s, ReceiverReceives(n)))
  {
    var after := Apply(c, s, ReceiverReceives(n));
    ReceiverHeardOwes(c, s, n);
    assert s.local[|c.copy|..] == [];
    assert Taken(c, after) == after.receiver.heard && Taken(c, s) == s.receiver.heard;
  }

  lemma ReceiverStreamsKeepsInv(c: Setup, s: State, n: nat)
    requires Inv(c, s) && Allowed(s, ReceiverReceives(n)) && s.receiver.phase == Streaming
    ensures Inv(c, Apply(c, s, ReceiverReceives(n)))
  {
    ReceiverHeardAll(c, s);
    Appended(s.receiver.heard, c.copy, s.local, s.toReceiver, n);
  }

  /** Bytes go from the stream to the end of the copy. */
  lemma Appended(heard: seq<byte>, copy: seq<byte>, local: seq<byte>, stream: seq<byte>, n: nat)
    requires copy <= local && n <= |stream|
    ensures copy <= local + stream[..n]
    ensures heard + (local + stream[..n])[|copy|..] + stream[n..] == heard + local[|copy|..] + stream
  {
    assert (local + stream[..n])[|copy|..] == local[|copy|..] + stream[..n];
    assert stream == stream[..n] + stream[n..];
  }

  lemma StepKeepsInv(c: Setup, s: State, a: Action)
    requires Inv(c, s) && Allowed(s, a)
    ensures Inv(c, Apply(c, s, a))
  {
    match a
    case SenderSends(n) => SenderSendsKeepsInv(c, s, n);
    case ReceiverSends(n) => ReceiverSendsKeepsInv(c, s, n);
    case SenderReceives(n) => SenderReceivesKeepsInv(c, s, n);
    case ReceiverReceives(n) =>
      if s.receiver.phase == Streaming {
        ReceiverStreamsKeepsInv(c, s, n);
      } else {
        ReceiverHearsKeepsInv(c, s, n);
      }
  }

  lemma {:induction false} RunKeepsInv(c: Setup, s: State, run: seq<Action>)
    requires Inv(c, s) && CanRun(c, s, run)
    ensures Inv(c, Run(c, s, run))
    decreases |run|
  {
    if run != [] {
      StepKeepsInv(c, s, run[0]);
      RunKeepsInv(c, Apply(c, s, run[0]), run[1..]);
    }
  }

  // ---- Agreement -------------------------------------------------------------------------------

  /** What the receiver has appended is the beginning of what follows, at every moment. */
  lemma LocalIsPrefix(c: Setup, s: State)
    requires Inv(c, s)
    ensures c.copy <= s.local <= c.copy + Data(c)
  {
    if |s.receiver.heard| == MESSAGE_SIZE {
      ReceiverHeardAll(c, s);
      assert s.local == c.copy + s.local[|c.copy|..];
    } else {
      assert s.local == c.copy;
    }
  }

  /**
   However the connection breaks: when the copy was a prefix of the sender's file it is one afterwards, and
   no shorter, and no longer than announced when what follows is as announced; and a party that has decided
   has decided by the true sizes, so both decide alike.
   */
  lemma BrokenExchange(c: Setup, run: seq<Action>)
    requires SetupOk(c) && CanRun(c, Initial(c), run)
    ensures var s := Run(c, Initial(c), run);
            && c.copy <= s.local <= c.copy + Data(c)
            && (Resumes(c) ==> s.local <= c.later)
            && (Resumes(c) && AsAnnounced(c) ==> s.local <= c.later[..|c.file|])
            && (s.sender.phase == Streaming ==> DataFollows(c))
            && (s.receiver.phase == Streaming ==> DataFollows(c))
            && (s.receiver.phase == Finished ==> |s.local| >= |c.file|)
  {
    InitialInv(c);
    RunKeepsInv(c, Initial(c), run);
    LocalIsPrefix(c, Run(c, Initial(c), run));
    if Resumes(c) {
      DataContinues(c);
    }
  }

  /**
   An exchange that is not interrupted: when both parties have finished, nothing is on the way to the
   sender, and all that followed is in the copy or still on the stream. The copy ends at the announced
   size and the stream is empty exactly when no data followed, or the copy was empty at the start, or the
   file had not grown; a copy that was a prefix then is the file, as sendfile found it.
   */
  lemma FinishedExchange(c: Setup, run: seq<Action>)
    requires SetupOk(c) && CanRun(c, Initial(c), run)
    requires var s := Run(c, Initial(c), run); s.sender.phase == Finished && s.receiver.phase == Finished
    ensures var s := Run(c, Initial(c), run);
            && s.toSender == [] && s.local + s.toReceiver == c.copy + Data(c)
            && (s.toReceiver == [] && (DataFollows(c) ==> |s.local| == |c.file|) <==> AsAnnounced(c))
            && (Resumes(c) ==> c.later[..|c.file|] <= s.local <= c.later)
            && (Resumes(c) && AsAnnounced(c) ==> s.local == c.later[..|c.file|])
  {
    InitialInv(c);
    RunKeepsInv(c, Initial(c), run);
    var s := Run(c, Initial(c), run);
    StreamsAtEnd(c, s);
    EndsAsAnnounced(c, s.local, s.toReceiver);
  }

  lemma StreamsAtEnd(c: Setup, s: State)
    requires Inv(c, s) && s.sender.phase == Finished && s.receiver.phase == Finished
    ensures s.toSender == [] && s.local + s.toReceiver == c.copy + Data(c)
    ensures c.copy <= s.local && |s.local| >= |c.file|
  {
    SenderHeardAll(c, s);
    ReceiverHeardAll(c, s);
    var added := s.local[|c.copy|..];
    assert s.local == c.copy + added;
    assert added + s.toReceiver == Data(c);
    Assoc(c.copy, added, s.toReceiver);
  }

  lemma EndsAsAnnounced(c: Setup, local: seq<byte>, rest: seq<byte>)
    requires |c.file| <= |c.later| && local + rest == c.copy + Data(c) && c.copy <= local && |local| >= |c.file|
    ensures rest == [] && (DataFollows(c) ==> |local| == |c.file|) <==> AsAnnounced(c)
    ensures Resumes(c) ==> c.later[..|c.file|] <= local <= c.later
    ensures Resumes(c) && AsAnnounced(c) ==> local == c.later[..|c.file|]
  {
    assert |local| + |rest| == |c.copy| + |Data(c)|;
    if DataFollows(c) {
      DataSize(c);
    }
    if Resumes(c) {
      DataContinues(c);
      BeginsWith(local, rest, c.later[..|c.file|], c.later);
    }
  }

  lemma BeginsWith(local: seq<byte>, rest: seq<byte>, file: seq<byte>, later: seq<byte>)
    requires file <= local + rest <= later && |file| <= |local|
    ensures file <= local <= later
    ensures |local| == |file| ==> local == file
  {
    assert (local + rest)[..|local|] == local && later[..|local|] == local;
    assert local[..|file|] == (local + rest)[..|file|] == file;
  }

  /** Bytes that still have to be moved, counted once to be sent and once to be received. */
  function Work(c: Setup, s: State): nat
    requires |c.first.text| == TEXT_SIZE && |c.file| <= |c.later|
  {
    2 * (|SenderOwes(c, s.sender)| + |ReceiverOwes(c, s.receiver)|) + |s.toReceiver| + |s.toSender|
  }

  lemma StepDoesWork(c: Setup, s: State, a: Action)
    requires Inv(c, s) && Allowed(s, a)
    ensures Work(c, Apply(c, s, a)) < Work(c, s)
  {
    StepKeepsInv(c, s, a);
    var after := Apply(c, s, a);
    match a
    case SenderSends(n) => SenderSentOwes(c, s, n);
    case ReceiverSends(n) => ReceiverSentOwes(c, s, n);
    case SenderReceives(n) =>
    case ReceiverReceives(n) =>
  }

  /** The parties cannot both wait: until both have finished one of them can move a byte. */
  lemma NeverStuck(c: Setup, s: State) returns (a: Action)
    requires Inv(c, s) && !(s.sender.phase == Finished && s.receiver.phase == Finished)
    ensures Allowed(s, a)
  {
    if s.sender.phase == Speaking || s.sender.phase == Streaming {
      a := SenderSends(1);
    } else if s.receiver.phase == Speaking {
      a := ReceiverSends(1);
    } else if s.sender.phase == Listening && s.toSender != [] {
      a := SenderReceives(1);
    } else {
      if s.receiver.phase == Streaming {
        ReceiverHeardAll(c, s);
      }
      a := ReceiverReceives(1);
    }
  }

  lemma {:induction false} RunsAreBounded(c: Setup, s: State, run: seq<Action>)
    requires Inv(c, s) && CanRun(c, s, run)
    ensures |run| <= Work(c, s)
    decreases |run|
  {
    if run != [] {
      StepDoesWork(c, s, run[0]);
      StepKeepsInv(c, s, run[0]);
      RunsAreBounded(c, Apply(c, s, run[0]), run[1..]);
    }
  }

  /** Some schedule completes the exchange. */
  lemma {:induction false} Completes(c: Setup, s: State) returns (run: seq<Action>)
    requires Inv(c, s)
    ensures CanRun(c, s, run) && Run(c, s, run).sender.phase == Run(c, s, run).receiver.phase == Finished
    decreases Work(c, s)
  {
    if s.sender.phase == Finished && s.receiver.phase == Finished {
      run := [];
    } else {
      var a := NeverStuck(c, s);
      StepDoesWork(c, s, a);
      StepKeepsInv(c, s, a);
      var rest := Completes(c, Apply(c, s, a));
      run := [a] + rest;
      assert run[1..] == rest;
    }
  }

  /**
   A resumed transfer of a file that has grown since its size was taken: the exchange goes through, and
   more bytes than were announced are in the copy or left on the stream, in front of the next message.
   */
  lemma GrownFileSpills(c: Setup) returns (run: seq<Action>)
    requires SetupOk(c) && !AsAnnounced(c)
    ensures CanRun(c, Initial(c), run)
    ensures var s := Run(c, Initial(c), run);
            && s.sender.phase == s.receiver.phase == Finished && |s.local| + |s.toReceiver| > |c.file|
  {
    InitialInv(c);
    run := Completes(c, Initial(c));
    FinishedExchange(c, run);
    DataSize(c);
    var s := Run(c, Initial(c), run);
    assert |s.local| + |s.toReceiver| == |s.local + s.toReceiver|;
  }

  /** So without interruption every schedule ends within a bound, and not before both parties have finished. */
  lemma UninterruptedFinishes(c: Setup, run: seq<Action>) returns (a: Action)
    requires SetupOk(c) && CanRun(c, Initial(c), run)
    ensures |run| <= Work(c, Initial(c))
    ensures var s := Run(c, Initial(c), run);
            (s.sender.phase == Finished && s.receiver.phase == Finished) || Allowed(s, a)
  {
    InitialInv(c);
    RunsAreBounded(c, Initial(c), run);
    RunKeepsInv(c, Initial(c), run);
    var s := Run(c, Initial(c), run);
    a := SenderSends(0);
    if !(s.sender.phase == Finished && s.receiver.phase == Finished) {
      a := NeverStuck(c, s);
    }
  }
}
