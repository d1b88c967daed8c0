// The length-prefixed messages between two TestRunner processes.
module ControlFraming {
  import opened Protocol

  const MAX_MESSAGE_SIZE: nat := 65536
  const PREFIX_SIZE: nat := 4

  // The memory of htonl(n).
  function Be32(n: UInt32): (b: Bytes)
    ensures |b| == PREFIX_SIZE
  {
    [n / 0x100_0000, n / 0x1_0000 % 0x100, n / 0x100 % 0x100, n % 0x100]
  }

  // ntohl of that memory.
  function FromBe32(b: Bytes): UInt32
    requires |b| >= PREFIX_SIZE
  {
    FromLe32(b[3], b[2], b[1], b[0])
  }

  lemma Be32RoundTrip(n: UInt32, rest: Bytes)
    ensures FromBe32(Be32(n) + rest) == n
  {
    Le32RoundTrip(n);
  }

  // What one sendMessage puts on the connection; a message that is too long
  // is refused before anything is sent.
  function Frame(m: Bytes): Bytes {
    if |m| > MAX_MESSAGE_SIZE then [] else Be32(|m|) + m
  }

  function FrameAll(ms: seq<Bytes>): Bytes {
    if ms == [] then [] else Frame(ms[0]) + FrameAll(ms[1..])
  }

  // Four bytes of length, highest first, and the message.
  lemma FrameLayout(m: Bytes)
    ensures |m| > 65536 ==> Frame(m) == []
    ensures |m| <= 65536 ==>
              && |Frame(m)| == PREFIX_SIZE + |m| && Frame(m)[PREFIX_SIZE..] == m
              && Little([Frame(m)[3], Frame(m)[2], Frame(m)[1], Frame(m)[0]]) == |m|
  {
    if |m| <= MAX_MESSAGE_SIZE {
      var b := Be32(|m|);
      assert Frame(m)[..PREFIX_SIZE] == b;
      Little4(b[3], b[2], b[1], b[0]);
      Le32RoundTrip(|m|);
    }
  }

  // What one receiveMessage returns and leaves, on a connection that closes
  // after these bytes. The empty message is also the error answer.
  function ReadFrame(wire: Bytes): (Bytes, Bytes) {
    if |wire| < PREFIX_SIZE then ([], [])
    else
      var length := FromBe32(wire);
      var rest := wire[PREFIX_SIZE..];
      if length == 0 || length > MAX_MESSAGE_SIZE then ([], rest)
      else if |rest| < length then ([], [])
      else (rest[..length], rest[length..])
  }

  // Receiving until the empty answer.
  function ReadAll(wire: Bytes): seq<Bytes>
    decreases |wire|
  {
    var (m, rest) := ReadFrame(wire);
    if m == [] then [] else [m] + ReadAll(rest)
  }

  predicate Sendable(m: Bytes) {
    1 <= |m| <= MAX_MESSAGE_SIZE
  }

  // One direction of a connection.
  class Connection {
    var wire: Bytes        // sent and not yet received
    ghost var broken: bool // some call has reported an error

    constructor ()
      ensures wire == [] && !broken
    {
      wire, broken := [], false;
    }

    // Sends some front part of the data, or fails.
    method Send(data: Bytes) returns (sent: int)
      requires data != []
      modifies this
      ensures sent <= |data|
      ensures sent > 0 ==> wire == old(wire) + data[..sent] && broken == old(broken)
      ensures sent <= 0 ==> wire == old(wire) && broken
    {
      sent :| -1 <= sent <= |data|;
      if sent > 0 {
        wire := wire + data[..sent];
      } else {
        broken := true;
      }
    }

    // Fills some part of data from offset on, or fails; 0 once the peer has
    // closed and everything has been received.
    method Recv(data: array<Byte>, offset: nat, length: nat) returns (received: int)
      requires 1 <= length && offset + length <= data.Length
      modifies this, data
      ensures received > 0 ==>
                && received <= length && received <= |old(wire)| && broken == old(broken)
                && wire == old(wire)[received..]
                && data[..offset + received] == old(data[..offset]) + old(wire)[..received]
      ensures received <= 0 ==>
                && wire == old(wire) && data[..offset] == old(data[..offset])
                && broken == (old(broken) || wire != [])
    {
      received :| -1 <= received <= length && received <= |wire| && (wire == [] ==> received == 0);
      if received > 0 {
        var i := 0;
        while i < received
          invariant 0 <= i <= received && wire == old(wire) && broken == old(broken)
          invariant data[..offset + i] == old(data[..offset]) + wire[..i]
        {
          data[offset + i] := wire[i];
          i := i + 1;
        }
        wire := wire[received..];
      } else {
        broken := broken || wire != [];
      }
    }
  }

  method SendAll(connection: Connection, data: Bytes) returns (ok: bool)
    modifies connection
    ensures ok ==> connection.wire == old(connection.wire) + data && connection.broken == old(connection.broken)
    ensures !ok ==> connection.broken
    ensures !ok ==> exists k | 0 <= k < |data| :: connection.wire == old(connection.wire) + data[..k]
  {
    var totalSent := 0;
    assert data[..0] == [];
    while totalSent < |data|
      invariant 0 <= totalSent <= |data| && connection.broken == old(connection.broken)
      invariant connection.wire == old(connection.wire) + data[..totalSent]
    {
      var sent := connection.Send(data[totalSent..]);
      if sent <= 0 {
        return false;
      }
      assert data[..totalSent] + data[totalSent..][..sent] == data[..totalSent + sent];
      totalSent := totalSent + sent;
    }
    assert data[..|data|] == data;
    return true;
  }

  method RecvAll(connection: Connection, data: array<Byte>) returns (ok: bool)
    modifies connection, data
    ensures ok ==>
              && data.Length <= |old(connection.wire)| && connection.broken == old(connection.broken)
              && data[..] == old(connection.wire)[..data.Length]
              && connection.wire == old(connection.wire)[data.Length..]
    ensures !ok && !connection.broken ==> connection.wire == [] && |old(connection.wire)| < data.Length
    ensures old(connection.broken) ==> connection.broken
  {
    var totalReceived := 0;
    while totalReceived < data.Length
      invariant 0 <= totalReceived <= data.Length && totalReceived <= |old(connection.wire)|
      invariant connection.broken == old(connection.broken)
      invariant connection.wire == old(connection.wire)[totalReceived..]
      invariant data[..totalReceived] == old(connection.wire)[..totalReceived]
    {
      var received := connection.Recv(data, totalReceived, data.Length - totalReceived);
      if received <= 0 {
        return false;
      }
      totalReceived := totalReceived + received;
    }
    assert data[..data.Length] == data[..];
    return true;
  }

  method SendMessage(connection: Connection, m: Bytes) returns (ok: bool)
    modifies connection
    ensures !connection.broken ==> connection.wire == old(connection.wire) + Frame(m)
    ensures !connection.broken ==> ok == (|m| <= MAX_MESSAGE_SIZE)
    ensures ok ==> |m| <= MAX_MESSAGE_SIZE && connection.wire == old(connection.wire) + Frame(m)
    ensures old(connection.broken) ==> connection.broken
  {
    if |m| > MAX_MESSAGE_SIZE {
      return false;
    }
    hide Be32;
    ok := SendAll(connection, Be32(|m|));
    if !ok {
      return false;
    }
    ok := SendAll(connection, m);
    if ok {
      assert old(connection.wire) + Be32(|m|) + m == old(connection.wire) + (Be32(|m|) + m);
    }
  }

  method ReceiveMessage(connection: Connection) returns (m: Bytes)
    modifies connection
    ensures !connection.broken ==> (m, connection.wire) == ReadFrame(old(connection.wire))
    ensures m != [] ==>
              (m, connection.wire) == ReadFrame(old(connection.wire)) && connection.broken == old(connection.broken)
    ensures old(connection.broken) ==> connection.broken
  {
    hide FromBe32;
    var prefix := new Byte[PREFIX_SIZE];
    var ok := RecvAll(connection, prefix);
    if !ok {
      return [];
    }
    var length := FromBe32(prefix[..]);
    assert length == FromBe32(old(connection.wire)) by {
      PrefixOnly(old(connection.wire));
    }
    if length == 0 || length > MAX_MESSAGE_SIZE {
      return [];
    }
    var buffer := new Byte[length];
    ok := RecvAll(connection, buffer);
    if !ok {
      return [];
    }
    return buffer[..];
  }

  lemma PrefixOnly(wire: Bytes)
    requires |wire| >= PREFIX_SIZE
    ensures FromBe32(wire[..PREFIX_SIZE]) == FromBe32(wire)
  {
  }

  // The loop around receiveMessage: an empty answer ends the session.
  method ReceiveSession(connection: Connection) returns (messages: seq<Bytes>)
    modifies connection
    ensures !connection.broken ==> messages == ReadAll(old(connection.wire))
    ensures messages <= ReadAll(old(connection.wire))
  {
    hide ReadFrame;
    messages := [];
    ghost var goal := ReadAll(connection.wire);
    while true
      invariant goal == messages + ReadAll(connection.wire)
      decreases |connection.wire|
    {
      ghost var before := connection.wire;
      var m := ReceiveMessage(connection);
      if m == [] {
        return;
      }
      ReadFrameShrinks(before);
      assert messages + ([m] + ReadAll(connection.wire)) == messages + [m] + ReadAll(connection.wire);
      messages := messages + [m];
    }
  }

  lemma ReadFrameShrinks(wire: Bytes)
    ensures var (m, rest) := ReadFrame(wire);
            m != [] ==> Sendable(m) && |rest| < |wire|
  {
  }

  // ---------- Round trip ----------

  lemma ReadBack(m: Bytes, rest: Bytes)
    requires Sendable(m)
    ensures ReadFrame(Frame(m) + rest) == (m, rest)
  {
    Be32RoundTrip(|m|, m + rest);
    hide Be32, FromBe32;
    assert Frame(m) + rest == Be32(|m|) + (m + rest);
  }

  lemma {:induction false} ReadAllSendable(wire: Bytes)
    ensures forall m | m in ReadAll(wire) :: Sendable(m)
    decreases |wire|
  {
    hide ReadFrame;
    ReadFrameShrinks(wire);
    var (m, rest) := ReadFrame(wire);
    if m != [] {
      ReadAllSendable(rest);
    }
  }

  lemma ReadNext(m: Bytes, rest: Bytes)
    requires Sendable(m)
    ensures ReadAll(Frame(m) + rest) == [m] + ReadAll(rest)
  {
    ReadBack(m, rest);
    hide ReadFrame, Frame;
  }

  lemma FrontFrames(ms: seq<Bytes>, j: nat)
    requires 1 <= j <= |ms|
    ensures ms[..j] == [ms[0]] + ms[1..][..j - 1]
    ensures FrameAll(ms[..j]) == Frame(ms[0]) + FrameAll(ms[1..][..j - 1])
  {
    hide Frame;
    assert ms[..j][1..] == ms[1..][..j - 1];
  }

  // j messages, and no more, have arrived whole in the first k bytes.
  ghost predicate Arrived(ms: seq<Bytes>, k: nat, j: nat) {
    && k <= |FrameAll(ms)| && j <= |ms| && |FrameAll(ms[..j])| <= k
    && (j < |ms| ==> k < |FrameAll(ms[..j + 1])|)
  }

  lemma CutInFirst(ms: seq<Bytes>, k: nat)
    requires ms != [] && Sendable(ms[0]) && k < |Frame(ms[0])|
    ensures Arrived(ms, k, 0) && ReadAll(FrameAll(ms)[..k]) == []
  {
    hide ReadFrame, Frame, Sendable, ReadAll;
    FrontFrames(ms, 1);
    assert FrameAll(ms[1..][..0]) == [] && FrameAll(ms[..0]) == [];
    assert FrameAll(ms)[..k] == Frame(ms[0])[..k];
    ReadShort(ms[0], k);
  }

  lemma CutLater(ms: seq<Bytes>, k: nat, i: nat)
    requires ms != [] && Sendable(ms[0]) && |Frame(ms[0])| <= k
    requires Arrived(ms[1..], k - |Frame(ms[0])|, i)
    requires ReadAll(FrameAll(ms[1..])[..k - |Frame(ms[0])|]) == ms[1..][..i]
    ensures Arrived(ms, k, i + 1) && ReadAll(FrameAll(ms)[..k]) == ms[..i + 1]
  {
    hide ReadFrame, Frame, Sendable, ReadAll;
    var first, later := Frame(ms[0]), FrameAll(ms[1..]);
    assert FrameAll(ms) == first + later;
    hide FrameAll;
    assert FrameAll(ms)[..k] == first + later[..k - |first|];
    ReadNext(ms[0], later[..k - |first|]);
    FrontFrames(ms, i + 1);
    if i + 1 < |ms| {
      FrontFrames(ms, i + 2);
    }
  }

  // A connection cut after any number of bytes yields exactly the messages
  // that arrived whole.
  lemma {:induction false} ReadCut(ms: seq<Bytes>, k: nat) returns (j: nat)
    requires (forall i | 0 <= i < |ms| :: Sendable(ms[i])) && k <= |FrameAll(ms)|
    ensures Arrived(ms, k, j) && ReadAll(FrameAll(ms)[..k]) == ms[..j]
    decreases |ms|
  {
    if ms == [] {
      j := 0;
      assert ReadFrame([]) == ([], []);
    } else {
      hide ReadFrame, Frame, Sendable, ReadAll, Arrived;
      if k < |Frame(ms[0])| {
        j := 0;
        CutInFirst(ms, k);
      } else {
        var i := ReadCut(ms[1..], k - |Frame(ms[0])|);
        j := i + 1;
        CutLater(ms, k, i);
      }
    }
  }

  // A frame cut short reads as the end of the session.
  lemma ReadShort(m: Bytes, k: nat)
    requires Sendable(m) && k < |Frame(m)|
    ensures ReadAll(Frame(m)[..k]) == []
  {
    if k >= PREFIX_SIZE {
      Be32RoundTrip(|m|, m[..k - PREFIX_SIZE]);
      hide Be32, FromBe32;
      assert Frame(m)[..k] == Be32(|m|) + m[..k - PREFIX_SIZE];
    }
  }

  // Sending a list of messages and receiving until the empty answer gives back
  // exactly that list if and only if every message has 1 to 65536 bytes.
  lemma FramingRoundTrip(ms: seq<Bytes>)
    ensures ReadAll(FrameAll(ms)) == ms <==> forall m | m in ms :: Sendable(m)
  {
    hide ReadFrame, Frame, Sendable;
    ReadAllSendable(FrameAll(ms));
    if forall m | m in ms :: Sendable(m) {
      assert forall i | 0 <= i < |ms| :: Sendable(ms[i]);
      var j := ReadCut(ms, |FrameAll(ms)|);
      assert FrameAll(ms)[..|FrameAll(ms)|] == FrameAll(ms);
      assert ms[..|ms|] == ms;
      if j < |ms| {
        FrameAllGrows(ms, j);
      }
    }
  }

  lemma {:induction false} FrameAllGrows(ms: seq<Bytes>, j: nat)
    requires j < |ms|
    ensures |FrameAll(ms[..j + 1])| <= |FrameAll(ms)|
    decreases |ms|
  {
    hide Frame;
    assert ms[..j + 1][1..] == ms[1..][..j];
    if j > 0 {
      FrameAllGrows(ms[1..], j - 1);
    }
  }
}
