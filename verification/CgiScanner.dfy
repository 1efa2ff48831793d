/**
The request reader of CGIserv/CGIserv.cpp: bytes arrive in pieces, over several calls of process(), and the
request is the text before the first CR LF.
*/
module CgiScanner {
  import opened CStrings
  import opened Options

  const BUFFER_SIZE: nat := 1024
  const LIMIT: nat := BUFFER_SIZE - 1
  const CR: char := '\r'
  const LF: char := '\n'

  type Chunk = s: string | s != [] witness "x"

  /** What the socket has in store for the coming calls of recv. */
  datatype Arrival = Data(bytes: Chunk) | WouldBlock | Reset | Shutdown

  datatype RecvResult = Got(bytes: Chunk) | Again | Zero | Error

  /** The connection is waiting for more, closed, or asks for the program `name`. */
  datatype Outcome = Waiting | Closed | Requested(name: string)

  /** recv with room for `len` bytes: part of a piece may stay in the socket; no room reads as zero bytes. */
  function Recv(len: nat, net: seq<Arrival>): (RecvResult, seq<Arrival>) {
    if len == 0 then (Zero, net)
    else if net == [] then (Again, [])
    else match net[0]
      case Data(bytes) =>
        if |bytes| <= len then (Got(bytes), net[1..])
        else (Got(bytes[..len]), [Data(bytes[len..])] + net[1..])
      case WouldBlock => (Again, net[1..])
      case Reset => (Error, net[1..])
      case Shutdown => (Zero, net)
  }

  predicate IsLineEnd(s: string, j: nat) {
    1 <= j < |s| && s[j - 1] == CR && s[j] == LF
  }

  /** The position of the first LF after a CR, looking from `from` on. */
  function Find(s: string, from: nat): (r: Option<nat>)
    requires from <= |s|
    ensures r.Some? ==> from <= r.value && IsLineEnd(s, r.value) && forall i :: from <= i < r.value ==> !IsLineEnd(s, i)
    ensures r.None? ==> forall i :: from <= i ==> !IsLineEnd(s, i)
    decreases |s| - from
  {
    if from == |s| then None
    else if IsLineEnd(s, from) then Some(from)
    else Find(s, from + 1)
  }

  /** One call of process(): the outcome, the bytes in the buffer afterwards, and what the socket still has. */
  function Call(received: string, net: seq<Arrival>): (r: (Outcome, string, seq<Arrival>))
    requires |received| <= LIMIT
    ensures |r.1| <= LIMIT
    ensures r.0.Waiting? ==> |r.2| < |net| || net == []
    decreases LIMIT - |received|
  {
    var (got, rest) := Recv(LIMIT - |received|, net);
    match got
    case Again => (Waiting, received, rest)
    case Zero => (Closed, received, rest)
    case Error => (Closed, received, rest)
    case Got(bytes) =>
      var b := received + bytes;
      match Find(b, |received|)
      case None => Call(b, rest)
      case Some(j) =>
        var cut := b[j - 1 := NUL];
        (Requested(CString(cut)), cut, rest)
  }

  /** process() is called again as long as the connection waits and the socket reports something. */
  function Session(received: string, net: seq<Arrival>): Outcome
    requires |received| <= LIMIT
    decreases |net|
  {
    var (outcome, b, rest) := Call(received, net);
    if outcome.Waiting? && rest != [] then Session(b, rest) else outcome
  }

  // ----- One look at the whole stream -----

  /** The bytes that arrive before the peer closes or resets, and whether it does. */
  function Stream(net: seq<Arrival>): (string, bool) {
    if net == [] then ([], false)
    else match net[0]
      case Data(bytes) => var (more, ended) := Stream(net[1..]); (bytes + more, ended)
      case WouldBlock => Stream(net[1..])
      case Reset => ([], true)
      case Shutdown => ([], true)
  }

  /** What should happen to a connection whose whole input is known. */
  function OneShot(bytes: string, ended: bool): Outcome {
    var window := if |bytes| <= LIMIT then bytes else bytes[..LIMIT];
    match Find(window, 0)
    case Some(j) => Requested(CString(bytes[..j - 1]))
    case None => if ended || |bytes| >= LIMIT then Closed else Waiting
  }

  ghost predicate NoLineEnd(s: string) {
    forall i :: !IsLineEnd(s, i)
  }

  /** The first line end is where it is, however far one looks. */
  lemma FindUnique(s: string, t: string, from: nat, j: nat)
    requires from <= |s| && j < |t| && t <= s
    requires IsLineEnd(t, j) && forall i :: 0 <= i < j ==> !IsLineEnd(t, i)
    ensures Find(s, 0) == Some(j)
    ensures from <= j ==> Find(s, from) == Some(j)
  {
    assert IsLineEnd(s, j);
    assert forall i :: 0 <= i < j ==> (IsLineEnd(s, i) <==> IsLineEnd(t, i));
  }

  /** After an unfinished line, only the new bytes can complete a line end. */
  lemma OnlyNewBytesMatter(received: string, bytes: string)
    requires NoLineEnd(received)
    ensures Find(received + bytes, 0) == Find(received + bytes, |received|)
  {
    var b := received + bytes;
    assert forall i :: 0 <= i < |received| ==> (IsLineEnd(b, i) <==> IsLineEnd(received, i));
    assert IsLineEnd(b, 0) == false;
  }

  /** What recv delivers is the next part of the stream. */
  lemma RecvIsNextPart(len: nat, net: seq<Arrival>)
    ensures var (got, rest) := Recv(len, net);
            && (got.Got? ==> |got.bytes| <= len && Stream(net) == (got.bytes + Stream(rest).0, Stream(rest).1))
            && (got.Again? ==> Stream(net) == Stream(rest))
            && (got.Error? ==> Stream(net) == ([], true))
            && (got.Zero? ==> len == 0 || Stream(net) == ([], true))
  {
    if len > 0 && net != [] && net[0].Data? && |net[0].bytes| > len {
      var bytes, more := net[0].bytes, net[1..];
      StreamCons(bytes[len..], more);
      Split(bytes, len, Stream(more).0);
    }
  }

  lemma StreamCons(bytes: Chunk, more: seq<Arrival>)
    ensures Stream([Data(bytes)] + more) == (bytes + Stream(more).0, Stream(more).1)
  {
    assert ([Data(bytes)] + more)[1..] == more;
  }

  lemma Split(bytes: string, n: nat, more: string)
    requires n <= |bytes|
    ensures bytes + more == bytes[..n] + (bytes[n..] + more)
  {
  }

  lemma FoundIsOneShot(b: string, more: string, ended: bool, j: nat)
    requires |b| <= LIMIT && j < |b| && IsLineEnd(b, j) && forall i :: 0 <= i < j ==> !IsLineEnd(b, i)
    ensures OneShot(b + more, ended) == Requested(CString(b[j - 1 := NUL]))
  {
    var whole := b + more;
    FindUnique(if |whole| <= LIMIT then whole else whole[..LIMIT], b, 0, j);
    CStringCut(b, j - 1);
    assert whole[..j - 1] == b[..j - 1];
  }

  lemma ClosedIsOneShot(received: string, more: string, ended: bool)
    requires |received| <= LIMIT && NoLineEnd(received)
    requires |received| == LIMIT || (ended && more == [])
    ensures OneShot(received + more, ended) == Closed
  {
    var whole := received + more;
    var window := if |whole| <= LIMIT then whole else whole[..LIMIT];
    assert window == received;
  }

  /** A call either waits, having taken the next part of the stream, or gives the final answer. */
  lemma {:induction false} CallIsOneShot(received: string, net: seq<Arrival>)
    requires |received| <= LIMIT && NoLineEnd(received)
    ensures var (outcome, b, rest) := Call(received, net);
            if outcome.Waiting?
            then NoLineEnd(b) && Stream(rest).1 == Stream(net).1
                 && b + Stream(rest).0 == received + Stream(net).0 && (net == [] ==> b == received && |b| < LIMIT)
            else outcome == OneShot(received + Stream(net).0, Stream(net).1)
    decreases LIMIT - |received|
  {
    var (got, rest) := Recv(LIMIT - |received|, net);
    RecvIsNextPart(LIMIT - |received|, net);
    var whole := received + Stream(net).0;
    if got.Got? {
      var b := received + got.bytes;
      assert whole == b + Stream(rest).0;
      OnlyNewBytesMatter(received, got.bytes);
      if Find(b, |received|).None? {
        assert Call(received, net) == Call(b, rest);
        CallIsOneShot(b, rest);
      } else {
        FoundIsOneShot(b, Stream(rest).0, Stream(rest).1, Find(b, |received|).value);
      }
    } else if got.Zero? || got.Error? {
      ClosedIsOneShot(received, Stream(net).0, Stream(net).1);
    }
  }

  /**
  However the bytes are split and however often the socket has nothing, the connection ends up where one
  look at the whole stream would send it.
  */
  lemma {:induction false} SessionIsOneShot(received: string, net: seq<Arrival>)
    requires |received| <= LIMIT && NoLineEnd(received)
    requires net == [] ==> |received| < LIMIT
    ensures Session(received, net) == OneShot(received + Stream(net).0, Stream(net).1)
    decreases |net|
  {
    var (outcome, b, rest) := Call(received, net);
    CallIsOneShot(received, net);
    if outcome.Waiting? {
      WaitingHasRoom(received, net);
      if rest != [] {
        SessionIsOneShot(b, rest);
      } else {
        assert b + [] == b;
      }
    }
  }

  /** A full buffer is never left waiting. */
  lemma {:induction false} WaitingHasRoom(received: string, net: seq<Arrival>)
    requires |received| <= LIMIT
    ensures Call(received, net).0.Waiting? ==> |Call(received, net).1| < LIMIT
    decreases LIMIT - |received|
  {
    var (got, rest) := Recv(LIMIT - |received|, net);
    if got.Got? {
      RecvIsNextPart(LIMIT - |received|, net);
      WaitingHasRoom(received + got.bytes, rest);
    }
  }

  /** From a fresh connection: the request is decided by the stream alone, not by its pieces. */
  lemma FreshConnection(net: seq<Arrival>)
    ensures Session([], net) == OneShot(Stream(net).0, Stream(net).1)
  {
    assert [] + Stream(net).0 == Stream(net).0;
    SessionIsOneShot([], net);
  }

  lemma PiecesDoNotMatter(net: seq<Arrival>, net': seq<Arrival>)
    requires Stream(net) == Stream(net')
    ensures Session([], net) == Session([], net')
  {
    FreshConnection(net);
    FreshConnection(net');
  }

  /** A program is requested exactly when a line ends within the first 1023 bytes. */
  lemma RequestedIff(net: seq<Arrival>)
    ensures var bytes := Stream(net).0;
            && (Session([], net).Requested? <==> exists j: nat :: j < LIMIT && IsLineEnd(bytes, j))
            && (Session([], net).Requested? ==>
                  exists j: nat :: j < LIMIT && IsLineEnd(bytes, j) && (forall i :: 0 <= i < j ==> !IsLineEnd(bytes, i))
                              && Session([], net).name == CString(bytes[..j - 1]))
  {
    FreshConnection(net);
    var bytes := Stream(net).0;
    var window := if |bytes| <= LIMIT then bytes else bytes[..LIMIT];
    assert forall i: nat :: IsLineEnd(window, i) <==> i < LIMIT && IsLineEnd(bytes, i);
    if Find(window, 0).Some? {
      var j := Find(window, 0).value;
      assert IsLineEnd(bytes, j);
    }
  }

  // ----- The same, byte by byte -----

  /** A CR with a LF directly behind it, at i. */
  predicate CrLfAt(s: string, i: int) {
    0 <= i && i + 1 < |s| && s[i] == '\r' && s[i + 1] == '\n'
  }

  lemma FindCrLf(s: string, i: nat)
    requires CrLfAt(s, i) && forall k :: 0 <= k < i ==> !CrLfAt(s, k)
    ensures Find(s, 0) == Some(i + 1)
  {
    assert forall j :: 0 <= j < i + 1 ==> (IsLineEnd(s, j) ==> CrLfAt(s, j - 1));
    assert IsLineEnd(s, i + 1);
  }

  /** A prefix that is a line and its end. */
  lemma FindAfterLine(s: string, line: string)
    requires line + "\r\n" <= s && forall i :: 0 <= i < |line| ==> !CrLfAt(line, i)
    ensures Find(s, 0) == Some(|line| + 1)
  {
    var whole := line + "\r\n";
    assert whole[|line|] == '\r' && whole[|line| + 1] == '\n';
    forall i | 0 <= i < |line| ensures !CrLfAt(s, i) {
      assert s[i] == whole[i] == line[i] && s[i + 1] == whole[i + 1];
      assert !CrLfAt(line, i);
    }
    FindCrLf(s, |line|);
  }

  /**
  A line of at most 1021 bytes is answered: the request is its text, up to a NUL if there is one. With an
  empty tail the text is the whole line.
  */
  lemma LineIsAnswered(net: seq<Arrival>, text: string, tail: string, more: string)
    requires Stream(net).0 == text + tail + "\r\n" + more && |text| + |tail| <= 1021
    requires '\0' !in text && (tail == [] || tail[0] == '\0')
    requires forall i :: 0 <= i < |text| + |tail| ==> !CrLfAt(text + tail, i)
    ensures Session([], net) == Requested(text)
  {
    var bytes, line := Stream(net).0, text + tail;
    var window := if |bytes| <= LIMIT then bytes else bytes[..LIMIT];
    FreshConnection(net);
    assert window[..|line| + 2] == line + "\r\n";
    FindAfterLine(window, line);
    assert bytes[..|line|] == line;
    CStringOfText(text, tail);
  }

  /** Without a CR LF in the first 1023 bytes nothing is ever requested. */
  lemma NoLineNoRequest(net: seq<Arrival>)
    requires forall i :: 0 <= i < 1022 ==> !CrLfAt(Stream(net).0, i)
    ensures Session([], net) == if Stream(net).1 || |Stream(net).0| >= 1023 then Closed else Waiting
  {
    var bytes := Stream(net).0;
    var window := if |bytes| <= LIMIT then bytes else bytes[..LIMIT];
    FreshConnection(net);
    assert forall j: nat :: IsLineEnd(window, j) ==> CrLfAt(bytes, j - 1);
  }

  lemma StreamOfTwo(piece: Chunk, e: Arrival, more: seq<Arrival>)
    requires !e.Data?
    ensures Stream([Data(piece), e] + more) ==
            if e.WouldBlock? then (piece + Stream(more).0, Stream(more).1) else (piece, true)
  {
    assert [Data(piece), e] + more == [Data(piece)] + ([e] + more);
    StreamCons(piece, [e] + more);
    assert ([e] + more)[1..] == more;
    assert piece + [] == piece;
  }

  /** A reset or the peer's end before a line end closes the connection. */
  lemma EndCloses(piece: Chunk, e: Arrival, more: seq<Arrival>)
    requires |piece| < 1023 && forall i :: 0 <= i < |piece| ==> !CrLfAt(piece, i)
    requires e == Reset || e == Shutdown
    ensures Session([], [Data(piece), e] + more) == Closed
  {
    StreamOfTwo(piece, e, more);
    NoLineNoRequest([Data(piece), e] + more);
  }

  /** A pause changes nothing. */
  lemma PauseIsHarmless(piece: Chunk, more: seq<Arrival>)
    ensures Session([], [Data(piece), WouldBlock] + more) == Session([], [Data(piece)] + more)
  {
    StreamOfTwo(piece, WouldBlock, more);
    StreamCons(piece, more);
    PiecesDoNotMatter([Data(piece), WouldBlock] + more, [Data(piece)] + more);
  }

  // ----- The connection -----

  /** The connection object with its buffer, updated in place. */
  class Connection {
    const buf: array<char>
    var readIdx: nat

    ghost predicate Ready()
      reads this
    {
      buf.Length == BUFFER_SIZE && readIdx <= LIMIT
    }

    ghost function Received(): string
      requires Ready()
      reads this, buf
    {
      buf[..readIdx]
    }

    constructor ()
      ensures Ready() && Received() == [] && fresh(buf)
    {
      buf := new char[BUFFER_SIZE];
      readIdx := 0;
    }

    /** A new connection on this slot: nothing of the previous one remains. */
    method Init()
      requires buf.Length == BUFFER_SIZE
      modifies this, buf
      ensures Ready() && Received() == [] && forall i :: 0 <= i < buf.Length ==> buf[i] == NUL
    {
      forall i | 0 <= i < buf.Length {
        buf[i] := NUL;
      }
      readIdx := 0;
    }

    /** What recv does to the buffer and the index. */
    method Store(bytes: string)
      requires Ready() && readIdx + |bytes| <= LIMIT
      modifies this, buf
      ensures Ready() && Received() == old(Received()) + bytes && readIdx == old(readIdx) + |bytes|
    {
      forall k | 0 <= k < |bytes| {
        buf[readIdx + k] := bytes[k];
      }
      readIdx := readIdx + |bytes|;
    }

    /** Ends the line before its CR and reads it as a C string. */
    method CutLine(idx: nat) returns (name: string)
      requires Ready() && 1 <= idx < readIdx
      modifies buf
      ensures Ready() && Received() == old(Received())[idx - 1 := NUL] && name == CString(Received())
    {
      buf[idx - 1] := NUL;
      name := CString(buf[..readIdx]);
    }

    /** The inner loop: the first line end among the bytes read last, or readIdx. */
    method ScanFrom(from: nat) returns (idx: nat)
      requires Ready() && from <= readIdx
      ensures idx == if Find(Received(), from).None? then readIdx else Find(Received(), from).value
    {
      idx := from;
      while idx < readIdx
        invariant from <= idx <= readIdx
        invariant Find(Received(), idx) == Find(Received(), from)
      {
        if idx >= 1 && buf[idx - 1] == CR && buf[idx] == LF {
          break;
        }
        idx := idx + 1;
      }
    }

    /** The child's event loop for one connection: a fresh object, then process() on every event. */
    method HandleConnection(net: seq<Arrival>) returns (outcome: Outcome)
      requires buf.Length == BUFFER_SIZE
      modifies this, buf
      ensures Ready() && outcome == OneShot(Stream(net).0, Stream(net).1)
    {
      Init();
      FreshConnection(net);
      var rest := net;
      outcome, rest := Process(rest);
      while outcome.Waiting? && rest != []
        invariant Ready()
        invariant Session([], net) == if outcome.Waiting? && rest != [] then Session(Received(), rest) else outcome
        decreases if outcome.Waiting? then 1 + |rest| else 0
      {
        outcome, rest := Process(rest);
      }
    }

    /** The body of the receive loop: none to go round again, otherwise how the call ends. */
    method ReceiveOnce(net: seq<Arrival>) returns (verdict: Option<Outcome>, rest: seq<Arrival>)
      requires Ready()
      modifies this, buf
      ensures Ready()
      ensures verdict.Some? ==> (verdict.value, Received(), rest) == Call(old(Received()), net)
      ensures verdict.None? ==> readIdx > old(readIdx) && Call(Received(), rest) == Call(old(Received()), net)
    {
      var idx := readIdx;
      var (got, left) := Recv(BUFFER_SIZE - 1 - idx, net);
      rest := left;
      match got {
        case Again => return Some(Waiting), rest;
        case Error => return Some(Closed), rest;
        case Zero => return Some(Closed), rest;
        case Got(bytes) =>
          Store(bytes);
          idx := ScanFrom(idx);
          if idx == readIdx {
            return None, rest;
          }
          var name := CutLine(idx);
          return Some(Requested(name)), rest;
      }
    }

    method Process(net: seq<Arrival>) returns (outcome: Outcome, rest: seq<Arrival>)
      requires Ready()
      modifies this, buf
      ensures Ready() && (outcome, Received(), rest) == Call(old(Received()), net)
    {
      rest := net;
      while true
        invariant Ready() && Call(Received(), rest) == Call(old(Received()), net)
        decreases LIMIT - readIdx
      {
        var verdict;
        verdict, rest := ReceiveOnce(rest);
        if verdict.Some? {
          return verdict.value, rest;
        }
      }
    }
  }
}
