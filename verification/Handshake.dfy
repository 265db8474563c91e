/** The connection handshake: the client's encoding, and the server's parser, which is fed
    the byte stream in pieces of any size. */
module Handshake {
  import opened ByteOrder
  import opened Options

  /** sizeof(ProcIdType) and sizeof(uint32_t). */
  const ID_SIZE := 4
  const LENGTH_SIZE := 4
  const UINT32 := 0x1_0000_0000

  /** "DONE" */
  const DONE: Bytes := [68, 79, 78, 69]

  /** The length at the head of the buffer, a uint32_t. */
  function LengthOf(buf: Bytes): nat
    requires |buf| >= LENGTH_SIZE
  {
    FromLittleEndian(buf[..LENGTH_SIZE])
  }

  /** What the client sends: its id, the length of its information and the information, DONE. */
  function Encode(id: Bytes, info: Bytes): Bytes {
    id + LittleEndian(|info|, LENGTH_SIZE) + info + DONE
  }

  // ---------- The parser ----------

  datatype Step = Step1 | Step2

  datatype State = State(item: nat, buf: Bytes, clientId: Bytes, info: Bytes, initialized: bool)

  const START := State(0, [], [], [], false)

  function Fed(s: State, piece: Bytes): State {
    s.(buf := s.buf + piece)
  }

  function ClientIdParsed(s: State): State {
    if |s.buf| >= ID_SIZE then s.(item := 1, buf := s.buf[ID_SIZE..], clientId := s.buf[..ID_SIZE]) else s
  }

  function InfoParsed(s: State): State {
    if |s.buf| >= LENGTH_SIZE && |s.buf| >= LengthOf(s.buf) + LENGTH_SIZE then
      var end := LengthOf(s.buf) + LENGTH_SIZE;
      s.(item := 2, buf := s.buf[end..], info := s.buf[LENGTH_SIZE..end])
    else s
  }

  function DoneParsed(s: State): State {
    if |s.buf| >= |DONE| && s.buf[..|DONE|] == DONE then s.(item := 3, buf := s.buf[|DONE|..], initialized := true) else s
  }

  /** `parse`, after the id where it is missing. */
  function Parsed(s: State): State {
    var s1 := if s.item == 0 then ClientIdParsed(s) else s;
    if s1.item == 1 then InfoParsed(s1)
    else if s1.item == 2 && s.item == 2 then DoneParsed(s1)
    else s1
  }

  function Result(s: State): Option<Step> {
    if s.item < 2 && Parsed(s).item == 2 then Some(Step1)
    else if s.item == 2 && Parsed(s).item == 3 then Some(Step2)
    else None
  }

  class Parser {
    var item: nat
    var parsingBuf: Bytes
    var clientId: Bytes
    var connectionInfo: Bytes
    var initialized: bool

    function View(): State
      reads this
    {
      State(item, parsingBuf, clientId, connectionInfo, initialized)
    }

    constructor ()
      ensures View() == START
    {
      item, parsingBuf, clientId, connectionInfo, initialized := 0, [], [], [], false;
    }

    method Feed(piece: Bytes)
      modifies this`parsingBuf
      ensures View() == Fed(old(View()), piece)
    {
      parsingBuf := parsingBuf + piece;
    }

    method ParseClientId() returns (ok: bool)
      modifies this`parsingBuf, this`clientId, this`item
      requires item == 0
      ensures View() == ClientIdParsed(old(View())) && ok == (item == 1)
    {
      if |parsingBuf| >= ID_SIZE {
        clientId := parsingBuf[..ID_SIZE];
        parsingBuf := parsingBuf[ID_SIZE..];
        item := item + 1;
        return true;
      }
      ok := false;
    }

    method ParseConnectionInfo() returns (ok: bool)
      modifies this`parsingBuf, this`connectionInfo, this`item
      requires item == 1
      ensures View() == InfoParsed(old(View())) && ok == (item == 2)
    {
      if |parsingBuf| >= LENGTH_SIZE {
        var length := LengthOf(parsingBuf);
        if |parsingBuf| >= length + LENGTH_SIZE {
          connectionInfo := parsingBuf[LENGTH_SIZE..LENGTH_SIZE + length];
          parsingBuf := parsingBuf[length + LENGTH_SIZE..];
          item := item + 1;
          return true;
        }
      }
      ok := false;
    }

    method ParseConnectionInitialized() returns (ok: bool)
      modifies this`parsingBuf, this`initialized, this`item
      requires item == 2
      ensures View() == DoneParsed(old(View())) && ok == (item == 3)
    {
      if |parsingBuf| >= |DONE| {
        if parsingBuf[..|DONE|] == DONE {
          initialized := true;
          parsingBuf := parsingBuf[|DONE|..];
          item := item + 1;
          return true;
        }
      }
      ok := false;
    }

    /** `parse`: the id falls through to the information. */
    method Parse() returns (step: Option<Step>)
      modifies this
      ensures View() == Parsed(old(View())) && step == Result(old(View()))
    {
      step := None;
      if item == 0 {
        var ok := ParseClientId();
        if !ok {
          return;
        }
        ok := ParseConnectionInfo();
        step := if ok then Some(Step1) else None;
      } else if item == 1 {
        var ok := ParseConnectionInfo();
        step := if ok then Some(Step1) else None;
      } else if item == 2 {
        var ok := ParseConnectionInitialized();
        step := if ok then Some(Step2) else None;
      }
    }
  }

  // ---------- The session ----------

  /** What the connection manager gets to handle. */
  datatype Event = Connect(id: Bytes, info: Bytes) | Done(id: Bytes)

  function EventOf(s: State, step: Step): Event {
    match step
    case Step1 => Connect(s.clientId, s.info)
    case Step2 => Done(s.clientId)
  }

  /** Parsing until there is nothing more. */
  function Drained(s: State): (r: (State, seq<Event>))
    decreases 3 - s.item
  {
    var s1 := Parsed(s);
    match Result(s)
    case None => (s1, [])
    case Some(step) => var rest := Drained(s1); (rest.0, [EventOf(s1, step)] + rest.1)
  }

  /** The loop of `feed` in the server. */
  method Received(parser: Parser, piece: Bytes) returns (events: seq<Event>)
    modifies parser
    ensures var r := Drained(Fed(old(parser.View()), piece)); parser.View() == r.0 && events == r.1
  {
    parser.Feed(piece);
    events := [];
    ghost var start := parser.View();
    ghost var before := start;
    var step := parser.Parse();
    while step.Some?
      invariant parser.View() == Parsed(before) && step == Result(before)
      invariant Drained(start).0 == Drained(before).0 && Drained(start).1 == events + Drained(before).1
      decreases if step.Some? then 3 - before.item else 0
    {
      events := events + [EventOf(parser.View(), step.value)];
      before := parser.View();
      step := parser.Parse();
    }
  }

  function Concat(pieces: seq<Bytes>): Bytes {
    if pieces == [] then [] else Concat(pieces[..|pieces| - 1]) + pieces[|pieces| - 1]
  }

  /** A connection fed piece by piece. */
  function Session(pieces: seq<Bytes>): (State, seq<Event>) {
    if pieces == [] then (START, [])
    else
      var before := Session(pieces[..|pieces| - 1]);
      var after := Drained(Fed(before.0, pieces[|pieces| - 1]));
      (after.0, before.1 + after.1)
  }

  // ---------- Fragmentation and round trip ----------

  /** What was parsed does not depend on what comes later. */
  lemma ParsedFed(s: State, piece: Bytes)
    requires Result(s).Some?
    ensures Result(Fed(s, piece)) == Result(s) && Parsed(Fed(s, piece)) == Fed(Parsed(s), piece)
  {
    if s.item == 0 {
      ClientIdFed(s, piece);
      InfoFed(ClientIdParsed(s), piece);
    } else if s.item == 1 {
      InfoFed(s, piece);
    } else {
      assert (s.buf + piece)[..|DONE|] == s.buf[..|DONE|];
      assert (s.buf + piece)[|DONE|..] == s.buf[|DONE|..] + piece;
    }
  }

  lemma ClientIdFed(s: State, piece: Bytes)
    requires |s.buf| >= ID_SIZE
    ensures ClientIdParsed(Fed(s, piece)) == Fed(ClientIdParsed(s), piece)
  {
    assert (s.buf + piece)[..ID_SIZE] == s.buf[..ID_SIZE];
    assert (s.buf + piece)[ID_SIZE..] == s.buf[ID_SIZE..] + piece;
  }

  lemma InfoFed(s: State, piece: Bytes)
    requires s.item == 1 && InfoParsed(s).item == 2
    ensures InfoParsed(Fed(s, piece)) == Fed(InfoParsed(s), piece)
  {
    var end := LengthOf(s.buf) + LENGTH_SIZE;
    assert (s.buf + piece)[..LENGTH_SIZE] == s.buf[..LENGTH_SIZE];
    assert (s.buf + piece)[LENGTH_SIZE..end] == s.buf[LENGTH_SIZE..end];
    assert (s.buf + piece)[end..] == s.buf[end..] + piece;
  }

  /** Where parsing stopped, it goes on as if all had arrived together. */
  lemma StoppedFed(s: State, piece: Bytes)
    requires Result(s).None?
    ensures Drained(Fed(Parsed(s), piece)) == Drained(Fed(s, piece))
  {
    if s.item == 0 && |s.buf| >= ID_SIZE {
      ClientIdFed(s, piece);
    }
  }

  lemma {:induction false} DrainedFed(s: State, piece: Bytes)
    ensures var first := Drained(s);
            var second := Drained(Fed(first.0, piece));
            Drained(Fed(s, piece)).0 == second.0 && Drained(Fed(s, piece)).1 == first.1 + second.1
    decreases 3 - s.item
  {
    hide Parsed;
    if Result(s).None? {
      StoppedFed(s, piece);
    } else {
      ParsedFed(s, piece);
      DrainedFed(Parsed(s), piece);
    }
  }

  /** Events and the bytes left over depend on the bytes received, not on how they were split. */
  lemma {:induction false} FragmentationIsIrrelevant(pieces: seq<Bytes>)
    ensures var whole := Drained(Fed(START, Concat(pieces))); Session(pieces).0 == whole.0 && Session(pieces).1 == whole.1
  {
    if pieces == [] {
      assert Fed(START, []) == START;
    } else {
      var front, last := pieces[..|pieces| - 1], pieces[|pieces| - 1];
      FragmentationIsIrrelevant(front);
      DrainedFed(Fed(START, Concat(front)), last);
      assert Fed(Fed(START, Concat(front)), last) == Fed(START, Concat(pieces));
    }
  }

  /** The length that arrives. */
  function Truncated(info: Bytes): (n: nat)
    ensures n <= |info|
  {
    |info| % UINT32
  }

  lemma IdThenInfo(id: Bytes, info: Bytes, surplus: Bytes)
    requires |id| == ID_SIZE
    ensures var n := Truncated(info);
            var s := Fed(START, Encode(id, info) + surplus);
            Result(s) == Some(Step1) && Parsed(s) == State(2, info[n..] + DONE + surplus, id, info[..n], false)
  {
    hide LittleEndian, FromLittleEndian;
    var n := Truncated(info);
    var s := Fed(START, Encode(id, info) + surplus);
    var length, rest := LittleEndian(|info|, LENGTH_SIZE), info + DONE + surplus;
    Layout(id, length, info, surplus);
    var s1 := State(1, length + rest, id, [], false);
    assert ClientIdParsed(s) == s1;
    InfoLayout(s1, info, surplus);
    assert Parsed(s) == InfoParsed(s1);
  }

  lemma Layout(id: Bytes, length: Bytes, info: Bytes, surplus: Bytes)
    requires |id| == ID_SIZE
    ensures var all := id + length + info + DONE + surplus;
            all[..ID_SIZE] == id && all[ID_SIZE..] == length + (info + DONE + surplus)
  {
    assert id + length + info + DONE + surplus == id + (length + (info + DONE + surplus));
  }

  lemma InfoLayout(s: State, info: Bytes, surplus: Bytes)
    requires s.item == 1 && s.buf == LittleEndian(|info|, LENGTH_SIZE) + (info + DONE + surplus)
    ensures InfoParsed(s) == s.(item := 2, buf := info[Truncated(info)..] + DONE + surplus, info := info[..Truncated(info)])
  {
    hide LittleEndian, FromLittleEndian, LengthOf, Truncated;
    var n, length, rest := Truncated(info), LittleEndian(|info|, LENGTH_SIZE), info + DONE + surplus;
    LengthArrives(info);
    LengthAhead(length, rest);
    Behind(length, rest, n);
    InfoFirst(info, surplus, n);
  }

  lemma Behind(length: Bytes, rest: Bytes, n: nat)
    requires |length| == LENGTH_SIZE && n <= |rest|
    ensures (length + rest)[LENGTH_SIZE..n + LENGTH_SIZE] == rest[..n] && (length + rest)[n + LENGTH_SIZE..] == rest[n..]
  {}

  lemma InfoFirst(info: Bytes, surplus: Bytes, n: nat)
    requires n <= |info|
    ensures (info + DONE + surplus)[..n] == info[..n] && (info + DONE + surplus)[n..] == info[n..] + DONE + surplus
  {
    assert info + DONE + surplus == info + (DONE + surplus);
    assert (info + (DONE + surplus))[n..] == info[n..] + (DONE + surplus);
    assert info[n..] + DONE + surplus == info[n..] + (DONE + surplus);
  }

  lemma LengthArrives(info: Bytes)
    ensures FromLittleEndian(LittleEndian(|info|, LENGTH_SIZE)) == Truncated(info)
  {
    LittleEndianInverts(|info|, LENGTH_SIZE);
    PowersOfWords();
  }

  lemma LengthAhead(length: Bytes, rest: Bytes)
    requires |length| == LENGTH_SIZE
    ensures LengthOf(length + rest) == FromLittleEndian(length)
  {
    assert (length + rest)[..LENGTH_SIZE] == length;
  }

  /** However the stream is split, the server handles the connection once with the id and the
      information the client sent, then DONE once, and leaves what follows untouched: exactly if
      the length of the information fits 32 bits. */
  lemma RoundTripExactly(id: Bytes, info: Bytes, surplus: Bytes, pieces: seq<Bytes>)
    requires |id| == ID_SIZE && Concat(pieces) == Encode(id, info) + surplus
    ensures var (state, events) := Session(pieces);
            (state == State(3, surplus, id, info, true) && events == [Connect(id, info), Done(id)]) <==> |info| < UINT32
  {
    hide *;
    FragmentationIsIrrelevant(pieces);
    OneShot(id, info, surplus);
  }

  /** The same for the whole stream at once. */
  lemma OneShot(id: Bytes, info: Bytes, surplus: Bytes)
    requires |id| == ID_SIZE
    ensures var (state, events) := Drained(Fed(START, Encode(id, info) + surplus));
            (state == State(3, surplus, id, info, true) && events == [Connect(id, info), Done(id)]) <==> |info| < UINT32
  {
    hide Parsed, Result, Encode;
    IdThenInfo(id, info, surplus);
    var n := Truncated(info);
    var s := Fed(START, Encode(id, info) + surplus);
    var s1 := State(2, info[n..] + DONE + surplus, id, info[..n], false);
    assert Drained(s).1 == [Connect(id, info[..n])] + Drained(s1).1;
    if |info| < UINT32 {
      assert info[..n] == info && info[n..] + DONE + surplus == DONE + surplus;
      DoneLast(s1, surplus);
    } else {
      assert Drained(s).1[0] == Connect(id, info[..n]);
      assert |info[..n]| < |info|;
    }
  }

  lemma DoneLast(s: State, surplus: Bytes)
    requires s.item == 2 && s.buf == DONE + surplus
    ensures Drained(s).0 == s.(item := 3, buf := surplus, initialized := true) && Drained(s).1 == [Done(s.clientId)]
  {
    assert s.buf[..|DONE|] == DONE && s.buf[|DONE|..] == surplus;
    assert Parsed(s) == s.(item := 3, buf := surplus, initialized := true);
  }

  /** Until the whole information arrived there is no event, and DONE comes only after it. */
  lemma EventsOfPrefix(pieces: seq<Bytes>, more: seq<Bytes>)
    ensures Session(pieces).1 <= Session(pieces + more).1
    decreases |more|
  {
    if more == [] {
      assert pieces + more == pieces;
    } else {
      var front := more[..|more| - 1];
      EventsOfPrefix(pieces, front);
      assert (pieces + more)[..|pieces + more| - 1] == pieces + front;
    }
  }
}
