/** internal/server/stream_chat_tools.go: tool calls streamed to Chat Completions clients as an
    announcement followed by pieces of their arguments, numbered per call. */
module ChatTools {
  import opened Text
  import opened ToolCalls
  import opened ToolCallLaws
  import opened Responses
  import opened Accumulator

  /** The two kinds of tool-call deltas in a chunk. */
  datatype Chunk = Announce(index: nat, id: string, name: string) | Piece(index: nat, text: string)

  datatype Streamer = Streamer(
    indexByCallID: map<string, nat>, initialized: set<string>, argumentsSent: map<string, nat>, nextIndex: nat)

  const FRESH: Streamer := Streamer(map[], {}, map[], 0)

  function IndexFor(s: Streamer, id: string): nat {
    if id in s.indexByCallID then s.indexByCallID[id] else s.nextIndex
  }

  function Numbered(s: Streamer, id: string): Streamer {
    if id in s.indexByCallID then s
    else s.(indexByCallID := s.indexByCallID[id := s.nextIndex], nextIndex := s.nextIndex + 1)
  }

  function AnnounceCall(s: Streamer, c: Call): (Streamer, seq<Chunk>) {
    if c.callID in s.initialized || Blank(c.name) then (s, [])
    else (s.(initialized := s.initialized + {c.callID}), [Announce(IndexFor(s, c.callID), c.callID, c.name)])
  }

  function SendValue(s: Streamer, c: Call): (Streamer, seq<Chunk>) {
    var value := ValueOf(c);
    var sent := if c.callID in s.argumentsSent then s.argumentsSent[c.callID] else 0;
    if c.callID !in s.initialized || sent >= |value| then (s, [])
    else (s.(argumentsSent := s.argumentsSent[c.callID := |value|]), [Piece(IndexFor(s, c.callID), value[sent..])])
  }

  /** writeChunk, for the call an event speaks of. */
  function Write(s: Streamer, c: Call): (Streamer, seq<Chunk>) {
    if Blank(c.callID) then (s, [])
    else
      var (s1, announced) := AnnounceCall(Numbered(s, c.callID), c);
      var (s2, piece) := SendValue(s1, c);
      (s2, announced + piece)
  }

  function WriteAll(s: Streamer, calls: seq<Call>): (Streamer, seq<Chunk>) {
    if calls == [] then (s, [])
    else
      var (s1, out) := WriteAll(s, calls[..|calls| - 1]);
      var (s2, more) := Write(s1, calls[|calls| - 1]);
      (s2, out + more)
  }

  // ----- what the client has -----

  /** The arguments a client has put together for the call numbered index. */
  function Received(out: seq<Chunk>, index: nat): string {
    if out == [] then ""
    else
      var last := out[|out| - 1];
      Received(out[..|out| - 1], index) + (if last.Piece? && last.index == index then last.text else "")
  }

  ghost predicate AnnouncedIn(out: seq<Chunk>, index: nat, id: string) {
    exists p :: 0 <= p < |out| && out[p].Announce? && out[p].index == index && out[p].id == id
  }

  /** A call is announced once, under its own number, before any piece of it. */
  ghost predicate WellFormed(out: seq<Chunk>) {
    forall p | 0 <= p < |out| ::
      if out[p].Announce? then forall q | 0 <= q < p :: out[q].index != out[p].index
      else exists q :: 0 <= q < p && out[q].Announce? && out[q].index == out[p].index
  }

  /** Every call has a number of its own, and the numbers are 0, 1, 2, ... without gaps. */
  ghost predicate NumberedApart(s: Streamer) {
    && (forall id | id in s.indexByCallID :: s.indexByCallID[id] < s.nextIndex && !Blank(id))
    && (forall a, b | a in s.indexByCallID && b in s.indexByCallID && a != b :: s.indexByCallID[a] != s.indexByCallID[b])
    && |s.indexByCallID| == s.nextIndex
  }

  /** What the maps say is what the client has. */
  ghost predicate Agrees(s: Streamer, out: seq<Chunk>) {
    && (forall id | id in s.initialized :: id in s.indexByCallID)
    && (forall id | id in s.argumentsSent :: id in s.initialized)
    && (forall id | id in s.indexByCallID :: id in s.initialized <==> AnnouncedIn(out, s.indexByCallID[id], id))
    && (forall id | id in s.indexByCallID ::
          |Received(out, s.indexByCallID[id])| == if id in s.argumentsSent then s.argumentsSent[id] else 0)
    && (forall p | 0 <= p < |out| :: out[p].index < s.nextIndex)
    && (forall p | 0 <= p < |out| && out[p].Announce? ::
          out[p].id in s.indexByCallID && s.indexByCallID[out[p].id] == out[p].index)
  }

  ghost predicate Inv(s: Streamer, out: seq<Chunk>) {
    NumberedApart(s) && Agrees(s, out) && WellFormed(out)
  }

  lemma ReceivedSnoc(out: seq<Chunk>, chunk: Chunk, index: nat)
    ensures Received(out + [chunk], index)
      == Received(out, index) + if chunk.Piece? && chunk.index == index then chunk.text else ""
  {
    assert (out + [chunk])[..|out|] == out;
  }

  lemma {:induction false} NothingReceived(out: seq<Chunk>, index: nat)
    requires forall p | 0 <= p < |out| :: out[p].index != index
    ensures Received(out, index) == ""
  {
    if out != [] {
      NothingReceived(out[..|out| - 1], index);
    }
  }

  lemma AnnouncedSnoc(out: seq<Chunk>, chunk: Chunk, index: nat, id: string)
    ensures AnnouncedIn(out + [chunk], index, id)
      <==> AnnouncedIn(out, index, id) || (chunk.Announce? && chunk.index == index && chunk.id == id)
  {
    if AnnouncedIn(out, index, id) {
      var p :| 0 <= p < |out| && out[p].Announce? && out[p].index == index && out[p].id == id;
      assert (out + [chunk])[p] == out[p];
    }
    assert (out + [chunk])[|out|] == chunk;
  }

  lemma WellFormedSnoc(out: seq<Chunk>, chunk: Chunk)
    requires WellFormed(out)
    requires if chunk.Announce? then forall q | 0 <= q < |out| :: out[q].index != chunk.index
             else exists q :: 0 <= q < |out| && out[q].Announce? && out[q].index == chunk.index
    ensures WellFormed(out + [chunk])
  {
    var longer := out + [chunk];
    forall p | 0 <= p < |longer| && longer[p].Piece?
      ensures exists q :: 0 <= q < p && longer[q].Announce? && longer[q].index == longer[p].index
    {
      var q :| 0 <= q < p && q < |out| && out[q].Announce? && out[q].index == longer[p].index;
      assert longer[q] == out[q];
    }
  }

  lemma NumberedKeeps(s: Streamer, out: seq<Chunk>, id: string)
    requires Inv(s, out) && !Blank(id)
    ensures Inv(Numbered(s, id), out)
  {
    if id !in s.indexByCallID {
      hide WellFormed;
      NextApart(s, id);
      NextAgrees(s, out, id);
      hide NumberedApart, Agrees;
    }
  }

  lemma NextApart(s: Streamer, id: string)
    requires NumberedApart(s) && id !in s.indexByCallID && !Blank(id)
    ensures NumberedApart(Numbered(s, id))
  {
    hide Blank;
  }

  lemma NextAgrees(s: Streamer, out: seq<Chunk>, id: string)
    requires Agrees(s, out) && id !in s.indexByCallID
    ensures Agrees(Numbered(s, id), out)
  {
    NothingReceived(out, s.nextIndex);
    assert !AnnouncedIn(out, s.nextIndex, id);
    hide Received, AnnouncedIn;
  }

  /** Whatever is said is said about a call that was announced. */
  lemma MentionedIsAnnounced(s: Streamer, out: seq<Chunk>, q: nat)
    requires Inv(s, out) && q < |out|
    ensures exists id :: id in s.initialized && id in s.indexByCallID && s.indexByCallID[id] == out[q].index
  {
    hide Received;
    var a := if out[q].Announce? then q else var r :| 0 <= r < q && out[r].Announce? && out[r].index == out[q].index; r;
    assert AnnouncedIn(out, out[q].index, out[a].id);
  }

  lemma NoneBefore(s: Streamer, out: seq<Chunk>, id: string)
    requires Inv(s, out) && id in s.indexByCallID && id !in s.initialized
    ensures forall q | 0 <= q < |out| :: out[q].index != s.indexByCallID[id]
  {
    hide Received, WellFormed, Agrees;
    forall q | 0 <= q < |out| ensures out[q].index != s.indexByCallID[id] {
      MentionedIsAnnounced(s, out, q);
    }
  }

  lemma AnnounceKeeps(s: Streamer, out: seq<Chunk>, c: Call)
    requires Inv(s, out) && c.callID in s.indexByCallID
    ensures var (s', sent) := AnnounceCall(s, c); Inv(s', out + sent)
    ensures forall j: nat :: Received(out + AnnounceCall(s, c).1, j) == Received(out, j)
  {
    hide Received, Blank, AnnouncedIn, WellFormed;
    var (s', sent) := AnnounceCall(s, c);
    if sent == [] {
      assert out + [] == out;
    } else {
      var chunk := sent[0];
      assert sent == [chunk];
      forall j: nat ensures Received(out + [chunk], j) == Received(out, j) {
        ReceivedSnoc(out, chunk, j);
      }
      forall id | id in s'.indexByCallID ensures id in s'.initialized <==> AnnouncedIn(out + [chunk], s'.indexByCallID[id], id) {
        AnnouncedSnoc(out, chunk, s.indexByCallID[id], id);
      }
      NoneBefore(s, out, c.callID);
      WellFormedSnoc(out, chunk);
    }
  }

  lemma AnnouncedFirst(out: seq<Chunk>, index: nat, id: string)
    requires AnnouncedIn(out, index, id)
    ensures exists q :: 0 <= q < |out| && out[q].Announce? && out[q].index == index
  {}

  lemma SameNumbering(s: Streamer, c: Call)
    requires NumberedApart(s)
    ensures NumberedApart(SendValue(s, c).0)
    ensures c.callID in s.indexByCallID ==> s.indexByCallID[c.callID] < s.nextIndex
    ensures forall id | id in s.indexByCallID && c.callID in s.indexByCallID && id != c.callID ::
      s.indexByCallID[id] != s.indexByCallID[c.callID]
  {
    hide Blank, ValueOf;
  }

  lemma ValueKeeps(s: Streamer, out: seq<Chunk>, c: Call)
    requires Inv(s, out) && c.callID in s.indexByCallID
    ensures var (s', sent) := SendValue(s, c); Inv(s', out + sent)
    ensures c.callID in s.initialized ==> var was, now := Received(out, s.indexByCallID[c.callID]), ValueOf(c);
      Received(out + SendValue(s, c).1, s.indexByCallID[c.callID])
      == if |was| >= |now| then was else was + now[|was|..]
    ensures forall j: nat :: j != s.indexByCallID[c.callID] ==> Received(out + SendValue(s, c).1, j) == Received(out, j)
  {
    hide Received, AnnouncedIn, ValueOf, WellFormed, NumberedApart;
    var (s', sent) := SendValue(s, c);
    SameNumbering(s, c);
    if sent == [] {
      assert out + [] == out;
    } else {
      var chunk := sent[0];
      assert sent == [chunk];
      forall j: nat ensures Received(out + [chunk], j) == Received(out, j) + if j == chunk.index then chunk.text else "" {
        ReceivedSnoc(out, chunk, j);
      }
      forall j: nat | j != chunk.index ensures Received(out + [chunk], j) == Received(out, j) {
        assert Received(out, j) + "" == Received(out, j);
      }
      forall id | id in s'.indexByCallID ensures id in s'.initialized <==> AnnouncedIn(out + [chunk], s'.indexByCallID[id], id) {
        AnnouncedSnoc(out, chunk, s.indexByCallID[id], id);
      }
      AnnouncedFirst(out, chunk.index, c.callID);
      WellFormedSnoc(out, chunk);
    }
  }

  lemma PrefixCompletes(was: string, now: string)
    ensures (if |was| >= |now| then was else was + now[|was|..]) == now <==> was <= now
  {
    if was <= now {
      assert was + now[|was|..] == now;
    }
  }

  /** One chunk write keeps the protocol and disturbs no other call; and once the call is announced
      the client has exactly its current value if and only if what it had before was a prefix of it. */
  lemma WriteReassembles(s: Streamer, out: seq<Chunk>, c: Call)
    requires Inv(s, out)
    ensures var (s', sent) := Write(s, c);
      && Inv(s', out + sent)
      && (forall j: nat :: j != IndexFor(s, c.callID) ==> Received(out + sent, j) == Received(out, j))
      && (!Blank(c.callID) && c.callID in s'.initialized ==>
            (Received(out + sent, IndexFor(s, c.callID)) == ValueOf(c)
             <==> Received(out, IndexFor(s, c.callID)) <= ValueOf(c)))
  {
    hide Inv, Received, ValueOf, Blank, AnnounceCall, SendValue;
    if Blank(c.callID) {
      assert out + [] == out;
    } else {
      NumberedKeeps(s, out, c.callID);
      var s0 := Numbered(s, c.callID);
      AnnounceKeeps(s0, out, c);
      var (s1, announced) := AnnounceCall(s0, c);
      SameNumbers(s0, c);
      SameNumbers(s1, c);
      ValueKeeps(s1, out + announced, c);
      var (s2, piece) := SendValue(s1, c);
      assert out + announced + piece == out + (announced + piece);
      PrefixCompletes(Received(out, IndexFor(s, c.callID)), ValueOf(c));
    }
  }

  lemma SameNumbers(s: Streamer, c: Call)
    ensures AnnounceCall(s, c).0.indexByCallID == s.indexByCallID
    ensures SendValue(s, c).0.indexByCallID == s.indexByCallID
    ensures SendValue(s, c).0.initialized == s.initialized
  {}

  // ----- whole runs -----

  /** The last value a call was seen with. */
  function LastValue(calls: seq<Call>, id: string): string {
    if calls == [] then ""
    else if calls[|calls| - 1].callID == id then ValueOf(calls[|calls| - 1])
    else LastValue(calls[..|calls| - 1], id)
  }

  /** Every value of a call extends the one before it. */
  ghost predicate Growing(calls: seq<Call>) {
    forall k | 0 <= k < |calls| :: LastValue(calls[..k], calls[k].callID) <= ValueOf(calls[k])
  }

  /** The client has the last value of every announced call, and nothing of the others. */
  ghost predicate UpToDate(s: Streamer, out: seq<Chunk>, calls: seq<Call>) {
    forall id | id in s.indexByCallID ::
      Received(out, s.indexByCallID[id]) == if id in s.initialized then LastValue(calls, id) else ""
  }

  lemma StepUpToDate(s: Streamer, out: seq<Chunk>, calls: seq<Call>, c: Call)
    requires Inv(s, out) && UpToDate(s, out, calls) && LastValue(calls, c.callID) <= ValueOf(c)
    ensures var (s', sent) := Write(s, c); Inv(s', out + sent) && UpToDate(s', out + sent, calls + [c])
  {
    hide Inv, Write, ValueOf, Received, LastValue, NumberedApart, Blank;
    WriteReassembles(s, out, c);
    WriteFrames(s, c);
    var (s', sent) := Write(s, c);
    FreshNumber(s, out);
    forall id | id in s'.indexByCallID
      ensures Received(out + sent, s'.indexByCallID[id]) == if id in s'.initialized then LastValue(calls + [c], id) else ""
    {
      LastValueSnoc(calls, c, id);
      if id == c.callID {
        if id !in s'.initialized {
          assert out + sent == out;
        }
      } else {
        ApartFrom(s, id, c.callID);
      }
    }
  }

  lemma ApartFrom(s: Streamer, a: string, b: string)
    requires NumberedApart(s) && a in s.indexByCallID && a != b
    ensures s.indexByCallID[a] != IndexFor(s, b)
  {}

  lemma FreshNumber(s: Streamer, out: seq<Chunk>)
    requires Inv(s, out)
    ensures Received(out, s.nextIndex) == ""
    ensures NumberedApart(s) && (forall id | id in s.initialized :: id in s.indexByCallID)
    ensures forall id | id in s.indexByCallID :: !Blank(id)
  {
    hide Received, Blank;
    NothingReceived(out, s.nextIndex);
  }

  lemma LastValueSnoc(calls: seq<Call>, c: Call, id: string)
    ensures LastValue(calls + [c], id) == if c.callID == id then ValueOf(c) else LastValue(calls, id)
  {
    assert (calls + [c])[..|calls|] == calls;
  }

  lemma WriteFrames(s: Streamer, c: Call)
    ensures var (s', sent) := Write(s, c);
      && (forall id | id != c.callID :: id in s'.indexByCallID <==> id in s.indexByCallID)
      && (forall id | id in s.indexByCallID :: id in s'.indexByCallID && s'.indexByCallID[id] == s.indexByCallID[id])
      && (c.callID in s'.indexByCallID ==> s'.indexByCallID[c.callID] == IndexFor(s, c.callID))
      && (forall id | id != c.callID :: id in s'.initialized <==> id in s.initialized)
      && (c.callID in s.initialized ==> c.callID in s'.initialized)
      && (c.callID !in s'.initialized ==> sent == [])
      && (Blank(c.callID) ==> s' == s && sent == [])
      && (!Blank(c.callID) ==> c.callID in s'.indexByCallID)
  {
    hide Blank, ValueOf;
  }

  /** Over a whole run in which every value of a call extends the one before it, a client has put
      together, for every announced call, exactly the last value that call had. */
  lemma {:induction false} RunReassembles(calls: seq<Call>)
    requires Growing(calls)
    ensures var (s, out) := WriteAll(FRESH, calls); Inv(s, out) && UpToDate(s, out, calls)
  {
    hide Inv, Write, ValueOf, Received, LastValue, UpToDate;
    if calls == [] {
      NothingYet();
    } else {
      var n := |calls| - 1;
      assert forall k | 0 <= k < n :: calls[..n][..k] == calls[..k];
      RunReassembles(calls[..n]);
      var (s, out) := WriteAll(FRESH, calls[..n]);
      StepUpToDate(s, out, calls[..n], calls[n]);
      assert calls[..n] + [calls[n]] == calls;
    }
  }

  lemma NothingYet()
    ensures Inv(FRESH, []) && UpToDate(FRESH, [], [])
  {}

  /** Whatever the run, the chunks are well formed, and no call has got more or less than it was
      marked as having got. */
  lemma {:induction false} EveryRunIsWellFormed(calls: seq<Call>)
    ensures var (s, out) := WriteAll(FRESH, calls); Inv(s, out)
  {
    hide Inv, Write, Received;
    if calls == [] {
      NothingYet();
    } else {
      var n := |calls| - 1;
      EveryRunIsWellFormed(calls[..n]);
      WriteReassembles(WriteAll(FRESH, calls[..n]).0, WriteAll(FRESH, calls[..n]).1, calls[n]);
    }
  }

  /** The name a call is announced with: the first it was seen with. */
  function FirstName(calls: seq<Call>, id: string): string {
    if calls == [] then ""
    else if calls[0].callID == id && !Blank(calls[0].name) then calls[0].name
    else FirstName(calls[1..], id)
  }

  lemma {:induction false} FirstNameSnoc(calls: seq<Call>, c: Call, id: string)
    ensures FirstName(calls + [c], id)
      == if FirstName(calls, id) != "" then FirstName(calls, id) else if c.callID == id && !Blank(c.name) then c.name else ""
  {
    assert Blank("");
    if calls == [] {
      assert (calls + [c])[1..] == [];
    } else {
      assert (calls + [c])[0] == calls[0] && (calls + [c])[1..] == calls[1..] + [c];
      FirstNameSnoc(calls[1..], c, id);
    }
  }

  /** Every call that is announced has a name, and what is announced is the first it was seen with. */
  ghost predicate NamesTold(s: Streamer, out: seq<Chunk>, calls: seq<Call>) {
    && (forall o | o in out && o.Announce? :: o.name == FirstName(calls, o.id) && o.name != "")
    && (forall id :: id in s.initialized <==> !Blank(id) && FirstName(calls, id) != "")
  }

  lemma WriteAnnounces(s: Streamer, c: Call)
    ensures var (s', sent) := Write(s, c);
      && (forall o | o in sent && o.Announce? :: o.id == c.callID && o.name == c.name && c.callID !in s.initialized && !Blank(c.name) && !Blank(c.callID))
      && (forall id :: id in s'.initialized <==> id in s.initialized || (id == c.callID && !Blank(id) && !Blank(c.name)))
  {
    hide Blank, ValueOf;
  }

  lemma NameTold(s: Streamer, out: seq<Chunk>, calls: seq<Call>, c: Call)
    requires NamesTold(s, out, calls)
    ensures var (s', sent) := Write(s, c); NamesTold(s', out + sent, calls + [c])
  {
    var (s', sent) := Write(s, c);
    WriteAnnounces(s, c);
    assert Blank("");
    hide Blank, Write;
    forall id ensures FirstName(calls + [c], id)
      == if FirstName(calls, id) != "" then FirstName(calls, id) else if c.callID == id && !Blank(c.name) then c.name else ""
    {
      FirstNameSnoc(calls, c, id);
    }
    hide FirstName;
  }

  /** On every run, a call is announced with the first name it was seen with, and only once it has one. */
  lemma {:induction false} EveryRunTellsNames(calls: seq<Call>)
    ensures var (s, out) := WriteAll(FRESH, calls); NamesTold(s, out, calls)
  {
    hide Write, NamesTold;
    if calls == [] {
      NoNamesYet();
    } else {
      var n := |calls| - 1;
      EveryRunTellsNames(calls[..n]);
      NameTold(WriteAll(FRESH, calls[..n]).0, WriteAll(FRESH, calls[..n]).1, calls[..n], calls[n]);
      assert calls[..n] + [calls[n]] == calls;
    }
  }

  lemma NoNamesYet()
    ensures NamesTold(FRESH, [], [])
  {}

  // ----- runs of the accumulator -----

  /** The calls that writeChunk is given over a run: after each event, the call it speaks of. */
  function Snapshots(r: Registry, aliases: Aliases, events: seq<Event>): seq<Call>
    requires Sound(r)
    decreases |events|
  {
    if events == [] then []
    else
      var r1 := Apply(r, aliases, events[0]);
      var call := CallForEvent(r1, events[0]);
      (if call.Some? then [r1.calls[call.value]] else []) + Snapshots(r1, aliases, events[1..])
  }

  /** No event takes back what the accumulator has for a call. */
  ghost predicate OnlyExtends(r: Registry, s: Registry) {
    |r.calls| <= |s.calls| && forall i | 0 <= i < |r.calls| :: ValueOf(r.calls[i]) <= ValueOf(s.calls[i])
  }

  ghost predicate Extending(r: Registry, aliases: Aliases, events: seq<Event>)
    requires Sound(r)
    decreases |events|
  {
    events != [] ==>
      OnlyExtends(r, Apply(r, aliases, events[0])) && Extending(Apply(r, aliases, events[0]), aliases, events[1..])
  }

  /** What was last written for a call is a beginning of what the accumulator has for it; and nothing was
      written under an id that is not known. */
  ghost predicate Covers(r: Registry, seen: seq<Call>) {
    && (forall i | 0 <= i < |r.calls| :: LastValue(seen, r.calls[i].callID) <= ValueOf(r.calls[i]))
    && (forall k | 0 <= k < |seen| :: seen[k].callID in r.byID)
  }

  lemma {:induction false} NeverSeen(seen: seq<Call>, id: string)
    requires forall k | 0 <= k < |seen| :: seen[k].callID != id
    ensures LastValue(seen, id) == ""
  {
    if seen != [] { NeverSeen(seen[..|seen| - 1], id); }
  }

  lemma CoversNext(r: Registry, s: Registry, seen: seq<Call>)
    requires Step(r, s) && OnlyExtends(r, s) && Covers(r, seen)
    ensures Covers(s, seen)
  {
    hide ValueOf, LastValue;
    forall i | 0 <= i < |s.calls| ensures LastValue(seen, s.calls[i].callID) <= ValueOf(s.calls[i]) {
      if i < |r.calls| && s.calls[i].callID == r.calls[i].callID {
        assert LastValue(seen, r.calls[i].callID) <= ValueOf(r.calls[i]) <= ValueOf(s.calls[i]);
      } else {
        assert s.calls[i].callID !in r.byID by { NewCallID(r, s, i); }
        NeverSeen(seen, s.calls[i].callID);
      }
    }
  }

  lemma NewCallID(r: Registry, s: Registry, i: nat)
    requires Step(r, s) && i < |s.calls| && (i < |r.calls| ==> s.calls[i].callID != r.calls[i].callID)
    ensures s.calls[i].callID !in r.byID
  {
    if i < |r.calls| {
      assert CallStep(r, r.calls[i], s.calls[i]);
    } else {
      assert NewCallStep(r, s.calls[i]);
    }
  }

  lemma CoversWritten(r: Registry, seen: seq<Call>, i: nat)
    requires ToolCallLaws.Inv(r) && Covers(r, seen) && i < |r.calls|
    ensures Covers(r, seen + [r.calls[i]]) && LastValue(seen, r.calls[i].callID) <= ValueOf(r.calls[i])
  {
    var c := r.calls[i];
    assert Usable(r, c.callID);
    assert CallIDsDistinct(r);
    hide ValueOf, LastValue, ToolCallLaws.Inv;
    forall j | 0 <= j < |r.calls| ensures LastValue(seen + [c], r.calls[j].callID) <= ValueOf(r.calls[j]) {
      LastValueSnoc(seen, c, r.calls[j].callID);
    }
  }

  lemma GrowingSnoc(seen: seq<Call>, c: Call)
    requires Growing(seen) && LastValue(seen, c.callID) <= ValueOf(c)
    ensures Growing(seen + [c])
  {
    hide ValueOf, LastValue;
    var longer := seen + [c];
    forall k | 0 <= k < |longer| ensures LastValue(longer[..k], longer[k].callID) <= ValueOf(longer[k]) {
      assert longer[..k] == if k < |seen| then seen[..k] else seen;
    }
  }

  lemma {:induction false} SnapshotsGrow(r: Registry, aliases: Aliases, events: seq<Event>, seen: seq<Call>)
    requires ToolCallLaws.Inv(r) && Extending(r, aliases, events) && Covers(r, seen) && Growing(seen)
    ensures Growing(seen + Snapshots(r, aliases, events)) && Covers(Run(r, aliases, events), seen + Snapshots(r, aliases, events))
    decreases |events|
  {
    hide ToolCallLaws.Inv, Step, Apply, Covers, Growing, OnlyExtends, CallForEvent;
    if events == [] {
      assert seen + [] == seen;
    } else {
      var r1 := Apply(r, aliases, events[0]);
      ApplyKeeps(r, aliases, events[0]);
      CoversNext(r, r1, seen);
      var call := CallForEvent(r1, events[0]);
      if call.Some? {
        var c := r1.calls[call.value];
        CoversWritten(r1, seen, call.value);
        GrowingSnoc(seen, c);
        SnapshotsGrow(r1, aliases, events[1..], seen + [c]);
        assert seen + [c] + Snapshots(r1, aliases, events[1..]) == seen + ([c] + Snapshots(r1, aliases, events[1..]));
      } else {
        SnapshotsGrow(r1, aliases, events[1..], seen);
        assert seen + ([] + Snapshots(r1, aliases, events[1..])) == seen + Snapshots(r1, aliases, events[1..]);
      }
    }
  }

  /** Over a whole run of the accumulator in which no event takes back what it has for a call, whatever
      becomes of the call ids: for every call that was announced under the id it has in the end, the
      client has the value of the last event about it, a beginning of what the accumulator has. */
  lemma AccumulatorRunReassembles(aliases: Aliases, events: seq<Event>)
    requires Extending(EMPTY, aliases, events)
    ensures var calls, seen := Run(EMPTY, aliases, events).calls, Snapshots(EMPTY, aliases, events);
      var (s, out) := WriteAll(FRESH, seen);
      && Inv(s, out) && UpToDate(s, out, seen)
      && (forall i | 0 <= i < |calls| && calls[i].callID in s.initialized && calls[i].callID in s.indexByCallID ::
            Received(out, s.indexByCallID[calls[i].callID]) == LastValue(seen, calls[i].callID) <= ValueOf(calls[i]))
  {
    EmptyCovers();
    hide ToolCallLaws.Inv, Inv, Covers, Growing, Extending, Snapshots, Run, WriteAll, UpToDate, Received, LastValue, ValueOf;
    var seen := Snapshots(EMPTY, aliases, events);
    SnapshotsGrow(EMPTY, aliases, events, []);
    assert [] + seen == seen;
    RunReassembles(seen);
    var (s, out) := WriteAll(FRESH, seen);
    Delivered(s, out, Run(EMPTY, aliases, events), seen);
  }

  lemma EmptyCovers()
    ensures ToolCallLaws.Inv(EMPTY) && Covers(EMPTY, []) && Growing([])
  {}

  lemma Delivered(s: Streamer, out: seq<Chunk>, r: Registry, seen: seq<Call>)
    requires UpToDate(s, out, seen) && Covers(r, seen)
    ensures forall i | 0 <= i < |r.calls| && r.calls[i].callID in s.initialized && r.calls[i].callID in s.indexByCallID ::
      Received(out, s.indexByCallID[r.calls[i].callID]) == LastValue(seen, r.calls[i].callID) <= ValueOf(r.calls[i])
  {
    hide Received, LastValue, ValueOf;
  }

  // ----- the object -----

  class ChatToolCallStreamer {
    var indexByCallID: map<string, nat>
    var initialized: set<string>
    var argumentsSent: map<string, nat>
    var nextIndex: nat

    ghost function View(): Streamer
      reads this
    {
      Streamer(indexByCallID, initialized, argumentsSent, nextIndex)
    }

    constructor ()
      ensures View() == FRESH
    {
      indexByCallID, initialized, argumentsSent, nextIndex := map[], {}, map[], 0;
    }

    /** writeChunk: the chunks written, and whether there were any. */
    method WriteChunk(acc: AccumulatorState, event: Event) returns (emitted: bool, chunks: seq<Chunk>)
      requires acc.Valid()
      modifies this
      ensures Sound(acc.reg) && emitted == (chunks != [])
      ensures var call := CallForEvent(acc.reg, event);
        (View(), chunks) == if call.Some? then Write(old(View()), acc.reg.calls[call.value]) else (old(View()), [])
    {
      hide CallForEvent, Sound, Leads, Blank;
      acc.Lengths();
      emitted, chunks := false, [];
      var state := acc.ToolCallStateForEvent(event);
      if state == null {
        return;
      }
      ViewAt(acc.toolCalls, acc.reg.calls, state.position);
      hide Mirrors;
      emitted, chunks := WriteState(state);
    }

    method WriteState(state: ToolCallState) returns (emitted: bool, chunks: seq<Chunk>)
      modifies this
      ensures emitted == (chunks != [])
      ensures (View(), chunks) == Write(old(View()), state.View())
    {
      hide Blank;
      emitted, chunks := false, [];
      if Blank(state.callID) {
        return;
      }
      var callID := state.callID;
      if callID !in indexByCallID {
        indexByCallID := indexByCallID[callID := nextIndex];
        nextIndex := nextIndex + 1;
      }
      var idx := indexByCallID[callID];
      if callID !in initialized && !Blank(state.name) {
        chunks := [Announce(idx, callID, state.name)];
        initialized := initialized + {callID};
        emitted := true;
      }
      if callID !in initialized {
        return;
      }
      assert chunks + [] == chunks;
      var value := if state.toolType == "custom" then state.input else state.arguments;
      var sent := if callID in argumentsSent then argumentsSent[callID] else 0;
      if sent >= |value| {
        return;
      }
      chunks := chunks + [Piece(idx, value[sent..])];
      argumentsSent := argumentsSent[callID := |value|];
      emitted := true;
    }
  }
}
