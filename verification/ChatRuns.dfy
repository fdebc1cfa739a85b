/** internal/server/stream_chat_tools.go over runs of the accumulator: which calls get one number, and
    which get all of their arguments, told from the events. */
module ChatRuns {
  import opened Text
  import opened Json
  import opened ToolCalls
  import Laws = ToolCallLaws
  import opened Responses
  import opened ChatTools
  import R = EncoderResend

  // ----- the run, event by event -----

  /** The accumulator after the first n events. */
  function At(aliases: Aliases, events: seq<Event>, n: nat): (r: Registry)
    requires n <= |events|
    ensures Sound(r)
  {
    Run(EMPTY, aliases, events[..n])
  }

  lemma {:induction false} RunSnoc(r: Registry, aliases: Aliases, events: seq<Event>, e: Event)
    requires Sound(r)
    ensures Run(r, aliases, events + [e]) == Apply(Run(r, aliases, events), aliases, e)
    decreases |events|
  {
    hide Apply, Sound;
    if events == [] {
      assert ([] + [e])[1..] == [];
    } else {
      assert (events + [e])[1..] == events[1..] + [e];
      RunSnoc(Apply(r, aliases, events[0]), aliases, events[1..], e);
    }
  }

  lemma {:induction false} SnapshotsSnoc(r: Registry, aliases: Aliases, events: seq<Event>, e: Event)
    requires Sound(r)
    ensures var s := Apply(Run(r, aliases, events), aliases, e);
      Snapshots(r, aliases, events + [e])
      == Snapshots(r, aliases, events) + if CallForEvent(s, e).Some? then [s.calls[CallForEvent(s, e).value]] else []
    decreases |events|
  {
    hide Apply, Sound, CallForEvent;
    if events == [] {
      assert ([] + [e])[1..] == [];
    } else {
      assert (events + [e])[1..] == events[1..] + [e];
      SnapshotsSnoc(Apply(r, aliases, events[0]), aliases, events[1..], e);
    }
  }

  /** What writeChunk is given for the first n events. */
  function Seen(aliases: Aliases, events: seq<Event>, n: nat): seq<Call>
    requires n <= |events|
  {
    Snapshots(EMPTY, aliases, events[..n])
  }

  lemma Next(aliases: Aliases, events: seq<Event>, n: nat)
    requires n < |events|
    ensures var r, s := At(aliases, events, n), At(aliases, events, n + 1);
      && s == Apply(r, aliases, events[n]) && Laws.Inv(r) && Laws.Inv(s) && Laws.Step(r, s)
      && Seen(aliases, events, n + 1) == Seen(aliases, events, n)
           + if CallForEvent(s, events[n]).Some? then [s.calls[CallForEvent(s, events[n]).value]] else []
  {
    assert events[..n + 1] == events[..n] + [events[n]];
    assert Laws.Inv(EMPTY);
    hide Laws.Inv, Laws.Step, Apply, Sound, CallForEvent, Run, Snapshots;
    RunSnoc(EMPTY, aliases, events[..n], events[n]);
    SnapshotsSnoc(EMPTY, aliases, events[..n], events[n]);
    Laws.RunKeeps(EMPTY, aliases, events[..n]);
    Laws.ApplyKeeps(At(aliases, events, n), aliases, events[n]);
  }

  /** The event is about the call, in what the accumulator has made of it. */
  predicate About(aliases: Aliases, events: seq<Event>, n: nat, i: nat) {
    n < |events| && CallForEvent(At(aliases, events, n + 1), events[n]) == Some(i)
  }

  /** And the call has a name by then, so that it is announced to the client. */
  predicate Shows(aliases: Aliases, events: seq<Event>, n: nat, i: nat) {
    About(aliases, events, n, i) && i < |At(aliases, events, n + 1).calls| && !Blank(At(aliases, events, n + 1).calls[i].name)
  }

  /** The id of a call after n events, "" as long as there is no such call. */
  function IDAt(aliases: Aliases, events: seq<Event>, n: nat, i: nat): string
    requires n <= |events|
  {
    if i < |At(aliases, events, n).calls| then At(aliases, events, n).calls[i].callID else ""
  }

  /** The event gives a known call another id. */
  predicate Renames(aliases: Aliases, events: seq<Event>, n: nat, i: nat) {
    && n < |events| && i < |At(aliases, events, n).calls|
    && IDAt(aliases, events, n + 1, i) != IDAt(aliases, events, n, i)
  }

  lemma GoodIDs(r: Registry, i: nat)
    requires Laws.Inv(r) && i < |r.calls|
    ensures r.calls[i].callID in r.byID && !Blank(r.calls[i].callID) && r.calls[i].callID != ""
  {
    assert Laws.Usable(r, r.calls[i].callID);
  }

  lemma GoodAt(aliases: Aliases, events: seq<Event>, n: nat)
    requires n <= |events|
    ensures Laws.Inv(At(aliases, events, n))
  {
    assert Laws.Inv(EMPTY);
    hide Laws.Inv;
    Laws.RunKeeps(EMPTY, aliases, events[..n]);
  }

  ghost predicate KnownAt(aliases: Aliases, events: seq<Event>, n: nat, id: string) {
    n <= |events| && id in At(aliases, events, n).byID
  }

  /** An id that is known and not that of a call never becomes the id of that call. */
  lemma {:induction false} NeverBecomes(aliases: Aliases, events: seq<Event>, m: nat, n: nat, i: nat, id: string)
    requires m <= n <= |events| && KnownAt(aliases, events, m, id) && IDAt(aliases, events, m, i) != id && id != ""
    ensures KnownAt(aliases, events, n, id) && IDAt(aliases, events, n, i) != id
    decreases n
  {
    hide At, Laws.Inv, Laws.Step, Apply, CallForEvent, Seen;
    if m < n {
      NeverBecomes(aliases, events, m, n - 1, i, id);
      Next(aliases, events, n - 1);
      OtherID(At(aliases, events, n - 1), At(aliases, events, n), i, id);
    }
  }

  lemma OtherID(r: Registry, s: Registry, i: nat, id: string)
    requires Laws.Step(r, s) && id in r.byID && (i < |r.calls| ==> r.calls[i].callID != id)
    ensures id in s.byID && (i < |s.calls| ==> s.calls[i].callID != id)
  {
    if i < |r.calls| { assert Laws.CallStep(r, r.calls[i], s.calls[i]); }
    else if i < |s.calls| { assert Laws.NewCallStep(r, s.calls[i]); }
  }

  /** A call once there stays there. */
  lemma {:induction false} StaysThere(aliases: Aliases, events: seq<Event>, m: nat, n: nat, i: nat)
    requires m <= n <= |events| && i < |At(aliases, events, m).calls|
    ensures i < |At(aliases, events, n).calls|
    decreases n
  {
    hide At, Laws.Inv, Apply, CallForEvent, Seen;
    if m < n {
      StaysThere(aliases, events, m, n - 1, i);
      Next(aliases, events, n - 1);
    }
  }

  // ----- which ids are announced -----

  /** The call was shown with a name under that id within the first n events. */
  ghost predicate ShownAs(aliases: Aliases, events: seq<Event>, n: nat, i: nat, id: string) {
    n <= |events| && exists a: nat :: a < n && Shows(aliases, events, a, i) && IDAt(aliases, events, a + 1, i) == id
  }

  ghost predicate SomeShownAs(aliases: Aliases, events: seq<Event>, n: nat, id: string) {
    exists i: nat :: ShownAs(aliases, events, n, i, id)
  }

  ghost predicate ShowsSome(aliases: Aliases, events: seq<Event>, n: nat, id: string) {
    n < |events| && exists i: nat :: Shows(aliases, events, n, i) && IDAt(aliases, events, n + 1, i) == id
  }

  lemma ShownNext(aliases: Aliases, events: seq<Event>, n: nat, i: nat, id: string)
    requires n < |events|
    ensures ShownAs(aliases, events, n + 1, i, id)
      <==> ShownAs(aliases, events, n, i, id) || (Shows(aliases, events, n, i) && IDAt(aliases, events, n + 1, i) == id)
  {
    hide Shows, IDAt;
  }

  lemma WriteInitializes(s: Streamer, c: Call, id: string)
    ensures id in Write(s, c).0.initialized <==> id in s.initialized || (id == c.callID && !Blank(id) && !Blank(c.name))
  {
    hide Blank, ValueOf;
  }

  /** The ids announced to the client are those under which a call was shown with a name. */
  lemma {:induction false} AnnouncedIDs(aliases: Aliases, events: seq<Event>, n: nat, id: string)
    requires n <= |events|
    ensures id in WriteAll(FRESH, Seen(aliases, events, n)).0.initialized <==> SomeShownAs(aliases, events, n, id)
    decreases n
  {
    hide *;
    if n == 0 {
      NothingShown(aliases, events, id);
    } else {
      AnnouncedIDs(aliases, events, n - 1, id);
      ShownStep(aliases, events, n - 1, id);
      SomeShownNext(aliases, events, n - 1, id);
    }
  }

  lemma SomeShownNext(aliases: Aliases, events: seq<Event>, n: nat, id: string)
    requires n < |events|
    ensures SomeShownAs(aliases, events, n + 1, id) <==> SomeShownAs(aliases, events, n, id) || ShowsSome(aliases, events, n, id)
  {
    hide Shows, IDAt, ShownAs;
    if SomeShownAs(aliases, events, n + 1, id) {
      var i: nat :| ShownAs(aliases, events, n + 1, i, id);
      ShownNext(aliases, events, n, i, id);
    }
    if SomeShownAs(aliases, events, n, id) {
      var i: nat :| ShownAs(aliases, events, n, i, id);
      ShownNext(aliases, events, n, i, id);
    }
    if ShowsSome(aliases, events, n, id) {
      var i: nat :| Shows(aliases, events, n, i) && IDAt(aliases, events, n + 1, i) == id;
      ShownNext(aliases, events, n, i, id);
    }
  }

  lemma NothingShown(aliases: Aliases, events: seq<Event>, id: string)
    ensures WriteAll(FRESH, Seen(aliases, events, 0)).0.initialized == {} && !SomeShownAs(aliases, events, 0, id)
  {
    assert events[..0] == [];
    hide Shows, IDAt;
  }

  lemma ShownStep(aliases: Aliases, events: seq<Event>, n: nat, id: string)
    requires n < |events|
    ensures id in WriteAll(FRESH, Seen(aliases, events, n + 1)).0.initialized
      <==> || id in WriteAll(FRESH, Seen(aliases, events, n)).0.initialized
           || ShowsSome(aliases, events, n, id)
  {
    Next(aliases, events, n);
    var s, seen := At(aliases, events, n + 1), Seen(aliases, events, n);
    var call := CallForEvent(s, events[n]);
    hide Laws.Inv, Laws.Step, At, Apply, CallForEvent, Seen, Write, WriteAll, Blank;
    if call.Some? {
      var c := s.calls[call.value];
      GoodIDs(s, call.value);
      WriteOneMore(seen, c);
      WriteInitializes(WriteAll(FRESH, seen).0, c, id);
      assert Shows(aliases, events, n, call.value) <==> !Blank(c.name);
      assert IDAt(aliases, events, n + 1, call.value) == c.callID;
    } else {
      assert seen + [] == seen;
    }
  }

  lemma WriteOneMore(seen: seq<Call>, c: Call)
    ensures WriteAll(FRESH, seen + [c]).0 == Write(WriteAll(FRESH, seen).0, c).0
  {
    assert (seen + [c])[..|seen|] == seen;
    hide Write;
  }

  // ----- one number for the client -----

  /** The client is told of the call at that place of what it is sent. */
  ghost predicate Announces(aliases: Aliases, events: seq<Event>, out: seq<Chunk>, p: nat, i: nat) {
    p < |out| && out[p].Announce? && ShownAs(aliases, events, |events|, i, out[p].id)
  }

  /** An event gives the call another id between two events that show it with a name, or the second of
      them does. */
  ghost predicate RenamedOnceShown(aliases: Aliases, events: seq<Event>, i: nat) {
    exists a: nat, n: nat, b: nat :: a < n <= b && Shows(aliases, events, a, i) && Renames(aliases, events, n, i) && Shows(aliases, events, b, i)
  }

  lemma ShownIsKnown(aliases: Aliases, events: seq<Event>, a: nat, i: nat)
    requires a < |events| && About(aliases, events, a, i)
    ensures i < |At(aliases, events, a + 1).calls| && IDAt(aliases, events, a + 1, i) != ""
    ensures KnownAt(aliases, events, a + 1, IDAt(aliases, events, a + 1, i))
  {
    GoodAt(aliases, events, a + 1);
    hide At, Laws.Inv, Blank;
    GoodIDs(At(aliases, events, a + 1), i);
  }

  /** A renamed call does not get its old id back. */
  lemma RenamedApart(aliases: Aliases, events: seq<Event>, a: nat, n: nat, b: nat, i: nat)
    requires a < n <= b < |events| && About(aliases, events, a, i) && Renames(aliases, events, n, i)
    ensures IDAt(aliases, events, a + 1, i) != IDAt(aliases, events, b + 1, i)
  {
    hide *;
    ShownIsKnown(aliases, events, a, i);
    RenamesDiffer(aliases, events, n, i);
    var id := IDAt(aliases, events, a + 1, i);
    if IDAt(aliases, events, n, i) != id {
      OnceLost(aliases, events, a + 1, n, b + 1, i, id);
    } else {
      OnceLost(aliases, events, a + 1, n + 1, b + 1, i, id);
    }
  }

  lemma OnceLost(aliases: Aliases, events: seq<Event>, m: nat, n: nat, b: nat, i: nat, id: string)
    requires m <= n <= b <= |events| && KnownAt(aliases, events, m, id) && IDAt(aliases, events, n, i) != id && id != ""
    ensures IDAt(aliases, events, b, i) != id
  {
    hide *;
    StaysKnown(aliases, events, m, n, id);
    NeverBecomes(aliases, events, n, b, i, id);
  }

  lemma RenamesDiffer(aliases: Aliases, events: seq<Event>, n: nat, i: nat)
    requires n < |events| && Renames(aliases, events, n, i)
    ensures IDAt(aliases, events, n + 1, i) != IDAt(aliases, events, n, i)
  {
    hide IDAt;
  }

  lemma {:induction false} StaysKnown(aliases: Aliases, events: seq<Event>, m: nat, n: nat, id: string)
    requires m <= n <= |events| && KnownAt(aliases, events, m, id)
    ensures KnownAt(aliases, events, n, id)
    decreases n
  {
    hide At, Laws.Inv, Apply, CallForEvent, Seen;
    if m < n {
      StaysKnown(aliases, events, m, n - 1, id);
      Next(aliases, events, n - 1);
    }
  }

  /** Between two different ids of a call there is an event that renames it. */
  lemma {:induction false} RenamedBetween(aliases: Aliases, events: seq<Event>, m: nat, n: nat, i: nat) returns (k: nat)
    requires m <= n <= |events| && i < |At(aliases, events, m).calls| && IDAt(aliases, events, m, i) != IDAt(aliases, events, n, i)
    ensures m <= k < n && Renames(aliases, events, k, i)
    decreases n
  {
    hide At, IDAt;
    StaysThere(aliases, events, m, n - 1, i);
    if IDAt(aliases, events, n - 1, i) != IDAt(aliases, events, n, i) {
      k := n - 1;
    } else {
      k := RenamedBetween(aliases, events, m, n - 1, i);
    }
  }

  /** Any two ids under which the call was shown are the same. */
  ghost predicate OneID(aliases: Aliases, events: seq<Event>, i: nat) {
    forall x, y | ShownAs(aliases, events, |events|, i, x) && ShownAs(aliases, events, |events|, i, y) :: x == y
  }

  lemma ShownUnder(aliases: Aliases, events: seq<Event>, i: nat, id: string) returns (a: nat)
    requires ShownAs(aliases, events, |events|, i, id)
    ensures a < |events| && Shows(aliases, events, a, i) && IDAt(aliases, events, a + 1, i) == id
  {
    hide Shows, IDAt;
    a :| a < |events| && Shows(aliases, events, a, i) && IDAt(aliases, events, a + 1, i) == id;
  }

  lemma OneIDExactly(aliases: Aliases, events: seq<Event>, i: nat)
    ensures OneID(aliases, events, i) <==> !RenamedOnceShown(aliases, events, i)
  {
    hide *;
    if RenamedOnceShown(aliases, events, i) { RenamedHasTwo(aliases, events, i); }
    if !OneID(aliases, events, i) { TwoAreRenamed(aliases, events, i); }
  }

  lemma RenamedHasTwo(aliases: Aliases, events: seq<Event>, i: nat)
    requires RenamedOnceShown(aliases, events, i)
    ensures !OneID(aliases, events, i)
  {
    hide At, About, Shows, IDAt, ShownAs, Renames;
    var a: nat, n: nat, b: nat :| a < n <= b && Shows(aliases, events, a, i) && Renames(aliases, events, n, i) && Shows(aliases, events, b, i);
    NamedAbout(aliases, events, a, i);
    NamedAbout(aliases, events, b, i);
    AboutRange(aliases, events, b, i);
    RenamedApart(aliases, events, a, n, b, i);
    ShownHere(aliases, events, a, i);
    ShownHere(aliases, events, b, i);
  }

  lemma AboutRange(aliases: Aliases, events: seq<Event>, n: nat, i: nat)
    requires About(aliases, events, n, i)
    ensures n < |events|
  {
    hide At, CallForEvent;
  }

  lemma TwoAreRenamed(aliases: Aliases, events: seq<Event>, i: nat)
    requires !OneID(aliases, events, i)
    ensures RenamedOnceShown(aliases, events, i)
  {
    hide At, About, Shows, IDAt, ShownAs, Renames, RenamedOnceShown;
    var x, y :| ShownAs(aliases, events, |events|, i, x) && ShownAs(aliases, events, |events|, i, y) && x != y;
    var a := ShownUnder(aliases, events, i, x);
    var b := ShownUnder(aliases, events, i, y);
    if a < b {
      RenamedMeanwhile(aliases, events, a, b, i);
    } else {
      RenamedMeanwhile(aliases, events, b, a, i);
    }
  }

  lemma ShownHere(aliases: Aliases, events: seq<Event>, a: nat, i: nat)
    requires a < |events| && Shows(aliases, events, a, i)
    ensures ShownAs(aliases, events, |events|, i, IDAt(aliases, events, a + 1, i))
  {
    hide Shows, IDAt;
  }

  lemma RenamedMeanwhile(aliases: Aliases, events: seq<Event>, a: nat, b: nat, i: nat)
    requires a <= b < |events| && Shows(aliases, events, a, i) && Shows(aliases, events, b, i)
    requires IDAt(aliases, events, a + 1, i) != IDAt(aliases, events, b + 1, i)
    ensures RenamedOnceShown(aliases, events, i)
  {
    hide *;
    NamedAbout(aliases, events, a, i);
    ShownIsKnown(aliases, events, a, i);
    var n := RenamedBetween(aliases, events, a + 1, b + 1, i);
    RenamedHere(aliases, events, a, n, b, i);
  }

  lemma RenamedHere(aliases: Aliases, events: seq<Event>, a: nat, n: nat, b: nat, i: nat)
    requires a < n <= b && Shows(aliases, events, a, i) && Renames(aliases, events, n, i) && Shows(aliases, events, b, i)
    ensures RenamedOnceShown(aliases, events, i)
  {
    hide Shows, Renames;
  }

  /** Over a whole run, the client is told of a call at most once, and so under one number, exactly when
      no event renames the call between two events that show it. */
  lemma OneNumberExactly(aliases: Aliases, events: seq<Event>, i: nat)
    ensures var out := WriteAll(FRESH, Seen(aliases, events, |events|)).1;
      (forall p: nat, q: nat | Announces(aliases, events, out, p, i) && Announces(aliases, events, out, q, i) :: p == q)
      <==> !RenamedOnceShown(aliases, events, i)
  {
    var seen := Seen(aliases, events, |events|);
    EveryRunIsWellFormed(seen);
    var (s, out) := WriteAll(FRESH, seen);
    OneIDExactly(aliases, events, i);
    hide At, IDAt, ShownAs, RenamedOnceShown, Seen, WriteAll, Inv;
    if OneID(aliases, events, i) {
      forall p: nat, q: nat | Announces(aliases, events, out, p, i) && Announces(aliases, events, out, q, i) ensures p == q {
        SameAnnouncement(s, out, p, q);
      }
    } else {
      var x, y :| ShownAs(aliases, events, |events|, i, x) && ShownAs(aliases, events, |events|, i, y) && x != y;
      var p := AnnouncedAt(aliases, events, i, x);
      var q := AnnouncedAt(aliases, events, i, y);
      assert out[p].id == x && out[q].id == y;
    }
  }

  lemma SameAnnouncement(s: Streamer, out: seq<Chunk>, p: nat, q: nat)
    requires Inv(s, out) && p < |out| && q < |out| && out[p].Announce? && out[q].Announce? && out[p].id == out[q].id
    ensures p == q
  {
    hide Received, NumberedApart, AnnouncedIn;
    assert out[p].index == s.indexByCallID[out[p].id] == out[q].index;
  }

  lemma AnnouncedAt(aliases: Aliases, events: seq<Event>, i: nat, id: string) returns (p: nat)
    requires ShownAs(aliases, events, |events|, i, id)
    ensures var out := WriteAll(FRESH, Seen(aliases, events, |events|)).1;
      p < |out| && out[p].Announce? && out[p].id == id && Announces(aliases, events, out, p, i)
  {
    var seen := Seen(aliases, events, |events|);
    EveryRunIsWellFormed(seen);
    AnnouncedIDs(aliases, events, |events|, id);
    hide ShownAs, Seen, WriteAll, NumberedApart, WellFormed, Received;
    var (s, out) := WriteAll(FRESH, seen);
    assert SomeShownAs(aliases, events, |events|, id);
    assert AnnouncedIn(out, s.indexByCallID[id], id);
    p :| p < |out| && out[p].Announce? && out[p].index == s.indexByCallID[id] && out[p].id == id;
  }

  // ----- all of the arguments -----

  function ValueAt(aliases: Aliases, events: seq<Event>, n: nat, i: nat): string
    requires n <= |events|
  {
    if i < |At(aliases, events, n).calls| then ValueOf(At(aliases, events, n).calls[i]) else ""
  }

  /** The event changes what the accumulator has for the call. */
  predicate Changes(aliases: Aliases, events: seq<Event>, n: nat, i: nat) {
    n < |events| && ValueAt(aliases, events, n + 1, i) != ValueAt(aliases, events, n, i)
  }

  /** Every event that changes the call is about it, or a later one is. */
  ghost predicate ChangesAreShown(aliases: Aliases, events: seq<Event>, i: nat) {
    forall n: nat | Changes(aliases, events, n, i) :: exists b: nat :: n <= b && About(aliases, events, b, i)
  }

  lemma {:induction false} ExtendingRun(r: Registry, aliases: Aliases, events: seq<Event>, n: nat)
    requires Sound(r) && Extending(r, aliases, events) && n < |events|
    ensures OnlyExtends(Run(r, aliases, events[..n]), Run(r, aliases, events[..n + 1]))
    decreases |events|
  {
    hide Apply, Sound, OnlyExtends;
    var r1 := Apply(r, aliases, events[0]);
    assert events[..n + 1][1..] == events[1..][..n];
    if n == 0 {
      assert events[..0] == [] && events[1..][..0] == [];
    } else {
      assert events[..n][1..] == events[1..][..n - 1];
      ExtendingRun(r1, aliases, events[1..], n - 1);
    }
  }

  lemma ValueExtends(aliases: Aliases, events: seq<Event>, n: nat, i: nat)
    requires Extending(EMPTY, aliases, events) && n < |events|
    ensures ValueAt(aliases, events, n, i) <= ValueAt(aliases, events, n + 1, i)
  {
    hide Extending, Run, ValueOf;
    ExtendingRun(EMPTY, aliases, events, n);
  }

  /** The value is the same at two points exactly when nothing in between changes it. */
  lemma {:induction false} SameValue(aliases: Aliases, events: seq<Event>, m: nat, n: nat, i: nat)
    requires Extending(EMPTY, aliases, events) && m <= n <= |events|
    ensures ValueAt(aliases, events, m, i) <= ValueAt(aliases, events, n, i)
    ensures ValueAt(aliases, events, m, i) == ValueAt(aliases, events, n, i)
      <==> forall k: nat | m <= k < n :: !Changes(aliases, events, k, i)
    decreases n
  {
    hide Extending, ValueAt;
    if m < n {
      var k := n - 1;
      SameValue(aliases, events, m, k, i);
      ValueExtends(aliases, events, k, i);
      assert Changes(aliases, events, k, i) <==> ValueAt(aliases, events, n, i) != ValueAt(aliases, events, k, i);
    }
  }

  /** The id belongs to the call at a point, and to no other. */
  lemma OwnID(aliases: Aliases, events: seq<Event>, n: nat, i: nat, j: nat, id: string)
    requires n <= |events| && IDAt(aliases, events, n, i) == id == IDAt(aliases, events, n, j) && id != ""
    ensures i == j
  {
    GoodAt(aliases, events, n);
    hide At;
    assert Laws.CallIDsDistinct(At(aliases, events, n));
  }

  lemma SeenNext(aliases: Aliases, events: seq<Event>, n: nat, i: nat, id: string)
    requires n < |events| && IDAt(aliases, events, n + 1, i) == id && id != ""
    ensures LastValue(Seen(aliases, events, n + 1), id)
      == if About(aliases, events, n, i) then ValueAt(aliases, events, n + 1, i) else LastValue(Seen(aliases, events, n), id)
  {
    Next(aliases, events, n);
    var s, seen := At(aliases, events, n + 1), Seen(aliases, events, n);
    var call := CallForEvent(s, events[n]);
    hide Laws.Inv, Laws.Step, At, Apply, CallForEvent, Seen, ValueOf, LastValue;
    if call.Some? {
      var j := call.value;
      LastValueSnoc(seen, s.calls[j], id);
      if s.calls[j].callID == id { OwnID(aliases, events, n + 1, i, j, id); }
    } else {
      assert seen + [] == seen;
    }
  }

  /** The last event about a call that is shown under its final id is what was last written for it. */
  lemma {:induction false} LastShown(aliases: Aliases, events: seq<Event>, a: nat, n: nat, i: nat, id: string) returns (b: nat)
    requires a < n <= |events| && About(aliases, events, a, i) && id != ""
    requires forall m: nat | a < m <= n :: IDAt(aliases, events, m, i) == id
    ensures a <= b < n && About(aliases, events, b, i) && forall k: nat | b < k < n :: !About(aliases, events, k, i)
    ensures LastValue(Seen(aliases, events, n), id) == ValueAt(aliases, events, b + 1, i)
    decreases n
  {
    hide At, IDAt, About, Seen, LastValue, ValueAt;
    SeenNext(aliases, events, n - 1, i, id);
    if About(aliases, events, n - 1, i) {
      b := n - 1;
    } else {
      b := LastShown(aliases, events, a, n - 1, i, id);
    }
  }

  /** The call was shown under the id it has in the end, and has had it ever since. */
  lemma ShownFinally(aliases: Aliases, events: seq<Event>, i: nat, id: string) returns (a: nat)
    requires IDAt(aliases, events, |events|, i) == id && id in WriteAll(FRESH, Seen(aliases, events, |events|)).0.initialized
    ensures a < |events| && About(aliases, events, a, i) && id != ""
    ensures forall m: nat | a < m <= |events| :: IDAt(aliases, events, m, i) == id
  {
    hide *;
    AnnouncedIDs(aliases, events, |events|, id);
    var j := SomeShown(aliases, events, id);
    a := ShownUnder(aliases, events, j, id);
    NamedAbout(aliases, events, a, j);
    ShownIsKnown(aliases, events, a, j);
    if IDAt(aliases, events, a + 1, i) != id { NeverBecomes(aliases, events, a + 1, |events|, i, id); }
    OwnID(aliases, events, a + 1, i, j, id);
    forall m: nat | a < m <= |events| ensures IDAt(aliases, events, m, i) == id {
      if IDAt(aliases, events, m, i) != id { OnceLost(aliases, events, a + 1, m, |events|, i, id); }
    }
  }

  lemma SomeShown(aliases: Aliases, events: seq<Event>, id: string) returns (j: nat)
    requires SomeShownAs(aliases, events, |events|, id)
    ensures ShownAs(aliases, events, |events|, j, id)
  {
    hide ShownAs;
    j :| ShownAs(aliases, events, |events|, j, id);
  }

  lemma NamedAbout(aliases: Aliases, events: seq<Event>, n: nat, i: nat)
    requires Shows(aliases, events, n, i)
    ensures About(aliases, events, n, i)
  {
    hide About;
  }

  /** Over a whole run in which no event takes back what the accumulator has for a call: a client that was
      told of a call under the id it has in the end has all that the accumulator has for it exactly when
      every event that changed it is about it or is followed by one that is. */
  lemma ArgumentsArriveExactly(aliases: Aliases, events: seq<Event>, i: nat)
    requires Extending(EMPTY, aliases, events) && i < |At(aliases, events, |events|).calls|
    ensures var (s, out) := WriteAll(FRESH, Seen(aliases, events, |events|));
      var c := At(aliases, events, |events|).calls[i];
      c.callID in s.initialized && c.callID in s.indexByCallID ==>
        && Received(out, s.indexByCallID[c.callID]) <= ValueOf(c)
        && (Received(out, s.indexByCallID[c.callID]) == ValueOf(c) <==> ChangesAreShown(aliases, events, i))
  {
    hide *;
    var (s, out) := WriteAll(FRESH, Seen(aliases, events, |events|));
    var c := At(aliases, events, |events|).calls[i];
    if c.callID in s.initialized && c.callID in s.indexByCallID {
      ReceivedAtEnd(aliases, events, i);
      CallAtEnd(aliases, events, i);
      LastSeenExactly(aliases, events, i, c.callID);
    }
  }

  lemma CallAtEnd(aliases: Aliases, events: seq<Event>, i: nat)
    requires i < |At(aliases, events, |events|).calls|
    ensures var c := At(aliases, events, |events|).calls[i];
      IDAt(aliases, events, |events|, i) == c.callID && ValueAt(aliases, events, |events|, i) == ValueOf(c)
  {
    hide At, ValueOf;
  }

  lemma LastSeenExactly(aliases: Aliases, events: seq<Event>, i: nat, id: string)
    requires Extending(EMPTY, aliases, events) && IDAt(aliases, events, |events|, i) == id
    requires id in WriteAll(FRESH, Seen(aliases, events, |events|)).0.initialized
    ensures LastValue(Seen(aliases, events, |events|), id) == ValueAt(aliases, events, |events|, i)
      <==> ChangesAreShown(aliases, events, i)
  {
    hide *;
    var a := ShownFinally(aliases, events, i, id);
    var b := LastShown(aliases, events, a, |events|, i, id);
    SameValue(aliases, events, b + 1, |events|, i);
    ShownAfter(aliases, events, i, b);
  }

  lemma ReceivedAtEnd(aliases: Aliases, events: seq<Event>, i: nat)
    requires Extending(EMPTY, aliases, events) && i < |At(aliases, events, |events|).calls|
    ensures var seen := Seen(aliases, events, |events|);
      var (s, out) := WriteAll(FRESH, seen);
      var c := At(aliases, events, |events|).calls[i];
      c.callID in s.initialized && c.callID in s.indexByCallID ==>
        Received(out, s.indexByCallID[c.callID]) == LastValue(seen, c.callID) <= ValueOf(c)
  {
    hide *;
    AtEnd(aliases, events);
    AccumulatorRunReassembles(aliases, events);
  }

  lemma AtEnd(aliases: Aliases, events: seq<Event>)
    ensures Sound(EMPTY) && At(aliases, events, |events|) == Run(EMPTY, aliases, events)
    ensures Seen(aliases, events, |events|) == Snapshots(EMPTY, aliases, events)
  {
    hide Run, Snapshots;
    assert events[..|events|] == events;
  }

  lemma ShownAfter(aliases: Aliases, events: seq<Event>, i: nat, b: nat)
    requires About(aliases, events, b, i) && forall k: nat | b < k < |events| :: !About(aliases, events, k, i)
    ensures ChangesAreShown(aliases, events, i) <==> forall k: nat | b + 1 <= k < |events| :: !Changes(aliases, events, k, i)
  {
    assert forall k: nat | About(aliases, events, k, i) :: k <= b;
    assert forall k: nat | Changes(aliases, events, k, i) :: k < |events|;
    hide About, Changes;
  }

  // ----- an input -----

  /** The first piece of a call that is named by its item id alone. */
  function FirstPiece(i: string, name: string): Event {
    Event(ArgumentsDelta, map["item_id" := Str(i), "name" := Str(name), "delta" := Str("x")])
  }

  function Begun(i: string, name: string): Call {
    Call(i, i, "function", name, "", "x", 0, "in_progress", false, false)
  }

  /** The item, done, then says what its call id is. */
  function LateID(i: string, name: string, c: string): seq<Event> {
    [FirstPiece(i, name), R.Named(i, c)]
  }

  lemma FirstPieceSays(i: string, name: string)
    requires Laws.GoodID(i)
    ensures var raw := FirstPiece(i, name).raw;
      && StringValue(raw, "item_id") == i && StringValue(raw, "call_id") == "" && StringValue(raw, "name") == name
      && StringValue(raw, "delta") == "x" && OutputIndexOf(raw) == -1
    ensures Laws.PlainArguments(FirstPiece(i, name)) && ArgumentIDs(FirstPiece(i, name)) == (i, i)
  {
    var raw := FirstPiece(i, name).raw;
    assert raw.Keys == {"item_id", "name", "delta"};
    R.NothingElse(FirstPiece(i, name));
    assert ["", i][1..] == [i];
    Laws.FirstGood([i]);
  }

  lemma AfterFirstPiece(i: string, name: string)
    requires Laws.GoodID(i) && name != ""
    ensures var r := R.OneCall(Begun(i, name), map[i := 0]);
      Apply(EMPTY, map[], FirstPiece(i, name)) == r && CallForEvent(r, FirstPiece(i, name)) == Some(0)
  {
    hide StringValue, ArgumentIDs, Trimmed, EnsureCall, Apply, OutputIndexOf, Laws.GoodID;
    var event := FirstPiece(i, name);
    FirstPieceSays(i, name);
    Laws.PlainApply(EMPTY, map[], event);
    R.OnlyCall(i);
    var r := Registry([NewCall(i, i, 0)], map[i := 0], [], map[], 1);
    var written := ArgumentWrite(WithName(NewCall(i, i, 0), event.raw, map[]), event);
    assert written == Begun(i, name);
    assert ApplyToolArgumentEvent(EMPTY, map[], event) == WriteCall(r, 0, written);
    assert r.calls[0 := written] == [written];
  }

  lemma LateIDRun(i: string, name: string, c: string)
    requires Laws.GoodID(i) && Laws.GoodID(c) && i != c && name != ""
    ensures var events := LateID(i, name, c);
      && At(map[], events, 1) == R.OneCall(Begun(i, name), map[i := 0])
      && At(map[], events, 2) == R.OneCall(Begun(i, name).(callID := c), map[i := 0, c := 0])
  {
    hide *;
    var events := LateID(i, name, c);
    TwoEvents(i, name, c);
    AfterFirstPiece(i, name);
    BegunIDs(i, name);
    R.RenamedCall(Begun(i, name), i, c);
    NothingRun(map[]);
    RunSnoc(EMPTY, map[], [], FirstPiece(i, name));
    RunSnoc(EMPTY, map[], events[..1], R.Named(i, c));
    AtIs(map[], events, 1);
    AtIs(map[], events, 2);
  }

  lemma TwoEvents(i: string, name: string, c: string)
    ensures var events := LateID(i, name, c);
      && |events| == 2 && events[0] == FirstPiece(i, name) && events[1] == R.Named(i, c)
      && events[..1] == [] + [FirstPiece(i, name)] && events[..2] == events[..1] + [R.Named(i, c)]
  {
    hide R.Named;
  }

  lemma BegunIDs(i: string, name: string)
    ensures var d := Begun(i, name); d.itemID == d.callID == i && d.toolType == "function" && d.name == name
  {}

  lemma NothingRun(aliases: Aliases)
    ensures Sound(EMPTY) && Run(EMPTY, aliases, []) == EMPTY
  {}

  lemma AtIs(aliases: Aliases, events: seq<Event>, n: nat)
    requires n <= |events|
    ensures Sound(EMPTY) && At(aliases, events, n) == Run(EMPTY, aliases, events[..n])
  {
    hide Run;
  }

  /** A call that is announced under its item id and gets its call id later is announced once more. */
  lemma RenamedIsAnnouncedAgain(i: string, name: string, c: string)
    requires Laws.GoodID(i) && Laws.GoodID(c) && i != c && !Blank(name)
    ensures var events := LateID(i, name, c);
      var out := WriteAll(FRESH, Seen(map[], events, 2)).1;
      exists p: nat, q: nat :: p != q && Announces(map[], events, out, p, 0) && Announces(map[], events, out, q, 0)
  {
    hide *;
    LateIDRenames(i, name, c);
    TwoEvents(i, name, c);
    OneNumberExactly(map[], LateID(i, name, c), 0);
  }

  lemma LateIDRenames(i: string, name: string, c: string)
    requires Laws.GoodID(i) && Laws.GoodID(c) && i != c && !Blank(name)
    ensures RenamedOnceShown(map[], LateID(i, name, c), 0)
  {
    assert name != "" by { assert Blank(""); }
    hide *;
    var events, begun, named := LateID(i, name, c), Begun(i, name), Begun(i, name).(callID := c);
    LateIDRun(i, name, c);
    TwoEvents(i, name, c);
    BegunIDs(i, name);
    HeldCall(begun, map[i := 0]);
    HeldCall(named, map[i := 0, c := 0]);
    FirstFinds(i, name);
    R.NamedFinds(R.OneCall(named, map[i := 0, c := 0]), i, c);
    LateIDHolds(events, begun, named);
  }

  lemma FirstFinds(i: string, name: string)
    requires Laws.GoodID(i) && name != ""
    ensures var r := R.OneCall(Begun(i, name), map[i := 0]); Sound(r) && CallForEvent(r, FirstPiece(i, name)) == Some(0)
  {
    hide *;
    AfterFirstPiece(i, name);
    HeldCall(Begun(i, name), map[i := 0]);
  }

  lemma LateIDHolds(events: seq<Event>, c: Call, d: Call)
    requires |events| == 2 && At(map[], events, 1).calls == [c] && At(map[], events, 2).calls == [d] && c.callID != d.callID
    requires !Blank(c.name) && !Blank(d.name)
    requires CallForEvent(At(map[], events, 1), events[0]) == Some(0) && CallForEvent(At(map[], events, 2), events[1]) == Some(0)
    ensures RenamedOnceShown(map[], events, 0)
  {
    hide *;
    ShowsIt(map[], events, 0, c);
    ShowsIt(map[], events, 1, d);
    RenamesIt(map[], events, c, d);
    RenamedHere(map[], events, 0, 1, 1, 0);
  }

  lemma ShowsIt(aliases: Aliases, events: seq<Event>, n: nat, d: Call)
    requires n < |events| && At(aliases, events, n + 1).calls == [d] && !Blank(d.name)
    requires CallForEvent(At(aliases, events, n + 1), events[n]) == Some(0)
    ensures Shows(aliases, events, n, 0)
  {
    hide At, CallForEvent, Blank;
  }

  lemma RenamesIt(aliases: Aliases, events: seq<Event>, c: Call, d: Call)
    requires |events| == 2 && At(aliases, events, 1).calls == [c] && At(aliases, events, 2).calls == [d] && c.callID != d.callID
    ensures Renames(aliases, events, 1, 0)
  {
    hide At;
  }

  lemma HeldCall(d: Call, byID: map<string, nat>)
    ensures R.OneCall(d, byID).calls == [d] && R.OneCall(d, byID).byID == byID
    ensures (forall id | id in byID :: byID[id] == 0) ==> Sound(R.OneCall(d, byID))
  {}
}
