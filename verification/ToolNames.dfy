/** internal/turn/tool_names.go: upstream accepts tool names of at most 64 bytes, so longer names
    are replaced by short ones that have to lead back to the original. */
module ToolNames {
  import opened Text

  const MAX_TOOL_NAME_LENGTH: nat := 64

  /** The largest length a Go map can report: it bounds the number of names in use, and with it
      the number of digits of a suffix. */
  const MAX_INT: nat := 0x7fff_ffff_ffff_ffff

  /** The three maps of the Go type: originalToShort, shortToOriginal and used. */
  datatype Names = Names(short: map<string, string>, original: map<string, string>, used: set<string>)

  // ----- candidates -----

  /** strings.LastIndex(s, "__"), -1 when there is none. */
  function LastDoubleUnderscore(s: string): (i: int)
    ensures i == -1 || (0 <= i && i + 2 <= |s| && s[i] == '_' && s[i + 1] == '_')
    ensures forall j | i < j < |s| - 1 && 0 <= j :: !(s[j] == '_' && s[j + 1] == '_')
  {
    if |s| < 2 then -1
    else if s[|s| - 2] == '_' && s[|s| - 1] == '_' then |s| - 2
    else LastDoubleUnderscore(s[..|s| - 1])
  }

  function Truncate(s: string): string {
    if |s| > MAX_TOOL_NAME_LENGTH then s[..MAX_TOOL_NAME_LENGTH] else s
  }

  function ToolNameCandidate(name: string): (r: string)
    ensures |r| <= MAX_TOOL_NAME_LENGTH
    ensures name != "" ==> r != ""
    ensures |name| <= MAX_TOOL_NAME_LENGTH ==> r == name
  {
    if |name| <= MAX_TOOL_NAME_LENGTH then name
    else
      var index := LastDoubleUnderscore(name);
      if "mcp__" <= name && index > 0 then Truncate("mcp__" + name[index + 2..])
      else name[..MAX_TOOL_NAME_LENGTH]
  }

  predicate TwoUnderscores(name: string, i: nat) {
    i + 2 <= |name| && name[i] == '_' && name[i + 1] == '_'
  }

  /** A name up to the limit. */
  predicate IsCut(short: string, name: string) {
    short <= name && (short == name || |short| == MAX_TOOL_NAME_LENGTH)
  }

  /** Of a name that is too long, the server's name goes: `mcp__` stays, and what follows the last two
      underscores, up to the limit. */
  lemma LongServerName(name: string, i: nat)
    requires |name| > MAX_TOOL_NAME_LENGTH && "mcp__" <= name
    requires TwoUnderscores(name, i) && forall j | i < j < |name| :: !TwoUnderscores(name, j)
    ensures IsCut(ToolNameCandidate(name), "mcp__" + name[i + 2..])
  {
    LastAt(name, i);
    StartsAtThree(name);
    CandidateOfServer(name);
    hide *;
    TruncateTakes("mcp__" + name[i + 2..]);
  }

  lemma StartsAtThree(name: string)
    requires "mcp__" <= name
    ensures LastDoubleUnderscore(name) >= 3
  {
    var last := LastDoubleUnderscore(name);
    hide LastDoubleUnderscore;
    assert name[3] == "mcp__"[3] && name[4] == "mcp__"[4];
  }

  lemma CandidateOfServer(name: string)
    requires |name| > MAX_TOOL_NAME_LENGTH && "mcp__" <= name && LastDoubleUnderscore(name) > 0
    ensures ToolNameCandidate(name) == Truncate("mcp__" + name[LastDoubleUnderscore(name) + 2..])
  {
    hide LastDoubleUnderscore, Truncate;
  }

  lemma TruncateTakes(s: string)
    ensures IsCut(Truncate(s), s)
  {}

  lemma LastAt(name: string, i: nat)
    requires TwoUnderscores(name, i) && forall j | i < j < |name| :: !TwoUnderscores(name, j)
    ensures LastDoubleUnderscore(name) == i
  {
    var last := LastDoubleUnderscore(name);
    hide LastDoubleUnderscore;
    if last > i { assert TwoUnderscores(name, last); }
  }

  /** Any other is cut. */
  lemma LongName(name: string)
    requires |name| > MAX_TOOL_NAME_LENGTH && !("mcp__" <= name)
    ensures ToolNameCandidate(name) <= name && |ToolNameCandidate(name)| == MAX_TOOL_NAME_LENGTH
  {}

  function Suffix(n: nat): string {
    "_" + Itoa(n)
  }

  /** The n-th name the search loop tries for a base that is taken. */
  function Suffixed(base: string, n: nat): (r: string)
    requires n <= MAX_INT
    ensures |r| <= MAX_TOOL_NAME_LENGTH && r != ""
  {
    SuffixLength(n);
    var room := MAX_TOOL_NAME_LENGTH - |Suffix(n)|;
    base[..if |base| < room then |base| else room] + Suffix(n)
  }

  lemma SuffixLength(n: nat)
    requires n <= MAX_INT
    ensures |Suffix(n)| <= 20
  {
    assert Pow10(9) == 1_000_000_000;
    assert Pow10(19) == 10_000_000_000_000_000_000 by {
      assert Pow10(14) == 100_000 * Pow10(9);
      assert Pow10(19) == 100_000 * Pow10(14);
    }
    ItoaLength(n, 19);
  }

  lemma SuffixedInjective(base: string, m: nat, n: nat)
    requires m <= MAX_INT && n <= MAX_INT
    requires Suffixed(base, m) == Suffixed(base, n)
    ensures m == n
  {
    SuffixLength(m);
    SuffixLength(n);
    var i, j := |Suffixed(base, m)| - |Suffix(m)|, |Suffixed(base, n)| - |Suffix(n)|;
    assert Suffixed(base, m) == base[..i] + "_" + Itoa(m);
    assert Suffixed(base, n) == base[..j] + "_" + Itoa(n);
    LastUnderscore(base[..i], base[..j], Itoa(m), Itoa(n));
    ItoaInjective(m, n);
  }

  /** A suffixed name is the number behind as much of the base as there is room for. */
  lemma SuffixedKeepsBase(base: string, n: nat)
    requires n <= MAX_INT
    ensures exists m: nat :: m <= |base| && Suffixed(base, n) == base[..m] + "_" + Itoa(n)
                             && (m == |base| || |Suffixed(base, n)| == MAX_TOOL_NAME_LENGTH)
  {
    SuffixLength(n);
    var room := MAX_TOOL_NAME_LENGTH - |Suffix(n)|;
    var m := if |base| < room then |base| else room;
    assert Suffixed(base, n) == base[..m] + "_" + Itoa(n);
  }

  // ----- the search stops: the pigeonhole argument -----

  ghost predicate AllTaken(base: string, used: set<string>, n: nat)
    requires n <= MAX_INT + 1
  {
    forall k: nat | 1 <= k < n :: Suffixed(base, k) in used
  }

  ghost function Tried(base: string, n: nat): (s: set<string>)
    requires n <= MAX_INT + 1
  {
    set k: nat | 1 <= k < n :: Suffixed(base, k)
  }

  lemma {:induction false} TriedCount(base: string, n: nat)
    requires 1 <= n <= MAX_INT + 1
    ensures |Tried(base, n)| == n - 1
  {
    if n == 1 {
      assert Tried(base, n) == {};
    } else {
      TriedCount(base, n - 1);
      var last := Suffixed(base, n - 1);
      assert last !in Tried(base, n - 1) by {
        forall k: nat | 1 <= k < n - 1 && Suffixed(base, k) == last ensures false {
          SuffixedInjective(base, k, n - 1);
        }
      }
      assert Tried(base, n) == Tried(base, n - 1) + {last};
    }
  }

  lemma SubsetSize<T>(a: set<T>, b: set<T>)
    requires a <= b
    ensures |a| <= |b|
  {
    assert |b| == |a| + |b - a| by {
      assert b == a + (b - a);
    }
  }

  /** When the first n - 1 suffixed names are all taken, at least n - 1 names are in use: the loop
      tries at most |used| + 1 suffixes. */
  lemma SearchBound(base: string, used: set<string>, n: nat)
    requires 1 <= n <= MAX_INT + 1 && AllTaken(base, used, n)
    ensures n <= |used| + 1
  {
    TriedCount(base, n);
    SubsetSize(Tried(base, n), used);
  }

  /** The suffix number at which the loop stops when it starts from n. */
  function FirstFree(base: string, used: set<string>, n: nat): (r: nat)
    requires |used| < MAX_INT
    requires 1 <= n <= MAX_INT + 1 && AllTaken(base, used, n)
    ensures n <= r <= |used| + 1
    ensures Suffixed(base, r) !in used
    ensures forall k | n <= k < r :: Suffixed(base, k) in used
    decreases |used| + 1 - n
  {
    SearchBound(base, used, n);
    if Suffixed(base, n) !in used then n
    else
      SearchBound(base, used, n + 1);
      FirstFree(base, used, n + 1)
  }

  // ----- Shorten on values -----

  function Fresh(m: Names, name: string): (r: string)
    requires name != "" && |m.used| < MAX_INT
    ensures r !in m.used && r != "" && |r| <= MAX_TOOL_NAME_LENGTH
  {
    var candidate := ToolNameCandidate(name);
    if candidate in m.used then Suffixed(candidate, FirstFree(candidate, m.used, 1)) else candidate
  }

  function Record(m: Names, name: string, candidate: string): Names {
    Names(m.short[name := candidate],
          if candidate != name then m.original[candidate := name] else m.original,
          m.used + {candidate})
  }

  function Shortened(m: Names, raw: string): (Names, string)
    requires |m.used| < MAX_INT
  {
    var name := TrimSpace(raw);
    if name == "" then (m, name)
    else if name in m.short then (m, m.short[name])
    else
      var candidate := Fresh(m, name);
      (Record(m, name, candidate), candidate)
  }

  const EMPTY: Names := Names(map[], map[], {})

  /** NewToolNames' first pass: the names that fit keep themselves. */
  function Reserve(m: Names, names: seq<string>): (r: Names)
    decreases |names|
  {
    if names == [] then m
    else
      var name := TrimSpace(names[0]);
      if name == "" || |name| > MAX_TOOL_NAME_LENGTH then Reserve(m, names[1..])
      else Reserve(Names(m.short[name := name], m.original, m.used + {name}), names[1..])
  }

  function ShortenAll(m: Names, names: seq<string>): (r: Names)
    requires |m.used| + |names| < MAX_INT
    decreases |names|
  {
    if names == [] then m
    else
      ShortenGrows(m, names[0]);
      ShortenAll(Shortened(m, names[0]).0, names[1..])
  }

  lemma ShortenGrows(m: Names, raw: string)
    requires |m.used| < MAX_INT
    ensures |Shortened(m, raw).0.used| <= |m.used| + 1
  {}

  lemma {:induction false} ReserveGrows(m: Names, names: seq<string>)
    ensures |Reserve(m, names).used| <= |m.used| + |names|
    decreases |names|
  {
    if names != [] {
      var name := TrimSpace(names[0]);
      if name == "" || |name| > MAX_TOOL_NAME_LENGTH {
        ReserveGrows(m, names[1..]);
      } else {
        ReserveGrows(Names(m.short[name := name], m.original, m.used + {name}), names[1..]);
      }
    }
  }

  function New(names: seq<string>): Names
    requires 2 * |names| < MAX_INT
  {
    ReserveGrows(EMPTY, names);
    ShortenAll(Reserve(EMPTY, names), names)
  }

  // ----- the invariant -----

  /** The names in use are exactly the short names. */
  ghost predicate UsedAreShort(m: Names) {
    && (forall n | n in m.short :: m.short[n] in m.used)
    && (forall s | s in m.used :: Issued(m, s))
  }

  ghost predicate Issued(m: Names, s: string) {
    exists n | n in m.short :: m.short[n] == s
  }

  /** No two originals share a short name, and every short name fits. */
  ghost predicate OneToOne(m: Names) {
    && (forall a, b | a in m.short && b in m.short && m.short[a] == m.short[b] :: a == b)
    && (forall n | n in m.short ::
          n != "" && Trimmed(n) && m.short[n] != "" && |m.short[n]| <= MAX_TOOL_NAME_LENGTH)
  }

  /** shortToOriginal is the inverse of originalToShort away from the names that kept themselves. */
  ghost predicate Inverse(m: Names) {
    && (forall s | s in m.original ::
          m.original[s] in m.short && m.short[m.original[s]] == s && m.original[s] != s)
    && (forall n | n in m.short && m.short[n] != n ::
          m.short[n] in m.original && m.original[m.short[n]] == n)
  }

  ghost predicate Bijective(m: Names) {
    UsedAreShort(m) && OneToOne(m) && Inverse(m)
  }

  /** Whatever was issued before is still issued, unchanged. */
  ghost predicate Extends(m: Names, m': Names) {
    && (forall n | n in m.short :: n in m'.short && m'.short[n] == m.short[n])
    && m.used <= m'.used
  }

  lemma RecordUsed(m: Names, name: string, candidate: string)
    requires UsedAreShort(m) && name !in m.short
    ensures UsedAreShort(Record(m, name, candidate))
  {
    var m' := Record(m, name, candidate);
    forall s | s in m'.used ensures Issued(m', s) {
      if s == candidate {
        assert m'.short[name] == s;
      } else {
        assert Issued(m, s);
        var n :| n in m.short && m.short[n] == s;
        assert m'.short[n] == s;
      }
    }
  }

  lemma RecordOneToOne(m: Names, name: string, candidate: string)
    requires UsedAreShort(m) && OneToOne(m) && name != "" && Trimmed(name) && name !in m.short
    requires candidate !in m.used && candidate != "" && |candidate| <= MAX_TOOL_NAME_LENGTH
    ensures OneToOne(Record(m, name, candidate))
  {}

  lemma RecordInverse(m: Names, name: string, candidate: string)
    requires UsedAreShort(m) && Inverse(m) && name !in m.short && candidate !in m.used
    ensures Inverse(Record(m, name, candidate))
  {
    var m' := Record(m, name, candidate);
    forall s | s in m'.original
      ensures m'.original[s] in m'.short && m'.short[m'.original[s]] == s && m'.original[s] != s
    {
      if s in m.original {
        assert m.short[m.original[s]] in m.used;
      }
    }
    forall n | n in m'.short && m'.short[n] != n
      ensures m'.short[n] in m'.original && m'.original[m'.short[n]] == n
    {
      if n != name {
        assert m.short[n] in m.used;
      }
    }
  }

  lemma RecordBijective(m: Names, name: string, candidate: string)
    requires Bijective(m) && name != "" && Trimmed(name) && name !in m.short
    requires candidate !in m.used && candidate != "" && |candidate| <= MAX_TOOL_NAME_LENGTH
    ensures Bijective(Record(m, name, candidate)) && Extends(m, Record(m, name, candidate))
  {
    RecordUsed(m, name, candidate);
    RecordOneToOne(m, name, candidate);
    RecordInverse(m, name, candidate);
  }

  /** One call of Shorten keeps the bijection and everything issued before, and answers with the
      one short name of the trimmed original. */
  lemma ShortenKeepsBijection(m: Names, raw: string)
    requires Bijective(m) && |m.used| < MAX_INT
    ensures Bijective(Shortened(m, raw).0) && Extends(m, Shortened(m, raw).0)
    ensures !Blank(raw) ==>
              && TrimSpace(raw) in Shortened(m, raw).0.short
              && Shortened(m, raw).0.short[TrimSpace(raw)] == Shortened(m, raw).1
    ensures Blank(raw) ==> Shortened(m, raw) == (m, "")
  {
    var name := TrimSpace(raw);
    if name != "" && name !in m.short {
      RecordBijective(m, name, Fresh(m, name));
    }
  }

  lemma {:induction false} ShortenAllKeepsBijection(m: Names, names: seq<string>)
    requires Bijective(m) && |m.used| + |names| < MAX_INT
    ensures Bijective(ShortenAll(m, names)) && Extends(m, ShortenAll(m, names))
    ensures forall i | 0 <= i < |names| && !Blank(names[i]) ::
              TrimSpace(names[i]) in ShortenAll(m, names).short
    decreases |names|
  {
    hide Bijective, Shortened, TrimSpace, Blank;
    if names != [] {
      ShortenKeepsBijection(m, names[0]);
      ShortenGrows(m, names[0]);
      ShortenAllKeepsBijection(Shortened(m, names[0]).0, names[1..]);
      forall i | 0 <= i < |names| && !Blank(names[i])
        ensures TrimSpace(names[i]) in ShortenAll(m, names).short
      {
        if i > 0 { assert names[1..][i - 1] == names[i]; }
      }
    }
  }

  /** Reserve only ever maps names to themselves. */
  ghost predicate AllSelf(m: Names) {
    && (forall n | n in m.short ::
          m.short[n] == n && n != "" && Trimmed(n) && |n| <= MAX_TOOL_NAME_LENGTH)
    && m.used == m.short.Keys
    && m.original == map[]
  }

  predicate Fits(raw: string) {
    !Blank(raw) && |TrimSpace(raw)| <= MAX_TOOL_NAME_LENGTH
  }

  lemma {:induction false} ReserveSelf(m: Names, names: seq<string>)
    requires AllSelf(m)
    ensures AllSelf(Reserve(m, names)) && m.short.Keys <= Reserve(m, names).short.Keys
    ensures forall i | 0 <= i < |names| && Fits(names[i]) ::
              TrimSpace(names[i]) in Reserve(m, names).short
    decreases |names|
  {
    if names != [] {
      var name := TrimSpace(names[0]);
      var m' := if Fits(names[0]) then Names(m.short[name := name], m.original, m.used + {name}) else m;
      assert AllSelf(m') && Reserve(m, names) == Reserve(m', names[1..]);
      hide AllSelf, TrimSpace, Reserve;
      ReserveSelf(m', names[1..]);
      forall i | 0 <= i < |names| && Fits(names[i])
        ensures TrimSpace(names[i]) in Reserve(m, names).short
      {
        if i > 0 { assert names[1..][i - 1] == names[i]; }
      }
    }
  }

  lemma SelfBijective(m: Names)
    requires AllSelf(m)
    ensures Bijective(m)
  {
    forall s | s in m.used ensures Issued(m, s) {
      assert m.short[s] == s;
    }
  }

  /** After NewToolNames and any further sequence of Shorten calls the maps are a bijection
      between the names seen and short names of at most 64 bytes, every non-blank name seen has a
      short name, and a listed name that fits is its own. */
  lemma AnyRunIsBijective(listed: seq<string>, later: seq<string>)
    requires 3 * (|listed| + |later|) < MAX_INT
    ensures 2 * |listed| < MAX_INT && |New(listed).used| + |later| < MAX_INT
    ensures var m := ShortenAll(New(listed), later);
      && Bijective(m) && Extends(New(listed), m)
      && (forall i | 0 <= i < |listed| && !Blank(listed[i]) :: TrimSpace(listed[i]) in m.short)
      && (forall i | 0 <= i < |later| && !Blank(later[i]) :: TrimSpace(later[i]) in m.short)
      && (forall i | 0 <= i < |listed| && Fits(listed[i]) ::
            m.short[TrimSpace(listed[i])] == TrimSpace(listed[i]))
  {
    ReserveGrows(EMPTY, listed);
    ReserveSelf(EMPTY, listed);
    var reserved := Reserve(EMPTY, listed);
    SelfBijective(reserved);
    ShortenAllKeepsBijection(reserved, listed);
    ShortenAllGrows(reserved, listed);
    ShortenAllKeepsBijection(New(listed), later);
  }

  lemma {:induction false} ShortenAllGrows(m: Names, names: seq<string>)
    requires |m.used| + |names| < MAX_INT
    ensures |ShortenAll(m, names).used| <= |m.used| + |names|
    decreases |names|
  {
    if names != [] {
      ShortenGrows(m, names[0]);
      ShortenAllGrows(Shortened(m, names[0]).0, names[1..]);
    }
  }

  // ----- the way back -----

  function RestoreToolName(name: string, aliases: map<string, string>): string {
    var key := TrimSpace(name);
    if key in aliases && aliases[key] != "" then aliases[key] else name
  }

  /** Restoring an issued name gives the original back exactly when the issued name has no white
      space at its ends, which a cut in the middle of a name can leave there. */
  lemma RestoreInvertsShorten(m: Names, name: string)
    requires Bijective(m) && name in m.short
    ensures RestoreToolName(m.short[name], m.original) == name <==> Trimmed(m.short[name])
  {
    var s := m.short[name];
    if !Trimmed(s) && TrimSpace(s) in m.original {
      var other := m.original[TrimSpace(s)];
      assert m.short[other] == TrimSpace(s) != s;
    }
  }

  lemma DigitsEnd(n: nat)
    ensures Itoa(n) != "" && !IsSpace(Itoa(n)[|Itoa(n)| - 1])
  {}

  lemma CandidateStarts(name: string)
    requires name != "" && !IsSpace(name[0])
    ensures ToolNameCandidate(name) != "" && !IsSpace(ToolNameCandidate(name)[0])
  {
    hide LastDoubleUnderscore;
  }

  lemma SuffixedIsTrimmed(base: string, n: nat)
    requires n <= MAX_INT && base != "" && !IsSpace(base[0])
    ensures Trimmed(Suffixed(base, n))
  {
    SuffixLength(n);
    DigitsEnd(n);
    var s := Suffixed(base, n);
    assert s[0] == base[0];
    assert s[|s| - 1] == Itoa(n)[|Itoa(n)| - 1];
    hide Itoa;
  }

  /** A new short name is trimmed exactly when the candidate is, or the candidate is taken and gets a
      suffix. */
  lemma FreshIsTrimmed(m: Names, name: string)
    requires name != "" && Trimmed(name) && |m.used| < MAX_INT
    ensures Trimmed(Fresh(m, name)) <==> Trimmed(ToolNameCandidate(name)) || ToolNameCandidate(name) in m.used
  {
    var candidate := ToolNameCandidate(name);
    CandidateStarts(name);
    hide Suffixed, Trimmed, ToolNameCandidate;
    if candidate in m.used {
      SuffixedIsTrimmed(candidate, FirstFree(candidate, m.used, 1));
    }
  }

  /** A name that is shortened for the first time leads back exactly when its candidate has no white
      space at the ends, or is taken. */
  lemma NewNameLeadsBack(m: Names, raw: string)
    requires Bijective(m) && |m.used| < MAX_INT && !Blank(raw) && TrimSpace(raw) !in m.short
    ensures var name, (m', short) := TrimSpace(raw), Shortened(m, raw);
      RestoreToolName(short, m'.original) == name
      <==> Trimmed(ToolNameCandidate(name)) || ToolNameCandidate(name) in m.used
  {
    ShortenKeepsBijection(m, raw);
    FreshIsTrimmed(m, TrimSpace(raw));
    hide Bijective, Fresh, ToolNameCandidate, RestoreToolName, Trimmed;
    var (m', short) := Shortened(m, raw);
    assert m'.short[TrimSpace(raw)] == short;
    RestoreInvertsShorten(m', TrimSpace(raw));
  }

  /** A listed name whose cut falls just after a space: what was issued for it does not lead back. */
  lemma CutAtSpaceDoesNotComeBack()
    ensures var name := seq(63, _ => 'a') + " b";
      && name in New([name]).short
      && RestoreToolName(New([name]).short[name], New([name]).original) != name
  {
    var name := seq(63, _ => 'a') + " b";
    var m := New([name]);
    AnyRunIsBijective([name], []);
    assert |name| == 65 && name[0] == 'a' && name[64] == 'b' && [name][0] == name;
    assert Reserve(EMPTY, [name]) == EMPTY;
    assert ShortenAll(EMPTY, [name]) == Shortened(EMPTY, name).0;
    assert m.short[name] == name[..64];
    assert name[..64][63] == ' ';
    RestoreInvertsShorten(m, name);
  }

  /** What UpstreamToolName may return: Go visits the aliases in an arbitrary order. */
  ghost predicate UpstreamResult(name: string, aliases: map<string, string>, r: string) {
    if exists s | s in aliases :: aliases[s] == TrimSpace(name)
    then r in aliases && aliases[r] == TrimSpace(name)
    else r == name
  }

  method UpstreamToolName(name: string, aliases: map<string, string>) returns (r: string)
    ensures UpstreamResult(name, aliases, r)
  {
    var trimmed := TrimSpace(name);
    var todo := aliases.Keys;
    while todo != {}
      invariant todo <= aliases.Keys
      invariant forall s | s in aliases && s !in todo :: aliases[s] != trimmed
      decreases todo
    {
      var shortened :| shortened in todo;
      if aliases[shortened] == trimmed { return shortened; }
      todo := todo - {shortened};
    }
    return name;
  }

  /** In whatever order the aliases are visited, sending a restored name upstream yields the
      issued name it came from. */
  lemma UpstreamInvertsRestore(m: Names, name: string, r: string)
    requires Bijective(m) && name in m.short && Trimmed(m.short[name])
    requires UpstreamResult(RestoreToolName(m.short[name], m.original), m.original, r)
    ensures r == m.short[name]
  {
    RestoreInvertsShorten(m, name);
    if m.short[name] != name {
      assert m.original[m.short[name]] == TrimSpace(name);
    }
  }

  // ----- the Go type -----

  class ToolNamesMap {
    var originalToShort: map<string, string>
    var shortToOriginal: map<string, string>
    var used: set<string>

    ghost function View(): Names
      reads this
    {
      Names(originalToShort, shortToOriginal, used)
    }

    constructor (names: seq<string>)
      requires 3 * |names| < MAX_INT
      ensures View() == New(names) && Bijective(View())
    {
      originalToShort, shortToOriginal, used := map[], map[], {};
      new;
      var i := 0;
      while i < |names|
        invariant 0 <= i <= |names|
        invariant Reserve(View(), names[i..]) == Reserve(EMPTY, names)
      {
        var name := TrimSpace(names[i]);
        if name != "" && |name| <= MAX_TOOL_NAME_LENGTH {
          originalToShort := originalToShort[name := name];
          used := used + {name};
        }
        i := i + 1;
      }
      ReserveGrows(EMPTY, names);
      assert View() == Reserve(EMPTY, names);
      i := 0;
      while i < |names|
        invariant 0 <= i <= |names|
        invariant |used| + |names| - i < MAX_INT
        invariant ShortenAll(View(), names[i..]) == New(names)
      {
        ShortenGrows(View(), names[i]);
        var _ := Shorten(names[i]);
        i := i + 1;
      }
      AnyRunIsBijective(names, []);
    }

    method Shorten(raw: string) returns (r: string)
      requires |used| < MAX_INT
      modifies this
      ensures (View(), r) == Shortened(old(View()), raw)
    {
      var name := TrimSpace(raw);
      if name == "" { return name; }
      if name in originalToShort { return originalToShort[name]; }
      var candidate := ToolNameCandidate(name);
      if candidate in used {
        var base := candidate;
        var suffixNumber := 1;
        candidate := Suffixed(base, suffixNumber);
        while candidate in used
          invariant View() == old(View())
          invariant 1 <= suffixNumber <= |used| + 1
          invariant candidate == Suffixed(base, suffixNumber)
          invariant AllTaken(base, used, suffixNumber)
          decreases |used| + 1 - suffixNumber
        {
          SearchBound(base, used, suffixNumber + 1);
          suffixNumber := suffixNumber + 1;
          candidate := Suffixed(base, suffixNumber);
        }
        FirstFreeIs(base, used, suffixNumber);
      }
      originalToShort := originalToShort[name := candidate];
      used := used + {candidate};
      if candidate != name {
        shortToOriginal := shortToOriginal[candidate := name];
      }
      r := candidate;
    }

    method Aliases() returns (r: map<string, string>)
      ensures r == View().original
    {
      r := shortToOriginal;
    }
  }

  lemma FirstFreeIs(base: string, used: set<string>, n: nat)
    requires |used| < MAX_INT && 1 <= n <= |used| + 1
    requires AllTaken(base, used, n) && Suffixed(base, n) !in used
    ensures FirstFree(base, used, 1) == n
  {
    var r := FirstFree(base, used, 1);
  }
}
