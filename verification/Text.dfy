/** Go strings are byte strings: throughout the project one `char` stands for one byte.
    This module has the few library functions on them that the modelled code relies on. */
module Text {

  datatype Option<+T> = None | Some(value: T)

  /** The ASCII white space that Go's strings.TrimSpace removes. */
  predicate IsSpace(c: char) {
    c == ' ' || c == '\t' || c == '\n' || c == '\r' || c as int == 11 || c as int == 12
  }

  /** Neither end of the string is white space. */
  predicate Trimmed(s: string) {
    s == "" || (!IsSpace(s[0]) && !IsSpace(s[|s| - 1]))
  }

  function TrimLeft(s: string): (r: string)
    ensures |r| <= |s|
    ensures r == "" || !IsSpace(r[0])
    ensures r == "" || (s != "" && r[|r| - 1] == s[|s| - 1])
    ensures (s == "" || !IsSpace(s[0])) ==> r == s
  {
    if s != "" && IsSpace(s[0]) then TrimLeft(s[1..]) else s
  }

  function TrimRight(s: string): (r: string)
    ensures r <= s
    ensures r == "" || !IsSpace(r[|r| - 1])
    ensures (s == "" || !IsSpace(s[|s| - 1])) ==> r == s
  {
    if s != "" && IsSpace(s[|s| - 1]) then TrimRight(s[..|s| - 1]) else s
  }

  /** strings.TrimSpace: the result is trimmed, and only a trimmed string is left alone. */
  function TrimSpace(s: string): (r: string)
    ensures Trimmed(r)
    ensures r == s <==> Trimmed(s)
    ensures |r| <= |s|
  {
    TrimRight(TrimLeft(s))
  }

  predicate Blank(s: string) {
    TrimSpace(s) == ""
  }

  /** jsonutil.FirstNonEmpty: the first string that is not all white space, or "". */
  function FirstNonEmpty(values: seq<string>): (r: string)
    ensures r == "" || (r in values && !Blank(r))
    ensures r == "" <==> forall v | v in values :: Blank(v)
  {
    if values == [] then ""
    else if !Blank(values[0]) then values[0]
    else
      assert values == [values[0]] + values[1..];
      FirstNonEmpty(values[1..])
  }

  /** cmp.Or on two strings: the first that is not "". */
  function Or(a: string, b: string): string {
    if a != "" then a else b
  }

  function LowerChar(c: char): char {
    if 'A' <= c <= 'Z' then (c as int + 32) as char else c
  }

  /** strings.ToLower on ASCII. */
  function ToLower(s: string): (r: string)
    ensures |r| == |s|
  {
    seq(|s|, i requires 0 <= i < |s| => LowerChar(s[i]))
  }

  // ----- decimal numerals -----

  predicate IsDigit(c: char) {
    '0' <= c <= '9'
  }

  function Digit(n: nat): (c: char)
    requires n < 10
    ensures IsDigit(c)
  {
    (n + '0' as int) as char
  }

  /** strconv.Itoa on a non-negative integer. */
  function Itoa(n: nat): (s: string)
    ensures s != "" && forall i | 0 <= i < |s| :: IsDigit(s[i])
  {
    if n < 10 then [Digit(n)] else Itoa(n / 10) + [Digit(n % 10)]
  }

  /** The number a digit string denotes; it undoes Itoa. */
  ghost function Denotes(s: string): int {
    if s == "" then 0 else Denotes(s[..|s| - 1]) * 10 + (s[|s| - 1] as int - '0' as int)
  }

  lemma {:induction false} ItoaDenotes(n: nat)
    ensures Denotes(Itoa(n)) == n
  {
    if n < 10 {
      assert Denotes([Digit(n)][..0]) == 0;
    } else {
      ItoaDenotes(n / 10);
      var s := Itoa(n / 10) + [Digit(n % 10)];
      assert s[..|s| - 1] == Itoa(n / 10);
    }
  }

  lemma ItoaInjective(m: nat, n: nat)
    requires Itoa(m) == Itoa(n)
    ensures m == n
  {
    ItoaDenotes(m);
    ItoaDenotes(n);
  }

  lemma {:induction false} ItoaLength(n: nat, d: nat)
    requires n < Pow10(d) && 1 <= d
    ensures |Itoa(n)| <= d
  {
    if n >= 10 {
      ItoaLength(n / 10, d - 1);
    }
  }

  ghost function Pow10(d: nat): nat {
    if d == 0 then 1 else 10 * Pow10(d - 1)
  }

  lemma ShorterTail(a: string, b: string, s: string, t: string)
    requires a + "_" + s == b + "_" + t && |s| < |t|
    ensures '_' in t
  {
    var whole := a + "_" + s;
    assert whole[|a|] == '_';
    assert whole[|a|] == t[|a| - |b| - 1];
  }

  /** Two concatenations that agree and whose tails have no underscore but one at their front
      have the same tail. */
  lemma LastUnderscore(a: string, b: string, s: string, t: string)
    requires a + "_" + s == b + "_" + t
    requires '_' !in s && '_' !in t
    ensures s == t
  {
    if |s| < |t| {
      ShorterTail(a, b, s, t);
    } else if |t| < |s| {
      ShorterTail(b, a, t, s);
    } else {
      var whole := a + "_" + s;
      assert whole[|a| + 1..] == s;
      assert whole[|a| + 1..] == t;
    }
  }

  /** strings.Join(parts, ""), used to speak of the pieces of a streamed value together. */
  ghost function Concat(parts: seq<string>): string {
    if parts == [] then "" else Concat(parts[..|parts| - 1]) + parts[|parts| - 1]
  }

  lemma ConcatSnoc(parts: seq<string>, last: string)
    ensures Concat(parts + [last]) == Concat(parts) + last
  {
    assert (parts + [last])[..|parts|] == parts;
  }

  // ----- what trimming takes -----

  predicate AllSpace(s: string) {
    forall k | 0 <= k < |s| :: IsSpace(s[k])
  }

  lemma {:induction false} TrimLeftTakes(s: string) returns (white: string)
    ensures s == white + TrimLeft(s) && AllSpace(white)
  {
    white := "";
    if s != "" && IsSpace(s[0]) {
      var rest := TrimLeftTakes(s[1..]);
      white := [s[0]] + rest;
      assert s == [s[0]] + s[1..];
    }
  }

  lemma {:induction false} TrimRightTakes(s: string) returns (white: string)
    ensures s == TrimRight(s) + white && AllSpace(white)
  {
    white := "";
    if s != "" && IsSpace(s[|s| - 1]) {
      var rest := TrimRightTakes(s[..|s| - 1]);
      white := rest + [s[|s| - 1]];
      assert s == s[..|s| - 1] + [s[|s| - 1]];
    }
  }

  /** Trimming takes white space from both ends and nothing else. */
  lemma TrimTakes(s: string) returns (left: string, right: string)
    ensures s == left + TrimSpace(s) + right && AllSpace(left) && AllSpace(right)
  {
    left := TrimLeftTakes(s);
    right := TrimRightTakes(TrimLeft(s));
  }

  /** Everything in front of the string that is taken is white space. */
  lemma {:induction false} FirstNonEmptyIsFirst(values: seq<string>, k: nat)
    requires k < |values| && !Blank(values[k]) && forall j | 0 <= j < k :: Blank(values[j])
    ensures FirstNonEmpty(values) == values[k]
  {
    hide Blank;
    if k > 0 {
      assert Blank(values[0]);
      forall j | 0 <= j < k - 1 ensures Blank(values[1..][j]) { assert values[1..][j] == values[j + 1]; }
      FirstNonEmptyIsFirst(values[1..], k - 1);
    }
  }
}
