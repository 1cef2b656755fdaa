/** The two Go string helpers the controller and the URL assembly rely on:
    `strings.TrimSpace` and `strings.Split` with a one-character separator.
    Strings are sequences of Unicode code points (Go's runes). */
module Text {

  /** Go's `unicode.IsSpace`: the Latin-1 spaces and the Unicode White_Space
      code points above U+00FF. */
  predicate IsSpace(c: char) {
    var n := c as int;
    || n == 0x09 || n == 0x0A || n == 0x0B || n == 0x0C || n == 0x0D || n == 0x20
    || n == 0x85 || n == 0xA0
    || n == 0x1680 || (0x2000 <= n <= 0x200A) || n == 0x2028 || n == 0x2029
    || n == 0x202F || n == 0x205F || n == 0x3000
  }

  predicate AllSpace(s: string) {
    forall k :: 0 <= k < |s| ==> IsSpace(s[k])
  }

  /** A string that has nothing left to trim: empty, or neither end is a space. */
  predicate Trimmed(s: string) {
    s == [] || (!IsSpace(s[0]) && !IsSpace(s[|s| - 1]))
  }

  /** Drops the leading spaces: the result is a suffix of `s`, everything cut is
      space, and the result does not start with a space. */
  function TrimLeft(s: string): (r: string)
    ensures |r| <= |s| && r == s[|s| - |r|..]
    ensures AllSpace(s[..|s| - |r|])
    ensures r != [] ==> !IsSpace(r[0])
    decreases |s|
  {
    if s != [] && IsSpace(s[0]) then
      var r := TrimLeft(s[1..]);
      assert s[..|s| - |r|] == [s[0]] + s[1..][..|s| - 1 - |r|];
      r
    else
      s
  }

  /** Drops the trailing spaces: the result is a prefix of `s`, everything cut is
      space, and the result does not end with a space. */
  function TrimRight(s: string): (r: string)
    ensures |r| <= |s| && r == s[..|r|]
    ensures AllSpace(s[|r|..])
    ensures r != [] ==> !IsSpace(r[|r| - 1])
    decreases |s|
  {
    if s != [] && IsSpace(s[|s| - 1]) then
      var r := TrimRight(s[..|s| - 1]);
      assert s[|r|..] == s[..|s| - 1][|r|..] + [s[|s| - 1]];
      r
    else
      s
  }

  lemma AllSpaceConcat(a: string, b: string)
    ensures AllSpace(a + b) <==> AllSpace(a) && AllSpace(b)
  {
    if AllSpace(a + b) {
      assert forall k :: 0 <= k < |a| ==> a[k] == (a + b)[k];
      assert forall k :: 0 <= k < |b| ==> b[k] == (a + b)[|a| + k];
    }
  }

  /** Go's `strings.TrimSpace`: empty exactly for an all-space input, and
      otherwise a string that starts and ends with a non-space. */
  function TrimSpace(s: string): (r: string)
    ensures r == [] <==> AllSpace(s)
    ensures Trimmed(r)
  {
    var l := TrimLeft(s);
    var r := TrimRight(l);
    var cut := s[..|s| - |l|];
    assert s == cut + l;
    AllSpaceConcat(cut, l);
    assert r == [] ==> l[|r|..] == l;
    assert l != [] ==> s[|cut|] == l[0];
    assert r != [] ==> r[0] == l[0];
    r
  }

  lemma {:induction false} TrimLeftSpaces(lead: string, s: string)
    requires AllSpace(lead)
    ensures TrimLeft(lead + s) == TrimLeft(s)
    decreases |lead|
  {
    if lead != [] {
      assert (lead + s)[0] == lead[0] && IsSpace(lead[0]);
      assert (lead + s)[1..] == lead[1..] + s;
      assert AllSpace(lead[1..]);
      TrimLeftSpaces(lead[1..], s);
    } else {
      assert lead + s == s;
    }
  }

  lemma {:induction false} TrimRightSpaces(s: string, trail: string)
    requires AllSpace(trail)
    ensures TrimRight(s + trail) == TrimRight(s)
    decreases |trail|
  {
    if trail != [] {
      var t := trail[..|trail| - 1];
      assert (s + trail)[|s + trail| - 1] == trail[|trail| - 1] && IsSpace(trail[|trail| - 1]);
      assert (s + trail)[..|s + trail| - 1] == s + t;
      assert AllSpace(t);
      TrimRightSpaces(s, t);
    } else {
      assert s + trail == s;
    }
  }

  /** TrimSpace removes exactly the surrounding spaces: for any split of a string
      into leading spaces, a trimmed core and trailing spaces, the result is the core. */
  lemma TrimSpaceExact(lead: string, core: string, trail: string)
    requires AllSpace(lead) && AllSpace(trail) && Trimmed(core)
    ensures TrimSpace(lead + core + trail) == core
  {
    var body := core + trail;
    var s := lead + core + trail;
    assert s == lead + body;
    TrimLeftSpaces(lead, body);
    assert TrimSpace(s) == TrimRight(TrimLeft(s));
    if core == [] {
      assert body == trail + [];
      TrimLeftSpaces(trail, []);
      assert TrimLeft(s) == [];
    } else {
      assert body[0] == core[0];
      assert TrimLeft(body) == body;
      TrimRightSpaces(core, trail);
      assert TrimRight(core) == core;
    }
  }

  lemma TrimSpaceIdempotent(s: string)
    ensures TrimSpace(TrimSpace(s)) == TrimSpace(s)
  {
    var r := TrimSpace(s);
    assert [] + r + [] == r;
    assert AllSpace([]);
    TrimSpaceExact([], r, []);
  }

  /** Go's `strings.Join` on a non-empty list of fields, with a one-character
      separator. */
  function Join(fields: seq<string>, sep: char): string
    requires |fields| >= 1
    decreases |fields|
  {
    if |fields| == 1 then fields[0] else fields[0] + [sep] + Join(fields[1..], sep)
  }

  /** Go's `strings.IndexByte`: the position of the first occurrence of `c`. */
  function IndexOf(s: string, c: char): (i: nat)
    requires c in s
    ensures i < |s| && s[i] == c && c !in s[..i]
    decreases |s|
  {
    if s[0] == c then 0
    else
      assert c in s[1..] by { assert s == [s[0]] + s[1..]; }
      var i := IndexOf(s[1..], c) + 1;
      assert s[..i] == [s[0]] + s[1..][..i - 1];
      i
  }

  /** Go's `strings.Split` with a one-character separator: at least one field, no
      field holds the separator, there is only one field exactly when the separator
      does not occur, and joining the fields back gives the input. */
  function Split(s: string, sep: char): (r: seq<string>)
    ensures |r| >= 1
    ensures forall i :: 0 <= i < |r| ==> sep !in r[i]
    ensures |r| == 1 <==> sep !in s
    ensures Join(r, sep) == s
    decreases |s|
  {
    if sep !in s then
      [s]
    else
      var i := IndexOf(s, sep);
      var rest := Split(s[i + 1..], sep);
      assert s == s[..i] + [sep] + s[i + 1..];
      var r := [s[..i]] + rest;
      assert r[1..] == rest;
      r
  }

  /** The field after the first separator runs to the next separator or the end:
      for any string holding the separator, written as the text before its first
      separator, that separator, a field without one, and a rest that is empty or
      starts with the separator, Split's first two fields are those two texts. */
  lemma SplitSecondField(lead: string, field: string, rest: string, sep: char)
    requires sep !in lead && sep !in field
    requires rest == [] || rest[0] == sep
    ensures |Split(lead + [sep] + field + rest, sep)| >= 2
    ensures Split(lead + [sep] + field + rest, sep)[0] == lead
    ensures Split(lead + [sep] + field + rest, sep)[1] == field
  {
    var s := lead + [sep] + field + rest;
    assert s[|lead|] == sep;
    var i := IndexOf(s, sep);
    assert s[..i] == lead;
    var t := s[i + 1..];
    assert t == field + rest;
    if rest == [] {
      assert t == field;
    } else {
      assert t[|field|] == sep;
      var j := IndexOf(t, sep);
      assert t[..j] == field;
    }
  }
}
