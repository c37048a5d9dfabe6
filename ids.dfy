/** The identifier check the stores run before touching a table: the
    parse `uuid.UUID(s)` performs on a string, and the canonical text form
    of the ids `uuid4()` hands out. */
module Ids {

  /** `s.replace(pat, '')`: every non-overlapping occurrence, scanning left
      to right, removed. */
  function RemoveAll(s: string, pat: string): (r: string)
    ensures |r| <= |s|
    decreases |s|
  {
    if |pat| == 0 || |s| < |pat| then s
    else if s[..|pat|] == pat then RemoveAll(s[|pat|..], pat)
    else [s[0]] + RemoveAll(s[1..], pat)
  }

  /** `s.strip(cs)`: characters of `cs` removed from both ends. */
  function StripChars(s: string, cs: set<char>): (r: string)
    ensures |r| <= |s|
    decreases |s|
  {
    if |s| > 0 && s[0] in cs then StripChars(s[1..], cs)
    else if |s| > 0 && s[|s| - 1] in cs then StripChars(s[..|s| - 1], cs)
    else s
  }

  predicate IsHexDigit(c: char) {
    '0' <= c <= '9' || 'a' <= c <= 'f' || 'A' <= c <= 'F'
  }

  /** What the parse keeps once prefixes, braces and hyphens are gone; it
      must be 32 characters long. */
  function HexPart(s: string): string {
    RemoveAll(StripChars(RemoveAll(RemoveAll(s, "urn:"), "uuid:"), {'{', '}'}), "-")
  }

  /** The ASCII characters `int()` treats as whitespace: tab to carriage
      return, the four separators 0x1C to 0x1F, and the space. */
  const Spaces: set<char> := {'\t', '\n', '\U{B}', '\U{C}', '\r', '\U{1C}', '\U{1D}', '\U{1E}', '\U{1F}', ' '}

  /** Hex digits, with single underscores allowed between two digits. */
  predicate Grouped(s: string) {
    |s| > 0 && IsHexDigit(s[0])
    && forall i :: 0 <= i < |s| ==> IsHexDigit(s[i]) || (s[i] == '_' && i + 1 < |s| && IsHexDigit(s[i + 1]))
  }

  /** `int(h, 16)` accepts `h`: surrounding whitespace, an optional `+`, an
      optional `0x`/`0X` prefix which one underscore may follow, then grouped
      hex digits. (`-` cannot occur: the hyphens are already removed.) */
  predicate ParsesAsHex(h: string) {
    var t := StripChars(h, Spaces);
    var u := if |t| > 0 && t[0] == '+' then t[1..] else t;
    if |u| >= 2 && u[0] == '0' && (u[1] == 'x' || u[1] == 'X') then
      var v := u[2..];
      Grouped(v) || (|v| > 0 && v[0] == '_' && Grouped(v[1..]))
    else Grouped(u)
  }

  /** `uuid.UUID(s)` does not raise `ValueError`: 32 characters are left, and
      `int(..., 16)` parses them. At most 32 hex digits are always below
      2**128, so the range check never fails. */
  predicate IsUuid(s: string) {
    var h := HexPart(s);
    |h| == 32 && ParsesAsHex(h)
  }

  predicate IsHyphenPosition(i: int) { i == 8 || i == 13 || i == 18 || i == 23 }

  /** `str(uuid4())`: 8-4-4-4-12 lower-case hex digits separated by hyphens. */
  predicate Canonical(s: string) {
    |s| == 36
    && (forall i :: 0 <= i < |s| && IsHyphenPosition(i) ==> s[i] == '-')
    && (forall i :: 0 <= i < |s| && !IsHyphenPosition(i) ==> '0' <= s[i] <= '9' || 'a' <= s[i] <= 'f')
  }

  lemma {:induction false} RemoveAbsent(s: string, pat: string)
    requires |pat| > 0 && pat[0] !in s
    ensures RemoveAll(s, pat) == s
    decreases |s|
  {
    if |pat| <= |s| {
      assert s[..|pat|][0] == s[0];
      RemoveAbsent(s[1..], pat);
      assert s == [s[0]] + s[1..];
    }
  }

  lemma {:induction false} RemoveCharConcat(x: string, y: string, c: char)
    ensures RemoveAll(x + y, [c]) == RemoveAll(x, [c]) + RemoveAll(y, [c])
    decreases |x|
  {
    if |x| == 0 {
      assert x + y == y;
    } else {
      assert (x + y)[..1] == x[..1];
      assert (x + y)[1..] == x[1..] + y;
      RemoveCharConcat(x[1..], y, c);
    }
  }

  /** A hyphen-free piece of the canonical form, all hex digits. */
  predicate HexRun(s: string) {
    forall i :: 0 <= i < |s| ==> '0' <= s[i] <= '9' || 'a' <= s[i] <= 'f'
  }

  lemma HyphenThenRun(x: string, acc: string, p: string)
    requires RemoveAll(x, "-") == acc && HexRun(p)
    ensures RemoveAll(x + "-" + p, "-") == acc + p
  {
    assert '-' !in p;
    RemoveAbsent(p, "-");
    var xd := x + "-";
    assert RemoveAll("-", "-") == [] by {
      assert "-"[..1] == "-" && "-"[1..] == [];
    }
    RemoveCharConcat(x, "-", '-');
    assert RemoveAll(xd, "-") == acc + [];
    RemoveCharConcat(xd, p, '-');
    assert acc + [] + p == acc + p;
  }

  lemma CanonicalPieces(s: string)
    requires Canonical(s)
    ensures s == s[..8] + "-" + s[9..13] + "-" + s[14..18] + "-" + s[19..23] + "-" + s[24..]
    ensures HexRun(s[..8]) && HexRun(s[9..13]) && HexRun(s[14..18]) && HexRun(s[19..23]) && HexRun(s[24..])
  {
    assert s[..8] + "-" == s[..9];
    assert s[..9] + s[9..13] == s[..13];
    assert s[..13] + "-" == s[..14];
    assert s[..14] + s[14..18] == s[..18];
    assert s[..18] + "-" == s[..19];
    assert s[..19] + s[19..23] == s[..23];
    assert s[..23] + "-" == s[..24];
    assert s[..24] + s[24..] == s;
  }

  lemma HexRunConcat(x: string, y: string)
    requires HexRun(x) && HexRun(y)
    ensures HexRun(x + y)
  {
    forall i | 0 <= i < |x + y| ensures '0' <= (x + y)[i] <= '9' || 'a' <= (x + y)[i] <= 'f' {
      if i < |x| { assert (x + y)[i] == x[i]; } else { assert (x + y)[i] == y[i - |x|]; }
    }
  }

  /** The canonical form has no `u` (so neither prefix occurs) and no brace
      at either end. */
  lemma CanonicalUntouched(s: string)
    requires Canonical(s)
    ensures RemoveAll(RemoveAll(s, "urn:"), "uuid:") == s
    ensures StripChars(s, {'{', '}'}) == s
  {
    assert 'u' !in s by {
      forall i | 0 <= i < |s| ensures s[i] != 'u' {
        if IsHyphenPosition(i) { assert s[i] == '-'; } else { assert '0' <= s[i] <= '9' || 'a' <= s[i] <= 'f'; }
      }
    }
    RemoveAbsent(s, "urn:");
    RemoveAbsent(s, "uuid:");
    assert s[0] !in {'{', '}'} && s[|s| - 1] !in {'{', '}'} by {
      assert !IsHyphenPosition(0) && !IsHyphenPosition(35);
    }
  }

  /** Removing the hyphens leaves the five hex groups, joined. */
  lemma CanonicalDigits(s: string)
    requires Canonical(s)
    ensures RemoveAll(s, "-") == s[..8] + s[9..13] + s[14..18] + s[19..23] + s[24..]
  {
    CanonicalPieces(s);
    var a, b, c, d, e := s[..8], s[9..13], s[14..18], s[19..23], s[24..];
    assert '-' !in a;
    RemoveAbsent(a, "-");
    HyphenThenRun(a, a, b);
    HyphenThenRun(a + "-" + b, a + b, c);
    HyphenThenRun(a + "-" + b + "-" + c, a + b + c, d);
    HyphenThenRun(a + "-" + b + "-" + c + "-" + d, a + b + c + d, e);
  }

  /** Every id the stores hand out passes their own format check. */
  lemma CanonicalIsUuid(s: string)
    requires Canonical(s)
    ensures IsUuid(s)
  {
    CanonicalUntouched(s);
    CanonicalDigits(s);
    CanonicalPieces(s);
    var a, b, c, d, e := s[..8], s[9..13], s[14..18], s[19..23], s[24..];
    HexRunConcat(a, b);
    HexRunConcat(a + b, c);
    HexRunConcat(a + b + c, d);
    HexRunConcat(a + b + c + d, e);
    var h := a + b + c + d + e;
    assert HexPart(s) == h && |h| == 32;
    RunParses(h);
  }

  /** A non-empty run of lower-case hex digits is grouped, trivially. */
  lemma RunGrouped(h: string)
    requires |h| > 0 && HexRun(h)
    ensures Grouped(h)
  {
    forall i | 0 <= i < |h| ensures IsHexDigit(h[i]) {
      assert '0' <= h[i] <= '9' || 'a' <= h[i] <= 'f';
    }
  }

  /** A run of lower-case hex digits parses as it stands: no whitespace to
      strip, no sign, and no `x` to make a prefix. */
  lemma RunParses(h: string)
    requires |h| >= 2 && HexRun(h)
    ensures ParsesAsHex(h)
  {
    assert StripChars(h, Spaces) == h;
    assert h[1] != 'x' && h[1] != 'X';
    RunGrouped(h);
  }

  /** Hex digits behind a `+` sign, 32 characters in all, pass the check as
      well: `int()` takes the sign. */
  lemma SignedIsUuid(d: string)
    requires |d| == 31 && HexRun(d)
    ensures IsUuid("+" + d)
  {
    var s := "+" + d;
    assert 'u' !in s && '-' !in s by {
      forall i | 0 <= i < |s| ensures s[i] != 'u' && s[i] != '-' {
        if i > 0 { assert s[i] == d[i - 1]; }
      }
    }
    RemoveAbsent(s, "urn:");
    RemoveAbsent(s, "uuid:");
    assert s[|s| - 1] == d[30];
    assert StripChars(s, {'{', '}'}) == s;
    RemoveAbsent(s, "-");
    assert HexPart(s) == s;
    assert StripChars(s, Spaces) == s;
    assert s[1..] == d;
    RunGrouped(d);
  }

  /** So are hex digits behind a `0x` prefix. */
  lemma PrefixedIsUuid(d: string)
    requires |d| == 30 && HexRun(d)
    ensures IsUuid("0x" + d)
  {
    var s := "0x" + d;
    assert 'u' !in s && '-' !in s by {
      forall i | 0 <= i < |s| ensures s[i] != 'u' && s[i] != '-' {
        if i > 1 { assert s[i] == d[i - 2]; }
      }
    }
    RemoveAbsent(s, "urn:");
    RemoveAbsent(s, "uuid:");
    assert s[|s| - 1] == d[29];
    assert StripChars(s, {'{', '}'}) == s;
    RemoveAbsent(s, "-");
    assert HexPart(s) == s;
    assert StripChars(s, Spaces) == s;
    assert s[2..] == d;
    RunGrouped(d);
  }

  /** The empty string, a common "no id" value, is refused. */
  lemma EmptyIsNotUuid()
    ensures !IsUuid("")
  {
  }
}
