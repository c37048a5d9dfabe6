/** The Python string and path operations the pipeline relies on, written
    out over `string` (a sequence of Unicode scalar values, as Python's
    `str` is a sequence of code points). */
module Text {

  /** `str.isspace()` for a single character: the ASCII controls 9..13 and
      28..31, the space, and the Unicode separators Python treats as
      whitespace. */
  predicate IsSpace(c: char) {
    c in Spaces
  }

  const Spaces: set<char> := {' ', '\t', '\n', '\r', '\U{000B}', '\U{000C}', '\U{001C}', '\U{001D}', '\U{001E}', '\U{001F}', '\U{0085}', '\U{00A0}', '\U{1680}', '\U{2000}', '\U{2001}', '\U{2002}', '\U{2003}', '\U{2004}', '\U{2005}', '\U{2006}', '\U{2007}', '\U{2008}', '\U{2009}', '\U{200A}', '\U{2028}', '\U{2029}', '\U{202F}', '\U{205F}', '\U{3000}'}

  predicate AllSpace(s: string) {
    forall i :: 0 <= i < |s| ==> IsSpace(s[i])
  }

  /** `r` is the slice of `s` that starts at `i`. */
  predicate SliceAt(s: string, r: string, i: int) {
    0 <= i <= |s| - |r| && r == s[i..i + |r|]
  }

  /** `s.strip()`: `s` without its leading and trailing whitespace. */
  function Strip(s: string): string
    decreases |s|
  {
    if |s| > 0 && IsSpace(s[0]) then Strip(s[1..])
    else if |s| > 0 && IsSpace(s[|s| - 1]) then Strip(s[..|s| - 1])
    else s
  }

  /** The stripped text neither starts nor ends with whitespace. */
  lemma {:induction false} StripEnds(s: string)
    ensures var r := Strip(s); r == [] || (!IsSpace(r[0]) && !IsSpace(r[|r| - 1]))
    decreases |s|
  {
    if |s| > 0 && IsSpace(s[0]) {
      StripEnds(s[1..]);
    } else if |s| > 0 && IsSpace(s[|s| - 1]) {
      StripEnds(s[..|s| - 1]);
    }
  }

  /** The stripped text is the slice of the text starting at `i`, and all
      that is cut off on either side is whitespace. */
  lemma {:induction false} StripSlice(s: string) returns (i: nat)
    ensures SliceAt(s, Strip(s), i)
    ensures AllSpace(s[..i]) && AllSpace(s[i + |Strip(s)|..])
    decreases |s|
  {
    if |s| > 0 && IsSpace(s[0]) {
      assert Strip(s) == Strip(s[1..]);
      var j := StripSlice(s[1..]);
      i := SliceAfterSpace(s, Strip(s), j);
    } else if |s| > 0 && IsSpace(s[|s| - 1]) {
      assert Strip(s) == Strip(s[..|s| - 1]);
      i := StripSlice(s[..|s| - 1]);
      SliceBeforeSpace(s, Strip(s), i);
    } else {
      i := 0;
      assert s[..0] == [] && s[|s|..] == [];
    }
  }

  /** A whitespace-framed slice of `s[1..]` is one of `s` when `s[0]` is
      whitespace. */
  lemma SliceAfterSpace(s: string, r: string, j: nat) returns (i: nat)
    requires |s| > 0 && IsSpace(s[0])
    requires SliceAt(s[1..], r, j) && AllSpace(s[1..][..j]) && AllSpace(s[1..][j + |r|..])
    ensures i == j + 1 && SliceAt(s, r, i) && AllSpace(s[..i]) && AllSpace(s[i + |r|..])
  {
    var t := s[1..];
    i := j + 1;
    assert s[i..i + |r|] == t[j..j + |r|];
    assert s[..i] == [s[0]] + t[..j];
    AllSpaceJoin([s[0]], t[..j]);
    assert s[i + |r|..] == t[j + |r|..];
  }

  /** A whitespace-framed slice of `s` without its last character is one
      of `s` when that character is whitespace. */
  lemma SliceBeforeSpace(s: string, r: string, i: nat)
    requires |s| > 0 && IsSpace(s[|s| - 1])
    requires var t := s[..|s| - 1]; SliceAt(t, r, i) && AllSpace(t[..i]) && AllSpace(t[i + |r|..])
    ensures SliceAt(s, r, i) && AllSpace(s[..i]) && AllSpace(s[i + |r|..])
  {
    var t := s[..|s| - 1];
    assert s[i..i + |r|] == t[i..i + |r|];
    assert s[..i] == t[..i];
    assert s[i + |r|..] == t[i + |r|..] + [s[|s| - 1]];
    AllSpaceJoin(t[i + |r|..], [s[|s| - 1]]);
  }

  lemma AllSpaceJoin(a: string, b: string)
    requires AllSpace(a) && AllSpace(b)
    ensures AllSpace(a + b)
  {
    forall k | 0 <= k < |a + b| ensures IsSpace((a + b)[k]) {
      if k < |a| { assert (a + b)[k] == a[k]; } else { assert (a + b)[k] == b[k - |a|]; }
    }
  }


  /** Stripping twice strips no more than stripping once. */
  lemma StripIdempotent(s: string)
    ensures Strip(Strip(s)) == Strip(s)
  {
    StripEnds(s);
  }

  /** Stripping gives the empty string exactly when the text is all whitespace. */
  lemma StripEmptyIffBlank(s: string)
    ensures Strip(s) == [] <==> AllSpace(s)
  {
    StripEnds(s);
    var i := StripSlice(s);
    var r := Strip(s);
    if r == [] {
      forall k | 0 <= k < |s| ensures IsSpace(s[k]) {
        if k < i { assert s[k] == s[..i][k]; } else { assert s[k] == s[i..][k - i]; }
      }
    }
  }

  /** `s.split(sep)` for a one-character separator: the maximal pieces between
      separators, always at least one (possibly empty) piece. */
  function Split(s: string, sep: char): (parts: seq<string>)
    ensures |parts| >= 1
    ensures forall k :: 0 <= k < |parts| ==> sep !in parts[k]
  {
    if |s| == 0 then [""]
    else
      var rest := Split(s[1..], sep);
      if s[0] == sep then [""] + rest
      else [[s[0]] + rest[0]] + rest[1..]
  }

  /** `sep.join(parts)`. */
  function Join(parts: seq<string>, sep: string): string
  {
    if |parts| == 0 then ""
    else if |parts| == 1 then parts[0]
    else parts[0] + sep + Join(parts[1..], sep)
  }

  /** Joining the pieces of a split with the separator gives the text back. */
  lemma {:induction false} JoinSplit(s: string, sep: char)
    ensures Join(Split(s, sep), [sep]) == s
  {
    if |s| > 0 {
      var rest := Split(s[1..], sep);
      JoinSplit(s[1..], sep);
      if s[0] == sep {
        assert Join([""] + rest, [sep]) == "" + [sep] + Join(rest, [sep]);
      } else {
        var parts := [[s[0]] + rest[0]] + rest[1..];
        if |rest| == 1 {
          assert Join(parts, [sep]) == [s[0]] + rest[0];
        } else {
          assert parts[1..] == rest[1..];
          assert Join(rest, [sep]) == rest[0] + [sep] + Join(rest[1..], [sep]);
          assert Join(parts, [sep]) == [s[0]] + rest[0] + [sep] + Join(rest[1..], [sep]);
        }
      }
    }
  }

  /** A piece free of the separator, followed by the separator, splits off as
      one piece. */
  lemma {:induction false} SplitAfterPiece(x: string, sep: char, z: string)
    requires sep !in x
    ensures Split(x + [sep] + z, sep) == [x] + Split(z, sep)
  {
    if |x| > 0 {
      SplitAfterPiece(x[1..], sep, z);
      assert (x + [sep] + z)[1..] == x[1..] + [sep] + z;
      assert [x[0]] + x[1..] == x;
    } else {
      assert x + [sep] + z == [sep] + z;
    }
  }

  /** A text without the separator is a single piece. */
  lemma {:induction false} SplitNoSeparator(x: string, sep: char)
    requires sep !in x
    ensures Split(x, sep) == [x]
  {
    if |x| > 0 {
      SplitNoSeparator(x[1..], sep);
      assert [x[0]] + x[1..] == x;
    }
  }

  /** Splitting a join of separator-free pieces gives the pieces back. */
  lemma {:induction false} SplitJoin(parts: seq<string>, sep: char)
    requires |parts| >= 1
    requires forall k :: 0 <= k < |parts| ==> sep !in parts[k]
    ensures Split(Join(parts, [sep]), sep) == parts
  {
    if |parts| == 1 {
      SplitNoSeparator(parts[0], sep);
    } else {
      SplitJoin(parts[1..], sep);
      SplitAfterPiece(parts[0], sep, Join(parts[1..], [sep]));
      assert [parts[0]] + parts[1..] == parts;
    }
  }

  /** `len(s.split())`: the number of maximal runs of non-whitespace. */
  function WordCount(s: string): nat {
    if |s| == 0 then 0
    else
      var starts := !IsSpace(s[|s| - 1]) && (|s| == 1 || IsSpace(s[|s| - 2]));
      WordCount(s[..|s| - 1]) + (if starts then 1 else 0)
  }

  /** A text has no words exactly when it is all whitespace. */
  lemma {:induction false} WordCountZeroIffBlank(s: string)
    ensures WordCount(s) == 0 <==> AllSpace(s)
  {
    if |s| > 0 {
      var init := s[..|s| - 1];
      WordCountZeroIffBlank(init);
      assert AllSpace(s) <==> AllSpace(init) && IsSpace(s[|s| - 1]) by {
        assert forall i :: 0 <= i < |init| ==> init[i] == s[i];
      }
      if !IsSpace(s[|s| - 1]) && |s| > 1 {
        assert init[|init| - 1] == s[|s| - 2];
      }
    }
  }

  /** `needle` occurs in `text` at position `i`. */
  predicate OccursAt(text: string, needle: string, i: nat) {
    i + |needle| <= |text| && text[i..i + |needle|] == needle
  }

  /** Each joined part occurs in the joined string, at position `i`. */
  lemma {:induction false} JoinHoldsPart(parts: seq<string>, sep: string, k: nat) returns (i: nat)
    requires k < |parts|
    ensures OccursAt(Join(parts, sep), parts[k], i)
    decreases |parts|
  {
    var joined := Join(parts, sep);
    if |parts| == 1 {
      i := 0;
      assert joined[..|parts[0]|] == parts[0];
    } else if k == 0 {
      i := 0;
      assert joined == parts[0] + (sep + Join(parts[1..], sep));
      assert joined[..|parts[0]|] == parts[0];
    } else {
      var rest := Join(parts[1..], sep);
      var j := JoinHoldsPart(parts[1..], sep, k - 1);
      var prefix := parts[0] + sep;
      assert joined == prefix + rest;
      i := |prefix| + j;
      assert joined[i..i + |parts[k]|] == rest[j..j + |parts[k]|];
    }
  }

  /** `text.find(needle, from)` for a non-negative start: the first position
      at or after `from` where `needle` occurs, or -1 (see `FindCorrect`). */
  function Find(text: string, needle: string, from: nat): (r: int)
    ensures r == -1 || from <= r
    decreases |text| - from
  {
    if from + |needle| > |text| then -1
    else if text[from..from + |needle|] == needle then from
    else Find(text, needle, from + 1)
  }

  /** The search returns the least position at or after `from` where the
      needle occurs, and -1 exactly when there is none. */
  lemma {:induction false} FindCorrect(text: string, needle: string, from: nat)
    ensures var r := Find(text, needle, from);
            (r != -1 ==> OccursAt(text, needle, r))
            && (r != -1 ==> forall j :: from <= j < r ==> !OccursAt(text, needle, j))
            && (r == -1 ==> forall j :: from <= j ==> !OccursAt(text, needle, j))
    decreases |text| - from
  {
    if from + |needle| <= |text| && text[from..from + |needle|] != needle {
      FindCorrect(text, needle, from + 1);
    }
  }

  /** `c.lower()` for ASCII letters; other characters are left alone. */
  function LowerChar(c: char): (d: char)
    ensures 'A' <= c <= 'Z' ==> d as int == c as int + 32
    ensures !('A' <= c <= 'Z') ==> d == c
  {
    if 'A' <= c <= 'Z' then (c as int + 32) as char else c
  }

  function Lower(s: string): (r: string)
    ensures |r| == |s| && forall i :: 0 <= i < |s| ==> r[i] == LowerChar(s[i])
  {
    seq(|s|, i requires 0 <= i < |s| => LowerChar(s[i]))
  }

  predicate EndsWith(s: string, suffix: string) {
    |suffix| <= |s| && s[|s| - |suffix|..] == suffix
  }

  /** `s[:n]`. */
  function Take(s: string, n: nat): (r: string)
    ensures |r| == if |s| <= n then |s| else n
    ensures r == s[..|r|]
  {
    if |s| <= n then s else s[..n]
  }

  function DigitChar(d: nat): (c: char)
    requires d < 10
    ensures '0' <= c <= '9'
  {
    ('0' as int + d) as char
  }

  predicate IsDigits(s: string) {
    forall i :: 0 <= i < |s| ==> '0' <= s[i] <= '9'
  }

  /** `str(n)` for a natural number: its decimal digits, most significant first. */
  function NatToString(n: nat): (r: string)
    ensures |r| >= 1 && IsDigits(r)
  {
    if n < 10 then [DigitChar(n)] else NatToString(n / 10) + [DigitChar(n % 10)]
  }

  /** `str(i)` for any integer. */
  function IntToString(i: int): string {
    if i < 0 then "-" + NatToString(-i) else NatToString(i)
  }

  /** The value of a string of decimal digits (`int(s)`). */
  function ParseNat(s: string): nat
    requires IsDigits(s)
  {
    if |s| == 0 then 0 else ParseNat(s[..|s| - 1]) * 10 + (s[|s| - 1] as int - '0' as int)
  }

  /** Reading back the decimal form of a number gives the number. */
  lemma {:induction false} ParseNatToString(n: nat)
    ensures ParseNat(NatToString(n)) == n
  {
    if n >= 10 {
      var r := NatToString(n);
      assert r[..|r| - 1] == NatToString(n / 10);
      ParseNatToString(n / 10);
    }
  }

  /** Distinct numbers have distinct decimal forms. */
  lemma NatToStringInjective(m: nat, n: nat)
    requires NatToString(m) == NatToString(n)
    ensures m == n
  {
    ParseNatToString(m);
    ParseNatToString(n);
  }

  /** `s.rfind(c)`: the last position holding `c`, or -1. */
  function LastIndexOf(s: string, c: char): (r: int)
    ensures -1 <= r < |s|
    ensures r >= 0 ==> s[r] == c
    ensures forall i :: r < i < |s| ==> s[i] != c
  {
    if |s| == 0 then -1
    else if s[|s| - 1] == c then |s| - 1
    else LastIndexOf(s[..|s| - 1], c)
  }

  /** `os.path.basename(path)`: everything after the last `/`. */
  function Basename(path: string): (name: string)
    ensures '/' !in name
    ensures EndsWith(path, name)
    ensures '/' !in path ==> name == path
  {
    var i := LastIndexOf(path, '/');
    var name := path[i + 1..];
    assert '/' !in name by {
      forall k | 0 <= k < |name| ensures name[k] != '/' {
        assert name[k] == path[i + 1 + k];
      }
    }
    assert path[|path| - |name|..] == name;
    name
  }

  predicate AllDots(s: string) {
    forall i :: 0 <= i < |s| ==> s[i] == '.'
  }

  /** The extension part of `os.path.splitext(path)`: from the last dot of the
      last path component, provided that component has a character other
      than a dot before it (leading dots do not start an extension);
      otherwise empty. */
  function Extension(path: string): (ext: string)
    ensures ext == [] || (ext[0] == '.' && '.' !in ext[1..] && '/' !in ext && EndsWith(path, ext))
  {
    var name := Basename(path);
    var dot := LastIndexOf(name, '.');
    if dot > 0 && !AllDots(name[..dot]) then
      assert forall k :: 1 <= k < |name[dot..]| ==> name[dot..][k] == name[dot + k];
      name[dot..]
    else ""
  }

  /** `PurePath(path).suffix`: from the last dot of the last component when that
      dot is neither its first nor its last character; otherwise empty. */
  function Suffix(path: string): (ext: string)
    ensures ext == [] || (ext[0] == '.' && |ext| >= 2 && '.' !in ext[1..] && EndsWith(path, ext))
  {
    var name := Basename(path);
    var dot := LastIndexOf(name, '.');
    if 0 < dot < |name| - 1 then
      assert forall k :: 1 <= k < |name[dot..]| ==> name[dot..][k] == name[dot + k];
      name[dot..]
    else ""
  }

  /** Python's `<` on strings: lexicographic by code point. */
  predicate StrLt(a: string, b: string) {
    if |a| == 0 then |b| > 0
    else if |b| == 0 then false
    else if a[0] < b[0] then true
    else if a[0] == b[0] then StrLt(a[1..], b[1..])
    else false
  }

  lemma {:induction false} StrLtIrreflexive(a: string)
    ensures !StrLt(a, a)
  {
    if |a| > 0 { StrLtIrreflexive(a[1..]); }
  }

  lemma {:induction false} StrLtTransitive(a: string, b: string, c: string)
    requires StrLt(a, b) && StrLt(b, c)
    ensures StrLt(a, c)
  {
    if |a| > 0 && |b| > 0 && |c| > 0 && a[0] == b[0] == c[0] {
      StrLtTransitive(a[1..], b[1..], c[1..]);
    }
  }

  lemma {:induction false} StrLtTrichotomy(a: string, b: string)
    ensures StrLt(a, b) || a == b || StrLt(b, a)
  {
    if |a| > 0 && |b| > 0 && a[0] == b[0] {
      StrLtTrichotomy(a[1..], b[1..]);
      if a[1..] == b[1..] {
        assert a == [a[0]] + a[1..] && b == [b[0]] + b[1..];
      }
    }
  }
}
