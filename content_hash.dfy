/** The content hash used for de-duplication: the lower-case hexadecimal
    form of a 16-byte MD5 digest. The digest function itself is an input. */
module ContentHash {

  newtype byte = x: int | 0 <= x < 256

  type Digest = d: seq<byte> | |d| == 16 witness seq(16, _ => 0 as byte)

  function HexChar(n: int): (c: char)
    requires 0 <= n < 16
    ensures '0' <= c <= '9' || 'a' <= c <= 'f'
  {
    if n < 10 then ('0' as int + n) as char else ('a' as int + n - 10) as char
  }

  lemma HexCharInjective(m: int, n: int)
    requires 0 <= m < 16 && 0 <= n < 16 && HexChar(m) == HexChar(n)
    ensures m == n
  {
  }

  predicate IsLowerHex(s: string) {
    forall i :: 0 <= i < |s| ==> '0' <= s[i] <= '9' || 'a' <= s[i] <= 'f'
  }

  /** `hexdigest()`: two characters per byte, high half first. */
  function HexDigest(d: seq<byte>): (s: string)
    ensures |s| == 2 * |d|
    ensures IsLowerHex(s)
  {
    if |d| == 0 then ""
    else [HexChar(d[0] as int / 16), HexChar(d[0] as int % 16)] + HexDigest(d[1..])
  }

  /** Different digests have different hexadecimal forms, so comparing
      hashes compares digests. */
  lemma {:induction false} HexDigestInjective(a: seq<byte>, b: seq<byte>)
    requires HexDigest(a) == HexDigest(b)
    ensures a == b
  {
    if |a| > 0 {
      var s := HexDigest(a);
      assert s[0] == HexChar(a[0] as int / 16) && s[0] == HexChar(b[0] as int / 16);
      assert s[1] == HexChar(a[0] as int % 16) && s[1] == HexChar(b[0] as int % 16);
      HexCharInjective(a[0] as int / 16, b[0] as int / 16);
      HexCharInjective(a[0] as int % 16, b[0] as int % 16);
      assert a[0] == b[0];
      assert HexDigest(a[1..]) == s[2..] == HexDigest(b[1..]);
      HexDigestInjective(a[1..], b[1..]);
      assert a == [a[0]] + a[1..] && b == [b[0]] + b[1..];
    }
  }

  /** `_calculate_file_hash`: 32 lower-case hex digits. */
  function FileHash(md5: string -> Digest, content: string): (h: string)
    ensures |h| == 32 && IsLowerHex(h)
  {
    HexDigest(md5(content))
  }
}
