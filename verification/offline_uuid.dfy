/**
 * The offline-player UUID of the renaming script (index.ts:38-58): the MD5 digest of
 * "OfflinePlayer:" + name, turned into a name-based version-3 UUID the way Java's
 * `UUID.nameUUIDFromBytes` does it, and rendered as lower-case hex in 8-4-4-4-12 groups.
 * The layout is that of RFC 4122 (section 4.1.1 variant, section 4.1.3 version,
 * section 4.3 name-based UUIDs). MD5 itself is not modelled: the digest is an input.
 */
module OfflineUuid {
  import opened Options
  import opened JsStrings

  /** An MD5 digest: sixteen bytes. */
  type Digest = s: seq<bv8> | |s| == 16
    witness [0, 0, 0, 0, 0, 0, 0, 0, 0, 0, 0, 0, 0, 0, 0, 0]

  const OfflinePrefix := "OfflinePlayer:"

  // ---------------------------------------------------------------------------
  // Nibbles

  /** The high nibble of a byte, as a number. */
  function Hi(b: bv8): (n: int)
    ensures 0 <= n < 16
  {
    (b >> 4) as int
  }

  /** The low nibble of a byte, as a number. */
  function Lo(b: bv8): (n: int)
    ensures 0 <= n < 16
  {
    (b & 0x0f) as int
  }

  lemma SplitByte(b: bv8)
    ensures Hi(b) * 16 + Lo(b) == b as int
  {
  }

  /** The byte with high nibble `hi` and low nibble `lo`. */
  function NibblesToByte(hi: int, lo: int): (b: bv8)
    requires 0 <= hi < 16 && 0 <= lo < 16
    ensures Hi(b) == hi && Lo(b) == lo
  {
    ((hi as bv8) << 4) | (lo as bv8)
  }

  lemma NibblesDetermineByte(a: bv8, b: bv8)
    requires Hi(a) == Hi(b) && Lo(a) == Lo(b)
    ensures a == b
  {
    SplitByte(a);
    SplitByte(b);
  }

  lemma TopBitsDetermineByte(a: bv8, b: bv8)
    requires a & 0xc0 == b & 0xc0 && a & 0x3f == b & 0x3f
    ensures a == b
  {
  }

  // ---------------------------------------------------------------------------
  // RFC 4122 fields

  /** The version field: the high nibble of octet 6 (time_hi_and_version). */
  function Version(u: Digest): int { Hi(u[6]) }

  /** The variant of RFC 4122 itself: the top two bits of octet 8 are 1 0. */
  predicate HasRfc4122Variant(u: Digest) { u[8] & 0xc0 == 0x80 }

  /**
   * Forces the version nibble to 3 and the variant bits to 1 0, in place in the
   * source (index.ts:46-47); everything else of the digest is kept.
   */
  function Masked(d: Digest): (u: Digest)
    ensures Version(u) == 3 && HasRfc4122Variant(u)
    ensures forall i :: 0 <= i < 16 && i != 6 && i != 8 ==> u[i] == d[i]
    ensures Lo(u[6]) == Lo(d[6]) && u[8] & 0x3f == d[8] & 0x3f
  {
    d[6 := (d[6] & 0x0f) | 0x30][8 := (d[8] & 0x3f) | 0x80]
  }

  /**
   * The mask is the one and only way to make a digest a version-3 RFC 4122 UUID while
   * keeping every other bit: any `u` with those fields that agrees with `d` elsewhere
   * is `Masked(d)`, and conversely.
   */
  lemma MaskedCharacterised(d: Digest, u: Digest)
    ensures u == Masked(d) <==>
      && Version(u) == 3 && HasRfc4122Variant(u)
      && (forall i :: 0 <= i < 16 && i != 6 && i != 8 ==> u[i] == d[i])
      && Lo(u[6]) == Lo(d[6]) && u[8] & 0x3f == d[8] & 0x3f
  {
    if && Version(u) == 3 && HasRfc4122Variant(u)
       && (forall i :: 0 <= i < 16 && i != 6 && i != 8 ==> u[i] == d[i])
       && Lo(u[6]) == Lo(d[6]) && u[8] & 0x3f == d[8] & 0x3f
    {
      MaskedUnique(d, u);
    }
  }

  lemma MaskedUnique(d: Digest, u: Digest)
    requires Version(u) == 3 && HasRfc4122Variant(u)
    requires forall i :: 0 <= i < 16 && i != 6 && i != 8 ==> u[i] == d[i]
    requires Lo(u[6]) == Lo(d[6]) && u[8] & 0x3f == d[8] & 0x3f
    ensures u == Masked(d)
  {
    var m := Masked(d);
    NibblesDetermineByte(u[6], m[6]);
    TopBitsDetermineByte(u[8], m[8]);
    assert forall i :: 0 <= i < 16 ==> u[i] == m[i];
  }

  /** Masking twice is masking once. */
  lemma MaskedIdempotent(d: Digest)
    ensures Masked(Masked(d)) == Masked(d)
  {
    var m := Masked(d);
    MaskedCharacterised(m, m);
  }

  // ---------------------------------------------------------------------------
  // Buffer.toString("hex")

  predicate IsLowerHex(c: char) { '0' <= c <= '9' || 'a' <= c <= 'f' }

  function HexDigit(n: int): (c: char)
    requires 0 <= n < 16
    ensures IsLowerHex(c)
  {
    if n < 10 then ('0' as int + n) as char else ('a' as int + n - 10) as char
  }

  function NibbleOf(c: char): (n: int)
    requires IsLowerHex(c)
    ensures 0 <= n < 16 && HexDigit(n) == c
  {
    if c <= '9' then c as int - '0' as int else c as int - 'a' as int + 10
  }

  lemma NibbleOfHexDigit(n: int)
    requires 0 <= n < 16
    ensures NibbleOf(HexDigit(n)) == n
  {
  }

  /** Two lower-case hex digits per byte, high nibble first. */
  function Hex(bytes: seq<bv8>): (r: string)
    ensures |r| == 2 * |bytes|
  {
    if bytes == [] then [] else [HexDigit(Hi(bytes[0])), HexDigit(Lo(bytes[0]))] + Hex(bytes[1..])
  }

  /** Byte `i` becomes the digits at `2 * i` (high nibble) and `2 * i + 1` (low nibble). */
  lemma {:induction false} HexAt(bytes: seq<bv8>, i: int)
    requires 0 <= i < |bytes|
    ensures Hex(bytes)[2 * i] == HexDigit(Hi(bytes[i]))
    ensures Hex(bytes)[2 * i + 1] == HexDigit(Lo(bytes[i]))
    decreases i
  {
    if i > 0 {
      HexAt(bytes[1..], i - 1);
    }
  }

  function ByteOf(hi: char, lo: char): (b: bv8)
    requires IsLowerHex(hi) && IsLowerHex(lo)
    ensures Hi(b) == NibbleOf(hi) && Lo(b) == NibbleOf(lo)
  {
    NibblesToByte(NibbleOf(hi), NibbleOf(lo))
  }

  /** The decoder of `Hex`: accepts only an even number of lower-case hex digits. */
  function Unhex(s: string): (r: Option<seq<bv8>>)
    ensures r.Some? ==> 2 * |r.value| == |s|
  {
    if s == [] then Some([])
    else if |s| < 2 || !IsLowerHex(s[0]) || !IsLowerHex(s[1]) then None
    else match Unhex(s[2..])
      case None => None
      case Some(rest) => Some([ByteOf(s[0], s[1])] + rest)
  }

  lemma ByteRoundTrip(b: bv8)
    ensures ByteOf(HexDigit(Hi(b)), HexDigit(Lo(b))) == b
  {
    NibbleOfHexDigit(Hi(b));
    NibbleOfHexDigit(Lo(b));
    NibblesDetermineByte(ByteOf(HexDigit(Hi(b)), HexDigit(Lo(b))), b);
  }

  lemma {:induction false} UnhexHex(bytes: seq<bv8>)
    ensures Unhex(Hex(bytes)) == Some(bytes)
  {
    if bytes != [] {
      var h := Hex(bytes);
      assert h[2..] == Hex(bytes[1..]);
      UnhexHex(bytes[1..]);
      ByteRoundTrip(bytes[0]);
      assert [bytes[0]] + bytes[1..] == bytes;
    }
  }

  lemma {:induction false} HexUnhex(s: string, bytes: seq<bv8>)
    requires Unhex(s) == Some(bytes)
    ensures Hex(bytes) == s
    decreases |s|
  {
    if s != [] {
      var rest := Unhex(s[2..]).value;
      HexUnhex(s[2..], rest);
      var b := ByteOf(s[0], s[1]);
      assert bytes == [b] + rest;
      assert bytes[1..] == rest;
      assert HexDigit(Hi(b)) == s[0] && HexDigit(Lo(b)) == s[1];
      assert Hex(bytes) == [s[0], s[1]] + s[2..];
    }
  }

  lemma HexIsLowerHex(bytes: seq<bv8>)
    ensures forall k :: 0 <= k < |Hex(bytes)| ==> IsLowerHex(Hex(bytes)[k])
  {
    var h := Hex(bytes);
    forall k | 0 <= k < |h| ensures IsLowerHex(h[k]) {
      HexAt(bytes, k / 2);
    }
  }

  lemma HexHasNoDash(bytes: seq<bv8>)
    ensures '-' !in Hex(bytes)
  {
    HexIsLowerHex(bytes);
  }

  // ---------------------------------------------------------------------------
  // The 8-4-4-4-12 rendering (index.ts:50-57)

  /** Where the four dashes of the textual form stand. */
  predicate IsDashPosition(i: int) { i == 8 || i == 13 || i == 18 || i == 23 }

  /** The textual form: every position is a lower-case hex digit except the four dashes. */
  ghost predicate IsUuidText(s: string)
  {
    && |s| == 36
    && (forall i :: 0 <= i < 36 && IsDashPosition(i) ==> s[i] == '-')
    && (forall i :: 0 <= i < 36 && !IsDashPosition(i) ==> IsLowerHex(s[i]))
  }

  /**
   * The dashed rendering, built from substrings of the hex encoding exactly as the
   * source concatenates them.
   */
  function Format(u: Digest): (r: string)
    ensures IsUuidText(r)
    ensures forall k :: 0 <= k < 32 ==> r[HexColumn(k)] == Hex(u)[k]
  {
    var h := Hex(u);
    var r := h[0..8] + "-" + h[8..12] + "-" + h[12..16] + "-" + h[16..20] + "-" + h[20..];
    GroupsAt(h, r);
    HexIsLowerHex(u);
    forall c | 0 <= c < 36 && !IsDashPosition(c) ensures IsLowerHex(r[c]) {
      assert r[HexColumn(HexIndex(c))] == h[HexIndex(c)];
    }
    r
  }

  /** Where each hex digit lands in the dashed rendering. */
  lemma GroupsAt(h: string, r: string)
    requires |h| == 32
    requires r == h[0..8] + "-" + h[8..12] + "-" + h[12..16] + "-" + h[16..20] + "-" + h[20..]
    ensures |r| == 36
    ensures forall c :: 0 <= c < 36 && IsDashPosition(c) ==> r[c] == '-'
    ensures forall k :: 0 <= k < 32 ==> r[HexColumn(k)] == h[k]
  {
    var a := h[0..8] + "-";
    var b := a + h[8..12] + "-";
    var c := b + h[12..16] + "-";
    var d := c + h[16..20] + "-";
    assert |a| == 9 && |b| == 14 && |c| == 19 && |d| == 24;
    assert r == d + h[20..];
    assert forall k :: 0 <= k < 8 ==> a[k] == h[k];
    assert forall k :: 8 <= k < 12 ==> b[k + 1] == h[k];
    assert forall k :: 12 <= k < 16 ==> c[k + 2] == h[k];
    assert forall k :: 16 <= k < 20 ==> d[k + 3] == h[k];
    assert forall k :: 20 <= k < 32 ==> r[k + 4] == h[k];
  }

  /** The column in the textual form of hex digit `k` of the 32-digit encoding. */
  function HexColumn(k: int): (c: int)
    requires 0 <= k < 32
    ensures 0 <= c < 36 && !IsDashPosition(c)
  {
    if k < 8 then k else if k < 12 then k + 1 else if k < 16 then k + 2 else if k < 20 then k + 3 else k + 4
  }

  /** The inverse of `HexColumn` on non-dash columns. */
  function HexIndex(c: int): (k: int)
    requires 0 <= c < 36 && !IsDashPosition(c)
    ensures 0 <= k < 32 && HexColumn(k) == c
  {
    if c < 8 then c else if c < 13 then c - 1 else if c < 18 then c - 2 else if c < 23 then c - 3 else c - 4
  }

  /**
   * Reading the textual form back: the four dashes must be where `Format` puts them and
   * the 32 remaining characters must decode as hex.
   */
  function Parse(s: string): (r: Option<Digest>)
  {
    if |s| != 36 || s[8] != '-' || s[13] != '-' || s[18] != '-' || s[23] != '-' then None
    else match Unhex(s[0..8] + s[9..13] + s[14..18] + s[19..23] + s[24..36])
      case None => None
      case Some(bytes) => Some(bytes)
  }

  /** The 32 non-dash characters of a 36-character text, in order. */
  lemma UngroupAt(s: string, j: string)
    requires |s| == 36
    requires j == s[0..8] + s[9..13] + s[14..18] + s[19..23] + s[24..36]
    ensures |j| == 32
    ensures forall k :: 0 <= k < 32 ==> j[k] == s[HexColumn(k)]
  {
    var a := s[0..8] + s[9..13];
    var b := a + s[14..18];
    var c := b + s[19..23];
    assert j == c + s[24..36];
    assert forall k :: 0 <= k < 8 ==> a[k] == s[k];
    assert forall k :: 8 <= k < 12 ==> a[k] == s[k + 1];
    assert forall k :: 12 <= k < 16 ==> b[k] == s[k + 2];
    assert forall k :: 16 <= k < 20 ==> c[k] == s[k + 3];
    assert forall k :: 20 <= k < 32 ==> j[k] == s[k + 4];
  }

  lemma NotInSlice(s: string, x: char, lo: int, hi: int)
    requires x !in s && 0 <= lo <= hi <= |s|
    ensures x !in s[lo..hi]
  {
    assert forall k :: 0 <= k < hi - lo ==> s[lo..hi][k] == s[lo + k];
  }

  /** Dropping the dashes of the textual form gives back the plain hex encoding. */
  lemma FormatWithoutDashes(u: Digest)
    ensures RemoveAll(Format(u), '-') == Hex(u)
  {
    var h := Hex(u);
    HexHasNoDash(u);
    NotInSlice(h, '-', 0, 8);
    NotInSlice(h, '-', 8, 12);
    NotInSlice(h, '-', 12, 16);
    NotInSlice(h, '-', 16, 20);
    NotInSlice(h, '-', 20, 32);
    DropSeparators(h[0..8], h[8..12], h[12..16], h[16..20], h[20..]);
    assert h[0..8] + h[8..12] + h[12..16] + h[16..20] + h[20..] == h;
  }

  /** Five dash-free groups joined by dashes lose exactly the dashes. */
  lemma DropSeparators(p0: string, p1: string, p2: string, p3: string, p4: string)
    requires '-' !in p0 && '-' !in p1 && '-' !in p2 && '-' !in p3 && '-' !in p4
    ensures RemoveAll(p0 + "-" + p1 + "-" + p2 + "-" + p3 + "-" + p4, '-') == p0 + p1 + p2 + p3 + p4
  {
    RemoveAllAbsent(p0, '-');
    DropDash(p0, p1);
    DropDash(p0 + "-" + p1, p2);
    DropDash(p0 + "-" + p1 + "-" + p2, p3);
    DropDash(p0 + "-" + p1 + "-" + p2 + "-" + p3, p4);
  }

  lemma DropDash(a: string, b: string)
    requires '-' !in b
    ensures RemoveAll(a + "-" + b, '-') == RemoveAll(a, '-') + b
  {
    RemoveAllAppend(a + "-", b, '-');
    RemoveAllAppend(a, "-", '-');
    RemoveAllAbsent(b, '-');
    assert RemoveAll("-", '-') == [];
  }

  lemma ParseFormat(u: Digest)
    ensures Parse(Format(u)) == Some(u)
  {
    var h := Hex(u);
    var s := Format(u);
    var j := s[0..8] + s[9..13] + s[14..18] + s[19..23] + s[24..36];
    UngroupAt(s, j);
    assert j == h;
    UnhexHex(u);
  }

  lemma FormatParse(s: string, u: Digest)
    requires Parse(s) == Some(u)
    ensures Format(u) == s
  {
    var j := s[0..8] + s[9..13] + s[14..18] + s[19..23] + s[24..36];
    UngroupAt(s, j);
    HexUnhex(j, u);
    var f := Format(u);
    forall c | 0 <= c < 36 ensures f[c] == s[c] {
      if !IsDashPosition(c) {
        assert f[HexColumn(HexIndex(c))] == j[HexIndex(c)];
      }
    }
  }

  /** `Format` and `Parse` are inverse bijections between digests and UUID texts. */
  lemma FormatParseIff(s: string, u: Digest)
    ensures Parse(s) == Some(u) <==> Format(u) == s
  {
    if Parse(s) == Some(u) { FormatParse(s, u); }
    if Format(u) == s { ParseFormat(u); }
  }

  // ---------------------------------------------------------------------------
  // offlineUUID (index.ts:38-58)

  /**
   * The offline UUID of a player. `md5` stands for MD5 over the UTF-8 encoding of its
   * argument, which the model does not compute.
   */
  function OfflineUuidOf(username: string, md5: string -> Digest): (r: string)
    ensures IsUuidText(r)
    ensures r[14] == '3'
    ensures r[19] in {'8', '9', 'a', 'b'}
    ensures Parse(r) == Some(Masked(md5(OfflinePrefix + username)))
    ensures RemoveAll(r, '-') == Hex(Masked(md5(OfflinePrefix + username)))
  {
    var u := Masked(md5(OfflinePrefix + username));
    var r := Format(u);
    assert r[14] == Hex(u)[12] by { assert HexColumn(12) == 14; }
    assert r[19] == Hex(u)[16] by { assert HexColumn(16) == 19; }
    HexAt(u, 6);
    HexAt(u, 8);
    VariantDigit(u[8]);
    ParseFormat(u);
    FormatWithoutDashes(u);
    r
  }

  lemma VariantDigit(b: bv8)
    requires b & 0xc0 == 0x80
    ensures HexDigit(Hi(b)) in {'8', '9', 'a', 'b'}
  {
    assert 8 <= Hi(b) <= 11;
  }
}
