/** Shared limits.  Instants and durations are whole microseconds; instants count from the Unix epoch. */
module Bounds {

  type Byte = x: int | 0 <= x < 256

  type Token = seq<Byte>

  const MILLISECOND := 1_000
  const SECOND := 1_000_000
  const DAY := 86_400_000_000
  const MAX_LEASE := DAY
  const MAX_DELAY := 30 * DAY

  // 9999-12-31T23:59:59.999999Z
  const MAX_INSTANT := 253_402_300_799_999_999

  const CLAIM_TOKEN_BYTES := 16
  const MAX_CLAIM_OR_PAGE_LIMIT := 1_000
  const I64_MAX := 0x7FFF_FFFF_FFFF_FFFF

  predicate ValidInstant(t: int) {
    0 <= t <= MAX_INSTANT
  }

  predicate ValidLease(d: int) {
    0 < d <= MAX_LEASE && d % MILLISECOND == 0
  }

  predicate ValidDelay(d: int) {
    0 <= d <= MAX_DELAY && d % MILLISECOND == 0
  }

  predicate ValidToken(t: Token) {
    |t| == CLAIM_TOKEN_BYTES
  }

  predicate ValidLimit(n: int) {
    1 <= n <= MAX_CLAIM_OR_PAGE_LIMIT
  }

  /** The limits at their edges: a lease of up to a day and a delay of up to thirty, both in whole milliseconds. */
  lemma LimitsAre()
    ensures !ValidLease(0) && !ValidLease(999) && ValidLease(1_000) && ValidLease(86_400_000_000) && !ValidLease(86_400_001_000)
    ensures ValidDelay(0) && !ValidDelay(999) && ValidDelay(2_592_000_000_000) && !ValidDelay(2_592_000_001_000)
    ensures !ValidLimit(0) && ValidLimit(1) && ValidLimit(1_000) && !ValidLimit(1_001)
    ensures !ValidInstant(-1) && ValidInstant(0) && ValidInstant(253_402_300_799_999_999) && !ValidInstant(253_402_300_800_000_000)
    ensures forall t: Token :: ValidToken(t) <==> |t| == 16
  {
  }

  /** UTF-8 width of one Unicode scalar value. */
  function CharBytes(c: char): nat {
    if c as int < 0x80 then 1 else if c as int < 0x800 then 2 else if c as int < 0x1_0000 then 3 else 4
  }

  function Utf8Len(s: string): nat {
    if s == [] then 0 else CharBytes(s[0]) + Utf8Len(s[1..])
  }

  /** Control characters and Unicode noncharacters are forbidden in every stored string. */
  predicate ForbiddenChar(c: char) {
    var v := c as int;
    v < 0x20 || 0x7F <= v <= 0x9F || 0xFDD0 <= v <= 0xFDEF || v % 0x1_0000 >= 0xFFFE
  }

  /** The forbidden characters: both control ranges, and the noncharacters: a block of 32 and the last two of every plane. */
  lemma ForbiddenAre(c: char)
    ensures ForbiddenChar(c) <==>
              || c as int <= 0x1F || 0x7F <= c as int <= 0x9F || 0xFDD0 <= c as int <= 0xFDEF
              || exists plane :: 0 <= plane <= 16 && 0 <= c as int - LastTwo(plane) <= 1
  {
    var v := c as int;
    assert v < 0x11_0000;
    if v % 0x1_0000 >= 0xFFFE {
      assert 0 <= v - LastTwo(v / 0x1_0000) <= 1;
    }
    forall plane | 0 <= plane <= 16 && 0 <= v - LastTwo(plane) <= 1 ensures v % 0x1_0000 >= 0xFFFE {
      assert v / 0x1_0000 == plane;
    }
  }

  /** The first of the last two scalar values of a plane. */
  function LastTwo(plane: int): int {
    plane * 0x1_0000 + 0xFFFE
  }

  predicate ValidText(s: string) {
    forall i :: 0 <= i < |s| ==> !ForbiddenChar(s[i])
  }

  predicate ValidBounded(s: string, max: nat) {
    s != [] && Utf8Len(s) <= max && ValidText(s)
  }
}
