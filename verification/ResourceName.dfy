/** Names the refresher gives to objects that come without one. */
module ResourceName {

  const MARGIN: int := 60
  const LABEL_LIMIT: int := 63

  /** Length kept of a part of `length` bytes when the joined name has `total` bytes. */
  function CutPosition(length: nat, total: nat): int
    requires total > 0
  {
    var ratio := length as real / total as real;
    (length as real - ratio * (total as real - MARGIN as real)).Floor
  }

  lemma CutIsProportional(length: nat, total: nat)
    requires total > 0
    ensures CutPosition(length, total) == MARGIN * length / total
  {
    var ratio := length as real / total as real;
    var q := MARGIN * length / total;
    assert ratio * total as real == length as real;
    var x := length as real - ratio * (total as real - MARGIN as real);
    assert x == ratio * MARGIN as real;
    assert q * total <= MARGIN * length < (q + 1) * total;
    assert x * total as real == (MARGIN * length) as real;
    Bracket(x, q, total, MARGIN * length);
  }

  lemma Bracket(x: real, q: int, total: nat, scaled: int)
    requires total > 0 && x * total as real == scaled as real
    requires q * total <= scaled < (q + 1) * total
    ensures x.Floor == q
  {
    var t := total as real;
    RealProduct(q, total);
    RealProduct(q + 1, total);
    assert (q * total) as real <= x * t < ((q + 1) * total) as real;
    Cancel(q as real, x, t);
    CancelBelow(x, (q + 1) as real, t);
  }

  lemma RealProduct(a: int, b: int)
    ensures (a as real) * (b as real) == (a * b) as real
  {}

  lemma CancelBelow(a: real, b: real, t: real)
    requires a * t < b * t && t > 0.0
    ensures a < b
  {
    if b <= a { Scale(b, a, t); }
  }

  lemma Scale(a: real, b: real, t: real)
    requires a <= b && t > 0.0
    ensures a * t <= b * t
  {}

  lemma Cancel(a: real, b: real, t: real)
    requires a * t <= b * t && t > 0.0
    ensures a <= b
  {}

  lemma CancelStrict(a: int, b: int, t: nat)
    requires a * t < b * t
    ensures a < b
  {}

  lemma CutInRange(length: nat, total: nat)
    requires length <= total && MARGIN <= total
    ensures 0 <= CutPosition(length, total) <= length
  {
    CutIsProportional(length, total);
    var q := MARGIN * length / total;
    ShareBounds(length, total, q);
  }

  lemma ShareBounds(length: nat, total: nat, q: int)
    requires MARGIN <= total && q == MARGIN * length / total
    ensures 0 <= q <= length
  {
    assert q * total <= MARGIN * length < (q + 1) * total;
    ScaledUp(MARGIN, total, length);
    assert (length + 1) * total == total * length + total;
    CancelStrict(q, length + 1, total);
    assert (q + 1) * total > 0 * total;
    CancelStrict(0, q + 1, total);
  }

  lemma ScaledUp(a: nat, b: nat, c: nat)
    requires a <= b
    ensures a * c <= b * c
  {}

  function Join(first: string, last: string): string {
    first + "-" + last
  }

  /** `createResourceName("%s-%s", first, last)`. */
  function Compose(first: string, last: string): (name: string)
    ensures |Join(first, last)| < MARGIN ==> name == Join(first, last)
  {
    var total := |Join(first, last)|;
    if total < MARGIN then Join(first, last)
    else
      CutInRange(|first|, total);
      CutInRange(|last|, total);
      Join(first[..CutPosition(|first|, total)], last[..CutPosition(|last|, total)])
  }

  /** A cut the way floating point may leave it: one short when the exact value is an integer. */
  predicate RoundedCut(cut: int, length: nat, total: nat)
    requires total > 0
  {
    cut == MARGIN * length / total
    || (MARGIN < total && 0 < length && MARGIN * length % total == 0 && cut == MARGIN * length / total - 1)
  }

  /** The shares of two parts and the separator, with their remainders, fill the margin. */
  lemma SharesFill(first: nat, last: nat, total: nat)
    requires total == first + last + 1 && MARGIN <= total
    ensures var p, q := MARGIN * first / total, MARGIN * last / total;
      var r, t := MARGIN * first % total, MARGIN * last % total;
      && 58 <= p + q <= 59
      && (p + q == 58 ==> r + t == 2 * total - 60)
      && (p + q == 59 ==> r + t == total - 60)
  {
    var p, q := MARGIN * first / total, MARGIN * last / total;
    var r, t := MARGIN * first % total, MARGIN * last % total;
    assert p * total + r == MARGIN * first && q * total + t == MARGIN * last;
    var sum := p + q;
    assert sum * total == p * total + q * total;
    assert sum * total + r + t == 60 * total - 60;
    CancelStrict(sum, 60, total);
    CancelStrict(57, sum, total);
  }

  /** Two proportional cuts add up to 58 or 59, however the exact ones were rounded. */
  lemma CutsAddUp(a: int, b: int, first: nat, last: nat, total: nat)
    requires total == first + last + 1 && MARGIN <= total
    requires RoundedCut(a, first, total) && RoundedCut(b, last, total)
    ensures 58 <= a + b <= 59
    ensures 0 <= a <= first && 0 <= b <= last
  {
    SharesFill(first, last, total);
    ShareBounds(first, total, MARGIN * first / total);
    ShareBounds(last, total, MARGIN * last / total);
    if a != MARGIN * first / total { PositiveShare(first, total); }
    if b != MARGIN * last / total { PositiveShare(last, total); }
  }

  lemma PositiveShare(length: nat, total: nat)
    requires 0 < length && 0 < total && MARGIN * length % total == 0
    ensures 1 <= MARGIN * length / total
  {
    var q := MARGIN * length / total;
    assert q * total == MARGIN * length;
    CancelStrict(0, q, total);
  }

  /** Generated names fit: untouched below the margin, otherwise 59 or 60 bytes made of a
      prefix of each part, each cut to the floor of its share. */
  lemma ComposedNameFits(first: string, last: string)
    ensures var name := Compose(first, last);
      var total := |first| + 1 + |last|;
      if total < MARGIN then name == first + "-" + last
      else
        && 59 <= |name| <= 60 < LABEL_LIMIT
        && var a, b := MARGIN * |first| / total, MARGIN * |last| / total;
           0 <= a <= |first| && 0 <= b <= |last| && name == first[..a] + "-" + last[..b]
  {
    var total := |first| + 1 + |last|;
    if MARGIN <= total {
      CutIsProportional(|first|, total);
      CutIsProportional(|last|, total);
      CutsAddUp(MARGIN * |first| / total, MARGIN * |last| / total, |first|, |last|, total);
    }
  }

  /** The bound does not depend on exact arithmetic: with either rounding of each cut the
      cuts stay in range and the name has 59 or 60 bytes (58 + 1 or 59 + 1). */
  lemma RoundedNameFits(first: string, last: string, a: int, b: int)
    requires var total := |first| + 1 + |last|;
             MARGIN <= total && RoundedCut(a, |first|, total) && RoundedCut(b, |last|, total)
    ensures 0 <= a <= |first| && 0 <= b <= |last|
    ensures 59 <= |Join(first[..a], last[..b])| <= 60
  {
    CutsAddUp(a, b, |first|, |last|, |first| + 1 + |last|);
  }

  /** `name[:63]` of a name that is too long for a label. */
  function Shorten(name: string): (r: string)
    ensures |r| <= LABEL_LIMIT && r <= name
    ensures r == name <==> |name| <= LABEL_LIMIT
    ensures |name| > 63 ==> |r| == 63
  {
    if LABEL_LIMIT < |name| then name[..LABEL_LIMIT] else name
  }
}
