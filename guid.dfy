/**
 * The trace viewer's identifier allocator (`tr.b.GUID`): sequential integer ids
 * from a counter that starts at 1, and version-4 UUID strings. The UUID's
 * random draws are supplied as a sequence of nibbles (values 0..15), one per
 * placeholder of the pattern, in left-to-right order.
 */
module Guid {
  import opened Strings

  /** The counter state of `allocateSimple` and `getLastSimpleGuid`; `nextGuid` is `nextGUID`. */
  class SimpleGuidAllocator {
    var nextGuid: int
    /** The ids handed out so far, oldest first. */
    ghost var issued: seq<int>

    ghost predicate Valid()
      reads this
    {
      && nextGuid == |issued| + 1
      && forall i :: 0 <= i < |issued| ==> issued[i] == i + 1
    }

    constructor ()
      ensures Valid() && issued == [] && nextGuid == 1
    {
      nextGuid := 1;
      issued := [];
    }

    /** `return nextGUID++`: hand out the current value and advance the counter. */
    method AllocateSimple() returns (id: int)
      requires Valid()
      modifies this
      ensures Valid()
      ensures id == old(nextGuid) && nextGuid == id + 1
      ensures issued == old(issued) + [id]
      ensures forall earlier :: earlier in old(issued) ==> earlier < id
    {
      id := nextGuid;
      nextGuid := nextGuid + 1;
      issued := issued + [id];
    }

    /** `return nextGUID - 1`: the last id handed out (0 before any), without allocating. */
    method GetLastSimpleGuid() returns (last: int)
      requires Valid()
      ensures last == |issued|
      ensures issued == [] ==> last == 0
      ensures issued != [] ==> last == issued[|issued| - 1]
    {
      last := nextGuid - 1;
    }
  }

  ghost predicate StrictlyIncreasing(s: seq<int>) {
    forall i, j :: 0 <= i < j < |s| ==> s[i] < s[j]
  }

  /** The ids an allocator has handed out are strictly increasing, hence pairwise distinct. */
  lemma IssuedStrictlyIncreasing(g: SimpleGuidAllocator)
    requires g.Valid()
    ensures StrictlyIncreasing(g.issued)
    ensures forall i, j :: 0 <= i < |g.issued| && 0 <= j < |g.issued| && i != j ==> g.issued[i] != g.issued[j]
  {
  }

  /**
   * A fresh counter: peeking gives 0, the first allocation 1, peeking again
   * (twice) gives 1 and allocates nothing, so the next allocation gives 2.
   */
  method AllocationSequence() returns (before: int, first: int, peek1: int, peek2: int, second: int, after: int)
    ensures before == 0 && first == 1 && peek1 == 1 && peek2 == 1 && second == 2 && after == 2
  {
    var g := new SimpleGuidAllocator();
    before := g.GetLastSimpleGuid();
    first := g.AllocateSimple();
    peek1 := g.GetLastSimpleGuid();
    peek2 := g.GetLastSimpleGuid();
    second := g.AllocateSimple();
    after := g.GetLastSimpleGuid();
  }

  // ---- version-4 UUIDs ----

  const Uuid4Pattern: string := "xxxxxxxx-xxxx-4xxx-yxxx-xxxxxxxxxxxx"

  /** One random draw, `parseInt(Math.random() * 16)`. */
  type Nibble = r: int | 0 <= r < 16

  /** The number of `x` and `y` placeholders in a pattern. */
  function Placeholders(p: string): nat {
    if p == [] then 0 else (if p[0] == 'x' || p[0] == 'y' then 1 else 0) + Placeholders(p[1..])
  }

  /** `(r & 3) + 8`: the RFC 4122 variant digit; for 0 <= r, `r & 3` is `r % 4`. */
  function VariantNibble(r: Nibble): (v: Nibble)
    ensures 8 <= v < 12 && v % 4 == r % 4
  {
    r % 4 + 8
  }

  /**
   * `pattern.replace(/[xy]/g, ...)`: each placeholder, left to right, is
   * replaced by the hex digit of the next draw (`y` by its variant digit);
   * every other character is kept.
   */
  function Substitute(p: string, draws: seq<Nibble>): (u: string)
    requires |draws| == Placeholders(p)
    ensures |u| == |p|
  {
    if p == [] then []
    else if p[0] == 'x' then [HexDigit(draws[0])] + Substitute(p[1..], draws[1..])
    else if p[0] == 'y' then [HexDigit(VariantNibble(draws[0]))] + Substitute(p[1..], draws[1..])
    else [p[0]] + Substitute(p[1..], draws)
  }

  function HexString(draws: seq<Nibble>): (s: string)
    ensures |s| == |draws|
  {
    seq(|draws|, i requires 0 <= i < |draws| => HexDigit(draws[i]))
  }

  predicate AllLowerHex(s: string) {
    forall i :: 0 <= i < |s| ==> IsLowerHex(s[i])
  }

  /** The draws a string of lower-case hex digits was rendered from. */
  function HexValues(s: string): (draws: seq<Nibble>)
    requires AllLowerHex(s)
    ensures HexString(draws) == s
  {
    seq(|s|, i requires 0 <= i < |s| => HexValue(s[i]))
  }

  /** The layout of section 4.4 of RFC 4122 as the pattern fixes it. */
  predicate IsUuid4Layout(u: string) {
    && |u| == 36
    && u[8] == '-' && u[13] == '-' && u[18] == '-' && u[23] == '-'
    && u[14] == '4'
    && (u[19] == '8' || u[19] == '9' || u[19] == 'a' || u[19] == 'b')
    && forall i :: 0 <= i < 36 && i != 8 && i != 13 && i != 14 && i != 18 && i != 23 ==> IsLowerHex(u[i])
  }

  /**
   * `allocateUUID4()` with its 31 draws supplied. The pattern is substituted
   * in the form of its groups, PatternFromGroups, which PatternGroups proves
   * equal to Uuid4Pattern.
   */
  function AllocateUuid4(draws: seq<Nibble>): (u: string)
    requires |draws| == 31
    ensures IsUuid4Layout(u)
    ensures u[19] == HexDigit(VariantNibble(draws[15]))
  {
    GroupsSubstitute(draws);
    GroupsLayout(HexString(draws[..8]), HexString(draws[8..12]), HexString(draws[12..15]),
                 VariantNibble(draws[15]), HexString(draws[16..19]), HexString(draws[19..]));
    Substitute(PatternFromGroups(), draws)
  }

  /** The string the five hex groups make, the version digit `4` and the variant digit in place. */
  function Uuid4Text(a: string, b: string, c: string, variant: Nibble, d: string, e: string): string {
    a + (['-'] + (b + (['-'] + (['4'] + (c + (['-'] + ([HexDigit(variant)] + (d + (['-'] + e)))))))))
  }

  /** Where each part of Uuid4Text lands. */
  lemma Uuid4TextAt(a: string, b: string, c: string, variant: Nibble, d: string, e: string, i: int)
    requires |a| == 8 && |b| == 4 && |c| == 3 && |d| == 3 && |e| == 12
    requires 0 <= i < 36
    ensures var u := Uuid4Text(a, b, c, variant, d, e);
            && |u| == 36
            && (i < 8 ==> u[i] == a[i])
            && (i == 8 || i == 13 || i == 18 || i == 23 ==> u[i] == '-')
            && (9 <= i < 13 ==> u[i] == b[i - 9])
            && (i == 14 ==> u[i] == '4')
            && (15 <= i < 18 ==> u[i] == c[i - 15])
            && (i == 19 ==> u[i] == HexDigit(variant))
            && (20 <= i < 23 ==> u[i] == d[i - 20])
            && (24 <= i ==> u[i] == e[i - 24])
  {
  }

  lemma GroupsLayout(a: string, b: string, c: string, variant: Nibble, d: string, e: string)
    requires |a| == 8 && |b| == 4 && |c| == 3 && |d| == 3 && |e| == 12
    requires AllLowerHex(a) && AllLowerHex(b) && AllLowerHex(c) && AllLowerHex(d) && AllLowerHex(e)
    requires 8 <= variant < 12
    ensures IsUuid4Layout(Uuid4Text(a, b, c, variant, d, e))
    ensures Uuid4Text(a, b, c, variant, d, e)[19] == HexDigit(variant)
  {
    var u := Uuid4Text(a, b, c, variant, d, e);
    forall i | 0 <= i < 36
      ensures (i == 8 || i == 13 || i == 18 || i == 23) ==> u[i] == '-'
      ensures i == 14 ==> u[i] == '4'
      ensures i == 19 ==> u[i] == HexDigit(variant)
      ensures i != 8 && i != 13 && i != 14 && i != 18 && i != 23 ==> IsLowerHex(u[i])
    {
      Uuid4TextAt(a, b, c, variant, d, e, i);
    }
  }

  /** A string with the layout is the text of its own groups. */
  lemma LayoutGroups(u: string, variant: Nibble)
    requires IsUuid4Layout(u) && HexDigit(variant) == u[19]
    ensures u == Uuid4Text(u[..8], u[9..13], u[15..18], variant, u[20..23], u[24..])
  {
    var t := Uuid4Text(u[..8], u[9..13], u[15..18], variant, u[20..23], u[24..]);
    forall i | 0 <= i < 36 ensures t[i] == u[i] {
      Uuid4TextAt(u[..8], u[9..13], u[15..18], variant, u[20..23], u[24..], i);
    }
    Uuid4TextAt(u[..8], u[9..13], u[15..18], variant, u[20..23], u[24..], 0);
  }

  function Xs(n: nat): (s: string)
    ensures |s| == n && forall i :: 0 <= i < n ==> s[i] == 'x'
  {
    seq(n, i => 'x')
  }

  lemma PatternGroups()
    ensures Uuid4Pattern == PatternFromGroups()
  {
  }

  /** A run of `n` x placeholders consumes the next `n` draws as hex digits. */
  lemma {:induction false} PlaceholdersXsThen(n: nat, rest: string)
    ensures Placeholders(Xs(n) + rest) == n + Placeholders(rest)
    decreases n
  {
    if n == 0 {
      assert Xs(n) + rest == rest;
    } else {
      var p := Xs(n) + rest;
      assert p[0] == 'x' && p[1..] == Xs(n - 1) + rest;
      PlaceholdersXsThen(n - 1, rest);
    }
  }

  lemma HexStringCons(draws: seq<Nibble>)
    requires draws != []
    ensures HexString(draws) == [HexDigit(draws[0])] + HexString(draws[1..])
  {
  }

  /** One `x` placeholder consumes one draw. */
  lemma SubstituteXStep(p: string, draws: seq<Nibble>)
    requires p != [] && p[0] == 'x' && |draws| == Placeholders(p)
    ensures |draws| > 0 && |draws[1..]| == Placeholders(p[1..])
    ensures Substitute(p, draws) == [HexDigit(draws[0])] + Substitute(p[1..], draws[1..])
  {
  }

  lemma {:induction false} SubstituteXsThen(n: nat, rest: string, draws: seq<Nibble>)
    requires |draws| == n + Placeholders(rest)
    ensures Placeholders(Xs(n) + rest) == n + Placeholders(rest)
    ensures Substitute(Xs(n) + rest, draws) == HexString(draws[..n]) + Substitute(rest, draws[n..])
    decreases n
  {
    PlaceholdersXsThen(n, rest);
    if n == 0 {
      assert Xs(n) + rest == rest;
      assert draws[..n] == [] && draws[n..] == draws;
    } else {
      var p := Xs(n) + rest;
      assert p[0] == 'x' && p[1..] == Xs(n - 1) + rest;
      SubstituteXStep(p, draws);
      var tail := draws[1..];
      SubstituteXsThen(n - 1, rest, tail);
      assert tail[n - 1..] == draws[n..] && tail[..n - 1] == draws[..n][1..];
      HexStringCons(draws[..n]);
    }
  }

  /** A character other than a placeholder is copied and consumes no draw. */
  lemma FixedThen(c: char, rest: string, draws: seq<Nibble>)
    requires c != 'x' && c != 'y'
    requires |draws| == Placeholders(rest)
    ensures Placeholders([c] + rest) == Placeholders(rest)
    ensures Substitute([c] + rest, draws) == [c] + Substitute(rest, draws)
  {
    assert ([c] + rest)[1..] == rest;
  }

  /** A `y` placeholder consumes one draw and yields its variant digit. */
  lemma VariantThen(rest: string, draws: seq<Nibble>)
    requires |draws| == 1 + Placeholders(rest)
    ensures Placeholders(['y'] + rest) == 1 + Placeholders(rest)
    ensures Substitute(['y'] + rest, draws) == [HexDigit(VariantNibble(draws[0]))] + Substitute(rest, draws[1..])
  {
    assert (['y'] + rest)[1..] == rest;
  }

  /** The pattern as its groups, built without the literal. */
  function PatternFromGroups(): string {
    Xs(8) + (['-'] + (Xs(4) + (['-'] + (['4'] + (Xs(3) + (['-'] + (['y'] + (Xs(3) + (['-'] + Xs(12))))))))))
  }

  /** The pattern's last two groups: `xxx-xxxxxxxxxxxx`, fed by the last 15 draws. */
  lemma SubstituteLastGroups(t7: string, d4: seq<Nibble>)
    requires t7 == Xs(3) + (['-'] + Xs(12))
    requires |d4| == 15
    ensures Placeholders(t7) == 15
    ensures Substitute(t7, d4) == HexString(d4[..3]) + (['-'] + HexString(d4[3..]))
  {
    var d5 := d4[3..];
    SubstituteXs(12, d5);
    FixedThen('-', Xs(12), d5);
    SubstituteXsThen(3, ['-'] + Xs(12), d4);
  }

  /** A run of `n` x placeholders alone renders its `n` draws. */
  lemma SubstituteXs(n: nat, draws: seq<Nibble>)
    requires |draws| == n
    ensures Placeholders(Xs(n)) == n
    ensures Substitute(Xs(n), draws) == HexString(draws)
  {
    SubstituteXsThen(n, [], draws);
    assert Xs(n) + [] == Xs(n) && draws[..n] == draws;
  }

  /** The pattern from its fourth dash on: `-yxxx-xxxxxxxxxxxx`, fed by the last 16 draws. */
  lemma SubstituteVariantGroups(t5: string, d3: seq<Nibble>)
    requires t5 == ['-'] + (['y'] + (Xs(3) + (['-'] + Xs(12))))
    requires |d3| == 16
    ensures Placeholders(t5) == 16
    ensures Substitute(t5, d3) ==
              ['-'] + ([HexDigit(VariantNibble(d3[0]))] + (HexString(d3[1..4]) + (['-'] + HexString(d3[4..]))))
  {
    var t7 := Xs(3) + (['-'] + Xs(12));
    var d4 := d3[1..];
    SubstituteLastGroups(t7, d4);
    assert d4[..3] == d3[1..4] && d4[3..] == d3[4..];
    VariantThen(t7, d3);
    FixedThen('-', ['y'] + t7, d3);
  }

  /** The pattern from its second dash on: `-4xxx-yxxx-xxxxxxxxxxxx`, fed by the last 19 draws. */
  lemma SubstituteVersionGroups(t2: string, t5: string, d2: seq<Nibble>)
    requires t5 == ['-'] + (['y'] + (Xs(3) + (['-'] + Xs(12))))
    requires t2 == ['-'] + (['4'] + (Xs(3) + t5))
    requires |d2| == 19
    ensures Placeholders(t5) == 16 && Placeholders(t2) == 19
    ensures Substitute(t2, d2) == ['-'] + (['4'] + (HexString(d2[..3]) + Substitute(t5, d2[3..])))
  {
    SubstituteVariantGroups(t5, d2[3..]);
    SubstituteXsThen(3, t5, d2);
    FixedThen('4', Xs(3) + t5, d2);
    FixedThen('-', ['4'] + (Xs(3) + t5), d2);
  }

  lemma GroupsSubstitute(draws: seq<Nibble>)
    requires |draws| == 31
    ensures Placeholders(PatternFromGroups()) == 31
    ensures Substitute(PatternFromGroups(), draws) ==
              Uuid4Text(HexString(draws[..8]), HexString(draws[8..12]), HexString(draws[12..15]),
                        VariantNibble(draws[15]), HexString(draws[16..19]), HexString(draws[19..]))
  {
    var t2 := ['-'] + (['4'] + (Xs(3) + (['-'] + (['y'] + (Xs(3) + (['-'] + Xs(12)))))));
    var t0 := ['-'] + (Xs(4) + t2);
    var d1 := draws[8..];
    SubstituteSecondGroups(t0, d1);
    SubstituteXsThen(8, t0, draws);
    assert PatternFromGroups() == Xs(8) + t0;
    assert d1[..4] == draws[8..12] && d1[4..][..3] == draws[12..15] && d1[4..][3] == draws[15];
    assert d1[4..][4..7] == draws[16..19] && d1[4..][7..] == draws[19..];
  }

  /** The pattern from its first dash on, fed by the last 23 draws. */
  lemma SubstituteSecondGroups(t0: string, d1: seq<Nibble>)
    requires t0 == ['-'] + (Xs(4) + (['-'] + (['4'] + (Xs(3) + (['-'] + (['y'] + (Xs(3) + (['-'] + Xs(12)))))))))
    requires |d1| == 23
    ensures Placeholders(t0) == 23
    ensures Substitute(t0, d1) ==
              ['-'] + (HexString(d1[..4]) + (['-'] + (['4'] + (HexString(d1[4..][..3]) + (['-'] +
              ([HexDigit(VariantNibble(d1[4..][3]))] + (HexString(d1[4..][4..7]) + (['-'] + HexString(d1[4..][7..])))))))))
  {
    var t5 := ['-'] + (['y'] + (Xs(3) + (['-'] + Xs(12))));
    var t2 := ['-'] + (['4'] + (Xs(3) + t5));
    var d2 := d1[4..];
    SubstituteVersionGroups(t2, t5, d2);
    SubstituteVariantGroups(t5, d2[3..]);
    assert d2[3..][0] == d2[3] && d2[3..][1..4] == d2[4..7] && d2[3..][4..] == d2[7..];
    SubstituteXsThen(4, t2, d1);
    FixedThen('-', Xs(4) + t2, d1);
  }

  /** The draws a UUID4-shaped string is read back to; the variant draw is read as 0..3. */
  function DrawsOf(u: string): (draws: seq<Nibble>)
    requires IsUuid4Layout(u)
    ensures |draws| == 31
  {
    assert AllLowerHex(u[..8]) && AllLowerHex(u[9..13]) && AllLowerHex(u[15..18]);
    assert AllLowerHex(u[20..23]) && AllLowerHex(u[24..]);
    HexValues(u[..8]) + (HexValues(u[9..13]) + (HexValues(u[15..18]) + ([HexValue(u[19]) - 8]
      + (HexValues(u[20..23]) + HexValues(u[24..])))))
  }

  /** Every string with the UUID4 layout is the output for the draws it reads back to. */
  lemma LayoutIsReachable(u: string)
    requires IsUuid4Layout(u)
    ensures AllocateUuid4(DrawsOf(u)) == u
  {
    var draws := DrawsOf(u);
    var variant: Nibble := HexValue(u[19]) - 8;
    assert draws[..8] == HexValues(u[..8]);
    assert draws[8..12] == HexValues(u[9..13]);
    assert draws[12..15] == HexValues(u[15..18]);
    assert draws[15] == variant;
    assert draws[16..19] == HexValues(u[20..23]);
    assert draws[19..] == HexValues(u[24..]);
    assert HexDigit(VariantNibble(variant)) == u[19];
    GroupsSubstitute(draws);
    LayoutGroups(u, VariantNibble(variant));
  }

  /** The layout describes the outputs exactly: a string is some output iff it has the layout. */
  lemma Uuid4LayoutIsRange(u: string)
    ensures IsUuid4Layout(u) <==> exists draws :: |draws| == 31 && AllocateUuid4(draws) == u
  {
    if IsUuid4Layout(u) {
      LayoutIsReachable(u);
    }
  }

  /**
   * The output determines every draw, except the top two bits of the variant
   * draw, which `r & 3` discards.
   */
  lemma DrawsRecovered(draws: seq<Nibble>)
    requires |draws| == 31
    ensures DrawsOf(AllocateUuid4(draws)) == draws[15 := draws[15] % 4]
  {
    GroupsSubstitute(draws);
    DrawsOfText(draws[..8], draws[8..12], draws[12..15], draws[15], draws[16..19], draws[19..]);
    SplitDraws(draws);
  }

  lemma DrawsOfText(p1: seq<Nibble>, p2: seq<Nibble>, p3: seq<Nibble>, r: Nibble, p4: seq<Nibble>, p5: seq<Nibble>)
    requires |p1| == 8 && |p2| == 4 && |p3| == 3 && |p4| == 3 && |p5| == 12
    ensures var u := Uuid4Text(HexString(p1), HexString(p2), HexString(p3), VariantNibble(r), HexString(p4), HexString(p5));
            IsUuid4Layout(u) && DrawsOf(u) == p1 + (p2 + (p3 + ([r % 4] + (p4 + p5))))
  {
    var h1, h2, h3, h4, h5 := HexString(p1), HexString(p2), HexString(p3), HexString(p4), HexString(p5);
    GroupsLayout(h1, h2, h3, VariantNibble(r), h4, h5);
    Uuid4TextParts(h1, h2, h3, VariantNibble(r), h4, h5);
    HexValueOfDigit(VariantNibble(r));
    HexValuesOfHexString(p1);
    HexValuesOfHexString(p2);
    HexValuesOfHexString(p3);
    HexValuesOfHexString(p4);
    HexValuesOfHexString(p5);
  }

  lemma SplitDraws(draws: seq<Nibble>)
    requires |draws| == 31
    ensures draws[15 := draws[15] % 4] ==
              draws[..8] + (draws[8..12] + (draws[12..15] + ([draws[15] % 4] + (draws[16..19] + draws[19..]))))
  {
  }

  lemma HexValuesOfHexString(draws: seq<Nibble>)
    ensures HexValues(HexString(draws)) == draws
  {
    forall k | 0 <= k < |draws| ensures HexValues(HexString(draws))[k] == draws[k] {
      HexValueOfDigit(draws[k]);
    }
  }

  /** The groups can be sliced back out of Uuid4Text. */
  lemma Uuid4TextParts(a: string, b: string, c: string, variant: Nibble, d: string, e: string)
    requires |a| == 8 && |b| == 4 && |c| == 3 && |d| == 3 && |e| == 12
    ensures var u := Uuid4Text(a, b, c, variant, d, e);
            && |u| == 36 && u[..8] == a && u[9..13] == b && u[15..18] == c
            && u[19] == HexDigit(variant) && u[20..23] == d && u[24..] == e
  {
    var u := Uuid4Text(a, b, c, variant, d, e);
    forall i | 0 <= i < 36 {
      Uuid4TextAt(a, b, c, variant, d, e, i);
    }
    assert u[..8] == a;
    assert u[9..13] == b;
    assert u[15..18] == c;
    assert u[20..23] == d;
    assert u[24..] == e;
  }
}
