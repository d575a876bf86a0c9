/**
 * The common fixture's meta-value mapper: resolves a marker name to a
 * generated value. The clock and the random UUID source are inputs.
 */
module MetaValue {
  import opened Wrappers
  import opened Text

  /** Fixture type tags of the libraries. */
  datatype FixtureType = CommonTestFixture | MongoTestFixture | MockHttpServerPathTestFixture

  /** The part of the clock the mapper reads: the id of its time zone. */
  datatype Clock = Clock(zoneId: string)

  /** A UUID as its two 64-bit halves, read as unsigned bit patterns. */
  datatype Uuid = Uuid(mostSigBits: nat, leastSigBits: nat)

  const TwoTo64: nat := 0x1_0000_0000_0000_0000

  predicate ValidUuid(u: Uuid) {
    u.mostSigBits < TwoTo64 && u.leastSigBits < TwoTo64
  }

  lemma Pow16Values()
    ensures Pow16(4) == 0x1_0000
    ensures Pow16(8) == 0x1_0000_0000
    ensures Pow16(12) == 0x1_0000_0000_0000
  {
    assert Pow16(2) == 0x100;
    assert Pow16(4) == 0x1_0000;
    assert Pow16(6) == 0x100_0000;
    assert Pow16(8) == 0x1_0000_0000;
    assert Pow16(10) == 0x100_0000_0000;
  }

  /** `UUID.toString()`: five groups of 8, 4, 4, 4 and 12 lower-case hex digits joined by dashes. */
  function UuidToString(u: Uuid): (s: string)
    ensures |s| == 36
    ensures s[8] == '-' && s[13] == '-' && s[18] == '-' && s[23] == '-'
    ensures forall i :: 0 <= i < 36 && i != 8 && i != 13 && i != 18 && i != 23 ==> IsHexChar(s[i])
  {
    var msb, lsb := u.mostSigBits, u.leastSigBits;
    Hex((msb / 0x1_0000_0000) % 0x1_0000_0000, 8) + "-" +
    Hex((msb / 0x1_0000) % 0x1_0000, 4) + "-" +
    Hex(msb % 0x1_0000, 4) + "-" +
    Hex((lsb / 0x1_0000_0000_0000) % 0x1_0000, 4) + "-" +
    Hex(lsb % 0x1_0000_0000_0000, 12)
  }

  /** Reads the two halves back from the canonical text form. */
  function ParseUuid(s: string): Uuid
    requires |s| == 36
    requires forall i :: 0 <= i < 36 && i != 8 && i != 13 && i != 18 && i != 23 ==> IsHexChar(s[i])
  {
    Uuid(ParseHex(s[0..8]) * 0x1_0000_0000 + ParseHex(s[9..13]) * 0x1_0000 + ParseHex(s[14..18]),
         ParseHex(s[19..23]) * 0x1_0000_0000_0000 + ParseHex(s[24..36]))
  }

  /** The text form loses nothing: distinct UUIDs print differently. */
  lemma UuidStringRoundTrip(u: Uuid)
    requires ValidUuid(u)
    ensures ParseUuid(UuidToString(u)) == u
  {
    var msb, lsb := u.mostSigBits, u.leastSigBits;
    var a, b, c := (msb / 0x1_0000_0000) % 0x1_0000_0000, (msb / 0x1_0000) % 0x1_0000, msb % 0x1_0000;
    var d, e := (lsb / 0x1_0000_0000_0000) % 0x1_0000, lsb % 0x1_0000_0000_0000;
    var s := UuidToString(u);
    UuidGroups(s, Hex(a, 8), Hex(b, 4), Hex(c, 4), Hex(d, 4), Hex(e, 12));
    Pow16Values();
    HexRoundTrip(a, 8);
    HexRoundTrip(b, 4);
    HexRoundTrip(c, 4);
    HexRoundTrip(d, 4);
    HexRoundTrip(e, 12);
    SplitMostSigBits(msb);
    SplitLeastSigBits(lsb);
  }

  lemma UuidGroups(s: string, g1: string, g2: string, g3: string, g4: string, g5: string)
    requires |g1| == 8 && |g2| == 4 && |g3| == 4 && |g4| == 4 && |g5| == 12
    requires s == g1 + "-" + g2 + "-" + g3 + "-" + g4 + "-" + g5
    ensures s[0..8] == g1 && s[9..13] == g2 && s[14..18] == g3 && s[19..23] == g4 && s[24..36] == g5
  {
  }

  lemma SplitMostSigBits(msb: nat)
    requires msb < TwoTo64
    ensures msb == ((msb / 0x1_0000_0000) % 0x1_0000_0000) * 0x1_0000_0000
                   + ((msb / 0x1_0000) % 0x1_0000) * 0x1_0000 + msb % 0x1_0000
  {
    var q := msb / 0x1_0000;
    assert msb == q * 0x1_0000 + msb % 0x1_0000;
    assert q == (q / 0x1_0000) * 0x1_0000 + q % 0x1_0000;
    assert q / 0x1_0000 == msb / 0x1_0000_0000;
    assert msb / 0x1_0000_0000 < 0x1_0000_0000;
  }

  lemma SplitLeastSigBits(lsb: nat)
    requires lsb < TwoTo64
    ensures lsb == ((lsb / 0x1_0000_0000_0000) % 0x1_0000) * 0x1_0000_0000_0000 + lsb % 0x1_0000_0000_0000
  {
    assert lsb / 0x1_0000_0000_0000 < 0x1_0000;
  }

  /** The fixture type this mapper serves: the common one, shared by every test. */
  function MapperType(): (t: FixtureType)
    ensures t == CommonTestFixture
  {
    CommonTestFixture
  }

  /**
   * Maps a meta value name to its value: the clock's zone id for "time-zone", the text of a
   * fresh UUID for "uuid", a failure for any other name. The context is not consulted.
   */
  function Map<C>(context: C, metaValue: string, clock: Clock, randomUuid: Uuid): (r: Result<string, ()>)
    ensures metaValue == "time-zone" ==> r == Success(clock.zoneId)
    ensures metaValue == "uuid" ==> r.Success? && |r.value| == 36 && r.value == UuidToString(randomUuid)
    ensures metaValue != "time-zone" && metaValue != "uuid" ==> r == Failure(())
  {
    if metaValue == "time-zone" then Success(clock.zoneId)
    else if metaValue == "uuid" then Success(UuidToString(randomUuid))
    else Failure(())
  }

  /** The mapper's answer is the same whatever context it is given. */
  lemma MapIgnoresContext<C>(c1: C, c2: C, metaValue: string, clock: Clock, randomUuid: Uuid)
    ensures Map(c1, metaValue, clock, randomUuid) == Map(c2, metaValue, clock, randomUuid)
  {
  }
}
