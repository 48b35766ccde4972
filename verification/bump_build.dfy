/** The build-number script (scripts/bump-build.mjs): it increments the
    build counter of `build-meta.json`, stamps the local time as
    `dd.mm.yyyy-hh.mm.ss`, and writes the frontend's `buildInfo.ts` with
    the number, the stamp and the version label. Reading and writing the
    files is not modelled; the clock is a parameter. */
module BumpBuild {
  import opened Text

  datatype Meta = Meta(major: int, minor: int, build: int)

  /** The local-time fields `Date` gives: the day of the month, the month
      counted from 0, the full year and the time of day. */
  datatype Clock = Clock(day: nat, month0: nat, year: nat, hours: nat, minutes: nat, seconds: nat)

  predicate ValidClock(t: Clock) {
    1 <= t.day <= 31 && t.month0 < 12 && 1000 <= t.year <= 9999 && t.hours < 24 && t.minutes < 60 && t.seconds < 60
  }

  datatype Bumped = Bumped(meta: Meta, stamp: string, version: string, content: string)

  /** `String(n).padStart(2, "0")`. */
  function Pad(n: nat): (r: string)
    ensures AllDigits(r) && |r| >= 2
    ensures n < 100 ==> |r| == 2
  {
    var s := NatToString(n);
    assert n >= 10 ==> s == NatToString(n / 10) + [DigitChar(n % 10)];
    PadStart2(s)
  }

  /** Two padded digits read back as the number. */
  lemma PadRoundTrip(n: nat)
    requires n < 100
    ensures ParseDigits(Pad(n)) == n
  {
    var s := NatToString(n);
    ParseNatToString(n);
    if n < 10 {
      assert Pad(n) == "0" + s;
      ParseLeadingZero(s);
    }
  }

  /** The date stamp: day, month (counted from 1), year, then hours,
      minutes, seconds. */
  function Stamp(t: Clock): string {
    (Pad(t.day) + "." + (Pad(t.month0 + 1) + "." + NatToString(t.year)))
    + "-" + (Pad(t.hours) + "." + (Pad(t.minutes) + "." + Pad(t.seconds)))
  }

  /** `${major}.${minor}.${build}-${stamp}`. */
  function Version(m: Meta, stamp: string): string {
    IntToString(m.major) + "." + IntToString(m.minor) + "." + IntToString(m.build) + "-" + stamp
  }

  /** The text written to `buildInfo.ts`. */
  function Content(build: int, stamp: string, version: string): string {
    "export const BUILD_NUMBER = " + IntToString(build) + ";\n"
    + "export const BUILD_TIMESTAMP = \"" + stamp + "\";\n"
    + "export const VERSION_LABEL = \"" + version + "\";\n"
  }

  /** One run of the script. */
  function Bump(m: Meta, t: Clock): (r: Bumped)
    ensures r.meta.build == m.build + 1 && r.meta.major == m.major && r.meta.minor == m.minor
    ensures r.version == Version(r.meta, r.stamp) && r.stamp == Stamp(t)
    ensures r.content == Content(r.meta.build, r.stamp, r.version)
  {
    var m' := m.(build := m.build + 1);
    var stamp := Stamp(t);
    var version := Version(m', stamp);
    Bumped(m', stamp, version, Content(m'.build, stamp, version))
  }

  /** Each run raises the build number by exactly one. */
  lemma RunsCount(m: Meta, t1: Clock, t2: Clock)
    ensures Bump(Bump(m, t1).meta, t2).meta == m.(build := m.build + 2)
  {
  }

  /** The stamp splits into its date and its time, each into its three
      two- or four-digit fields, and every field reads back as the clock's
      value. */
  lemma StampRoundTrip(t: Clock)
    requires ValidClock(t)
    ensures var halves := Split(Stamp(t), '-');
      && |halves| == 2
      && Split(halves[0], '.') == [Pad(t.day), Pad(t.month0 + 1), NatToString(t.year)]
      && Split(halves[1], '.') == [Pad(t.hours), Pad(t.minutes), Pad(t.seconds)]
    ensures ParseDigits(Pad(t.day)) == t.day && ParseDigits(Pad(t.month0 + 1)) == t.month0 + 1
    ensures ParseDigits(NatToString(t.year)) == t.year
    ensures ParseDigits(Pad(t.hours)) == t.hours && ParseDigits(Pad(t.minutes)) == t.minutes
    ensures ParseDigits(Pad(t.seconds)) == t.seconds
  {
    StampSplits(t);
    PadRoundTrip(t.day);
    PadRoundTrip(t.month0 + 1);
    ParseNatToString(t.year);
    PadRoundTrip(t.hours);
    PadRoundTrip(t.minutes);
    PadRoundTrip(t.seconds);
  }

  lemma StampSplits(t: Clock)
    ensures var halves := Split(Stamp(t), '-');
      && |halves| == 2
      && Split(halves[0], '.') == [Pad(t.day), Pad(t.month0 + 1), NatToString(t.year)]
      && Split(halves[1], '.') == [Pad(t.hours), Pad(t.minutes), Pad(t.seconds)]
  {
    var date := Pad(t.day) + "." + (Pad(t.month0 + 1) + "." + NatToString(t.year));
    var time := Pad(t.hours) + "." + (Pad(t.minutes) + "." + Pad(t.seconds));
    assert '-' !in date && Split(date, '.') == [Pad(t.day), Pad(t.month0 + 1), NatToString(t.year)] by {
      DigitsFree(Pad(t.day));
      DigitsFree(Pad(t.month0 + 1));
      DigitsFree(NatToString(t.year));
      DotSegments(Pad(t.day), Pad(t.month0 + 1), NatToString(t.year));
    }
    assert '-' !in time && Split(time, '.') == [Pad(t.hours), Pad(t.minutes), Pad(t.seconds)] by {
      DigitsFree(Pad(t.hours));
      DigitsFree(Pad(t.minutes));
      DigitsFree(Pad(t.seconds));
      DotSegments(Pad(t.hours), Pad(t.minutes), Pad(t.seconds));
    }
    assert Stamp(t) == date + ['-'] + time;
    SplitWithoutSeparator(time, '-');
    SplitAtFirstSeparator(date, '-', time);
  }

  /** A digit string holds no separator. */
  lemma DigitsFree(s: string)
    requires AllDigits(s)
    ensures '.' !in s && '-' !in s
  {
    forall i | 0 <= i < |s|
      ensures s[i] != '.' && s[i] != '-'
    {
      assert IsDigit(s[i]);
    }
  }

  lemma DotSegments(a: string, b: string, c: string)
    requires '.' !in a && '.' !in b && '.' !in c && '-' !in a && '-' !in b && '-' !in c
    ensures Split(a + "." + (b + "." + c), '.') == [a, b, c]
    ensures '-' !in a + "." + (b + "." + c)
  {
    SplitWithoutSeparator(c, '.');
    SplitAtFirstSeparator(b, '.', c);
    SplitAtFirstSeparator(a, '.', b + ['.'] + c);
  }

  /** The version label is the new build's numbers followed by the stamp. */
  lemma VersionCarriesBuild(m: Meta, t: Clock)
    requires m.major >= 0 && m.minor >= 0 && m.build >= 0 && ValidClock(t)
    ensures var r := Bump(m, t);
      && Split(r.version, '-')[0] == NatToString(m.major) + "." + NatToString(m.minor) + "." + NatToString(m.build + 1)
      && r.version[|r.version| - |r.stamp|..] == r.stamp
  {
    var r := Bump(m, t);
    var head := NatToString(m.major) + "." + NatToString(m.minor) + "." + NatToString(m.build + 1);
    DigitsFree(NatToString(m.major));
    DigitsFree(NatToString(m.minor));
    DigitsFree(NatToString(m.build + 1));
    assert '-' !in head;
    assert r.version == head + ['-'] + r.stamp;
    SplitAtFirstSeparator(head, '-', r.stamp);
  }
}
