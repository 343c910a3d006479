/**
 * The status line every device returns: the class name, " battery life: ",
 * the stored level in decimal, then " hours.". `ParseReport` reads such a line
 * back from the right, so the name may be any text; the lemmas show that the
 * line determines the name and the level, and that the reader accepts nothing
 * the writer could not have produced.
 */
module BatteryReport {
  import opened Wrappers
  import opened Decimal

  const Infix := " battery life: "
  const Suffix := " hours."

  datatype Report = Report(name: string, level: int)

  /**
   * The f-string returned by `get_battery_life`: the name, the infix, the
   * level as `str` writes it, and the suffix, each in its own field. What the
   * line as a whole means is fixed by `ParseReport` and the lemmas below.
   */
  function Describe(name: string, level: int): (line: string)
    ensures |line| == |name| + |Infix| + |IntToDecimal(level)| + |Suffix|
    ensures line[..|name|] == name
    ensures line[|name|..|name| + |Infix|] == Infix
    ensures line[|name| + |Infix|..|line| - |Suffix|] == IntToDecimal(level)
    ensures line[|line| - |Suffix|..] == Suffix
  {
    FieldsOfConcat(name, Infix, IntToDecimal(level), Suffix);
    name + Infix + IntToDecimal(level) + Suffix
  }

  /** Each of four strings laid end to end can be sliced back out of the result. */
  lemma FieldsOfConcat(a: string, b: string, c: string, d: string)
    ensures var s := a + b + c + d;
      && |s| == |a| + |b| + |c| + |d|
      && s[..|a|] == a
      && s[|a|..|a| + |b|] == b
      && s[|a| + |b|..|s| - |d|] == c
      && s[|s| - |d|..] == d
  {
  }

  /** `s` without `suffix`, when `s` ends with it. */
  function StripSuffix(s: string, suffix: string): (r: Option<string>)
    ensures r.Some? ==> r.value + suffix == s
  {
    if |s| < |suffix| || s[|s| - |suffix|..] != suffix then None else Some(s[..|s| - |suffix|])
  }

  lemma StripSuffixOfConcat(x: string, suffix: string)
    ensures StripSuffix(x + suffix, suffix) == Some(x)
  {
  }

  /**
   * Splits off the number at the end of `body`: its trailing digits and the
   * minus sign just before them, if there is one.
   */
  function SplitLevel(body: string): (r: (string, string))
    ensures r.0 + r.1 == body
  {
    var k := TrailingDigitCount(body);
    var j := if k < |body| && body[|body| - k - 1] == '-' then |body| - k - 1 else |body| - k;
    assert body[..j] + body[j..] == body;
    (body[..j], body[j..])
  }

  /** After a head that ends in a space, the split finds exactly the decimal text of the level. */
  lemma SplitLevelOfDecimal(head: string, level: int)
    requires head != [] && head[|head| - 1] == ' '
    ensures SplitLevel(head + IntToDecimal(level)) == (head, IntToDecimal(level))
  {
    var dec := IntToDecimal(level);
    var body := head + dec;
    if level < 0 {
      var digits := dec[1..];
      assert dec == "-" + digits;
      assert body == (head + "-") + digits;
      TrailingDigitCountOfRun(head + "-", digits);
      assert body[|head|] == '-';
    } else {
      TrailingDigitCountOfRun(head, dec);
      assert body[|head| - 1] == ' ';
    }
    assert body[..|head|] == head;
    assert body[|head|..] == dec;
  }

  /**
   * Reads a status line: strip the suffix, split off the number at the end
   * as the level, strip the infix, and what remains is the name.
   */
  function ParseReport(s: string): Option<Report> {
    match StripSuffix(s, Suffix)
    case None => None
    case Some(body) =>
      var (head, dec) := SplitLevel(body);
      match ParseInt(dec)
      case None => None
      case Some(level) =>
        match StripSuffix(head, Infix)
        case None => None
        case Some(name) => Some(Report(name, level))
  }

  /** Reading a status line gives back the name and the level it was written from. */
  lemma ParseReportRoundTrip(name: string, level: int)
    ensures ParseReport(Describe(name, level)) == Some(Report(name, level))
  {
    var head := name + Infix;
    var body := head + IntToDecimal(level);
    assert Describe(name, level) == body + Suffix;
    StripSuffixOfConcat(body, Suffix);
    assert head[|head| - 1] == ' ';
    SplitLevelOfDecimal(head, level);
    ParseIntRoundTrip(level);
    StripSuffixOfConcat(name, Infix);
  }

  /** Every line the reader accepts is exactly the line written for what it read. */
  lemma ParseReportCanonical(s: string)
    ensures ParseReport(s).Some? ==> Describe(ParseReport(s).value.name, ParseReport(s).value.level) == s
  {
    if ParseReport(s).Some? {
      var body := StripSuffix(s, Suffix).value;
      var (head, dec) := SplitLevel(body);
      ParseIntCanonical(dec);
    }
  }

  /** Two status lines are equal only when their names and levels are. */
  lemma DescribeInjective(name1: string, level1: int, name2: string, level2: int)
    ensures Describe(name1, level1) == Describe(name2, level2) ==> name1 == name2 && level1 == level2
  {
    ParseReportRoundTrip(name1, level1);
    ParseReportRoundTrip(name2, level2);
  }
}
