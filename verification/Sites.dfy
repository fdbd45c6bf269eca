/**
 Runtime sites, "file:line[:column]", parsed from the right
 (`TakeNumber` and `ParseSite` of src/findings.cpp).
 */
module Sites {
  import opened Text

  datatype SourceLocation = SourceLocation(file: string, line: nat, column: nat)

  /** The largest value of the source's `unsigned`. */
  const UNSIGNED_MAX: nat := 0xFFFF_FFFF

  /** What `std::from_chars` leaves: the value, the end of the digits, and success. */
  datatype FromChars = FromChars(value: nat, end: nat, ok: bool)

  /** `std::from_chars` on an `unsigned`: no sign, no blanks, `previous` kept on failure. */
  function ReadUnsigned(s: string, previous: nat): FromChars {
    var n := DigitPrefix(s);
    if n == 0 then FromChars(previous, 0, false)
    else if DecValue(s[..n]) > UNSIGNED_MAX then FromChars(previous, n, false)
    else FromChars(DecValue(s[..n]), n, true)
  }

  /** A spelling of an `unsigned`: digits only, leading zeros allowed. */
  predicate Numeral(digits: string) {
    digits != "" && AllDigits(digits) && DecValue(digits) <= UNSIGNED_MAX
  }

  /** `site` is `rest`, a colon, and a spelling of `value`. */
  ghost predicate NumberAfter(site: string, rest: string, value: nat) {
    exists digits :: NumberSpelled(site, rest, digits, value)
  }

  ghost predicate NumberSpelled(site: string, rest: string, digits: string, value: nat) {
    && site == rest + ":" + digits && digits != "" && AllDigits(digits)
    && DecValue(digits) == value <= 4294967295
  }

  ghost predicate EndsInNumber(site: string) {
    exists rest, value: nat :: NumberAfter(site, rest, value)
  }

  /** The site without its trailing ":<number>", and the number. */
  function SplitNumber(site: string): Option<(string, nat)> {
    var start := AfterLast(site, ':');
    if start == 0 || !Numeral(site[start..]) then None
    else Some((site[..start - 1], DecValue(site[start..])))
  }

  /** `SplitNumber` finds the one way to read a number off the end, if there is one. */
  lemma SplitNumberMeaning(site: string)
    ensures forall rest, value: nat :: NumberAfter(site, rest, value) <==> SplitNumber(site) == Some((rest, value))
    ensures EndsInNumber(site) <==> SplitNumber(site).Some?
  {
    forall rest, value: nat | NumberAfter(site, rest, value)
      ensures SplitNumber(site) == Some((rest, value))
    {
      var digits :| NumberSpelled(site, rest, digits, value);
      AfterLastHead(rest, ':', digits);
      assert site[..|rest|] == rest && site[|rest| + 1..] == digits;
    }
    if SplitNumber(site).Some? {
      AfterLastMeaning(site, ':');
      var start := AfterLast(site, ':');
      var (rest, value) := SplitNumber(site).value;
      assert site == rest + ":" + site[start..];
      assert NumberSpelled(site, rest, site[start..], value);
      assert NumberAfter(site, rest, value);
    }
  }

  /** The location a site names; `None` for anything else, such as "<unknown>". */
  function SiteOf(site: string): Option<SourceLocation> {
    match SplitNumber(site)
    case None => None
    case Some((rest, last)) =>
      match SplitNumber(rest)
      case None => Located(rest, last, 0)
      case Some((file, line)) => Located(file, line, last)
  }

  function Located(file: string, line: nat, column: nat): Option<SourceLocation> {
    if file == "" || line == 0 then None else Some(SourceLocation(file, line, column))
  }

  /** Removes a trailing ":<number>" from `site` into `value`; a failure may leave a partial value. */
  method TakeNumber(site: string, value: nat) returns (taken: bool, site': string, value': nat)
    ensures taken <==> EndsInNumber(site)
    ensures taken ==> NumberAfter(site, site', value')
    ensures !taken ==> site' == site
    ensures value <= UNSIGNED_MAX ==> value' <= UNSIGNED_MAX
  {
    SplitNumberMeaning(site);
    taken, site', value' := false, site, value;
    var start := AfterLast(site, ':');
    if start == 0 {
      return;
    }
    var digits := site[start..];
    var read := ReadUnsigned(digits, value);
    value' := read.value;
    DigitPrefixWhole(digits);
    assert digits[..|digits|] == digits;
    if digits == "" || !read.ok || read.end != |digits| {
      return;
    }
    taken, site' := true, site[..start - 1];
  }

  /** The site parser, with its locals overwritten from the right. */
  method ParseSite(site: string) returns (location: Option<SourceLocation>)
    ensures location == SiteOf(site)
  {
    SplitNumberMeaning(site);
    var line, column := 0, 0;
    var taken, rest, last := TakeNumber(site, 0);
    if !taken {
      return None;
    }
    SplitNumberMeaning(rest);
    var hasLine, file, value := TakeNumber(rest, line);
    line := value;
    if hasLine {
      column := last;
    } else {
      line := last;
    }
    if file == "" || line == 0 {
      return None;
    }
    return Some(SourceLocation(file, line, column));
  }

  /** A site as the runtime prints it; column 0 is printed only on request. */
  function PrintSite(location: SourceLocation, withColumn: bool): string {
    location.file + ":" + Dec(location.line) + (if withColumn then ":" + Dec(location.column) else "")
  }

  lemma NumeralDec(n: nat)
    requires n <= UNSIGNED_MAX
    ensures Numeral(Dec(n)) && DecValue(Dec(n)) == n
  {
    DecRoundTrip(n);
  }

  /** "file:line:column" reads back as the same triple, whatever the file name holds. */
  lemma SiteRoundTrip(location: SourceLocation)
    requires location.file != "" && 1 <= location.line <= UNSIGNED_MAX && location.column <= UNSIGNED_MAX
    ensures SiteOf(PrintSite(location, true)) == Some(location)
  {
    var rest := location.file + ":" + Dec(location.line);
    var site := rest + ":" + Dec(location.column);
    assert PrintSite(location, true) == site;
    NumeralDec(location.line);
    NumeralDec(location.column);
    SplitNumberMeaning(site);
    assert NumberSpelled(site, rest, Dec(location.column), location.column);
    assert NumberAfter(site, rest, location.column);
    SplitNumberMeaning(rest);
    assert NumberSpelled(rest, location.file, Dec(location.line), location.line);
    assert NumberAfter(rest, location.file, location.line);
  }

  /** Without a column, the round trip holds exactly for files that do not end in a number. */
  lemma SiteRoundTripNoColumn(file: string, line: nat)
    requires file != "" && 1 <= line <= UNSIGNED_MAX
    ensures SiteOf(PrintSite(SourceLocation(file, line, 0), false)) == Some(SourceLocation(file, line, 0))
      <==> !EndsInNumber(file)
  {
    var site := file + ":" + Dec(line);
    assert PrintSite(SourceLocation(file, line, 0), false) == site;
    NumeralDec(line);
    SplitNumberMeaning(site);
    assert NumberSpelled(site, file, Dec(line), line);
    assert NumberAfter(site, file, line);
    SplitNumberMeaning(file);
    if EndsInNumber(file) {
      var (shorter, value) := SplitNumber(file).value;
      var digits :| NumberSpelled(file, shorter, digits, value);
      assert |shorter| < |file|;
    }
  }

  /** A file that ends in a colon and a number, at line 2 without a column, is read as another. */
  lemma NumberedFileMisread()
    ensures var location := SourceLocation("a:1", 2, 0);
      SiteOf(PrintSite(location, false)) == Some(SourceLocation("a", 1, 2)) != Some(location)
  {
    var other := SourceLocation("a", 1, 2);
    SiteRoundTrip(other);
    assert Dec(1) == "1" && Dec(2) == "2";
    assert PrintSite(SourceLocation("a:1", 2, 0), false) == PrintSite(other, true);
    assert other.file[0] == 'a' && |"a:1"| == 3;
  }

  /** `site` spells `location`: with a column, or without one when the file ends in no number. */
  ghost predicate Spells(site: string, location: SourceLocation) {
    || (exists rest :: NumberAfter(site, rest, location.column) && NumberAfter(rest, location.file, location.line))
    || (location.column == 0 && NumberAfter(site, location.file, location.line) && !EndsInNumber(location.file))
  }

  predicate ValidLocation(location: SourceLocation) {
    location.file != "" && 1 <= location.line <= 4294967295 && location.column <= 4294967295
  }

  /** The parser accepts exactly the spellings of valid locations, each as what it spells. */
  lemma SiteMeaning(site: string, location: SourceLocation)
    ensures SiteOf(site) == Some(location) <==> ValidLocation(location) && Spells(site, location)
  {
    SplitNumberMeaning(site);
    SplitNumberMeaning(location.file);
    match SplitNumber(site)
    case None =>
    case Some((rest, last)) =>
      assert NumberAfter(site, rest, last);
      SplitNumberMeaning(rest);
      if SiteOf(site) == Some(location) && SplitNumber(rest).Some? {
        assert NumberAfter(rest, location.file, location.line);
      }
  }
}
