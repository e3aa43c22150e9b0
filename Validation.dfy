/** The form validators shared by the Profile and Onboarding screens: the
    anchored regular expressions of screens/Profile.js and
    screens/Onboarding.js, written as recognisers over `seq<char>`. */
module Validation {
  import opened Text

  // ---------------------------------------------------------------- names

  /** `/^[a-zA-Z]+$/`. */
  predicate LettersOnly(s: string) {
    |s| >= 1 && AllLetters(s)
  }

  /** `name.trim() !== "" && /^[a-zA-Z]+$/.test(name)`. */
  predicate NameValid(s: string) {
    Trim(s) != [] && LettersOnly(s)
  }

  /** The trim test adds nothing: a name is valid exactly when it is a
      non-empty run of ASCII letters. */
  lemma NameValidIff(s: string)
    ensures NameValid(s) <==> s != [] && AllLetters(s)
  {
    TrimEmpty(s);
    if s != [] && AllLetters(s) {
      assert !IsJsWhitespace(s[0]);
    }
  }

  // ---------------------------------------------------------------- phone numbers

  /** `[\s.-]`. */
  predicate IsPhoneSeparator(c: char) {
    IsJsWhitespace(c) || c == '.' || c == '-'
  }

  /** `\s?`. */
  predicate OptionalSpace(g: string) {
    g == [] || (|g| == 1 && IsJsWhitespace(g[0]))
  }

  /** `[\s.-]?`. */
  predicate OptionalSeparator(g: string) {
    g == [] || (|g| == 1 && IsPhoneSeparator(g[0]))
  }

  /** One match of `^(\+1\s?)?(\([0-9]{3}\)\s?)?[0-9]{3}[\s.-]?[0-9]{4}$`:
      whether each optional group is present and the text each part matched.
      An absent area code is the empty `area`. */
  datatype Phone = Phone(
    country: bool, countryGap: string,
    area: string, areaGap: string,
    exchange: string, separator: string, line: string)

  predicate WellFormedPhone(p: Phone) {
    && OptionalSpace(p.countryGap) && (!p.country ==> p.countryGap == [])
    && (p.area == [] || (|p.area| == 3 && AllDigits(p.area)))
    && OptionalSpace(p.areaGap) && (p.area == [] ==> p.areaGap == [])
    && |p.exchange| == 3 && AllDigits(p.exchange)
    && OptionalSeparator(p.separator)
    && |p.line| == 4 && AllDigits(p.line)
  }

  /** The text of the `(\+1\s?)?` group. */
  function CountryText(country: bool, gap: string): string {
    if country then "+1" + gap else []
  }

  /** The text of the `(\([0-9]{3}\)\s?)?` group. */
  function AreaText(area: string, gap: string): string {
    if area != [] then "(" + area + ")" + gap else []
  }

  /** The text a match spans: the whole tested string, as the pattern is anchored. */
  function RenderPhone(p: Phone): string {
    CountryText(p.country, p.countryGap) + (AreaText(p.area, p.areaGap) + (p.exchange + p.separator + p.line))
  }

  function LeadingSpace(s: string): (g: string)
    ensures OptionalSpace(g) && |g| <= |s| && g == s[..|g|]
    ensures s != [] && IsJsWhitespace(s[0]) ==> g != []
  {
    if s != [] && IsJsWhitespace(s[0]) then s[..1] else []
  }

  /** The `(\+1\s?)?` group. It is taken whenever the text starts with `+1`:
      nothing else in the pattern can match a `+`. */
  function ParseCountry(s: string): (r: (bool, string, string))
    ensures CountryText(r.0, r.1) + r.2 == s
    ensures OptionalSpace(r.1) && (!r.0 ==> r.1 == [])
  {
    if |s| >= 2 && s[..2] == "+1" then
      var gap := LeadingSpace(s[2..]);
      assert s == s[..2] + gap + s[2 + |gap|..];
      (true, gap, s[2 + |gap|..])
    else (false, [], s)
  }

  /** The `(\([0-9]{3}\)\s?)?` group. It is taken whenever the text starts with
      `(`; if it then does not match, nothing does. */
  function ParseArea(s: string): (r: Option<(string, string, string)>)
    ensures r.Some? ==> AreaText(r.value.0, r.value.1) + r.value.2 == s
    ensures r.Some? ==> OptionalSpace(r.value.1) && (r.value.0 == [] ==> r.value.1 == [])
    ensures r.Some? ==> r.value.0 == [] || (|r.value.0| == 3 && AllDigits(r.value.0))
  {
    if s != [] && s[0] == '(' then
      if |s| >= 5 && AllDigits(s[1..4]) && s[4] == ')' then
        var gap := LeadingSpace(s[5..]);
        assert s == "(" + s[1..4] + ")" + gap + s[5 + |gap|..];
        Some((s[1..4], gap, s[5 + |gap|..]))
      else None
    else Some(([], [], s))
  }

  /** `[0-9]{3}[\s.-]?[0-9]{4}$`: seven digits, or eight characters with the
      separator fourth. */
  function ParseLocal(s: string): (r: Option<(string, string, string)>)
    ensures r.Some? ==> r.value.0 + r.value.1 + r.value.2 == s
    ensures r.Some? ==> |r.value.0| == 3 && AllDigits(r.value.0) && OptionalSeparator(r.value.1)
    ensures r.Some? ==> |r.value.2| == 4 && AllDigits(r.value.2)
  {
    if |s| == 7 && AllDigits(s) then
      assert s == s[..3] + [] + s[3..];
      Some((s[..3], [], s[3..]))
    else if |s| == 8 && AllDigits(s[..3]) && IsPhoneSeparator(s[3]) && AllDigits(s[4..]) then
      assert s == s[..3] + s[3..4] + s[4..];
      Some((s[..3], s[3..4], s[4..]))
    else None
  }

  /** The match of the phone pattern against the whole text, if there is one. */
  function ParsePhone(s: string): Option<Phone> {
    var (country, countryGap, afterCountry) := ParseCountry(s);
    match ParseArea(afterCountry)
    case None => None
    case Some((area, areaGap, local)) =>
      match ParseLocal(local)
      case None => None
      case Some((exchange, separator, line)) =>
        Some(Phone(country, countryGap, area, areaGap, exchange, separator, line))
  }

  /** `isPhoneNumberValid`. */
  predicate PhoneValid(s: string) {
    ParsePhone(s).Some?
  }

  lemma ParseLocalOf(exchange: string, separator: string, line: string)
    requires |exchange| == 3 && AllDigits(exchange) && OptionalSeparator(separator)
    requires |line| == 4 && AllDigits(line)
    ensures ParseLocal(exchange + separator + line) == Some((exchange, separator, line))
  {
    var s := exchange + separator + line;
    if separator == [] {
      assert s == exchange + line;
      assert forall i :: 0 <= i < 7 ==> IsDigit(s[i]) by {
        forall i | 0 <= i < 7 ensures IsDigit(s[i]) {
          if i < 3 { assert s[i] == exchange[i]; } else { assert s[i] == line[i - 3]; }
        }
      }
      assert s[..3] == exchange && s[3..] == line;
    } else {
      assert s[..3] == exchange && s[3..4] == separator && s[4..] == line;
      assert !IsDigit(s[3]) by { assert s[3] == separator[0]; }
    }
  }

  lemma ParseAreaOf(area: string, gap: string, rest: string)
    requires area == [] || (|area| == 3 && AllDigits(area))
    requires OptionalSpace(gap) && (area == [] ==> gap == [])
    requires rest != [] && IsDigit(rest[0])
    ensures ParseArea(AreaText(area, gap) + rest) == Some((area, gap, rest))
  {
    var s := AreaText(area, gap) + rest;
    if area != [] {
      assert s == "(" + area + ")" + gap + rest;
      assert s[1..4] == area && s[4] == ')';
      assert s[5..] == gap + rest;
      if gap == [] {
        assert !IsJsWhitespace(s[5..][0]);
      }
      assert LeadingSpace(s[5..]) == gap;
      assert s[5 + |gap|..] == rest;
    } else {
      assert s == rest;
    }
  }

  lemma ParseCountryOf(country: bool, gap: string, rest: string)
    requires OptionalSpace(gap) && (!country ==> gap == [])
    requires rest != [] && (rest[0] == '(' || IsDigit(rest[0]))
    ensures ParseCountry(CountryText(country, gap) + rest) == (country, gap, rest)
  {
    var s := CountryText(country, gap) + rest;
    if country {
      assert s == "+1" + gap + rest;
      assert s[..2] == "+1" && s[2..] == gap + rest;
      if gap == [] {
        assert !IsJsWhitespace(s[2..][0]);
      }
      assert LeadingSpace(s[2..]) == gap;
      assert s[2 + |gap|..] == rest;
    } else {
      assert s == rest;
      assert s[0] != '+';
    }
  }

  /** Every match of the pattern is found, with its groups. */
  lemma ParseRenderPhone(p: Phone)
    requires WellFormedPhone(p)
    ensures ParsePhone(RenderPhone(p)) == Some(p)
  {
    var local := p.exchange + p.separator + p.line;
    var afterCountry := AreaText(p.area, p.areaGap) + local;
    ParseLocalOf(p.exchange, p.separator, p.line);
    assert local[0] == p.exchange[0];
    ParseAreaOf(p.area, p.areaGap, local);
    assert afterCountry[0] == '(' || IsDigit(afterCountry[0]) by {
      if p.area == [] { assert afterCountry == local; }
    }
    ParseCountryOf(p.country, p.countryGap, afterCountry);
  }

  /** Whatever is found is a match of the pattern spanning the whole text. */
  lemma RenderParsePhone(s: string)
    requires ParsePhone(s).Some?
    ensures WellFormedPhone(ParsePhone(s).value) && RenderPhone(ParsePhone(s).value) == s
  {
    var country := ParseCountry(s);
    var area := ParseArea(country.2).value;
    var local := ParseLocal(area.2).value;
    assert ParsePhone(s).value == Phone(country.0, country.1, area.0, area.1, local.0, local.1, local.2);
  }

  /** The pattern matches exactly the renderings of well-formed matches, and a
      text has at most one match. */
  lemma PhoneValidIff(s: string, p: Phone)
    ensures ParsePhone(s) == Some(p) <==> WellFormedPhone(p) && RenderPhone(p) == s
  {
    if ParsePhone(s) == Some(p) {
      RenderParsePhone(s);
    }
    if WellFormedPhone(p) && RenderPhone(p) == s {
      ParseRenderPhone(p);
    }
  }

  /** Every number the input mask `(999) 999-9999` fills in completely is valid. */
  lemma MaskedPhoneValid(d: string)
    requires |d| == 10 && AllDigits(d)
    ensures PhoneValid("(" + d[..3] + ") " + d[3..6] + "-" + d[6..])
  {
    var p := Phone(false, [], d[..3], " ", d[3..6], "-", d[6..]);
    assert AllDigits(p.area) && AllDigits(p.exchange) && AllDigits(p.line);
    ParseRenderPhone(p);
    var area := "(" + d[..3] + ") ";
    CloseParenSpace("(" + d[..3]);
    assert AreaText(p.area, p.areaGap) == area;
    Assoc(area, d[3..6] + "-", d[6..]);
    Assoc(area, d[3..6], "-");
  }

  lemma CloseParenSpace(x: string)
    ensures x + ")" + " " == x + ") "
  {
  }

  // ---------------------------------------------------------------- e-mail addresses

  /** `[^<>()[\]\\.,;:\s@"]`: a character of an unquoted local part. */
  predicate IsAtomChar(c: char) {
    c !in "<>()[]\\.,;:@\"" && !IsJsWhitespace(c)
  }

  /** `[a-zA-Z\-0-9]`: a character of a domain label. */
  predicate IsLabelChar(c: char) {
    IsAsciiLetter(c) || IsDigit(c) || c == '-'
  }

  predicate AllAtomChars(s: string) {
    forall i :: 0 <= i < |s| ==> IsAtomChar(s[i])
  }

  predicate AllLabelChars(s: string) {
    forall i :: 0 <= i < |s| ==> IsLabelChar(s[i])
  }

  /** `[^…]+(\.[^…]+)*`: atoms joined by single dots, none empty. */
  predicate DotAtom(s: string) {
    var atoms := SplitOn(s, '.');
    forall i :: 0 <= i < |atoms| ==> atoms[i] != [] && AllAtomChars(atoms[i])
  }

  /** `".+"`: quotes around one or more characters other than line terminators. */
  predicate QuotedString(s: string) {
    |s| >= 3 && s[0] == '"' && s[|s| - 1] == '"' &&
    forall i :: 1 <= i < |s| - 1 ==> !IsLineTerminator(s[i])
  }

  predicate LocalPart(s: string) {
    DotAtom(s) || QuotedString(s)
  }

  /** `\[[0-9]{1,3}\.[0-9]{1,3}\.[0-9]{1,3}\.[0-9]{1,3}\]`. */
  predicate IpLiteral(d: string) {
    |d| >= 2 && d[0] == '[' && d[|d| - 1] == ']' &&
    var octets := SplitOn(d[1..|d| - 1], '.');
    |octets| == 4 && forall i :: 0 <= i < 4 ==> 1 <= |octets[i]| <= 3 && AllDigits(octets[i])
  }

  /** `([a-zA-Z\-0-9]+\.)+[a-zA-Z]{2,}`: one or more labels, each followed by a
      dot, then a top-level domain of at least two letters. */
  predicate HostName(d: string) {
    var labels := SplitOn(d, '.');
    |labels| >= 2 &&
    (forall i :: 0 <= i < |labels| - 1 ==> labels[i] != [] && AllLabelChars(labels[i])) &&
    |labels[|labels| - 1]| >= 2 && AllLetters(labels[|labels| - 1])
  }

  predicate DomainPart(d: string) {
    IpLiteral(d) || HostName(d)
  }

  /** `isEmailValid`: some `@` splits the text into a local part and a domain. */
  predicate EmailValid(s: string) {
    exists k :: 0 <= k < |s| && s[k] == '@' && LocalPart(s[..k]) && DomainPart(s[k + 1..])
  }

  lemma {:induction false} SplitWithoutSeparator(s: string, sep: char)
    requires sep !in s
    ensures SplitOn(s, sep) == [s]
  {
    if s != [] {
      assert s[0] in s;
      assert sep !in s[1..] by {
        forall i | 0 <= i < |s[1..]| ensures s[1..][i] != sep { assert s[1..][i] == s[i + 1]; }
      }
      SplitWithoutSeparator(s[1..], sep);
      assert [s[0]] + s[1..] == s;
    }
  }

  /** The last part of a split is a suffix of the text. */
  lemma {:induction false} SplitLastSuffix(s: string, sep: char)
    ensures var parts := SplitOn(s, sep);
            |parts[|parts| - 1]| <= |s| && parts[|parts| - 1] == s[|s| - |parts[|parts| - 1]|..]
  {
    if s != [] {
      SplitLastSuffix(s[1..], sep);
      var rest := SplitOn(s[1..], sep);
      var parts := SplitOn(s, sep);
      if s[0] != sep && |rest| == 1 {
        assert parts == [[s[0]] + rest[0]];
        JoinSplit(s[1..], sep);
        assert [s[0]] + s[1..] == s;
      } else {
        assert parts[|parts| - 1] == rest[|rest| - 1];
      }
    }
  }

  /** A domain with no dot is neither a host name nor an address literal. */
  lemma NoDotNoDomain(d: string)
    requires '.' !in d
    ensures !DomainPart(d)
  {
    SplitWithoutSeparator(d, '.');
    if |d| >= 2 {
      var inner := d[1..|d| - 1];
      assert '.' !in inner by {
        forall i | 0 <= i < |inner| ensures inner[i] != '.' { assert inner[i] == d[i + 1]; }
      }
      SplitWithoutSeparator(inner, '.');
    }
  }

  /** `a@b` is rejected: its domain has no dot. */
  lemma SingleLabelRejected()
    ensures !EmailValid("a@b")
  {
    var s := "a@b";
    forall k | 0 <= k < |s| && s[k] == '@'
      ensures !DomainPart(s[k + 1..])
    {
      assert k == 1;
      assert s[2..] == "b";
      NoDotNoDomain("b");
    }
  }

  /** The empty text is not a local part. */
  lemma EmptyNotLocalPart()
    ensures !LocalPart([])
  {
    var atoms := SplitOn([], '.');
    assert atoms == [[]];
    assert atoms[0] == [];
  }

  /** A domain is non-empty and ends in a letter of the top-level domain or in
      the `]` of an address literal. */
  lemma DomainPartEnd(d: string)
    requires DomainPart(d)
    ensures d != [] && (IsAsciiLetter(d[|d| - 1]) || d[|d| - 1] == ']')
  {
    if !IpLiteral(d) {
      HostNameEnd(d);
    }
  }

  lemma HostNameEnd(d: string)
    requires HostName(d)
    ensures d != [] && IsAsciiLetter(d[|d| - 1])
  {
    var labels := SplitOn(d, '.');
    var tld := labels[|labels| - 1];
    assert |tld| >= 2 && AllLetters(tld);
    SplitLastSuffix(d, '.');
    assert tld == d[|d| - |tld|..];
    assert d[|d| - 1] == tld[|tld| - 1];
  }

  /** Any valid address has a non-empty local part before some `@`, and ends in
      a letter of the top-level domain or in the `]` of an address literal. */
  lemma EmailShape(s: string)
    requires EmailValid(s)
    ensures exists k :: 0 < k < |s| - 1 && s[k] == '@'
    ensures IsAsciiLetter(s[|s| - 1]) || s[|s| - 1] == ']'
  {
    var k :| 0 <= k < |s| && s[k] == '@' && LocalPart(s[..k]) && DomainPart(s[k + 1..]);
    var d := s[k + 1..];
    EmptyNotLocalPart();
    assert s[..k] != [];
    DomainPartEnd(d);
    assert s[|s| - 1] == d[|d| - 1];
  }

  lemma NoDotIn(s: string, allowed: char -> bool)
    requires forall i :: 0 <= i < |s| ==> allowed(s[i])
    requires !allowed('.')
    ensures '.' !in s
  {
    forall i | 0 <= i < |s| ensures s[i] != '.' {
      assert allowed(s[i]);
    }
  }

  /** Dotted atoms, `@`, then dotted labels and a top-level domain of at least
      two letters always make a valid address. */
  lemma EmailOfParts(atoms: seq<string>, labels: seq<string>, tld: string)
    requires |atoms| >= 1 && forall i :: 0 <= i < |atoms| ==> atoms[i] != [] && AllAtomChars(atoms[i])
    requires |labels| >= 1 && forall i :: 0 <= i < |labels| ==> labels[i] != [] && AllLabelChars(labels[i])
    requires |tld| >= 2 && AllLetters(tld)
    ensures EmailValid(JoinWith(atoms, '.') + "@" + JoinWith(labels + [tld], '.'))
  {
    var local := JoinWith(atoms, '.');
    var parts := labels + [tld];
    var domain := JoinWith(parts, '.');
    var s := local + "@" + domain;
    forall i | 0 <= i < |atoms| ensures '.' !in atoms[i] {
      NoDotIn(atoms[i], IsAtomChar);
    }
    forall i | 0 <= i < |parts| ensures '.' !in parts[i] {
      if i < |labels| {
        NoDotIn(parts[i], IsLabelChar);
      } else {
        NoDotIn(parts[i], IsAsciiLetter);
      }
    }
    SplitJoin(atoms, '.');
    SplitJoin(parts, '.');
    assert DotAtom(local);
    assert !IpLiteral(domain) ==> HostName(domain) by {
      assert forall i :: 0 <= i < |parts| - 1 ==> parts[i] == labels[i];
    }
    if IpLiteral(domain) {
      assert DomainPart(domain);
    }
    var k := |local|;
    assert s[k] == '@' && s[..k] == local && s[k + 1..] == domain;
  }
}
