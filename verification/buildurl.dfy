/** The planner URL given on the command line: the pattern check of the
    entry point and the build id that `main` slices out of the URL. */
module BuildUrl {
  import opened Wrappers
  import opened Text

  /** The fixed part of every accepted URL, up to the digit run. */
  const Prefix: string := "https://maxroll.gg/d3/d3planner/"

  /** `Prefix` without its final `/`. */
  const Host: string := "https://maxroll.gg/d3/d3planner"

  lemma PrefixShape()
    ensures Prefix == Host + ['/']
    ensures '#' !in Prefix
  {
  }

  /** A character Python's `\d` matches in a str pattern: a decimal digit
      of Unicode 15.0 (general category Nd). The 680 code points form these
      64 runs. */
  predicate IsDecimal(c: char) {
    var n := c as int;
    || 0x30 <= n <= 0x39 || 0x660 <= n <= 0x669 || 0x6F0 <= n <= 0x6F9 || 0x7C0 <= n <= 0x7C9
    || 0x966 <= n <= 0x96F || 0x9E6 <= n <= 0x9EF || 0xA66 <= n <= 0xA6F || 0xAE6 <= n <= 0xAEF
    || 0xB66 <= n <= 0xB6F || 0xBE6 <= n <= 0xBEF || 0xC66 <= n <= 0xC6F || 0xCE6 <= n <= 0xCEF
    || 0xD66 <= n <= 0xD6F || 0xDE6 <= n <= 0xDEF || 0xE50 <= n <= 0xE59 || 0xED0 <= n <= 0xED9
    || 0xF20 <= n <= 0xF29 || 0x1040 <= n <= 0x1049 || 0x1090 <= n <= 0x1099 || 0x17E0 <= n <= 0x17E9
    || 0x1810 <= n <= 0x1819 || 0x1946 <= n <= 0x194F || 0x19D0 <= n <= 0x19D9 || 0x1A80 <= n <= 0x1A89
    || 0x1A90 <= n <= 0x1A99 || 0x1B50 <= n <= 0x1B59 || 0x1BB0 <= n <= 0x1BB9 || 0x1C40 <= n <= 0x1C49
    || 0x1C50 <= n <= 0x1C59 || 0xA620 <= n <= 0xA629 || 0xA8D0 <= n <= 0xA8D9 || 0xA900 <= n <= 0xA909
    || 0xA9D0 <= n <= 0xA9D9 || 0xA9F0 <= n <= 0xA9F9 || 0xAA50 <= n <= 0xAA59 || 0xABF0 <= n <= 0xABF9
    || 0xFF10 <= n <= 0xFF19 || 0x104A0 <= n <= 0x104A9 || 0x10D30 <= n <= 0x10D39 || 0x11066 <= n <= 0x1106F
    || 0x110F0 <= n <= 0x110F9 || 0x11136 <= n <= 0x1113F || 0x111D0 <= n <= 0x111D9 || 0x112F0 <= n <= 0x112F9
    || 0x11450 <= n <= 0x11459 || 0x114D0 <= n <= 0x114D9 || 0x11650 <= n <= 0x11659 || 0x116C0 <= n <= 0x116C9
    || 0x11730 <= n <= 0x11739 || 0x118E0 <= n <= 0x118E9 || 0x11950 <= n <= 0x11959 || 0x11C50 <= n <= 0x11C59
    || 0x11D50 <= n <= 0x11D59 || 0x11DA0 <= n <= 0x11DA9 || 0x11F50 <= n <= 0x11F59 || 0x16A60 <= n <= 0x16A69
    || 0x16AC0 <= n <= 0x16AC9 || 0x16B50 <= n <= 0x16B59 || 0x1D7CE <= n <= 0x1D7FF || 0x1E140 <= n <= 0x1E149
    || 0x1E2F0 <= n <= 0x1E2F9 || 0x1E4F0 <= n <= 0x1E4F9 || 0x1E950 <= n <= 0x1E959 || 0x1FBF0 <= n <= 0x1FBF9
  }

  predicate AllDecimal(s: string) {
    forall i :: 0 <= i < |s| ==> IsDecimal(s[i])
  }

  /** The ASCII digits are among them, and the separators the script splits
      on are not. */
  lemma DecimalBounds(c: char)
    ensures IsDigit(c) ==> IsDecimal(c)
    ensures c < '0' ==> !IsDecimal(c)
  {
  }

  lemma DecimalsExclude(d: string, c: char)
    requires AllDecimal(d) && c < '0'
    ensures c !in d
  {
    DecimalBounds(c);
    assert forall i :: 0 <= i < |d| ==> d[i] != c;
  }

  /** The length of the run of `\d` characters that starts `s` (`\d+` is
      greedy). */
  function LeadingDigits(s: string): (n: nat)
    ensures n <= |s|
    ensures AllDecimal(s[..n])
    ensures n < |s| ==> !IsDecimal(s[n])
  {
    if s != [] && IsDecimal(s[0]) then
      var n := 1 + LeadingDigits(s[1..]);
      assert s[..n] == [s[0]] + s[1..][..n - 1];
      n
    else 0
  }

  /** What `(#.*)?$` accepts after the digits: an optional `#` fragment with
      no newline (`.` does not match one), and `$` also matches just before
      a single final newline. */
  predicate TailAccepted(t: string) {
    || t == []
    || t == "\n"
    || (t[0] == '#' && '\n' !in t[1..])
    || (|t| >= 2 && t[0] == '#' && t[|t| - 1] == '\n' && '\n' !in t[1..|t| - 1])
  }

  /** The same tail under a whole-string match: no final newline allowed. */
  predicate TailStrict(t: string) {
    t == [] || (t[0] == '#' && '\n' !in t[1..])
  }

  /** `re.match(r'^https://maxroll\.gg/d3/d3planner/\d+(#.*)?$', url)`
      succeeds. */
  predicate Matches(url: string) {
    && |url| >= |Prefix|
    && url[..|Prefix|] == Prefix
    && var rest := url[|Prefix|..];
       var n := LeadingDigits(rest);
       n > 0 && TailAccepted(rest[n..])
  }

  /** The pattern matched against the whole string (`\Z` in place of `$`). */
  predicate MatchesStrict(url: string) {
    && |url| >= |Prefix|
    && url[..|Prefix|] == Prefix
    && var rest := url[|Prefix|..];
       var n := LeadingDigits(rest);
       n > 0 && TailStrict(rest[n..])
  }

  /** `url` is the prefix, a non-empty run `d` of `\d` characters, and the tail `t`. */
  predicate Decomposes(url: string, d: string, t: string) {
    url == Prefix + d + t && |d| > 0 && AllDecimal(d)
  }

  lemma {:induction false} LeadingDigitsOf(d: string, t: string)
    requires AllDecimal(d)
    requires t == [] || !IsDecimal(t[0])
    ensures LeadingDigits(d + t) == |d|
  {
    if d != [] {
      assert (d + t)[1..] == d[1..] + t;
      LeadingDigitsOf(d[1..], t);
    } else {
      assert d + t == t;
    }
  }

  /** The pattern check, stated as a decomposition of the URL: it accepts
      exactly the prefix, a digit run and an accepted tail. */
  lemma MatchesIff(url: string)
    ensures Matches(url) ==>
      var n := LeadingDigits(url[|Prefix|..]);
      Decomposes(url, url[|Prefix|..][..n], url[|Prefix|..][n..])
      && TailAccepted(url[|Prefix|..][n..])
    ensures forall d, t :: Decomposes(url, d, t) && TailAccepted(t) ==> Matches(url)
  {
    if Matches(url) {
      var rest := url[|Prefix|..];
      var n := LeadingDigits(rest);
      assert url == Prefix + rest[..n] + rest[n..];
    }
    forall d, t | Decomposes(url, d, t) && TailAccepted(t)
      ensures Matches(url)
    {
      assert url[..|Prefix|] == Prefix;
      assert url[|Prefix|..] == d + t;
      LeadingDigitsOf(d, t);
      assert (d + t)[|d|..] == t;
    }
  }

  /** Split at the end of its `\d` run, a URL matches exactly when its
      tail is accepted, and matches as a whole exactly when the tail is
      strict. */
  lemma SplitAtDigits(url: string, d: string, t: string)
    requires Decomposes(url, d, t) && (t == [] || !IsDecimal(t[0]))
    ensures Matches(url) <==> TailAccepted(t)
    ensures MatchesStrict(url) <==> TailStrict(t)
  {
    assert url[..|Prefix|] == Prefix;
    assert url[|Prefix|..] == d + t;
    LeadingDigitsOf(d, t);
    assert (d + t)[|d|..] == t;
  }

  /** A whole-string match is a match. */
  lemma StrictImpliesMatches(url: string)
    requires MatchesStrict(url)
    ensures Matches(url)
  {
  }

  // ---------------------------------------------------------------------
  // The build id

  /** `url.split('/')[-1].split('#')[0]`: the last path segment with the
      fragment removed, as the script computes it. */
  function BuildIdAsWritten(url: string): string {
    Split(Last(Split(url, '/')), '#')[0]
  }

  lemma {:induction false} FirstPieceBeforeSeparator(a: string, b: string, sep: char)
    requires sep !in a
    ensures Split(a + [sep] + b, sep)[0] == a
  {
    SplitAround(a, b, sep);
  }

  /** For an accepted URL whose tail holds no `/`, the script's build id is
      the digit run, followed by the final newline when that newline is the
      whole tail. */
  lemma {:induction false} BuildIdAsWrittenOfMatch(url: string, d: string, t: string)
    requires Decomposes(url, d, t) && TailAccepted(t)
    requires '/' !in t
    ensures BuildIdAsWritten(url) == (if t == "\n" then d + t else d)
  {
    assert url == Host + ['/'] + (d + t);
    DecimalsExclude(d, '/');
    assert '/' !in d + t;
    LastPieceAfterSeparator(Host, d + t, '/');
    DecimalsExclude(d, '#');
    if t != [] && t[0] == '#' {
      assert d + t == d + ['#'] + t[1..];
      FirstPieceBeforeSeparator(d, t[1..], '#');
    } else {
      assert '#' !in d + t;
      SplitWithout(d + t, '#');
    }
  }

  /** The corrected build id: drop the fragment first, then take the last
      path segment, `url.split('#')[0].split('/')[-1]`. */
  function BuildId(url: string): string {
    Last(Split(Split(url, '#')[0], '/'))
  }

  /** For a whole-string match, the corrected build id is exactly the
      non-empty digit run after the prefix, whatever the fragment holds. */
  lemma {:induction false} BuildIdOfStrictMatch(url: string, d: string, t: string)
    requires Decomposes(url, d, t) && TailStrict(t)
    ensures BuildId(url) == d
  {
    PrefixShape();
    DecimalsExclude(d, '#');
    DecimalsExclude(d, '/');
    assert '#' !in Prefix + d;
    if t == [] {
      assert url == Prefix + d;
      SplitWithout(url, '#');
    } else {
      assert url == (Prefix + d) + ['#'] + t[1..];
      FirstPieceBeforeSeparator(Prefix + d, t[1..], '#');
    }
    assert Prefix + d == Host + ['/'] + d;
    LastPieceAfterSeparator(Host, d, '/');
  }

  /** The entry point's check followed by the build-id slicing of `main`,
      as written. */
  function CheckUrlAsWritten(url: string): (r: Result<string>)
    ensures r.Err? <==> !Matches(url)
    ensures r.Err? ==> r.error == InvalidUrl
    ensures r.Ok? ==> r.value == BuildIdAsWritten(url)
  {
    if Matches(url) then Ok(BuildIdAsWritten(url)) else Err(InvalidUrl)
  }

  /** The corrected check: a whole-string match, and the build id taken
      before the fragment. An accepted URL yields its digit run. */
  function CheckUrl(url: string): (r: Result<string>)
    ensures r.Err? <==> !MatchesStrict(url)
    ensures r.Err? ==> r.error == InvalidUrl
    ensures r.Ok? ==> |r.value| > 0 && AllDecimal(r.value)
    ensures r.Ok? ==> exists t :: Decomposes(url, r.value, t) && TailStrict(t)
  {
    if MatchesStrict(url) then
      var rest := url[|Prefix|..];
      var n := LeadingDigits(rest);
      assert url == Prefix + rest[..n] + rest[n..];
      BuildIdOfStrictMatch(url, rest[..n], rest[n..]);
      Ok(BuildId(url))
    else Err(InvalidUrl)
  }

  /** `\d` is not only ASCII: a build id in Arabic-Indic digits passes the
      check, and both slicings keep it. */
  lemma ArabicIndicDigits()
    ensures Matches(Prefix + "\U{0661}\U{0662}\U{0663}")
    ensures CheckUrlAsWritten(Prefix + "\U{0661}\U{0662}\U{0663}") == Ok("\U{0661}\U{0662}\U{0663}")
    ensures CheckUrl(Prefix + "\U{0661}\U{0662}\U{0663}") == Ok("\U{0661}\U{0662}\U{0663}")
  {
    var d := "\U{0661}\U{0662}\U{0663}";
    var url := Prefix + d;
    assert IsDecimal(d[0]) && IsDecimal(d[1]) && IsDecimal(d[2]);
    assert url == Prefix + d + [];
    assert Decomposes(url, d, []);
    SplitAtDigits(url, d, []);
    BuildIdAsWrittenOfMatch(url, d, []);
    BuildIdOfStrictMatch(url, d, []);
  }

  // ---------------------------------------------------------------------
  // Where the script as written goes wrong

  /** A fragment holding `/` passes the check, and the script then takes
      the text after that `/` as the build id. */
  lemma SlashInFragment()
    ensures Matches(Prefix + "123#a/b")
    ensures BuildIdAsWritten(Prefix + "123#a/b") == "b"
    ensures CheckUrl(Prefix + "123#a/b") == Ok("123")
  {
    var url := Prefix + "123#a/b";
    DecimalBounds('#');
    assert Decomposes(url, "123", "#a/b");
    SplitAtDigits(url, "123", "#a/b");
    assert url == (Prefix + "123#a") + ['/'] + "b";
    LastPieceAfterSeparator(Prefix + "123#a", "b", '/');
    SplitWithout("b", '#');
    BuildIdOfStrictMatch(url, "123", "#a/b");
  }

  /** `$` also matches before a final newline, so the check passes a URL
      ending in one, and the newline reaches the build id. */
  lemma TrailingNewline()
    ensures Matches(Prefix + "123\n")
    ensures BuildIdAsWritten(Prefix + "123\n") == "123\n"
    ensures CheckUrl(Prefix + "123\n") == Err(InvalidUrl)
  {
    var url := Prefix + "123\n";
    DecimalBounds('\n');
    assert Decomposes(url, "123", "\n");
    SplitAtDigits(url, "123", "\n");
    BuildIdAsWrittenOfMatch(url, "123", "\n");
  }
}
