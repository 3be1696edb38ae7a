/** The cookie header normaliser and parser (app/services/cookie_utils.py). A rendered header is a
    cookie-string of section 4.2.1 of RFC 6265 with names that are tokens of section 3.2.6 of RFC 7230. */
module CookieHeader {
  import opened Text
  import opened Wrappers

  datatype Pair = Pair(name: string, value: string)

  const BYTE_ORDER_MARK := '\U{FEFF}'

  predicate IsNameChar(c: char) {
    IsLetter(c) || IsDigit(c) || c in "!#$%&'*+-.^_`|~"
  }

  predicate IsName(s: string) {
    s != "" && forall c | c in s :: IsNameChar(c)
  }

  /** Both carriage-return forms become a line feed. */
  function Newlines(s: string): string
    decreases |s|
  {
    if s == "" then ""
    else if s[0] == '\r' then "\n" + Newlines(if |s| > 1 && s[1] == '\n' then s[2..] else s[1..])
    else [s[0]] + Newlines(s[1..])
  }

  /** Lower case, as far as it can yield the letters of "cookie:". The Kelvin sign lowers to a k. */
  function Lowered(c: char): char {
    if 'A' <= c <= 'Z' then (c as int + 32) as char else if c == '\U{212A}' then 'k' else c
  }

  /** The lines whose lower-case form starts with "cookie:". */
  predicate IsCookieLine(s: string) {
    |s| >= 7 && Map(Lowered, s[..7]) == "cookie:"
  }

  predicate IsHeaderChar(c: char) {
    IsLetter(c) || IsDigit(c) || c == '-'
  }

  function SkipHeaderName(s: string): string {
    if s != "" && IsHeaderChar(s[0]) then SkipHeaderName(s[1..]) else s
  }

  /** A header name, any white space, and a colon. */
  predicate IsHeaderLine(s: string) {
    var rest := SkipHeaderName(s);
    rest != s && StripLeft(rest) != "" && StripLeft(rest)[0] == ':'
  }

  /** The part of one stripped line that may hold cookies. */
  function CookieText(line: string): Option<string> {
    var clean := Strip(WithoutControls(line));
    if clean == "" then None
    else if IsCookieLine(clean) then
      var rest := Strip(clean[7..]);
      if rest == "" then None else Some(rest)
    else if IsHeaderLine(clean) then None
    else Some(clean)
  }

  function LineText(line: string): Option<string> {
    if Strip(line) == "" then None else CookieText(Strip(line))
  }

  function PairOf(part: string): Option<Pair> {
    var clean := Strip(WithoutControls(part));
    var i := IndexOf(clean, '=');
    if i == |clean| then None
    else
      var name := Strip(clean[..i]);
      if IsName(name) then Some(Pair(name, Strip(clean[i + 1..]))) else None
  }

  function Lines(raw: string): seq<string> {
    Split(Newlines(Without(raw, BYTE_ORDER_MARK)), '\n')
  }

  function Parts(raw: string): seq<string> {
    Split(Join(Present(Map(LineText, Lines(raw))), "; "), ';')
  }

  /** The cookies a raw text holds, in order. */
  function Pairs(raw: string): seq<Pair> {
    Present(Map(PairOf, Parts(raw)))
  }

  function Rendered(p: Pair): string {
    p.name + "=" + p.value
  }

  function Render(pairs: seq<Pair>): string {
    Join(Map(Rendered, pairs), "; ")
  }

  function Sanitize(raw: string): string {
    Render(Pairs(raw))
  }

  /** The last value of each name. */
  function LastValues(pairs: seq<Pair>): map<string, string> {
    if pairs == [] then map[]
    else
      var last := pairs[|pairs| - 1];
      LastValues(pairs[..|pairs| - 1])[last.name := last.value]
  }

  // ---------------------------------------------------------------------------------------------
  // What every sanitized pair satisfies

  predicate IsValueChar(c: char) {
    !IsControl(c) && c != ';' && c != BYTE_ORDER_MARK
  }

  /** A token for a name; a value with no white space around it, no control character, no semicolon and
      no byte order mark. */
  predicate IsCookie(p: Pair) {
    IsName(p.name) && IsStripped(p.value) && forall c | c in p.value :: IsValueChar(c)
  }

  lemma {:induction false} NewlinesFacts(s: string)
    ensures forall c | c in Newlines(s) :: c != '\r' && (c in s || c == '\n')
    ensures '\r' !in s ==> Newlines(s) == s
    decreases |s|
  {
    if s != "" {
      var rest := if s[0] == '\r' && |s| > 1 && s[1] == '\n' then s[2..] else s[1..];
      NewlinesFacts(rest);
      assert forall c | c in rest :: c in s;
      assert s == [s[0]] + s[1..];
    }
  }

  lemma CookieTextFacts(line: string, c: char)
    requires CookieText(line).Some? && c in CookieText(line).value
    ensures c in line
  {
    var clean := Strip(WithoutControls(line));
    WithoutControlsFacts(line);
    StripFacts(WithoutControls(line));
    if IsCookieLine(clean) {
      StripFacts(clean[7..]);
      assert forall x | x in clean[7..] :: x in clean;
    }
  }

  lemma PairOfIsCookie(part: string)
    requires PairOf(part).Some?
    requires ';' !in part && BYTE_ORDER_MARK !in part
    ensures IsCookie(PairOf(part).value)
  {
    var clean := Strip(WithoutControls(part));
    WithoutControlsFacts(part);
    StripFacts(WithoutControls(part));
    var i := IndexOf(clean, '=');
    StripFacts(clean[i + 1..]);
    assert forall c | c in clean[i + 1..] :: c in clean;
  }

  /** A character of a part comes from some line, or from the glue between lines. */
  lemma PartsFacts(raw: string)
    ensures forall part | part in Parts(raw) :: ';' !in part && BYTE_ORDER_MARK !in part
  {
    WithoutFacts(raw, BYTE_ORDER_MARK);
    NewlinesFacts(Without(raw, BYTE_ORDER_MARK));
    SplitFacts(Newlines(Without(raw, BYTE_ORDER_MARK)), '\n');
    var texts := Present(Map(LineText, Lines(raw)));
    forall text | text in texts ensures BYTE_ORDER_MARK !in text {
      PresentFacts(Map(LineText, Lines(raw)));
      var line :| line in Lines(raw) && LineText(line) == Some(text);
      LineTextFacts(line);
    }
    JoinFacts(texts, "; ", BYTE_ORDER_MARK);
    SplitFacts(Join(texts, "; "), ';');
  }

  lemma LineTextFacts(line: string)
    requires LineText(line).Some?
    ensures forall c | c in LineText(line).value :: c in line
  {
    StripFacts(line);
    forall c | c in LineText(line).value ensures c in line { CookieTextFacts(Strip(line), c); }
  }

  /** Main result: whatever the raw text, every sanitized pair has a token for a name and a clean value. */
  lemma SanitizedPairsAreCookies(raw: string)
    ensures forall p | p in Pairs(raw) :: IsCookie(p)
  {
    PartsFacts(raw);
    PresentFacts(Map(PairOf, Parts(raw)));
    forall p | p in Pairs(raw) ensures IsCookie(p) {
      var part :| part in Parts(raw) && PairOf(part) == Some(p);
      PairOfIsCookie(part);
    }
  }

  // ---------------------------------------------------------------------------------------------
  // Reading back what was rendered

  lemma RenderedFacts(p: Pair)
    requires IsCookie(p)
    ensures IsStripped(Rendered(p)) && Rendered(p) != ""
    ensures forall c | c in Rendered(p) :: IsValueChar(c)
  {
    RenderedEnds(p);
    forall c | c in Rendered(p) ensures IsValueChar(c) {
      assert c in p.name || c == '=' || c in p.value;
      assert c in p.name ==> IsNameChar(c);
    }
  }

  lemma RenderedEnds(p: Pair)
    requires IsCookie(p)
    ensures IsStripped(Rendered(p)) && Rendered(p) != ""
  {
    var s := Rendered(p);
    assert s[0] == p.name[0] && p.name[0] in p.name && IsNameChar(s[0]);
    if p.value == "" {
      assert s[|s| - 1] == '=';
    } else {
      assert s[|s| - 1] == p.value[|p.value| - 1];
    }
  }

  lemma PartIsClean(p: Pair, part: string)
    requires IsCookie(p) && (part == Rendered(p) || part == " " + Rendered(p))
    ensures Strip(WithoutControls(part)) == Rendered(p)
  {
    var s := Rendered(p);
    RenderedFacts(p);
    WithoutControlsFacts(part);
    assert forall c | c in part :: c in s || c == ' ';
    assert StripLeft(part) == s by {
      if part != s { assert part[0] == ' ' && part[1..] == s; }
    }
    StrippedIsFixed(s);
  }

  /** The first equals sign of a rendered pair ends its name. */
  lemma NameEnds(p: Pair)
    requires IsCookie(p)
    ensures var s, n := Rendered(p), |p.name|;
            IndexOf(s, '=') == n < |s| && s[..n] == p.name && s[n + 1..] == p.value
  {
    assert Rendered(p) == p.name + ['='] + p.value;
    assert '=' !in p.name by { assert !IsNameChar('='); }
    IndexOfFirst(p.name, '=', p.value);
  }

  lemma NameStrips(p: Pair)
    requires IsCookie(p)
    ensures Strip(p.name) == p.name && Strip(p.value) == p.value
  {
    NameIsStripped(p.name);
    StrippedIsFixed(p.name);
    StrippedIsFixed(p.value);
  }

  lemma NameIsStripped(name: string)
    requires IsName(name)
    ensures IsStripped(name)
  {
    assert name[0] in name && name[|name| - 1] in name;
  }

  /** The same behind the space that separates a part from the one before. */
  lemma PartEnds(p: Pair, lead: string)
    requires IsCookie(p) && (lead == "" || lead == " ")
    ensures var s, n := lead + Rendered(p), |lead| + |p.name|;
            IndexOf(s, '=') == n < |s| && s[..n] == lead + p.name && s[n + 1..] == p.value
  {
    assert lead + Rendered(p) == (lead + p.name) + ['='] + p.value;
    assert '=' !in lead + p.name by { assert !IsNameChar('='); }
    IndexOfFirst(lead + p.name, '=', p.value);
  }

  lemma PartStrips(p: Pair, lead: string)
    requires IsCookie(p) && (lead == "" || lead == " ")
    ensures Strip(lead + p.name) == p.name && Strip(p.value) == p.value
  {
    NameStrips(p);
    assert p.name[0] in p.name && IsNameChar(p.name[0]);
    if lead == "" { assert lead + p.name == p.name; } else { assert (lead + p.name)[1..] == p.name; }
  }

  lemma RenderedReadsBack(p: Pair, lead: string)
    requires IsCookie(p) && (lead == "" || lead == " ")
    ensures PairOf(lead + Rendered(p)) == Some(p)
  {
    PartIsClean(p, lead + Rendered(p));
    NameEnds(p);
    NameStrips(p);
  }

  /** The parts of a rendered header: each but the first has a leading space. */
  function RenderedParts(pairs: seq<Pair>, lead: string): seq<string> {
    seq(|pairs|, i requires 0 <= i < |pairs| => (if i == 0 then lead else " ") + Rendered(pairs[i]))
  }

  lemma {:induction false} RenderedSplits(pairs: seq<Pair>, lead: string)
    requires pairs != [] && (forall p | p in pairs :: IsCookie(p)) && (lead == "" || lead == " ")
    ensures Split(lead + Render(pairs), ';') == RenderedParts(pairs, lead)
    decreases |pairs|
  {
    var rest := pairs[1..];
    assert pairs[0] in pairs && forall q | q in rest :: q in pairs;
    var head := lead + Rendered(pairs[0]);
    assert ';' !in head by { RenderedFacts(pairs[0]); }
    RenderCons(pairs);
    if rest == [] {
      SplitWhole(head, ';');
    } else {
      SplitFirst(head, ';', " " + Render(rest));
      RenderedSplits(rest, " ");
      assert lead + Render(pairs) == head + [';'] + (" " + Render(rest));
      RenderedPartsCons(pairs, lead);
    }
  }

  lemma RenderedPartsCons(pairs: seq<Pair>, lead: string)
    requires pairs != []
    ensures RenderedParts(pairs, lead) == [lead + Rendered(pairs[0])] + RenderedParts(pairs[1..], " ")
  {
  }

  lemma RenderCons(pairs: seq<Pair>)
    requires pairs != []
    ensures Render(pairs) == Rendered(pairs[0]) + (if |pairs| == 1 then "" else "; " + Render(pairs[1..]))
  {
    assert Map(Rendered, pairs)[1..] == Map(Rendered, pairs[1..]);
  }

  lemma {:induction false} PresentOfAll<T>(items: seq<T>)
    ensures Present(Map(x => Some(x), items)) == items
    decreases |items|
  {
    if items != [] {
      assert Map(x => Some(x), items)[1..] == Map(x => Some(x), items[1..]);
      PresentOfAll(items[1..]);
    }
  }

  lemma {:induction false} RenderFacts(pairs: seq<Pair>)
    requires pairs != [] && forall p | p in pairs :: IsCookie(p)
    ensures var s := Render(pairs);
            && Rendered(pairs[0]) <= s && IsStripped(s) && s != ""
            && forall c | c in s :: !IsControl(c) && c != BYTE_ORDER_MARK
    decreases |pairs|
  {
    var rest := pairs[1..];
    assert pairs[0] in pairs && forall q | q in rest :: q in pairs;
    RenderedFacts(pairs[0]);
    RenderCons(pairs);
    if rest != [] {
      RenderFacts(rest);
      assert Render(pairs)[|Render(pairs)| - 1] == Render(rest)[|Render(rest)| - 1];
    }
  }

  /** A rendered header is not taken for a header line: an equals sign ends its first name. */
  lemma RenderedIsNoHeader(p: Pair, s: string)
    requires IsCookie(p) && Rendered(p) <= s
    ensures !IsCookieLine(s) && !IsHeaderLine(s)
  {
    var n := |p.name|;
    assert forall i | 0 <= i < n :: s[i] == p.name[i] && p.name[i] in p.name;
    assert s[n] == '=';
    HeaderNameStops(s, n);
    if |s| >= 7 { NoCookiePrefix(s, n); }
  }

  /** "cookie:" holds no equals sign, and a colon is no name character. */
  lemma NoCookiePrefix(s: string, n: nat)
    requires |s| >= 7 && n < |s| && s[n] == '=' && forall i | 0 <= i < n :: IsNameChar(s[i])
    ensures Map(Lowered, s[..7]) != "cookie:"
  {
    var lowered := Map(Lowered, s[..7]);
    if n < 7 {
      assert lowered[n] == Lowered(s[n]) == '=';
      assert '=' !in "cookie:" && "cookie:"[n] in "cookie:";
    } else {
      assert lowered[6] == Lowered(s[6]) && Lowered(s[6]) != ':';
    }
  }

  lemma {:induction false} HeaderNameStops(s: string, n: nat)
    requires n < |s| && s[n] == '=' && forall i | 0 <= i < n :: IsNameChar(s[i])
    ensures SkipHeaderName(s) != "" && (SkipHeaderName(s)[0] == '=' || IsNameChar(SkipHeaderName(s)[0]))
    decreases n
  {
    if n > 0 && IsHeaderChar(s[0]) { HeaderNameStops(s[1..], n - 1); }
  }

  /** Main result: rendering valid pairs and reading the text back gives the same pairs in the same order. */
  lemma RenderRoundTrip(pairs: seq<Pair>)
    requires forall p | p in pairs :: IsCookie(p)
    ensures Pairs(Render(pairs)) == pairs
  {
    if pairs == [] {
      assert Newlines(Without("", BYTE_ORDER_MARK)) == "" && Lines("") == [""];
      assert LineText("") == None && Map(LineText, [""]) == [None];
      assert Present([None]) == Present<string>([]) == [];
      assert PairOf("") == None && Map(PairOf, [""]) == [None];
    } else {
      RenderedIsOneText(pairs);
      assert Render(pairs) == "" + Render(pairs);
      RenderedSplits(pairs, "");
      forall p, lead | p in pairs && (lead == "" || lead == " ") ensures PairOf(lead + Rendered(p)) == Some(p) {
        RenderedReadsBack(p, lead);
      }
      AllPresent(PairOf, RenderedParts(pairs, ""), pairs);
    }
  }

  lemma RenderedIsOneText(pairs: seq<Pair>)
    requires pairs != [] && forall p | p in pairs :: IsCookie(p)
    ensures Parts(Render(pairs)) == Split(Render(pairs), ';')
  {
    var s := Render(pairs);
    assert pairs[0] in pairs;
    RenderFacts(pairs);
    WithoutFacts(s, BYTE_ORDER_MARK);
    NewlinesFacts(s);
    SplitWhole(s, '\n');
    StrippedIsFixed(s);
    WithoutControlsFacts(s);
    RenderedIsNoHeader(pairs[0], s);
    assert LineText(s) == Some(s);
    assert Lines(s) == [s];
    AllPresent(LineText, [s], [s]);
    assert Join([s], "; ") == s;
  }

  /** Main result: the sanitizer is a normaliser, and what it returns holds the same cookies. */
  lemma SanitizeIsNormaliser(raw: string)
    ensures Sanitize(Sanitize(raw)) == Sanitize(raw)
    ensures Pairs(Sanitize(raw)) == Pairs(raw)
  {
    SanitizedPairsAreCookies(raw);
    RenderRoundTrip(Pairs(raw));
  }

  // ---------------------------------------------------------------------------------------------
  // The two functions as the source runs them

  method SanitizeCookieHeader(raw: string) returns (header: string)
    ensures header == Sanitize(raw)
  {
    var rawLines := Lines(raw);
    var lines: seq<string> := [];
    var i := 0;
    while i < |rawLines|
      invariant 0 <= i <= |rawLines|
      invariant lines == Present(Map(LineText, rawLines[..i]))
    {
      PresentGrows(LineText, rawLines, i);
      var line := Strip(rawLines[i]);
      if line != "" {
        var text := CookieText(line);
        if text.Some? { lines := lines + [text.value]; }
      }
      i := i + 1;
    }
    assert rawLines[..|rawLines|] == rawLines;

    var parts := Split(Join(lines, "; "), ';');
    ghost var pairs: seq<Pair> := [];
    var cookies: seq<string> := [];
    i := 0;
    while i < |parts|
      invariant 0 <= i <= |parts|
      invariant pairs == Present(Map(PairOf, parts[..i]))
      invariant cookies == Map(Rendered, pairs)
    {
      PresentGrows(PairOf, parts, i);
      var pair := PairOf(parts[i]);
      if pair.Some? {
        assert Map(Rendered, pairs + [pair.value]) == Map(Rendered, pairs) + [Rendered(pair.value)];
        pairs := pairs + [pair.value];
        cookies := cookies + [pair.value.name + "=" + pair.value.value];
      }
      i := i + 1;
    }
    assert parts[..|parts|] == parts;
    header := Join(cookies, "; ");
  }

  /** The parser's reading of one part of a sanitized header. */
  function ValueOf(part: string): Option<Pair> {
    var i := IndexOf(part, '=');
    if i == |part| || Strip(part[..i]) == "" then None
    else Some(Pair(Strip(part[..i]), Strip(part[i + 1..])))
  }

  lemma {:induction false} LastValuesGrow(pairs: seq<Pair>, p: Pair)
    ensures LastValues(pairs + [p]) == LastValues(pairs)[p.name := p.value]
  {
    assert (pairs + [p])[..|pairs|] == pairs;
  }

  /** Main result: parsing yields, for each name, its last value among the sanitized pairs. */
  method ParseCookieValues(raw: string) returns (values: map<string, string>)
    ensures values == LastValues(Pairs(raw))
  {
    var header := SanitizeCookieHeader(raw);
    var parts := Split(header, ';');
    ghost var pairs: seq<Pair> := [];
    values := map[];
    var i := 0;
    while i < |parts|
      invariant 0 <= i <= |parts|
      invariant pairs == Present(Map(ValueOf, parts[..i]))
      invariant values == LastValues(pairs)
    {
      PresentGrows(ValueOf, parts, i);
      var at := IndexOf(parts[i], '=');
      if at < |parts[i]| {
        var name := Strip(parts[i][..at]);
        if name != "" {
          LastValuesGrow(pairs, Pair(name, Strip(parts[i][at + 1..])));
          pairs := pairs + [Pair(name, Strip(parts[i][at + 1..]))];
          values := values[name := Strip(parts[i][at + 1..])];
        }
      }
      i := i + 1;
    }
    assert parts[..|parts|] == parts;
    ParserReadsPairs(raw);
  }

  lemma ParserReadsPairs(raw: string)
    ensures Present(Map(ValueOf, Split(Sanitize(raw), ';'))) == Pairs(raw)
  {
    var pairs := Pairs(raw);
    SanitizedPairsAreCookies(raw);
    if pairs == [] {
      assert ValueOf("") == None && Map(ValueOf, [""]) == [None];
    } else {
      assert Render(pairs) == "" + Render(pairs);
      RenderedSplits(pairs, "");
      forall p, lead | p in pairs && (lead == "" || lead == " ") ensures ValueOf(lead + Rendered(p)) == Some(p) {
        PartEnds(p, lead);
        PartStrips(p, lead);
      }
      AllPresent(ValueOf, RenderedParts(pairs, ""), pairs);
    }
  }
}
