/** Which cookies of a raw text are read (app/services/cookie_utils.py): line by line, part by part, and whatever
    white space, control characters and other headers stand around them. */
module CookieReading {
  import opened Text
  import opened Wrappers
  import opened CookieHeader

  // ---------------------------------------------------------------------------------------------
  // Splitting and stripping

  lemma {:induction false} SplitConcat(a: string, separator: char, b: string)
    ensures Split(a + [separator] + b, separator) == Split(a, separator) + Split(b, separator)
    decreases |a|
  {
    var s := a + [separator] + b;
    if a == "" {
      assert s[1..] == b;
    } else {
      assert s[1..] == a[1..] + [separator] + b;
      SplitConcat(a[1..], separator, b);
      SplitStep(a[0], separator, Split(a[1..], separator), Split(b, separator));
    }
  }

  /** One more character in front of pieces that are joined from two lists. */
  lemma SplitStep(c: char, separator: char, first: seq<string>, rest: seq<string>)
    requires first != []
    ensures var both := first + rest;
            (if c == separator then [""] + both else [[c] + both[0]] + both[1..])
            == (if c == separator then [""] + first else [[c] + first[0]] + first[1..]) + rest
  {
    assert (first + rest)[1..] == first[1..] + rest;
  }

  lemma {:induction false} WithoutConcat(a: string, b: string, gone: char)
    ensures Without(a + b, gone) == Without(a, gone) + Without(b, gone)
    decreases |a|
  {
    if a == "" {
      assert a + b == b;
    } else {
      assert (a + b)[1..] == a[1..] + b;
      WithoutConcat(a[1..], b, gone);
    }
  }

  lemma {:induction false} ControlsConcat(a: string, b: string)
    ensures WithoutControls(a + b) == WithoutControls(a) + WithoutControls(b)
    decreases |a|
  {
    if a == "" {
      assert a + b == b;
    } else {
      assert (a + b)[1..] == a[1..] + b;
      ControlsConcat(a[1..], b);
    }
  }

  lemma ControlsTwice(s: string)
    ensures WithoutControls(WithoutControls(s)) == WithoutControls(s)
  {
    WithoutControlsFacts(s);
    WithoutControlsFacts(WithoutControls(s));
  }

  predicate IsBlank(s: string) {
    forall c | c in s :: IsSpace(c)
  }

  lemma {:induction false} StripLeftBlank(blank: string, s: string)
    requires IsBlank(blank)
    ensures StripLeft(blank + s) == StripLeft(s)
    decreases |blank|
  {
    if blank == "" {
      assert blank + s == s;
    } else {
      assert blank[0] in blank && forall c | c in blank[1..] :: c in blank;
      assert (blank + s)[1..] == blank[1..] + s;
      StripLeftBlank(blank[1..], s);
    }
  }

  lemma {:induction false} StripRightBlank(s: string, blank: string)
    requires IsBlank(blank)
    ensures StripRight(s + blank) == StripRight(s)
    decreases |blank|
  {
    if blank == "" {
      assert s + blank == s;
    } else {
      var n := |blank| - 1;
      assert blank[n] in blank && forall c | c in blank[..n] :: c in blank;
      assert (s + blank)[..|s + blank| - 1] == s + blank[..n];
      StripRightBlank(s, blank[..n]);
    }
  }

  /** What is stripped on the left does not reach the right end, unless nothing else is there. */
  lemma {:induction false} StripLeftConcat(s: string, t: string)
    ensures StripLeft(s + t) == if IsBlank(s) then StripLeft(t) else StripLeft(s) + t
    decreases |s|
  {
    if s == "" {
      assert s + t == t;
    } else {
      assert (s + t)[1..] == s[1..] + t;
      assert s == [s[0]] + s[1..];
      StripLeftConcat(s[1..], t);
      if !IsSpace(s[0]) { assert s[0] in s; }
    }
  }

  lemma BlankStrips(blank: string)
    requires IsBlank(blank)
    ensures StripLeft(blank) == "" && StripRight(blank) == "" && Strip(blank) == ""
  {
    StripLeftBlank(blank, "");
    StripRightBlank("", blank);
    assert blank + "" == blank && "" + blank == blank;
  }

  /** White space around a text is stripped. */
  lemma StripBlanks(a: string, s: string, b: string)
    requires IsBlank(a) && IsBlank(b)
    ensures Strip(a + s + b) == Strip(s)
  {
    assert a + s + b == a + (s + b);
    StripLeftBlank(a, s + b);
    StripLeftConcat(s, b);
    if IsBlank(s) {
      BlankStrips(s);
      BlankStrips(b);
    } else {
      StripRightBlank(StripLeft(s), b);
    }
  }

  lemma BlankBeside(blank: string, s: string)
    requires IsBlank(blank)
    ensures Strip(blank + s) == Strip(s) && Strip(s + blank) == Strip(s)
  {
    StripBlanks(blank, s, "");
    StripBlanks("", s, blank);
    assert blank + s + "" == blank + s && "" + s + blank == s + blank;
  }

  /** A text is blank, its stripped form, blank. */
  lemma Around(s: string) returns (a: string, b: string)
    ensures IsBlank(a) && IsBlank(b) && s == a + Strip(s) + b
  {
    a := LeftOf(s);
    b := RightOf(StripLeft(s));
  }

  lemma {:induction false} LeftOf(s: string) returns (a: string)
    ensures IsBlank(a) && s == a + StripLeft(s)
    decreases |s|
  {
    a := "";
    if s != "" && IsSpace(s[0]) {
      var rest := LeftOf(s[1..]);
      a := [s[0]] + rest;
    }
  }

  lemma {:induction false} RightOf(s: string) returns (b: string)
    ensures IsBlank(b) && s == StripRight(s) + b
    decreases |s|
  {
    b := "";
    if s != "" && IsSpace(s[|s| - 1]) {
      var rest := RightOf(s[..|s| - 1]);
      b := rest + [s[|s| - 1]];
    }
  }

  lemma ControlsKeepBlank(blank: string)
    requires IsBlank(blank)
    ensures IsBlank(WithoutControls(blank))
  {
    WithoutControlsFacts(blank);
  }

  /** Stripping before control characters are removed makes no difference. */
  lemma StripsOnce(s: string)
    ensures Strip(WithoutControls(Strip(s))) == Strip(WithoutControls(s))
  {
    var a, b := Around(s);
    ControlsConcat(a + Strip(s), b);
    ControlsConcat(a, Strip(s));
    ControlsKeepBlank(a);
    ControlsKeepBlank(b);
    StripBlanks(WithoutControls(a), WithoutControls(Strip(s)), WithoutControls(b));
  }

  // ---------------------------------------------------------------------------------------------
  // The cookies of one text: part by part

  /** The cookies of a text that stands alone, its parts separated by semicolons. */
  function TextPairs(text: string): seq<Pair> {
    Present(Map(PairOf, Split(text, ';')))
  }

  lemma MapConcat<A, B>(f: A -> B, a: seq<A>, b: seq<A>)
    ensures Map(f, a + b) == Map(f, a) + Map(f, b)
  {}

  lemma TextPairsConcat(a: string, b: string)
    ensures TextPairs(a + [';'] + b) == TextPairs(a) + TextPairs(b)
  {
    SplitConcat(a, ';', b);
    MapConcat(PairOf, Split(a, ';'), Split(b, ';'));
    PresentConcat(Map(PairOf, Split(a, ';')), Map(PairOf, Split(b, ';')));
  }

  lemma SameCleanedSamePair(a: string, b: string)
    requires Strip(WithoutControls(a)) == Strip(WithoutControls(b))
    ensures PairOf(a) == PairOf(b)
  {
  }

  /** White space in front of a text belongs to its first part. */
  lemma {:induction false} BlankBefore(blank: string, text: string)
    requires IsBlank(blank)
    ensures TextPairs(blank + text) == TextPairs(text)
    decreases |blank|
  {
    if blank == "" {
      assert blank + text == text;
    } else {
      assert blank[0] in blank && forall c | c in blank[1..] :: c in blank;
      BlankBefore(blank[1..], text);
      OneBlankBefore(blank[0], blank[1..] + text);
      assert blank + text == [blank[0]] + (blank[1..] + text);
    }
  }

  lemma OneBlankBefore(c: char, text: string)
    requires IsSpace(c)
    ensures TextPairs([c] + text) == TextPairs(text)
  {
    var parts := Split(text, ';');
    assert ([c] + text)[1..] == text;
    var more := [[c] + parts[0]] + parts[1..];
    assert Split([c] + text, ';') == more;
    ControlsConcat([c], parts[0]);
    ControlsKeepBlank([c]);
    BlankBeside(WithoutControls([c]), WithoutControls(parts[0]));
    SameCleanedSamePair([c] + parts[0], parts[0]);
    assert Map(PairOf, more) == Map(PairOf, parts);
  }

  /** White space after a text belongs to its last part. */
  lemma {:induction false} BlankAfter(text: string, blank: string)
    requires IsBlank(blank)
    ensures TextPairs(text + blank) == TextPairs(text)
    decreases |text|
  {
    var i := IndexOf(text, ';');
    if i == |text| {
      BlankAfterPart(text, blank);
    } else {
      var a, b := text[..i], text[i + 1..];
      assert text == a + [';'] + b && text + blank == a + [';'] + (b + blank);
      BlankAfter(b, blank);
      TextPairsConcat(a, b);
      TextPairsConcat(a, b + blank);
    }
  }

  lemma BlankAfterPart(part: string, blank: string)
    requires IsBlank(blank) && ';' !in part
    ensures TextPairs(part + blank) == TextPairs(part)
  {
    assert ';' !in part + blank;
    SplitWhole(part + blank, ';');
    SplitWhole(part, ';');
    ControlsConcat(part, blank);
    ControlsKeepBlank(blank);
    BlankBeside(WithoutControls(blank), WithoutControls(part));
    SameCleanedSamePair(part + blank, part);
    assert Map(PairOf, [part + blank]) == Map(PairOf, [part]);
  }

  /** Control characters in a text do not count. */
  lemma {:induction false} ControlsIgnored(text: string)
    ensures TextPairs(WithoutControls(text)) == TextPairs(text)
    decreases |text|
  {
    var i := IndexOf(text, ';');
    WithoutControlsFacts(text);
    if i == |text| {
      OnePartControls(text);
    } else {
      var a, b := text[..i], text[i + 1..];
      assert text == a + [';'] + b;
      ControlsConcat(a + [';'], b);
      ControlsConcat(a, [';']);
      assert WithoutControls([';']) == [';'];
      var clean := WithoutControls(a);
      ControlsIgnored(b);
      OnePartControls(a);
      TextPairsConcat(a, b);
      TextPairsConcat(clean, WithoutControls(b));
    }
  }

  lemma OnePartControls(a: string)
    requires ';' !in a
    ensures TextPairs(WithoutControls(a)) == TextPairs(a)
  {
    WithoutControlsFacts(a);
    SplitWhole(a, ';');
    SplitWhole(WithoutControls(a), ';');
    ControlsTwice(a);
    SameCleanedSamePair(WithoutControls(a), a);
    assert Map(PairOf, [WithoutControls(a)]) == Map(PairOf, [a]);
  }

  /** So a text holds what its cleaned form holds. */
  lemma TextCleaned(text: string)
    ensures TextPairs(Strip(WithoutControls(text))) == TextPairs(text)
  {
    ControlsIgnored(text);
    var a, b := Around(WithoutControls(text));
    BlankAfter(a + Strip(WithoutControls(text)), b);
    BlankBefore(a, Strip(WithoutControls(text)));
  }

  // ---------------------------------------------------------------------------------------------
  // The cookies of a raw text: line by line

  /** The cookies of one line, if it holds any. */
  function LinePairs(line: string): seq<Pair> {
    match LineText(line)
    case None => []
    case Some(text) => TextPairs(text)
  }

  function AllLinePairs(lines: seq<string>): seq<Pair> {
    if lines == [] then [] else LinePairs(lines[0]) + AllLinePairs(lines[1..])
  }

  lemma {:induction false} AllLinesConcat(a: seq<string>, b: seq<string>)
    ensures AllLinePairs(a + b) == AllLinePairs(a) + AllLinePairs(b)
    decreases |a|
  {
    if a == [] {
      assert a + b == b;
    } else {
      assert (a + b)[1..] == a[1..] + b;
      AllLinesConcat(a[1..], b);
    }
  }

  function AllTextPairs(texts: seq<string>): seq<Pair> {
    if texts == [] then [] else TextPairs(texts[0]) + AllTextPairs(texts[1..])
  }

  lemma {:induction false} JoinedTexts(texts: seq<string>)
    ensures TextPairs(Join(texts, "; ")) == AllTextPairs(texts)
    decreases |texts|
  {
    if texts == [] {
      assert PairOf("") == None && Map(PairOf, [""]) == [None];
      assert Present([None]) == Present<Pair>([]) == [];
    } else if |texts| == 1 {
      assert texts[1..] == [];
    } else {
      var rest := Join(texts[1..], "; ");
      JoinedTexts(texts[1..]);
      BlankBefore(" ", rest);
      TextPairsConcat(texts[0], " " + rest);
      assert Join(texts, "; ") == texts[0] + [';'] + (" " + rest);
    }
  }

  lemma {:induction false} LinesToTexts(lines: seq<string>)
    ensures AllTextPairs(Present(Map(LineText, lines))) == AllLinePairs(lines)
    decreases |lines|
  {
    if lines != [] {
      LinesToTexts(lines[1..]);
      assert Map(LineText, lines)[1..] == Map(LineText, lines[1..]);
      FirstText(LineText(lines[0]), Present(Map(LineText, lines[1..])));
    }
  }

  lemma FirstText(first: Option<string>, rest: seq<string>)
    ensures AllTextPairs((if first.Some? then [first.value] else []) + rest) ==
            (if first.Some? then TextPairs(first.value) else []) + AllTextPairs(rest)
  {
    if first.Some? { assert ([first.value] + rest)[1..] == rest; } else { assert [] + rest == rest; }
  }

  /** The cookies of a raw text are those of its lines, in order. */
  lemma PairsByLine(raw: string)
    ensures Pairs(raw) == AllLinePairs(Lines(raw))
  {
    JoinedTexts(Present(Map(LineText, Lines(raw))));
    LinesToTexts(Lines(raw));
  }

  /** The cookies of a text whose line ends are line feeds. */
  function FedPairs(text: string): seq<Pair> {
    AllLinePairs(Split(text, '\n'))
  }

  lemma FedConcat(a: string, b: string)
    ensures FedPairs(a + ['\n'] + b) == FedPairs(a) + FedPairs(b)
  {
    SplitConcat(a, '\n', b);
    AllLinesConcat(Split(a, '\n'), Split(b, '\n'));
  }

  lemma EmptyLine()
    ensures FedPairs("") == []
  {
    assert [""][1..] == [];
  }

  predicate EndsLine(x: string) {
    x != "" && x[|x| - 1] == '\n'
  }

  predicate StartsLine(y: string) {
    y != "" && y[0] == '\n'
  }

  /** Two texts around a line end: it is one line feed, unless it is half of one that spans both. */
  predicate Spans(all: string, x: string, y: string) {
    all == x + ['\n'] + y || (all == x + y && (EndsLine(x) || StartsLine(y)))
  }

  lemma SpansBehind(first: char, all: string, x: string, y: string)
    requires Spans(all, x, y)
    ensures Spans([first] + all, [first] + x, y)
  {
    assert [first] + (x + ['\n'] + y) == [first] + x + ['\n'] + y;
    assert [first] + (x + y) == [first] + x + y;
  }

  lemma {:induction false} NewlinesAround(a: string, c: char, b: string)
    requires c == '\n' || c == '\r'
    ensures Spans(Newlines(a + [c] + b), Newlines(a), Newlines(b))
    decreases |a|
  {
    var s := a + [c] + b;
    if a == "" {
      NewlinesAtOnce(c, b);
      assert s == [c] + b;
    } else if a[0] == '\r' && |a| == 1 && c == '\n' {
      assert s[2..] == b && Newlines(a) == "\n" + Newlines("");
      assert Newlines(s) == "\n" + Newlines(b);
    } else {
      var skip := if a[0] == '\r' && |a| > 1 && a[1] == '\n' then 2 else 1;
      assert s[skip..] == a[skip..] + [c] + b;
      NewlinesAround(a[skip..], c, b);
      SpansBehind(if a[0] == '\r' then '\n' else a[0], Newlines(s[skip..]), Newlines(a[skip..]), Newlines(b));
    }
  }

  lemma NewlinesAtOnce(c: char, b: string)
    requires c == '\n' || c == '\r'
    ensures Spans(Newlines([c] + b), "", Newlines(b))
  {
    var s := [c] + b;
    assert s[1..] == b;
    if c == '\r' && b != "" && b[0] == '\n' {
      assert s[2..] == b[1..];
    } else {
      assert Newlines(s) == "" + ['\n'] + Newlines(b);
    }
  }

  /** A line end inside a text that spans two others, and what stands around it. */
  lemma SpanParts(all: string, x: string, y: string) returns (z: string)
    requires all == x + y && (EndsLine(x) || StartsLine(y))
    ensures EndsLine(x) ==> all == z + ['\n'] + y && x == z + ['\n'] + ""
    ensures !EndsLine(x) ==> all == x + ['\n'] + z && y == "" + ['\n'] + z
  {
    z := if EndsLine(x) then x[..|x| - 1] else y[1..];
  }

  lemma FedJoined(all: string, x: string, y: string)
    requires all == x + ['\n'] + y
    ensures FedPairs(all) == FedPairs(x) + FedPairs(y)
  {
    FedConcat(x, y);
  }

  lemma FedSpans(all: string, x: string, y: string)
    requires Spans(all, x, y)
    ensures FedPairs(all) == FedPairs(x) + FedPairs(y)
  {
    EmptyLine();
    if all == x + ['\n'] + y {
      FedJoined(all, x, y);
    } else {
      var z := SpanParts(all, x, y);
      if EndsLine(x) {
        FedJoined(all, z, y);
        FedJoined(x, z, "");
      } else {
        FedJoined(all, x, z);
        FedJoined(y, "", z);
      }
    }
  }

  /** Main result: the lines of a raw text are read one by one, whichever way they end. */
  lemma LinesAddUp(a: string, c: char, b: string)
    requires c == '\n' || c == '\r'
    ensures Pairs(a + [c] + b) == Pairs(a) + Pairs(b)
  {
    PairsByLine(a + [c] + b);
    PairsByLine(a);
    PairsByLine(b);
    WithoutConcat(a + [c], b, BYTE_ORDER_MARK);
    WithoutConcat(a, [c], BYTE_ORDER_MARK);
    assert Without([c], BYTE_ORDER_MARK) == [c];
    var x, y := Without(a, BYTE_ORDER_MARK), Without(b, BYTE_ORDER_MARK);
    NewlinesAround(x, c, y);
    FedSpans(Newlines(x + [c] + y), Newlines(x), Newlines(y));
  }

  /** A byte order mark is not read, wherever it stands. */
  lemma MarkIsNotRead(a: string, b: string)
    ensures Pairs(a + [BYTE_ORDER_MARK] + b) == Pairs(a + b)
  {
    WithoutConcat(a + [BYTE_ORDER_MARK], b, BYTE_ORDER_MARK);
    WithoutConcat(a, [BYTE_ORDER_MARK], BYTE_ORDER_MARK);
    WithoutConcat(a, b, BYTE_ORDER_MARK);
    assert Without([BYTE_ORDER_MARK], BYTE_ORDER_MARK) == "";
    assert Without(a, BYTE_ORDER_MARK) + "" == Without(a, BYTE_ORDER_MARK);
    assert Lines(a + [BYTE_ORDER_MARK] + b) == Lines(a + b);
  }

  // ---------------------------------------------------------------------------------------------
  // One line: cookies, another header, or a text without a header

  /** A text on one line. */
  predicate IsLine(s: string) {
    forall c | c in s :: c != '\n' && c != '\r' && c != BYTE_ORDER_MARK
  }

  lemma OneLine(line: string)
    requires IsLine(line)
    ensures Pairs(line) == LinePairs(line)
  {
    WithoutFacts(line, BYTE_ORDER_MARK);
    NewlinesFacts(line);
    SplitWhole(line, '\n');
    PairsByLine(line);
    assert [line][1..] == [];
  }

  lemma StrippedText(text: string)
    ensures TextPairs(Strip(text)) == TextPairs(text)
    ensures Strip(text) == "" ==> TextPairs(text) == []
  {
    var a, b := Around(text);
    BlankAfter(a + Strip(text), b);
    BlankBefore(a, Strip(text));
    assert PairOf("") == None && Map(PairOf, [""]) == [None];
    assert Present([None]) == Present<Pair>([]) == [];
  }

  /** What a line holds, seen from its cleaned form. */
  lemma LineByClean(line: string)
    ensures var clean := Strip(WithoutControls(line));
            LinePairs(line) == if IsCookieLine(clean) then TextPairs(clean[7..])
                               else if IsHeaderLine(clean) then [] else TextPairs(clean)
  {
    var clean := Strip(WithoutControls(line));
    StripsOnce(line);
    StrippedText(clean);
    if IsCookieLine(clean) { StrippedText(clean[7..]); }
    if Strip(line) == "" { assert clean == ""; }
    StripFacts(WithoutControls(line));
  }

  lemma {:induction false} StripRightConcat(s: string, t: string)
    requires s != "" && !IsSpace(s[|s| - 1])
    ensures StripRight(s + t) == s + StripRight(t)
    decreases |t|
  {
    if t == "" {
      assert s + t == s && s + StripRight(t) == s;
    } else if IsSpace(t[|t| - 1]) {
      assert (s + t)[..|s + t| - 1] == s + t[..|t| - 1];
      StripRightConcat(s, t[..|t| - 1]);
    }
  }

  /** The name of the cookie header and its colon, in any case; the Kelvin sign is a k too. */
  predicate IsCookiePrefix(prefix: string) {
    && |prefix| == 7 && prefix[0] in ['c', 'C'] && prefix[1] in ['o', 'O'] && prefix[2] in ['o', 'O']
    && prefix[3] in ['k', 'K', '\U{212A}'] && prefix[4] in ['i', 'I'] && prefix[5] in ['e', 'E'] && prefix[6] == ':'
  }

  lemma PrefixLowers(prefix: string)
    ensures IsCookiePrefix(prefix) <==> |prefix| == 7 && Map(Lowered, prefix) == "cookie:"
  {
    if |prefix| == 7 {
      var lowered := Map(Lowered, prefix);
      assert forall i | 0 <= i < 7 :: lowered[i] == Lowered(prefix[i]);
      assert lowered == "cookie:" <==>
             lowered[0] == 'c' && lowered[1] == 'o' && lowered[2] == 'o' && lowered[3] == 'k' && lowered[4] == 'i'
             && lowered[5] == 'e' && lowered[6] == ':';
    }
  }

  lemma PrefixChars(prefix: string)
    requires IsCookiePrefix(prefix)
    ensures forall c | c in prefix :: !IsControl(c) && !IsSpace(c) && c != BYTE_ORDER_MARK
    ensures WithoutControls(prefix) == prefix && IsLine(prefix)
  {
    forall c | c in prefix ensures !IsControl(c) && !IsSpace(c) && c != BYTE_ORDER_MARK {
      var i :| 0 <= i < |prefix| && prefix[i] == c;
      assert i in {0, 1, 2, 3, 4, 5, 6};
    }
    WithoutControlsFacts(prefix);
  }

  lemma LinesConcat(a: string, b: string)
    requires IsLine(a) && IsLine(b)
    ensures IsLine(a + b)
  {}

  /** Main result: behind the name of the cookie header, in any case, a line is read part by part. */
  lemma CookieLineIsRead(prefix: string, text: string)
    requires IsCookiePrefix(prefix) && IsLine(prefix + text)
    ensures Pairs(prefix + text) == TextPairs(text)
  {
    OneLine(prefix + text);
    LineByClean(prefix + text);
    PrefixLowers(prefix);
    PrefixChars(prefix);
    assert prefix[0] in prefix && prefix[6] in prefix;
    HeadCleaned(prefix, text);
    var rest := WithoutControls(text);
    var clean := prefix + StripRight(rest);
    assert clean[..7] == prefix && clean[7..] == StripRight(rest);
    var blank := RightOf(rest);
    BlankAfter(StripRight(rest), blank);
    ControlsIgnored(text);
  }

  /** Main result: a cookie header pasted as it is, with any spaces behind its colon, reads back whole. */
  lemma PrefixedRoundTrip(prefix: string, spaces: string, pairs: seq<Pair>)
    requires IsCookiePrefix(prefix) && (forall c | c in spaces :: c == ' ') && forall p | p in pairs :: IsCookie(p)
    ensures Pairs(prefix + spaces + Render(pairs)) == pairs
  {
    var s := Render(pairs);
    RenderedIsLine(pairs);
    PrefixChars(prefix);
    assert IsLine(spaces);
    LinesConcat(spaces, s);
    LinesConcat(prefix, spaces + s);
    CookieLineIsRead(prefix, spaces + s);
    BlankBefore(spaces, s);
    assert prefix + spaces + s == prefix + (spaces + s);
    RenderRoundTrip(pairs);
    if pairs == [] {
      StrippedText("");
    } else {
      RenderedIsOneText(pairs);
    }
  }

  lemma StandardPrefix(text: string)
    requires IsLine(text)
    ensures Pairs("Cookie:" + text) == TextPairs(text)
  {
    var prefix := "Cookie:";
    PrefixChars(prefix);
    LinesConcat(prefix, text);
    CookieLineIsRead(prefix, text);
  }

  lemma RenderedIsLine(pairs: seq<Pair>)
    requires forall p | p in pairs :: IsCookie(p)
    ensures IsLine(Render(pairs))
  {
    if pairs != [] { RenderFacts(pairs); }
  }

  lemma {:induction false} HeaderNameSkipped(name: string, rest: string)
    requires (forall c | c in name :: IsHeaderChar(c)) && (rest != "" ==> !IsHeaderChar(rest[0]))
    ensures SkipHeaderName(name + rest) == rest
    decreases |name|
  {
    if name == "" {
      assert name + rest == rest;
    } else {
      assert name[0] in name && forall c | c in name[1..] :: c in name;
      assert (name + rest)[1..] == name[1..] + rest;
      HeaderNameSkipped(name[1..], rest);
    }
  }

  predicate IsOtherHeader(name: string, spaces: string) {
    && name != "" && (forall c | c in name :: IsHeaderChar(c)) && (forall c | c in spaces :: c == ' ')
    && !IsCookiePrefix(name + spaces + ":")
  }

  /** Main result: a line that is another header, or has spaces before its colon, holds no cookies. */
  lemma OtherHeaderIsIgnored(name: string, spaces: string, value: string)
    requires IsOtherHeader(name, spaces) && IsLine(name + spaces + ":" + value)
    ensures Pairs(name + spaces + ":" + value) == []
  {
    var head := name + spaces + ":";
    OneLine(head + value);
    LineByClean(head + value);
    OtherHeaderHead(name, spaces);
    HeadCleaned(head, value);
    OtherHeaderLine(name, spaces, StripRight(WithoutControls(value)));
  }

  lemma OtherHeaderHead(name: string, spaces: string)
    requires IsOtherHeader(name, spaces)
    ensures var head := name + spaces + ":"; !IsSpace(head[0]) && forall c | c in head :: !IsControl(c)
  {
    assert (name + spaces + ":")[0] == name[0] && name[0] in name;
  }

  /** Cleaning stops at a header that opens a line. */
  lemma HeadCleaned(head: string, value: string)
    requires head != "" && !IsSpace(head[0]) && !IsSpace(head[|head| - 1]) && forall c | c in head :: !IsControl(c)
    ensures Strip(WithoutControls(head + value)) == head + StripRight(WithoutControls(value))
  {
    WithoutControlsFacts(head);
    ControlsConcat(head, value);
    StripRightConcat(head, WithoutControls(value));
  }

  lemma OtherHeaderLine(name: string, spaces: string, tail: string)
    requires IsOtherHeader(name, spaces)
    ensures IsHeaderLine(name + spaces + ":" + tail) && !IsCookieLine(name + spaces + ":" + tail)
  {
    var clean, rest := name + spaces + ":" + tail, spaces + (":" + tail);
    assert clean == name + rest;
    assert if spaces == "" then rest[0] == ':' else rest[0] == spaces[0] == ' ' by {
      assert spaces != "" ==> spaces[0] in spaces;
    }
    HeaderNameSkipped(name, rest);
    StripLeftBlank(spaces, ":" + tail);
    if |clean| >= 7 { OtherPrefix(name, spaces, clean, rest); }
  }

  lemma OtherPrefix(name: string, spaces: string, clean: string, rest: string)
    requires IsOtherHeader(name, spaces) && clean == name + rest && |clean| >= 7 && rest != ""
    requires if spaces == "" then rest[0] == ':' else rest[0] == ' '
    ensures Map(Lowered, clean[..7]) != "cookie:"
  {
    PrefixLowers(clean[..7]);
    var n := |name|;
    if n < 6 {
      assert clean[..7][n] == rest[0];
    } else if n > 6 {
      assert clean[..7][6] == name[6] && name[6] in name;
    } else {
      assert clean[..7][6] == rest[0];
      assert spaces == "" ==> clean[..7] == name + spaces + ":";
    }
  }

  /** Main result: a line that is no header at all is read as if it stood behind "Cookie:". */
  lemma PlainLineIsRead(line: string)
    requires IsLine(line)
    requires var clean := Strip(WithoutControls(line)); !IsCookieLine(clean) && !IsHeaderLine(clean)
    ensures Pairs(line) == Pairs("Cookie:" + line)
  {
    OneLine(line);
    LineByClean(line);
    TextCleaned(line);
    StandardPrefix(line);
  }

  /** A name up to i, white space up to j, and a colon. */
  predicate HeaderShape(line: string, i: nat, j: nat) {
    && 0 < i <= j < |line| && line[j] == ':'
    && (forall k | 0 <= k < i :: IsHeaderChar(line[k])) && (forall k | i <= k < j :: IsSpace(line[k]))
  }

  /** Only a name, white space and a colon make a line a header. */
  lemma {:induction false} HeaderLineExactlyWhen(line: string)
    ensures IsHeaderLine(line) <==> exists i: nat, j: nat :: HeaderShape(line, i, j)
  {
    var i := SkippedHeader(line);
    if IsHeaderLine(line) {
      var blank := LeftOf(line[i..]);
      assert forall k | i <= k < i + |blank| :: line[k] == blank[k - i] && blank[k - i] in blank;
      assert line[i..] == blank + StripLeft(line[i..]);
      assert HeaderShape(line, i, i + |blank|);
    }
    if m: nat, j: nat :| HeaderShape(line, m, j) {
      SameName(line, i, m, j);
      HeaderByShape(line, i, j);
    }
  }

  lemma SameName(line: string, i: nat, m: nat, j: nat)
    requires HeaderShape(line, m, j) && i <= |line|
    requires (forall k | 0 <= k < i :: IsHeaderChar(line[k])) && (i < |line| ==> !IsHeaderChar(line[i]))
    ensures i == m
  {
    assert !IsHeaderChar(line[m]) by { assert m < j ==> IsSpace(line[m]); }
  }

  lemma HeaderByShape(line: string, i: nat, j: nat)
    requires HeaderShape(line, i, j) && SkipHeaderName(line) == line[i..]
    ensures IsHeaderLine(line)
  {
    assert line[i..] == line[i..j] + line[j..];
    assert forall c | c in line[i..j] :: IsSpace(c);
    StripLeftBlank(line[i..j], line[j..]);
  }

  lemma {:induction false} SkippedHeader(line: string) returns (i: nat)
    ensures i <= |line| && SkipHeaderName(line) == line[i..]
    ensures (forall k | 0 <= k < i :: IsHeaderChar(line[k])) && (i < |line| ==> !IsHeaderChar(line[i]))
    decreases |line|
  {
    i := 0;
    if line != "" && IsHeaderChar(line[0]) {
      var n := SkippedHeader(line[1..]);
      i := n + 1;
      assert forall k | 0 < k < i :: line[k] == line[1..][k - 1];
    }
  }

  // ---------------------------------------------------------------------------------------------
  // One part

  /** Parts behind each other are read one by one. */
  lemma PartsAddUp(a: string, b: string)
    requires IsLine(a) && IsLine(b)
    ensures Pairs("Cookie:" + a + ";" + b) == Pairs("Cookie:" + a) + Pairs("Cookie:" + b)
  {
    assert "Cookie:" + a + ";" + b == "Cookie:" + (a + [';'] + b);
    StandardPrefix(a + [';'] + b);
    StandardPrefix(a);
    StandardPrefix(b);
    TextPairsConcat(a, b);
  }

  predicate AreSpaces(s: string) {
    forall c | c in s :: c == ' '
  }

  /** A part holds its cookie whatever spaces stand around its name and its value. */
  lemma SpacedPartIsRead(a: string, b: string, c: string, d: string, p: Pair)
    requires AreSpaces(a) && AreSpaces(b) && AreSpaces(c) && AreSpaces(d) && IsCookie(p)
    ensures Pairs("Cookie:" + (a + p.name + b + ['='] + (c + p.value + d))) == [p]
  {
    var name, value := a + p.name + b, c + p.value + d;
    forall x | x in p.name ensures IsValueChar(x) && x != '=' { assert IsNameChar(x); }
    SpacedChars(a, p.name, b);
    SpacedChars(c, p.value, d);
    NameStrips(p);
    NamedPartIsRead(name, value, p);
  }

  lemma NamedPartIsRead(name: string, value: string, p: Pair)
    requires (forall x | x in name + ['='] + value :: IsValueChar(x)) && '=' !in name
    requires Strip(name) == p.name && Strip(value) == p.value && IsName(p.name)
    ensures Pairs("Cookie:" + (name + ['='] + value)) == [p]
  {
    forall x | x in name || x in value ensures !IsControl(x) { assert x in name + ['='] + value; }
    WithoutControlsFacts(name);
    WithoutControlsFacts(value);
    PairAround(name, value);
    OnePartIsRead(name + ['='] + value, p);
  }

  lemma OnePartIsRead(part: string, p: Pair)
    requires (forall c | c in part :: IsValueChar(c)) && PairOf(part) == Some(p)
    ensures Pairs("Cookie:" + part) == [p]
  {
    StandardPrefix(part);
    SplitWhole(part, ';');
    AllPresent(PairOf, [part], [p]);
  }

  lemma SpacedChars(a: string, s: string, b: string)
    requires AreSpaces(a) && AreSpaces(b) && forall x | x in s :: IsValueChar(x)
    ensures forall x | x in a + s + b :: IsValueChar(x)
    ensures '=' !in s ==> '=' !in a + s + b
    ensures Strip(a + s + b) == Strip(s)
  {
    SpacesCount(a);
    SpacesCount(b);
    StripBlanks(a, s, b);
  }

  lemma SpacesCount(s: string)
    requires AreSpaces(s)
    ensures IsBlank(s) && forall x | x in s :: IsValueChar(x) && x != '='
  {}

  /** What a part with an equals sign holds. */
  lemma PairAround(name: string, value: string)
    requires '=' !in name
    ensures var n, v := Strip(WithoutControls(name)), Strip(WithoutControls(value));
            PairOf(name + ['='] + value) == if IsName(n) then Some(Pair(n, v)) else None
  {
    var n, v := WithoutControls(name), WithoutControls(value);
    PartAround(name, value);
    WithoutControlsFacts(name);
    StripAround(n, v);
    StripEnds(n);
    StripEnds(v);
    CutAround(StripLeft(n), StripRight(v));
  }

  lemma PartAround(name: string, value: string)
    ensures WithoutControls(name + ['='] + value) == WithoutControls(name) + ['='] + WithoutControls(value)
  {
    ControlsConcat(name + ['='], value);
    ControlsConcat(name, ['=']);
    assert WithoutControls(['=']) == ['='];
  }

  lemma CutAround(left: string, right: string)
    requires '=' !in left
    ensures var clean := left + ['='] + right;
            IndexOf(clean, '=') == |left| < |clean| && clean[..|left|] == left && clean[|left| + 1..] == right
  {
    IndexOfFirst(left, '=', right);
  }

  lemma StripAround(n: string, v: string)
    requires '=' !in n
    ensures Strip(n + ['='] + v) == StripLeft(n) + ['='] + StripRight(v) && '=' !in StripLeft(n)
  {
    StripLeftFacts(n);
    StripLeftAround(n, v);
    var left := StripLeft(n) + ['='];
    StripRightConcat(left, v);
  }

  lemma StripLeftAround(n: string, v: string)
    ensures StripLeft(n + ['='] + v) == StripLeft(n) + ['='] + v
  {
    var rest := ['='] + v;
    assert n + ['='] + v == n + rest;
    StripLeftConcat(n, rest);
    if IsBlank(n) { BlankStrips(n); }
  }

  lemma StripEnds(s: string)
    ensures Strip(StripLeft(s)) == Strip(s) && Strip(StripRight(s)) == Strip(s)
  {
    var a := LeftOf(s);
    BlankBeside(a, StripLeft(s));
    var b := RightOf(s);
    BlankBeside(b, StripRight(s));
  }

  /** A part without an equals sign, or whose name is no token, holds none. */
  lemma MalformedPartIsIgnored(name: string, value: string)
    requires IsLine(name + value) && ';' !in name + value && '=' !in name
    requires !IsName(Strip(WithoutControls(name)))
    ensures Pairs("Cookie:" + name) == [] && Pairs("Cookie:" + (name + "=" + value)) == []
  {
    assert IsLine(name) by { assert forall c | c in name :: c in name + value; }
    assert IsLine(name + "=" + value) by {
      assert forall c | c in name + "=" + value :: c in name + value || c == '=';
    }
    StandardPrefix(name);
    StandardPrefix(name + "=" + value);
    SplitWhole(name, ';');
    SplitWhole(name + "=" + value, ';');
    NoName(name);
    PairAround(name, value);
    assert Map(PairOf, [name]) == [None] && Map(PairOf, [name + "=" + value]) == [None];
    assert Present([None]) == Present<Pair>([]) == [];
  }

  lemma NoName(name: string)
    requires '=' !in name
    ensures PairOf(name) == None
  {
    WithoutControlsFacts(name);
    StripFacts(WithoutControls(name));
  }
}
