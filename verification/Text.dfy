/** The string operations of the source language that the models need. */
module Text {
  /** The characters that count as white space there. */
  predicate IsSpace(c: char) {
    var n := c as int;
    || 9 <= n <= 13 || 28 <= n <= 32 || n == 0x85 || n == 0xA0 || n == 0x1680 || 0x2000 <= n <= 0x200A
    || n == 0x2028 || n == 0x2029 || n == 0x202F || n == 0x205F || n == 0x3000
  }

  predicate IsControl(c: char) {
    c as int <= 0x1F || c as int == 0x7F
  }

  predicate IsDigit(c: char) {
    '0' <= c <= '9'
  }

  predicate IsLetter(c: char) {
    'a' <= c <= 'z' || 'A' <= c <= 'Z'
  }

  function StripLeft(s: string): string {
    if s != "" && IsSpace(s[0]) then StripLeft(s[1..]) else s
  }

  function StripRight(s: string): string {
    if s != "" && IsSpace(s[|s| - 1]) then StripRight(s[..|s| - 1]) else s
  }

  function Strip(s: string): string {
    StripRight(StripLeft(s))
  }

  /** No white space at either end. */
  predicate IsStripped(s: string) {
    s != "" ==> !IsSpace(s[0]) && !IsSpace(s[|s| - 1])
  }

  function WithoutControls(s: string): string {
    if s == "" then ""
    else if IsControl(s[0]) then WithoutControls(s[1..])
    else [s[0]] + WithoutControls(s[1..])
  }

  function Without(s: string, gone: char): string {
    if s == "" then ""
    else if s[0] == gone then Without(s[1..], gone)
    else [s[0]] + Without(s[1..], gone)
  }

  /** The pieces between the separators; always at least one. */
  function Split(s: string, separator: char): (pieces: seq<string>)
    ensures pieces != []
  {
    if s == "" then [""]
    else
      var rest := Split(s[1..], separator);
      if s[0] == separator then [""] + rest else [[s[0]] + rest[0]] + rest[1..]
  }

  function Join(pieces: seq<string>, glue: string): string {
    if pieces == [] then "" else if |pieces| == 1 then pieces[0] else pieces[0] + glue + Join(pieces[1..], glue)
  }

  /** The position of the first such character, or the length. */
  function IndexOf(s: string, c: char): (i: nat)
    ensures i <= |s|
    ensures i < |s| ==> s[i] == c
    ensures c !in s[..i]
    ensures i == |s| ==> c !in s
  {
    if s == "" || s[0] == c then 0 else 1 + IndexOf(s[1..], c)
  }

  // ---------------------------------------------------------------------------------------------

  lemma {:induction false} StripLeftFacts(s: string)
    ensures StripLeft(s) != "" ==> !IsSpace(StripLeft(s)[0])
    ensures |StripLeft(s)| <= |s| && StripLeft(s) == s[|s| - |StripLeft(s)|..]
    decreases |s|
  {
    if s != "" && IsSpace(s[0]) { StripLeftFacts(s[1..]); }
  }

  lemma {:induction false} StripRightFacts(s: string)
    ensures StripRight(s) != "" ==> !IsSpace(StripRight(s)[|StripRight(s)| - 1])
    ensures |StripRight(s)| <= |s| && StripRight(s) == s[..|StripRight(s)|]
    decreases |s|
  {
    if s != "" && IsSpace(s[|s| - 1]) { StripRightFacts(s[..|s| - 1]); }
  }

  /** A stripped text is stripped, and has only characters of the original. */
  lemma StripFacts(s: string)
    ensures IsStripped(Strip(s))
    ensures forall c | c in Strip(s) :: c in s
  {
    StripLeftFacts(s);
    StripRightFacts(StripLeft(s));
    forall c | c in Strip(s) ensures c in s {
      var left := StripLeft(s);
      assert c in left;
      assert forall x | x in s[|s| - |left|..] :: x in s;
    }
  }

  lemma StrippedIsFixed(s: string)
    requires IsStripped(s)
    ensures Strip(s) == s
  {}

  lemma {:induction false} WithoutControlsFacts(s: string)
    ensures forall c | c in WithoutControls(s) :: c in s && !IsControl(c)
    ensures (forall c | c in s :: !IsControl(c)) ==> WithoutControls(s) == s
    decreases |s|
  {
    if s != "" {
      WithoutControlsFacts(s[1..]);
      assert forall c | c in s[1..] :: c in s;
      assert s == [s[0]] + s[1..];
    }
  }

  lemma {:induction false} WithoutFacts(s: string, gone: char)
    ensures forall c | c in Without(s, gone) :: c in s && c != gone
    ensures gone !in s ==> Without(s, gone) == s
    decreases |s|
  {
    if s != "" {
      WithoutFacts(s[1..], gone);
      assert forall c | c in s[1..] :: c in s;
      assert s == [s[0]] + s[1..];
    }
  }

  lemma {:induction false} SplitFacts(s: string, separator: char)
    ensures forall piece, c | piece in Split(s, separator) && c in piece :: c in s && c != separator
    decreases |s|
  {
    if s != "" {
      SplitFacts(s[1..], separator);
      assert forall c | c in s[1..] :: c in s;
      var rest := Split(s[1..], separator);
      forall piece, c | piece in Split(s, separator) && c in piece ensures c in s && c != separator {
        if s[0] != separator && piece !in rest { assert piece == [s[0]] + rest[0]; }
      }
    }
  }

  lemma {:induction false} SplitFirst(a: string, separator: char, b: string)
    requires separator !in a
    ensures Split(a + [separator] + b, separator) == [a] + Split(b, separator)
    decreases |a|
  {
    var s := a + [separator] + b;
    if a == "" {
      assert s == [separator] + b && s[1..] == b;
    } else {
      assert s[1..] == a[1..] + [separator] + b;
      SplitFirst(a[1..], separator, b);
      assert [a[0]] + a[1..] == a;
    }
  }

  lemma {:induction false} SplitWhole(a: string, separator: char)
    requires separator !in a
    ensures Split(a, separator) == [a]
    decreases |a|
  {
    if a != "" {
      SplitWhole(a[1..], separator);
      assert [a[0]] + a[1..] == a;
    }
  }

  /** A character that neither a piece nor the glue has is not in the joined text. */
  lemma {:induction false} JoinFacts(pieces: seq<string>, glue: string, c: char)
    requires c !in glue && forall piece | piece in pieces :: c !in piece
    ensures c !in Join(pieces, glue)
    decreases |pieces|
  {
    if |pieces| > 1 {
      assert forall piece | piece in pieces[1..] :: piece in pieces;
      JoinFacts(pieces[1..], glue, c);
    }
  }

  lemma {:induction false} IndexOfFirst(a: string, c: char, b: string)
    requires c !in a
    ensures IndexOf(a + [c] + b, c) == |a|
    decreases |a|
  {
    if a != "" {
      assert (a + [c] + b)[1..] == a[1..] + [c] + b;
      IndexOfFirst(a[1..], c, b);
    }
  }
}
