/** C strings and the copying filters of misc.c (strcpy_noansi, strcpy_nobell). */
module Text {
  import Sequences

  const BELL: char := '\U{07}'
  const ESC: char := '\U{1B}'

  /** What C sees of a string: the part before the first NUL. */
  function CString(s: string): string {
    if s == "" || s[0] == '\0' then "" else [s[0]] + CString(s[1..])
  }

  predicate IsCString(s: string) {
    '\0' !in s
  }

  /** The character at an index, or the terminating NUL. */
  function At(s: string, i: nat): char {
    if i < |s| then s[i] else '\0'
  }

  /** tolower in the C locale. */
  function Lower(c: char): char {
    if 'A' <= c <= 'Z' then c + ' ' else c
  }

  function LowerAll(s: string): string {
    if s == "" then "" else [Lower(s[0])] + LowerAll(s[1..])
  }

  lemma {:induction false} LowerAllAt(s: string)
    ensures |LowerAll(s)| == |s|
    ensures forall k :: 0 <= k < |s| ==> LowerAll(s)[k] == Lower(s[k])
  {
    if s != "" {
      LowerAllAt(s[1..]);
    }
  }

  /** The same letter of the Latin alphabet, once as a capital: their codes are 32 apart. */
  predicate OtherCase(a: char, b: char) {
    || (65 <= a as int <= 90 && b as int == a as int + 32)
    || (65 <= b as int <= 90 && a as int == b as int + 32)
  }

  predicate SameLetter(a: char, b: char) {
    a == b || OtherCase(a, b)
  }

  /** The case of any letters may differ. */
  predicate UpToCase(s: string, t: string) {
    |s| == |t| && forall k :: 0 <= k < |s| ==> SameLetter(s[k], t[k])
  }

  /** Lowering makes characters equal exactly if they differ in case at most. */
  lemma LowerSame(a: char, b: char)
    ensures Lower(a) == Lower(b) <==> SameLetter(a, b)
  {
    assert ' ' as int == 32 && 'A' as int == 65 && 'Z' as int == 90;
  }

  predicate IsAlpha(c: char) {
    'A' <= c <= 'Z' || 'a' <= c <= 'z'
  }

  predicate Printable(c: char) {
    c >= ' ' || c == '\t'
  }

  // ---------------------------------------------------------------------
  // strcpy_nobell
  // ---------------------------------------------------------------------

  function NoBell(s: string): string {
    if s == "" then "" else (if s[0] == BELL then "" else [s[0]]) + NoBell(s[1..])
  }

  lemma NoBellStep(src: string, i: nat, dest: string)
    requires i < |src| && src[i] != '\0'
    ensures dest + NoBell(CString(src[i..]))
         == (if src[i] == BELL then dest else dest + [src[i]]) + NoBell(CString(src[i + 1..]))
  {
    var rest := CString(src[i + 1..]);
    CStringStep(src, i);
    HeadAndTail(src[i], rest);
    Sequences.Assoc(dest, [src[i]], NoBell(rest));
    Sequences.EmptyEnds(NoBell(rest));
  }

  method StrcpyNobell(src: string) returns (dest: string)
    ensures dest == NoBell(CString(src))
  {
    dest := "";
    var i := 0;
    while At(src, i) != '\0'
      invariant i <= |src|
      invariant dest + NoBell(CString(src[i..])) == NoBell(CString(src))
      decreases |src| - i
    {
      NoBellStep(src, i, dest);
      if At(src, i) != BELL {
        dest := dest + [At(src, i)];
      }
      i := i + 1;
    }
  }

  // ---------------------------------------------------------------------
  // strcpy_noansi
  // ---------------------------------------------------------------------

  /** Past an escape sequence, given the text after the escape character: to the letter
      that ends a sequence that starts with [, or past one other character. */
  function SkipAnsi(s: string): (r: string)
    ensures |r| <= |s|
  {
    if s == "" then ""
    else if s[0] == '[' then SkipToLetter(s)
    else s[1..]
  }

  function SkipToLetter(s: string): (r: string)
    ensures |r| <= |s|
  {
    if s == "" then "" else if IsAlpha(s[0]) then s[1..] else SkipToLetter(s[1..])
  }

  function NoAnsi(s: string): string
    decreases |s|
  {
    if s == "" then ""
    else if Printable(s[0]) then [s[0]] + NoAnsi(s[1..])
    else if s[0] == ESC then NoAnsi(SkipAnsi(s[1..]))
    else NoAnsi(s[1..])
  }

  lemma CStringStep(src: string, i: nat)
    requires i <= |src|
    ensures CString(src[i..]) == if At(src, i) == '\0' then "" else [src[i]] + CString(src[i + 1..])
  {
  }

  lemma LetterStep(src: string, i: nat)
    requires i <= |src|
    ensures SkipToLetter(CString(src[i..]))
         == if At(src, i) == '\0' then "" else if IsAlpha(src[i]) then CString(src[i + 1..])
            else SkipToLetter(CString(src[i + 1..]))
  {
    CStringStep(src, i);
    if At(src, i) != '\0' {
      HeadAndTail(src[i], CString(src[i + 1..]));
    }
  }

  /** The part of strcpy_noansi that runs after an escape character. */
  method SkipEscape(src: string, from: nat) returns (i: nat)
    requires from <= |src|
    ensures from <= i <= |src|
    ensures CString(src[i..]) == SkipAnsi(CString(src[from..]))
  {
    i := from;
    CStringStep(src, from);
    if At(src, i) == '[' {
      while At(src, i) != '\0' && !IsAlpha(At(src, i))
        invariant from <= i <= |src|
        invariant SkipToLetter(CString(src[i..])) == SkipToLetter(CString(src[from..]))
        decreases |src| - i
      {
        LetterStep(src, i);
        i := i + 1;
      }
      LetterStep(src, i);
    }
    CStringStep(src, i);
    if At(src, i) != '\0' {
      HeadAndTail(src[i], CString(src[i + 1..]));
      i := i + 1;
    }
  }

  /** One turn of the loop of strcpy_noansi. */
  lemma NoAnsiStep(src: string, i: nat)
    requires i <= |src|
    ensures var c := At(src, i);
            NoAnsi(CString(src[i..])) ==
              if Printable(c) then [c] + NoAnsi(CString(src[i + 1..]))
              else if c == ESC then NoAnsi(SkipAnsi(CString(src[i + 1..])))
              else if c == '\0' then ""
              else NoAnsi(CString(src[i + 1..]))
  {
    CStringStep(src, i);
    if At(src, i) != '\0' {
      HeadAndTail(src[i], CString(src[i + 1..]));
    }
  }

  lemma HeadAndTail(c: char, s: string)
    ensures ([c] + s)[0] == c && ([c] + s)[1..] == s
  {
  }

  method StrcpyNoansi(src: string) returns (dest: string)
    ensures dest == NoAnsi(CString(src))
  {
    dest := "";
    var i := 0;
    assert src[0..] == src;
    while true
      invariant i <= |src|
      invariant dest + NoAnsi(CString(src[i..])) == NoAnsi(CString(src))
      decreases |src| - i
    {
      var c := At(src, i);
      NoAnsiStep(src, i);
      if Printable(c) {
        Sequences.Assoc(dest, [c], NoAnsi(CString(src[i + 1..])));
        dest := dest + [c];
        i := i + 1;
      } else if c == ESC {
        i := SkipEscape(src, i + 1);
      } else if c == '\0' {
        break;
      } else {
        i := i + 1;
      }
    }
  }

  /** Only printable characters are left, and a text of printable characters stays. */
  lemma {:induction false} NoAnsiPrintable(s: string)
    ensures forall c <- NoAnsi(s) :: Printable(c)
    ensures |NoAnsi(s)| <= |s|
    ensures (forall c <- s :: Printable(c)) ==> NoAnsi(s) == s
    decreases |s|
  {
    if s != "" {
      if Printable(s[0]) {
        NoAnsiPrintable(s[1..]);
        assert s == [s[0]] + s[1..];
      } else if s[0] == ESC {
        NoAnsiPrintable(SkipAnsi(s[1..]));
      } else {
        NoAnsiPrintable(s[1..]);
      }
    }
  }

  /** What a terminal makes of a text: characters to show, control characters, sequences that
      start with ESC and [ and end with a letter, and ESC with any other character. */
  datatype AnsiPart = Visible(c: char) | Control(c: char) | Coloured(params: string, letter: char) | Escaped(c: char)

  predicate LetterCode(c: char) {
    65 <= c as int <= 90 || 97 <= c as int <= 122
  }

  predicate NoLetters(s: string) {
    forall k :: 0 <= k < |s| ==> !LetterCode(s[k])
  }

  predicate PartOk(p: AnsiPart) {
    match p
    case Visible(c) => c as int >= 32 || c as int == 9
    case Control(c) => c as int < 32 && c as int != 9 && c as int != 27
    case Coloured(params, letter) => LetterCode(letter) && NoLetters(params)
    case Escaped(c) => c != '['
  }

  function PartText(p: AnsiPart): string {
    match p
    case Visible(c) => [c]
    case Control(c) => [c]
    case Coloured(params, letter) => "\U{1B}[" + params + [letter]
    case Escaped(c) => "\U{1B}" + [c]
  }

  function PartsText(ps: seq<AnsiPart>): string {
    if ps == [] then "" else PartText(ps[0]) + PartsText(ps[1..])
  }

  function VisibleText(ps: seq<AnsiPart>): string {
    if ps == [] then "" else (if ps[0].Visible? then [ps[0].c] else "") + VisibleText(ps[1..])
  }

  /** A sequence that is not finished at the end of a text. */
  predicate Unfinished(s: string) {
    s == "" || s == "\U{1B}" || (|s| >= 2 && s[..2] == "\U{1B}[" && NoLetters(s[2..]))
  }

  lemma {:induction false} LetterEnds(params: string, letter: char, rest: string)
    requires NoLetters(params) && LetterCode(letter)
    ensures SkipToLetter(params + [letter] + rest) == rest
  {
    var s := params + [letter] + rest;
    if params == "" {
      assert s[1..] == rest;
    } else {
      assert !LetterCode(params[0]);
      assert s[0] == params[0] && s[1..] == params[1..] + [letter] + rest;
      LetterEnds(params[1..], letter, rest);
    }
  }

  lemma {:induction false} NoLetterNoEnd(s: string)
    requires NoLetters(s)
    ensures SkipToLetter(s) == ""
  {
    if s != "" {
      assert !LetterCode(s[0]);
      NoLetterNoEnd(s[1..]);
    }
  }

  lemma PartStripped(p: AnsiPart, rest: string)
    requires PartOk(p)
    ensures NoAnsi(PartText(p) + rest) == (if p.Visible? then [p.c] else "") + NoAnsi(rest)
  {
    match p {
      case Visible(c) => HeadAndTail(c, rest);
      case Control(c) => HeadAndTail(c, rest);
      case Coloured(params, letter) => ColourStripped(params, letter, rest);
      case Escaped(c) =>
        HeadAndTail(ESC, [c] + rest);
        HeadAndTail(c, rest);
        Sequences.Assoc([ESC], [c], rest);
    }
  }

  lemma ColourStripped(params: string, letter: char, rest: string)
    requires LetterCode(letter) && NoLetters(params)
    ensures NoAnsi("\U{1B}[" + params + [letter] + rest) == NoAnsi(rest)
  {
    var tail := "[" + params + [letter] + rest;
    assert "\U{1B}[" + params + [letter] + rest == [ESC] + tail;
    HeadAndTail(ESC, tail);
    LetterEnds("[" + params, letter, rest);
  }

  /** From a text of these parts exactly the characters to show are left. */
  lemma {:induction false} StrippedIsVisible(ps: seq<AnsiPart>, cut: string)
    requires (forall p <- ps :: PartOk(p)) && Unfinished(cut)
    ensures NoAnsi(PartsText(ps) + cut) == VisibleText(ps)
  {
    if ps == [] {
      CutStripped(cut);
      assert PartsText(ps) + cut == cut;
    } else {
      assert ps[0] in ps && forall p <- ps[1..] :: p in ps;
      StrippedIsVisible(ps[1..], cut);
      PartStripped(ps[0], PartsText(ps[1..]) + cut);
      Sequences.Assoc(PartText(ps[0]), PartsText(ps[1..]), cut);
    }
  }

  lemma CutStripped(cut: string)
    requires Unfinished(cut)
    ensures NoAnsi(cut) == ""
  {
    if |cut| >= 2 {
      assert cut[0] == cut[..2][0] && cut[1] == cut[..2][1] && cut[1..][1..] == cut[2..];
      NoLetterNoEnd(cut[2..]);
    }
  }

  /** Every text is made of such parts. */
  lemma {:induction false} MadeOfParts(s: string) returns (ps: seq<AnsiPart>, cut: string)
    ensures (forall p <- ps :: PartOk(p)) && Unfinished(cut) && s == PartsText(ps) + cut
    decreases |s|
  {
    var part, n := FirstPart(s);
    if n == 0 {
      ps, cut := [], s;
    } else {
      var more;
      more, cut := MadeOfParts(s[n..]);
      ps := [part] + more;
      Sequences.SplitAt(s, n);
      Sequences.Assoc(PartText(part), PartsText(more), cut);
      assert ps[1..] == more;
    }
  }

  /** The part that a text starts with, if there is one, and its length. */
  lemma FirstPart(s: string) returns (p: AnsiPart, n: nat)
    ensures n <= |s| && if n == 0 then Unfinished(s) else PartOk(p) && PartText(p) == s[..n]
  {
    p, n := Visible(' '), 0;
    if s == "" || s == [ESC] {
    } else if s[0] != ESC {
      p, n := if Printable(s[0]) then Visible(s[0]) else Control(s[0]), 1;
    } else if s[1] != '[' {
      p, n := Escaped(s[1]), 2;
    } else {
      var k := 2;
      while k < |s| && !LetterCode(s[k])
        invariant 2 <= k <= |s| && forall j :: 2 <= j < k ==> !LetterCode(s[j])
      {
        k := k + 1;
      }
      assert s[..2] == "\U{1B}[";
      if k < |s| {
        p, n := Coloured(s[2..k], s[k]), k + 1;
        assert s[..n] == s[..2] + s[2..k] + [s[k]];
      } else {
        assert s[2..k] == s[2..];
      }
    }
  }

  /** Only the bells are gone. */
  lemma {:induction false} NoBellExact(s: string)
    ensures BELL !in NoBell(s)
    ensures multiset(NoBell(s)) == multiset(s)[BELL := 0]
    ensures BELL !in s ==> NoBell(s) == s
  {
    if s != "" {
      NoBellExact(s[1..]);
      assert s == [s[0]] + s[1..];
    }
  }
}
