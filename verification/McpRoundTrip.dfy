/** Messages written in the syntax of MCP, and the key that is read from them. */
module McpRoundTrip {
  import Text
  import opened Codec
  import opened McpText

  /** A keyword and its value, which may be written in quotes. */
  datatype Arg = Arg(name: string, value: string, quoted: bool)

  function Escape(s: string): string {
    if s == "" then "" else (if s[0] == '"' || s[0] == '\\' then ['\\', s[0]] else [s[0]]) + Escape(s[1..])
  }

  function ValueText(a: Arg): string {
    if a.quoted then "\"" + Escape(a.value) + "\"" else a.value
  }

  function PrintArgs(args: seq<Arg>): string {
    if args == [] then "" else " " + args[0].name + ": " + ValueText(args[0]) + PrintArgs(args[1..])
  }

  /** The "mcp" message with these arguments. */
  function Print(args: seq<Arg>): string {
    "#$#mcp" + PrintArgs(args)
  }

  /** What the message syntax allows. */
  predicate WellFormed(a: Arg) {
    && a.name != "" && ' ' !in a.name && ':' !in a.name
    && (!a.quoted ==> a.value != "" && ' ' !in a.value && a.value[0] != '"')
  }

  predicate IsAuth(name: string) {
    |name| == |AUTH_KEY| && StartsNoCase(name, AUTH_KEY)
  }

  /** The value of the first authentication-key, as the scanner reads it. */
  function FirstAuth(args: seq<Arg>): Option<string> {
    if args == [] then None
    else if IsAuth(args[0].name) then Some(Unquote(Word(ValueText(args[0]))))
    else FirstAuth(args[1..])
  }

  /** Nothing, or something that starts with a space. */
  predicate AtGap(s: string) {
    s != "" ==> s[0] == ' '
  }

  lemma {:induction false} WordUpTo(v: string, rest: string)
    requires AtGap(rest)
    ensures Word(v + rest) == Word(v) && (' ' !in v ==> SkipWord(v + rest) == rest && Word(v) == v)
  {
    if v == "" {
      assert v + rest == rest;
    } else {
      assert (v + rest)[1..] == v[1..] + rest;
      WordUpTo(v[1..], rest);
    }
  }

  lemma {:induction false} SkipKeyUpTo(name: string, rest: string)
    requires ' ' !in name && ':' !in name && rest != "" && rest[0] == ':'
    ensures SkipKey(name + rest) == rest
  {
    if name == "" {
      assert name + rest == rest;
    } else {
      assert (name + rest)[1..] == name[1..] + rest;
      SkipKeyUpTo(name[1..], rest);
    }
  }

  lemma {:induction false} SkipEscaped(s: string, rest: string)
    ensures SkipQuoted(Escape(s) + "\"" + rest) == Some(rest)
  {
    var t := Escape(s) + "\"" + rest;
    if s == "" {
      assert t == "\"" + rest && t[1..] == rest;
    } else {
      SkipEscaped(s[1..], rest);
      var u := Escape(s[1..]) + "\"" + rest;
      if s[0] == '"' || s[0] == '\\' {
        assert t == ['\\', s[0]] + u && t[2..] == u;
      } else {
        assert t == [s[0]] + u && t[1..] == u;
      }
    }
  }

  lemma SkipPrinted(a: Arg, rest: string)
    requires WellFormed(a) && AtGap(rest)
    ensures SkipValue(ValueText(a) + rest) == Some(rest)
  {
    if a.quoted {
      SkipEscaped(a.value, rest);
      var t := ValueText(a) + rest;
      assert t[1..] == Escape(a.value) + "\"" + rest;
    } else {
      WordUpTo(a.value, rest);
    }
  }

  /** The scanner recognises the keyword and no other. */
  lemma NameIsAuth(name: string, rest: string)
    requires ':' !in name
    ensures StartsNoCase(name + (": " + rest), AUTH_KEY + ": ") <==> IsAuth(name)
  {
    var prefix, t := AUTH_KEY + ": ", name + (": " + rest);
    assert |AUTH_KEY| == 18 && prefix[18] == ':' && prefix[19] == ' ';
    assert forall k :: 0 <= k < 18 ==> prefix[k] == AUTH_KEY[k];
    assert ':' !in AUTH_KEY;
    assert t[|name|] == ':' && t[|name| + 1] == ' ';
    if StartsNoCase(t, prefix) {
      assert Text.Lower(t[18]) == Text.Lower(prefix[18]) && t[18] == ':';
      assert |name| == 18;
    }
  }

  /** A space goes, and no more, if there is something else behind it. */
  lemma SkipOne(s: string)
    requires s != "" && s[0] != ' '
    ensures SkipSpaces(" " + s) == s
  {
    HeadOf(" ", s);
  }

  lemma HeadOf(a: string, b: string)
    requires |a| == 1
    ensures (a + b)[0] == a[0] && (a + b)[1..] == b
  {
  }

  /** The parts of a printed argument. */
  lemma PrintedParts(name: string, value: string, rest: string)
    ensures " " + name + ": " + value + rest == " " + (name + (": " + (value + rest)))
    ensures ": " + (value + rest) == ":" + (" " + (value + rest))
  {
  }

  lemma WithGap(name: string, value: string)
    requires name != "" && ' ' !in name
    ensures name + value != "" && (name + value)[0] == name[0] != ' '
  {
  }

  lemma ValueStarts(a: Arg, rest: string)
    requires WellFormed(a)
    ensures ValueText(a) + rest != "" && (ValueText(a) + rest)[0] != ' '
  {
    var t := ValueText(a);
    assert t != "" && t[0] != ' ';
    assert (t + rest)[0] == t[0];
  }

  lemma PrintedStep(a: Arg, rest: string)
    requires WellFormed(a) && AtGap(rest)
    ensures FindKey(" " + a.name + ": " + ValueText(a) + rest)
         == if IsAuth(a.name) then Some(Unquote(Word(ValueText(a)))) else FindKey(rest)
  {
    var value := ValueText(a) + rest;
    PrintedParts(a.name, ValueText(a), rest);
    WithGap(a.name, ": " + value);
    SkipOne(a.name + (": " + value));
    SkipKeyUpTo(a.name, ": " + value);
    HeadOf(":", " " + value);
    ValueStarts(a, rest);
    SkipOne(value);
    NameIsAuth(a.name, value);
    SkipPrinted(a, rest);
    WordUpTo(ValueText(a), rest);
  }

  lemma {:induction false} FindPrinted(args: seq<Arg>)
    requires forall a <- args :: WellFormed(a)
    ensures FindKey(PrintArgs(args)) == FirstAuth(args)
  {
    if args != [] {
      assert AtGap(PrintArgs(args[1..]));
      PrintedStep(args[0], PrintArgs(args[1..]));
      FindPrinted(args[1..]);
    }
  }

  /** From any well-formed "mcp" message, with its arguments in any order and any of them in
      quotes, the scanner reads the value of the first authentication-key. */
  lemma KeyOfMessage(args: seq<Arg>)
    requires forall a <- args :: WellFormed(a)
    ensures ExtractKey(Print(args)) == FirstAuth(args)
  {
    var t := Print(args);
    FindPrinted(args);
    if args != [] {
      assert t[..7] == MCP_INIT && t[6..] == PrintArgs(args);
    }
  }

  // ---------------------------------------------------------------------
  // When the value that is read is the value that was written
  // ---------------------------------------------------------------------

  /** The scanner ends the value at a space even inside quotes, does not undo escapes, and
      takes single quotes for quotes. */
  predicate ReadsBack(a: Arg) {
    if a.quoted then ' ' !in a.value && '"' !in a.value && '\\' !in a.value
    else !(|a.value| >= 2 && a.value[0] == '\'' && a.value[|a.value| - 1] == '\'')
  }

  lemma {:induction false} EscapePlain(s: string)
    ensures |Escape(s)| >= |s|
    ensures Escape(s) == s <==> '"' !in s && '\\' !in s
    ensures ' ' in Escape(s) <==> ' ' in s
  {
    if s != "" {
      EscapePlain(s[1..]);
      assert s == [s[0]] + s[1..];
    }
  }

  lemma {:induction false} WordNoSpace(s: string)
    ensures ' ' !in Word(s)
  {
    if s != "" && s[0] != ' ' {
      WordNoSpace(s[1..]);
    }
  }

  /** Exactly these values are read back as they were. */
  lemma ValueRoundTrip(a: Arg)
    requires WellFormed(a)
    ensures Unquote(Word(ValueText(a))) == a.value <==> ReadsBack(a)
  {
    var t := ValueText(a);
    WordUpTo(t, "");
    assert t + "" == t;
    if a.quoted {
      EscapePlain(a.value);
      assert t[1..|t| - 1] == Escape(a.value);
      assert t == ['"'] + Escape(a.value) + ['"'];
      WordNoSpace(t);
      if ' ' in a.value {
        var w := Word(t);
        assert ' ' !in Unquote(w);
      }
    }
  }

  /** The key that is read from a message is the one that was written, exactly if it is one
      that is read back. */
  lemma KeyRoundTrip(before: seq<Arg>, a: Arg, after: seq<Arg>)
    requires forall b <- before + [a] + after :: WellFormed(b)
    requires (forall b <- before :: !IsAuth(b.name)) && IsAuth(a.name)
    ensures ExtractKey(Print(before + [a] + after)) == Some(a.value) <==> ReadsBack(a)
  {
    KeyOfMessage(before + [a] + after);
    FirstAuthIs(before, a, after);
    assert (before + [a] + after)[|before|] == a;
    ValueRoundTrip(a);
  }

  lemma {:induction false} FirstAuthIs(before: seq<Arg>, a: Arg, after: seq<Arg>)
    requires (forall b <- before :: !IsAuth(b.name)) && IsAuth(a.name)
    ensures FirstAuth(before + [a] + after) == Some(Unquote(Word(ValueText(a))))
  {
    var all := before + [a] + after;
    if before == [] {
      assert all[0] == a;
    } else {
      assert all[0] == before[0] && all[1..] == before[1..] + [a] + after;
      FirstAuthIs(before[1..], a, after);
    }
  }

  lemma CutValue(name: string)
    ensures Unquote(Word(ValueText(Arg(name, "a b", true)))) == "\"a"
  {
    var a := Arg(name, "a b", true);
    EscapePlain(a.value);
    var t, head := ValueText(a), "\"a";
    assert t == head + " b\"";
    WordUpTo(head, " b\"");
    assert Word(t) == head;
  }

  /** A key in quotes with a space in it is cut. */
  lemma SpaceIsLost(name: string)
    requires name != "" && ' ' !in name && ':' !in name && IsAuth(name)
    ensures WellFormed(Arg(name, "a b", true))
    ensures ExtractKey(Print([Arg(name, "a b", true)])) == Some("\"a")
  {
    var args := [Arg(name, "a b", true)];
    KeyOfMessage(args);
    CutValue(name);
    assert FirstAuth(args) == Some(Unquote(Word(ValueText(args[0]))));
  }
}
