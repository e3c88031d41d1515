/** The text of MCP messages (mcp.c: extract_mcpkey, skip_mcp_value, mcp_is_init,
    mcp_is_negotiate_can; misc.c: remove_enclosing_quotes). */
module McpText {
  import opened Sequences
  import opened Text
  import opened Codec

  const MCP_INIT := "#$#mcp "
  const MCP_CAN := "#$#mcp-negotiate-can "
  const AUTH_KEY := "authentication-key"

  // ---------------------------------------------------------------------
  // The scanner, on what C sees of a line
  // ---------------------------------------------------------------------

  /** strncasecmp over the length of the prefix. */
  predicate StartsNoCase(s: string, prefix: string) {
    |s| >= |prefix| && forall k :: 0 <= k < |prefix| ==> Lower(s[k]) == Lower(prefix[k])
  }

  /** It is the prefix up to case. */
  lemma StartsUpToCase(s: string, prefix: string)
    ensures StartsNoCase(s, prefix) <==> |s| >= |prefix| && UpToCase(s[..|prefix|], prefix)
  {
    if |s| >= |prefix| {
      forall k | 0 <= k < |prefix| ensures Lower(s[k]) == Lower(prefix[k]) <==> SameLetter(s[k], prefix[k]) {
        LowerSame(s[k], prefix[k]);
      }
      assert UpToCase(s[..|prefix|], prefix) ==> forall k :: 0 <= k < |prefix| ==> SameLetter(s[..|prefix|][k], prefix[k]);
    }
  }

  function SkipSpaces(s: string): (r: string)
    ensures |r| <= |s|
  {
    if s != "" && s[0] == ' ' then SkipSpaces(s[1..]) else s
  }

  /** Up to the first space. */
  function Word(s: string): string {
    if s == "" || s[0] == ' ' then "" else [s[0]] + Word(s[1..])
  }

  function SkipWord(s: string): (r: string)
    ensures |r| <= |s|
  {
    if s == "" || s[0] == ' ' then s else SkipWord(s[1..])
  }

  /** Up to the colon that ends a key, or to a space. */
  function SkipKey(s: string): (r: string)
    ensures |r| <= |s|
  {
    if s == "" || s[0] == ':' || s[0] == ' ' then s else SkipKey(s[1..])
  }

  /** Past the quote that ends a quoted value. */
  function SkipQuoted(s: string): (r: Option<string>)
    ensures r.Some? ==> |r.value| < |s|
  {
    if s == "" then None
    else if s[0] == '"' then Some(s[1..])
    else if s[0] == '\\' && |s| > 1 then SkipQuoted(s[2..])
    else SkipQuoted(s[1..])
  }

  /** skip_mcp_value. */
  function SkipValue(s: string): (r: Option<string>)
    ensures r.Some? ==> |r.value| <= |s|
  {
    if s != "" && s[0] == '"' then SkipQuoted(s[1..]) else Some(SkipWord(s))
  }

  /** remove_enclosing_quotes. */
  function Unquote(s: string): string {
    if |s| >= 2 && (s[0] == '"' || s[0] == '\'') && s[|s| - 1] == s[0] then s[1..|s| - 1] else s
  }

  /** The loop of extract_mcpkey. */
  function FindKey(s: string): Option<string>
    decreases |s|
  {
    var key := SkipSpaces(s);
    var after := SkipKey(key);
    if key == "" || after == "" || after[0] != ':' then None
    else
      var value := SkipSpaces(after[1..]);
      if StartsNoCase(key, AUTH_KEY + ": ") then Some(Unquote(Word(value)))
      else
        var next := SkipValue(value);
        if next.None? then None else FindKey(next.value)
  }

  /** extract_mcpkey. */
  function ExtractKey(s: string): Option<string> {
    if StartsNoCase(s, MCP_INIT) then FindKey(s[6..]) else None
  }

  // ---------------------------------------------------------------------
  // The cursor loops
  // ---------------------------------------------------------------------

  method SkipSpacesAt(str: string, from: nat) returns (i: nat)
    requires from <= |str|
    ensures from <= i <= |str| && CString(str[i..]) == SkipSpaces(CString(str[from..]))
  {
    i := from;
    while At(str, i) == ' '
      invariant from <= i <= |str| && SkipSpaces(CString(str[i..])) == SkipSpaces(CString(str[from..]))
      decreases |str| - i
    {
      CStringStep(str, i);
      i := i + 1;
    }
    CStringStep(str, i);
  }

  method SkipKeyAt(str: string, from: nat) returns (i: nat)
    requires from <= |str|
    ensures from <= i <= |str| && CString(str[i..]) == SkipKey(CString(str[from..]))
  {
    i := from;
    while At(str, i) != ':' && At(str, i) != ' ' && At(str, i) != '\0'
      invariant from <= i <= |str| && SkipKey(CString(str[i..])) == SkipKey(CString(str[from..]))
      decreases |str| - i
    {
      CStringStep(str, i);
      i := i + 1;
    }
    CStringStep(str, i);
  }

  method SkipWordAt(str: string, from: nat) returns (i: nat)
    requires from <= |str|
    ensures from <= i <= |str| && CString(str[i..]) == SkipWord(CString(str[from..]))
    ensures str[from..i] == Word(CString(str[from..]))
  {
    i := from;
    while At(str, i) != ' ' && At(str, i) != '\0'
      invariant from <= i <= |str| && SkipWord(CString(str[i..])) == SkipWord(CString(str[from..]))
      invariant str[from..i] + Word(CString(str[i..])) == Word(CString(str[from..]))
      decreases |str| - i
    {
      CStringStep(str, i);
      assert str[from..i + 1] == str[from..i] + [str[i]];
      Assoc(str[from..i], [str[i]], Word(CString(str[i + 1..])));
      i := i + 1;
    }
    CStringStep(str, i);
  }

  /** The part of skip_mcp_value that runs inside the quotes. */
  method SkipQuotedAt(str: string, from: nat) returns (ok: bool, i: nat)
    requires from <= |str|
    ensures from <= i <= |str|
    ensures SkipQuoted(CString(str[from..])) == if ok then Some(CString(str[i..])) else None
  {
    i := from;
    while At(str, i) != '"' && At(str, i) != '\0'
      invariant from <= i <= |str| && SkipQuoted(CString(str[i..])) == SkipQuoted(CString(str[from..]))
      decreases |str| - i
    {
      EscapeStep(str, i);
      if At(str, i) == '\\' && At(str, i + 1) != '\0' {
        i := i + 1;
      }
      i := i + 1;
    }
    CStringStep(str, i);
    ok := At(str, i) == '"';
    if ok {
      i := i + 1;
    }
  }

  lemma EscapeStep(str: string, i: nat)
    requires i < |str| && str[i] != '\0' && str[i] != '"'
    ensures var s := CString(str[i..]);
            SkipQuoted(s) == if str[i] == '\\' && At(str, i + 1) != '\0' then SkipQuoted(CString(str[i + 2..]))
                             else SkipQuoted(CString(str[i + 1..]))
  {
    var s := CString(str[i..]);
    CStringStep(str, i);
    CStringStep(str, i + 1);
    assert s[1..] == CString(str[i + 1..]);
    if At(str, i + 1) != '\0' {
      assert s[2..] == CString(str[i + 1..])[1..];
    }
  }

  method SkipMcpValue(str: string, from: nat) returns (ok: bool, i: nat)
    requires from <= |str|
    ensures from <= i <= |str|
    ensures SkipValue(CString(str[from..])) == if ok then Some(CString(str[i..])) else None
  {
    CStringStep(str, from);
    if At(str, from) != '"' {
      i := SkipWordAt(str, from);
      ok := true;
    } else {
      ok, i := SkipQuotedAt(str, from + 1);
    }
  }

  /** remove_enclosing_quotes, in place. */
  method RemoveEnclosingQuotes(str: array<char>, len: nat)
    requires len < str.Length && str[len] == '\0' && IsCString(str[..len])
    modifies str
    ensures CString(str[..]) == Unquote(old(str[..len]))
  {
    ghost var s := str[..len];
    if len < 2 || (str[0] != '"' && str[0] != '\'') || (str[len - 1] != '"' && str[len - 1] != '\'')
       || str[0] != str[len - 1] {
      CStringAll(str[..], len);
      return;
    }
    var i := 0;
    // The leading quote goes first.
    while i < len - 2
      invariant i <= len - 2
      invariant str[..i] == s[1..i + 1] && str[i..len] == s[i..]
    {
      assert str[i + 1] == str[i..len][1];
      str[i] := str[i + 1];
      assert str[i + 1..len] == s[i + 1..];
      i := i + 1;
    }
    str[len - 2] := '\0';
    assert str[..len - 2] == s[1..len - 1];
    CStringAll(str[..], len - 2);
  }

  lemma {:induction false} CStringAll(s: string, n: nat)
    requires n < |s| && s[n] == '\0' && IsCString(s[..n])
    ensures CString(s) == s[..n]
  {
    if n > 0 {
      assert s[..n] == [s[0]] + s[1..][..n - 1];
      CStringAll(s[1..], n - 1);
    }
  }

  lemma {:induction false} WordIsCString(s: string)
    ensures IsCString(Word(CString(s)))
  {
    if s != "" && s[0] != '\0' {
      WordIsCString(s[1..]);
    }
  }

  /** A copy of the value of the key, without quotes. */
  method CopyKey(str: string, from: nat) returns (mcpkey: string)
    requires from <= |str|
    ensures mcpkey == Unquote(Word(CString(str[from..])))
  {
    var end := SkipWordAt(str, from);
    WordIsCString(str[from..]);
    var n := end - from;
    var copy := new char[n + 1](i requires 0 <= i <= n => if i < n then str[from + i] else '\0');
    assert copy[..n] == str[from..end];
    RemoveEnclosingQuotes(copy, n);
    mcpkey := CString(copy[..]);
  }

  method ExtractMcpkey(str: string) returns (key: Option<string>)
    ensures key == ExtractKey(CString(str))
  {
    if !StartsNoCase(CString(str), MCP_INIT) {
      return None;
    }
    CStringDrop(str, 6);
    var i := 6;
    while true
      invariant i <= |str| && FindKey(CString(str[i..])) == ExtractKey(CString(str))
      decreases |CString(str[i..])|
    {
      i := SkipSpacesAt(str, i);
      CStringStep(str, i);
      if At(str, i) == '\0' {
        return None;
      }
      var foundkey := StartsNoCase(CString(str[i..]), AUTH_KEY + ": ");
      i := SkipKeyAt(str, i);
      CStringStep(str, i);
      if At(str, i) != ':' {
        return None;
      }
      i := SkipSpacesAt(str, i + 1);
      if foundkey {
        var mcpkey := CopyKey(str, i);
        return Some(mcpkey);
      }
      var ok;
      ok, i := SkipMcpValue(str, i);
      if !ok {
        return None;
      }
    }
  }

  lemma {:induction false} CStringDrop(s: string, n: nat)
    requires n <= |CString(s)|
    ensures n <= |s| && CString(s[n..]) == CString(s)[n..]
  {
    if n > 0 {
      CStringDrop(s[1..], n - 1);
      assert s[1..][n - 1..] == s[n..];
      assert CString(s) == [s[0]] + CString(s[1..]);
    }
  }
}
