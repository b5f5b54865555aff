/**
 SQL LIKE with escape character backslash, and the escaping that turns a prefix
 into a pattern.
 */
module LikePattern {

  /**
   LIKE as defined in section 9.7.1 of the PostgreSQL documentation: `_` matches
   one character, `%` any sequence, and the escape character makes the next
   pattern character literal. A pattern that ends in a lone escape matches nothing.
   */
  predicate Like(text: string, pattern: string)
    decreases |text| + |pattern|
  {
    if pattern == "" then text == ""
    else if pattern[0] == '%' then
      Like(text, pattern[1..]) || (text != "" && Like(text[1..], pattern))
    else if pattern[0] == '_' then text != "" && Like(text[1..], pattern[1..])
    else if pattern[0] == '\\' then
      |pattern| > 1 && text != "" && text[0] == pattern[1] && Like(text[1..], pattern[2..])
    else text != "" && text[0] == pattern[0] && Like(text[1..], pattern[1..])
  }

  /** The four kinds of pattern characters. */
  lemma LikeFollowsTheManual(text: string, pattern: string, c: char)
    ensures Like(text, "") <==> text == ""
    ensures Like(text, "_" + pattern) <==> text != "" && Like(text[1..], pattern)
    ensures Like(text, ['\\', c] + pattern) <==> text != "" && text[0] == c && Like(text[1..], pattern)
    ensures c != '%' && c != '_' && c != '\\' ==>
              (Like(text, [c] + pattern) <==> text != "" && text[0] == c && Like(text[1..], pattern))
    ensures !Like(text, "\\")
  {
    assert ("_" + pattern)[1..] == pattern && (['\\', c] + pattern)[2..] == pattern && ([c] + pattern)[1..] == pattern;
  }

  /** The percent sign stands for any part of the text. */
  lemma {:induction false} PercentFollowsTheManual(text: string, pattern: string)
    ensures Like(text, "%" + pattern) <==> exists i | 0 <= i <= |text| :: Like(text[i..], pattern)
  {
    var p := "%" + pattern;
    assert p[1..] == pattern && text[0..] == text;
    if text != "" {
      PercentFollowsTheManual(text[1..], pattern);
      if i :| 0 <= i <= |text[1..]| && Like(text[1..][i..], pattern) {
        assert text[1..][i..] == text[i + 1..];
      }
      if i :| 0 < i <= |text| && Like(text[i..], pattern) {
        assert text[1..][i - 1..] == text[i..];
      }
    }
  }

  function EscapeChar(c: char): string {
    if c == '\\' || c == '%' || c == '_' then ['\\', c] else [c]
  }

  /** What the replacer writes for each character. */
  lemma EscapedCharacters(c: char)
    ensures EscapeChar('\\') == "\\\\" && EscapeChar('%') == "\\%" && EscapeChar('_') == "\\_"
    ensures c != '\\' && c != '%' && c != '_' ==> EscapeChar(c) == [c]
  {}

  /** The single-pass replacer applied to the prefix. */
  function Escape(prefix: string): string {
    if prefix == "" then "" else EscapeChar(prefix[0]) + Escape(prefix[1..])
  }

  lemma {:induction false} PercentMatchesAll(text: string)
    ensures Like(text, "%")
  {
    if text != "" {
      PercentMatchesAll(text[1..]);
    } else {
      assert Like("", "%"[1..]);
    }
  }

  /** An escaped character matches itself only. */
  lemma EscapedCharIsLiteral(c: char, name: string, rest: string)
    ensures Like(name, EscapeChar(c) + rest) <==> name != "" && name[0] == c && Like(name[1..], rest)
  {
    assert (EscapeChar(c) + rest)[|EscapeChar(c)|..] == rest;
  }

  /**
   Escaping is exact: the generated pattern selects the names that start with
   the prefix and no others, wildcards and backslashes included.
   */
  lemma {:induction false} EscapeIsExact(prefix: string, name: string)
    ensures Like(name, Escape(prefix) + "%") <==> prefix <= name
  {
    if prefix == "" {
      assert Escape(prefix) + "%" == "%";
      PercentMatchesAll(name);
    } else {
      var rest := Escape(prefix[1..]) + "%";
      assert Escape(prefix) + "%" == EscapeChar(prefix[0]) + rest;
      EscapedCharIsLiteral(prefix[0], name, rest);
      if name != "" {
        EscapeIsExact(prefix[1..], name[1..]);
        assert prefix <= name <==> prefix[0] == name[0] && prefix[1..] <= name[1..];
      }
    }
  }
}
