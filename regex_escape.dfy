/**
  The `escapeRegex` helper of the item, log and user searches: every
  ECMAScript regular-expression SyntaxCharacter (ECMA-262, section 22.2.1)
  gets one backslash in front of it, every other character is copied.
  The escaped string, used as a `$regex` pattern, can therefore only match
  the user's text literally.
*/
module RegexEscape {

  /** The character class `[.*+?^${}()|[\]\\]`: the 14 SyntaxCharacters. */
  predicate IsMeta(c: char) {
    c == '^' || c == '$' || c == '\\' || c == '.' || c == '*' || c == '+' || c == '?' ||
    c == '(' || c == ')' || c == '[' || c == ']' || c == '{' || c == '}' || c == '|'
  }

  /** Number of metacharacters in `s`. */
  function CountMeta(s: string): (n: nat)
    ensures n <= |s|
  {
    if s == [] then 0 else (if IsMeta(s[0]) then 1 else 0) + CountMeta(s[1..])
  }

  /** `value.replace(/[.*+?^${}()|[\]\\]/g, '\\$&')`. */
  function Escape(s: string): (r: string)
    ensures |r| == |s| + CountMeta(s)
  {
    if s == [] then []
    else (if IsMeta(s[0]) then ['\\', s[0]] else [s[0]]) + Escape(s[1..])
  }

  /** Deletes the backslash in front of each escaped character. */
  function Unescape(t: string): (s: string)
    decreases |t|
  {
    if t == [] then []
    else if t[0] == '\\' && |t| >= 2 then [t[1]] + Unescape(t[2..])
    else [t[0]] + Unescape(t[1..])
  }

  /**
    A pattern that denotes a literal string: every metacharacter in it is
    preceded by one backslash, and every backslash escapes a metacharacter.
  */
  predicate IsLiteral(t: string)
    decreases |t|
  {
    t == [] ||
    if t[0] == '\\' then |t| >= 2 && IsMeta(t[1]) && IsLiteral(t[2..])
    else !IsMeta(t[0]) && IsLiteral(t[1..])
  }

  /** Deleting the inserted backslashes gives back the input. */
  lemma {:induction false} UnescapeEscape(s: string)
    ensures Unescape(Escape(s)) == s
  {
    if s != [] {
      var rest := Escape(s[1..]);
      UnescapeEscape(s[1..]);
      if IsMeta(s[0]) {
        assert Escape(s) == ['\\', s[0]] + rest;
        assert (['\\', s[0]] + rest)[2..] == rest;
      } else {
        assert Escape(s) == [s[0]] + rest;
        assert ([s[0]] + rest)[1..] == rest;
      }
    }
  }

  /** Escaping always yields a literal pattern: no metacharacter is left bare. */
  lemma {:induction false} EscapeIsLiteral(s: string)
    ensures IsLiteral(Escape(s))
  {
    if s != [] {
      var rest := Escape(s[1..]);
      EscapeIsLiteral(s[1..]);
      if IsMeta(s[0]) {
        assert Escape(s) == ['\\', s[0]] + rest;
        assert (['\\', s[0]] + rest)[2..] == rest;
      } else {
        assert Escape(s) == [s[0]] + rest;
        assert ([s[0]] + rest)[1..] == rest;
      }
    }
  }

  /** Every literal pattern is the escape of exactly one string. */
  lemma {:induction false} EscapeUnescape(t: string)
    requires IsLiteral(t)
    ensures Escape(Unescape(t)) == t
    decreases |t|
  {
    if t != [] {
      if t[0] == '\\' {
        EscapeUnescape(t[2..]);
        assert Unescape(t) == [t[1]] + Unescape(t[2..]);
        assert ([t[1]] + Unescape(t[2..]))[1..] == Unescape(t[2..]);
        assert t == [t[0], t[1]] + t[2..];
      } else {
        EscapeUnescape(t[1..]);
        assert Unescape(t) == [t[0]] + Unescape(t[1..]);
        assert ([t[0]] + Unescape(t[1..]))[1..] == Unescape(t[1..]);
        assert t == [t[0]] + t[1..];
      }
    }
  }

  /** Escaping is injective: different search texts give different patterns. */
  lemma EscapeInjective(a: string, b: string)
    requires Escape(a) == Escape(b)
    ensures a == b
  {
    UnescapeEscape(a);
    UnescapeEscape(b);
  }

  /** The 14 escaped characters are exactly the ECMAScript SyntaxCharacters. */
  lemma EscapeSingleChar(c: char)
    ensures Escape([c]) == if IsMeta(c) then ['\\', c] else [c]
  {
    assert [c][1..] == [];
  }

  /** Escaping works character by character, so it distributes over concatenation. */
  lemma {:induction false} EscapeAppend(a: string, b: string)
    ensures Escape(a + b) == Escape(a) + Escape(b)
  {
    if a == [] {
      assert a + b == b;
    } else {
      assert (a + b)[0] == a[0] && (a + b)[1..] == a[1..] + b;
      EscapeAppend(a[1..], b);
    }
  }
}
