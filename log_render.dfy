/**
  The per-record rendering in `viewLogs`: flatten a non-string reference,
  format the timestamp as MM/DD/YYYY and build
  `"<name> <action> <reference> on <date>"`.
*/
module LogRender {
  import opened Wrappers
  import opened Records

  // ---------------------------------------------------------------- text

  /** Number of occurrences of `c` in `s`. */
  function Count(s: string, c: char): nat {
    if s == [] then 0 else (if s[0] == c then 1 else 0) + Count(s[1..], c)
  }

  lemma {:induction false} CountAppend(a: string, b: string, c: char)
    ensures Count(a + b, c) == Count(a, c) + Count(b, c)
  {
    if a != [] {
      assert (a + b)[1..] == a[1..] + b;
      CountAppend(a[1..], b, c);
    } else {
      assert a + b == b;
    }
  }

  /** The characters `String.prototype.trim` removes: WhiteSpace and LineTerminator. */
  predicate IsJsSpace(c: char) {
    c == ' ' || c == '\t' || c == '\n' || c == '\r' || c == '\U{000B}' || c == '\U{000C}' ||
    c == '\U{00A0}' || c == '\U{1680}' || ('\U{2000}' <= c <= '\U{200A}') ||
    c == '\U{2028}' || c == '\U{2029}' || c == '\U{202F}' || c == '\U{205F}' ||
    c == '\U{3000}' || c == '\U{FEFF}'
  }

  /**
    Number of backslash-quote pairs in `s`. The two characters differ, so
    such pairs never overlap and each is one match of `/\\"/g`.
  */
  function EscapedQuotes(s: string): nat {
    if |s| < 2 then 0 else (if s[0] == '\\' && s[1] == '"' then 1 else 0) + EscapedQuotes(s[1..])
  }

  /** `.replace(/\\\"/g, '')`: drop every backslash-quote pair, scanning left to right. */
  function StripEscapedQuotes(s: string): string
    decreases |s|
  {
    if s == [] then []
    else if |s| >= 2 && s[0] == '\\' && s[1] == '"' then StripEscapedQuotes(s[2..])
    else [s[0]] + StripEscapedQuotes(s[1..])
  }

  /** Stripping shortens the text by two characters per backslash-quote pair. */
  lemma {:induction false} StripLength(s: string)
    ensures |StripEscapedQuotes(s)| + 2 * EscapedQuotes(s) == |s|
    decreases |s|
  {
    if s != [] {
      if |s| >= 2 && s[0] == '\\' && s[1] == '"' {
        StripLength(s[2..]);
        assert EscapedQuotes(s[1..]) == EscapedQuotes(s[2..]);
      } else {
        StripLength(s[1..]);
      }
    }
  }

  /** A pair is removed, any other single character stays. */
  lemma StripUnits(c: char)
    ensures StripEscapedQuotes(['\\', '"']) == []
    ensures StripEscapedQuotes([c]) == [c]
  {
    assert ['\\', '"'][2..] == [];
    assert [c][1..] == [];
  }

  /**
    Stripping works piece by piece, as long as the cut does not separate a
    backslash from a quote right after it: the kept characters keep their order.
  */
  lemma {:induction false} StripAppend(a: string, b: string)
    requires !(a != [] && a[|a| - 1] == '\\' && b != [] && b[0] == '"')
    ensures StripEscapedQuotes(a + b) == StripEscapedQuotes(a) + StripEscapedQuotes(b)
    decreases |a|
  {
    if a == [] {
      assert a + b == b;
    } else if |a| >= 2 && a[0] == '\\' && a[1] == '"' {
      var rest := a[2..];
      assert rest == [] || rest[|rest| - 1] == a[|a| - 1];
      StripPairFirst(a, b);
      StripAppend(rest, b);
    } else {
      var rest := a[1..];
      assert rest == [] || rest[|rest| - 1] == a[|a| - 1];
      StripOtherFirst(a, b);
      StripAppend(rest, b);
      var x, y := StripEscapedQuotes(rest), StripEscapedQuotes(b);
      assert [a[0]] + (x + y) == ([a[0]] + x) + y;
    }
  }

  lemma StripPairFirst(a: string, b: string)
    requires |a| >= 2 && a[0] == '\\' && a[1] == '"'
    ensures StripEscapedQuotes(a + b) == StripEscapedQuotes(a[2..] + b)
    ensures StripEscapedQuotes(a) == StripEscapedQuotes(a[2..])
  {
    var ab := a + b;
    assert ab[0] == '\\' && ab[1] == '"';
    assert ab[2..] == a[2..] + b;
  }

  lemma StripOtherFirst(a: string, b: string)
    requires a != [] && !(a[|a| - 1] == '\\' && b != [] && b[0] == '"')
    requires !(|a| >= 2 && a[0] == '\\' && a[1] == '"')
    ensures StripEscapedQuotes(a + b) == [a[0]] + StripEscapedQuotes(a[1..] + b)
    ensures StripEscapedQuotes(a) == [a[0]] + StripEscapedQuotes(a[1..])
  {
    var ab := a + b;
    assert ab[1..] == a[1..] + b;
    if |a| >= 2 {
      assert ab[1] == a[1];
    }
  }

  /** Each stripped pair takes exactly one backslash with it. */
  lemma {:induction false} StripCountsBackslashes(s: string)
    ensures Count(StripEscapedQuotes(s), '\\') + EscapedQuotes(s) == Count(s, '\\')
    decreases |s|
  {
    if s != [] {
      if |s| >= 2 && s[0] == '\\' && s[1] == '"' {
        StripCountsBackslashes(s[2..]);
        assert EscapedQuotes(s[1..]) == EscapedQuotes(s[2..]);
        assert s == [s[0], s[1]] + s[2..];
        CountAppend([s[0], s[1]], s[2..], '\\');
      } else {
        StripCountsBackslashes(s[1..]);
        CountAppend([s[0]], StripEscapedQuotes(s[1..]), '\\');
      }
    }
  }

  /** No character of `s` is in `cs`. */
  predicate Avoids(s: string, cs: set<char>) {
    forall i :: 0 <= i < |s| ==> s[i] !in cs
  }

  /** `.replace(/[...]/g, '')`: drop every character of `drop`. */
  function RemoveChars(s: string, drop: set<char>): (r: string)
    ensures |r| <= |s|
    ensures Avoids(r, drop)
  {
    if s == [] then []
    else (if s[0] in drop then [] else [s[0]]) + RemoveChars(s[1..], drop)
  }

  /** Removing works piece by piece: the kept characters keep their order. */
  lemma {:induction false} RemoveAppend(a: string, b: string, drop: set<char>)
    ensures RemoveChars(a + b, drop) == RemoveChars(a, drop) + RemoveChars(b, drop)
  {
    if a == [] {
      assert a + b == b;
    } else {
      assert (a + b)[1..] == a[1..] + b;
      RemoveAppend(a[1..], b, drop);
    }
  }

  lemma {:induction false} RemoveKeepsAvoids(s: string, drop: set<char>, cs: set<char>)
    requires Avoids(s, cs)
    ensures Avoids(RemoveChars(s, drop), cs)
  {
    if s != [] {
      RemoveKeepsAvoids(s[1..], drop, cs);
    }
  }

  /** Drops the leading whitespace; the result is a suffix of `s`. */
  function TrimStart(s: string): (r: string)
    ensures |r| <= |s| && r == s[|s| - |r|..]
    ensures r != [] ==> !IsJsSpace(r[0])
  {
    if s != [] && IsJsSpace(s[0]) then TrimStart(s[1..]) else s
  }

  /** Drops the trailing whitespace; the result is a prefix of `s`. */
  function TrimEnd(s: string): (r: string)
    ensures |r| <= |s| && r == s[..|r|]
    ensures r != [] ==> !IsJsSpace(r[|r| - 1])
  {
    if s != [] && IsJsSpace(s[|s| - 1]) then TrimEnd(s[..|s| - 1]) else s
  }

  /** `.trim()`. */
  function Trim(s: string): (r: string)
    ensures |r| <= |s|
    ensures r != [] ==> !IsJsSpace(r[0]) && !IsJsSpace(r[|r| - 1])
  {
    TrimEnd(TrimStart(s))
  }

  lemma TrimKeepsAvoids(s: string, cs: set<char>)
    requires Avoids(s, cs)
    ensures Avoids(Trim(s), cs)
  {
    var ts := TrimStart(s);
    assert forall i :: 0 <= i < |ts| ==> ts[i] == s[i + |s| - |ts|];
    assert Avoids(ts, cs);
    var r := TrimEnd(ts);
    assert forall i :: 0 <= i < |r| ==> r[i] == ts[i];
  }

  /** Without braces or quotes and without leading or trailing whitespace. */
  predicate Clean(s: string) {
    Avoids(s, {'{', '}', '"'}) && (s != [] ==> !IsJsSpace(s[0]) && !IsJsSpace(s[|s| - 1]))
  }

  /**
    The flattening of a non-string reference from its `JSON.stringify` text:
    escaped quotes, then braces, then quotes are removed, then the ends are
    trimmed. Square brackets stay.
  */
  function Flatten(serialized: string): (r: string)
    ensures Clean(r)
  {
    var t1 := RemoveChars(StripEscapedQuotes(serialized), {'{', '}'});
    var t := RemoveChars(t1, {'"'});
    RemoveKeepsAvoids(t1, {'"'}, {'{', '}'});
    assert Avoids(t, {'{', '}', '"'});
    TrimKeepsAvoids(t, {'{', '}', '"'});
    Trim(t)
  }

  lemma {:induction false} StripKeepsCount(s: string, c: char)
    requires c != '\\' && c != '"'
    ensures Count(StripEscapedQuotes(s), c) == Count(s, c)
    decreases |s|
  {
    if s != [] {
      if |s| >= 2 && s[0] == '\\' && s[1] == '"' {
        StripKeepsCount(s[2..], c);
        assert s == [s[0], s[1]] + s[2..];
        CountAppend([s[0], s[1]], s[2..], c);
      } else {
        StripKeepsCount(s[1..], c);
        CountAppend([s[0]], StripEscapedQuotes(s[1..]), c);
      }
    }
  }

  lemma {:induction false} RemoveKeepsCount(s: string, drop: set<char>, c: char)
    requires c !in drop
    ensures Count(RemoveChars(s, drop), c) == Count(s, c)
  {
    if s != [] {
      RemoveKeepsCount(s[1..], drop, c);
      CountAppend(if s[0] in drop then [] else [s[0]], RemoveChars(s[1..], drop), c);
    }
  }

  lemma {:induction false} TrimStartKeepsCount(s: string, c: char)
    requires !IsJsSpace(c)
    ensures Count(TrimStart(s), c) == Count(s, c)
  {
    if s != [] && IsJsSpace(s[0]) {
      TrimStartKeepsCount(s[1..], c);
    }
  }

  lemma {:induction false} TrimEndKeepsCount(s: string, c: char)
    requires !IsJsSpace(c)
    ensures Count(TrimEnd(s), c) == Count(s, c)
    decreases |s|
  {
    if s != [] && IsJsSpace(s[|s| - 1]) {
      TrimEndKeepsCount(s[..|s| - 1], c);
      assert s == s[..|s| - 1] + [s[|s| - 1]];
      CountAppend(s[..|s| - 1], [s[|s| - 1]], c);
    }
  }

  /**
    Flattening loses nothing but the stripped characters and the outer
    whitespace: every other character, square brackets included, occurs as
    often as in the serialized text.
  */
  lemma FlattenKeepsOtherChars(serialized: string, c: char)
    requires c != '\\' && c != '"' && c != '{' && c != '}' && !IsJsSpace(c)
    ensures Count(Flatten(serialized), c) == Count(serialized, c)
  {
    var s1 := StripEscapedQuotes(serialized);
    var s2 := RemoveChars(s1, {'{', '}'});
    var s3 := RemoveChars(s2, {'"'});
    StripKeepsCount(serialized, c);
    RemoveKeepsCount(s1, {'{', '}'}, c);
    RemoveKeepsCount(s2, {'"'}, c);
    TrimStartKeepsCount(s3, c);
    TrimEndKeepsCount(TrimStart(s3), c);
  }

  /**
    Flattening keeps every backslash except the ones that escape a quote.
  */
  lemma FlattenKeepsBackslashes(serialized: string)
    ensures Count(Flatten(serialized), '\\') + EscapedQuotes(serialized) == Count(serialized, '\\')
  {
    var s1 := StripEscapedQuotes(serialized);
    var s2 := RemoveChars(s1, {'{', '}'});
    var s3 := RemoveChars(s2, {'"'});
    StripCountsBackslashes(serialized);
    RemoveKeepsCount(s1, {'{', '}'}, '\\');
    RemoveKeepsCount(s2, {'"'}, '\\');
    TrimStartKeepsCount(s3, '\\');
    TrimEndKeepsCount(TrimStart(s3), '\\');
  }

  lemma {:induction false} StripWithoutQuotes(s: string)
    requires forall i :: 0 <= i < |s| ==> s[i] != '"'
    ensures StripEscapedQuotes(s) == s
  {
    if s != [] {
      StripWithoutQuotes(s[1..]);
      assert s == [s[0]] + s[1..];
    }
  }

  lemma {:induction false} RemoveAbsent(s: string, drop: set<char>)
    requires forall i :: 0 <= i < |s| ==> s[i] !in drop
    ensures RemoveChars(s, drop) == s
  {
    if s != [] {
      RemoveAbsent(s[1..], drop);
      assert s == [s[0]] + s[1..];
    }
  }

  /** A text without braces or quotes and without outer whitespace is its own flattening. */
  lemma FlattenClean(s: string)
    requires Clean(s)
    ensures Flatten(s) == s
  {
    StripWithoutQuotes(s);
    RemoveAbsent(s, {'{', '}'});
    RemoveAbsent(s, {'"'});
  }

  /** Flattening is idempotent. */
  lemma FlattenIdempotent(s: string)
    ensures Flatten(Flatten(s)) == Flatten(s)
  {
    FlattenClean(Flatten(s));
  }

  // ---------------------------------------------------------------- numbers

  predicate IsDigit(c: char) {
    '0' <= c <= '9'
  }

  function DigitChar(d: nat): (c: char)
    requires d < 10
    ensures IsDigit(c)
  {
    ('0' as int + d) as char
  }

  function DigitValue(c: char): nat
    requires IsDigit(c)
  {
    (c as int - '0' as int) as nat
  }

  predicate AllDigits(s: string) {
    forall i :: 0 <= i < |s| ==> IsDigit(s[i])
  }

  /** `n.toString()` for a non-negative integer: decimal digits, no leading zero. */
  function NatToDecimal(n: nat): (r: string)
    ensures |r| >= 1 && AllDigits(r)
    ensures r[0] == '0' ==> n == 0
    ensures n < 10 ==> |r| == 1
    ensures n < 100 ==> |r| <= 2
  {
    if n < 10 then [DigitChar(n)] else NatToDecimal(n / 10) + [DigitChar(n % 10)]
  }

  /** The value of a string of decimal digits. */
  function DecimalValue(s: string): nat
    requires AllDigits(s)
  {
    if s == [] then 0 else DecimalValue(s[..|s| - 1]) * 10 + DigitValue(s[|s| - 1])
  }

  lemma {:induction false} DecimalRoundTrip(n: nat)
    ensures DecimalValue(NatToDecimal(n)) == n
  {
    if n >= 10 {
      DecimalRoundTrip(n / 10);
      var r := NatToDecimal(n);
      assert r[..|r| - 1] == NatToDecimal(n / 10);
    }
  }

  /** `${year}` for an integer year. */
  function IntToString(y: int): (r: string)
    ensures |r| >= 1
    ensures y < 0 <==> r[0] == '-'
  {
    if y < 0 then "-" + NatToDecimal(-y) else NatToDecimal(y)
  }

  /** Reads back the text of `IntToString`. */
  function ParseInt(s: string): Option<int> {
    if |s| >= 2 && s[0] == '-' && AllDigits(s[1..]) then Some(0 - DecimalValue(s[1..]) as int)
    else if |s| >= 1 && AllDigits(s) then Some(DecimalValue(s))
    else None
  }

  lemma IntRoundTrip(y: int)
    ensures ParseInt(IntToString(y)) == Some(y)
  {
    var s := IntToString(y);
    if y < 0 {
      var d := NatToDecimal(-y);
      assert s == "-" + d && s[1..] == d;
      assert |s| >= 2 && s[0] == '-' && AllDigits(s[1..]);
      DecimalRoundTrip(-y);
    } else {
      assert s == NatToDecimal(y) && IsDigit(s[0]) && s[0] != '-';
      DecimalRoundTrip(y);
    }
  }

  /** `s.padStart(width, fill)`. */
  function PadStart(s: string, width: nat, fill: char): (r: string)
    ensures |r| == if |s| >= width then |s| else width
    ensures r[|r| - |s|..] == s
    ensures forall i :: 0 <= i < |r| - |s| ==> r[i] == fill
  {
    if |s| >= width then s else seq(width - |s|, _ => fill) + s
  }

  // ---------------------------------------------------------------- dates

  /** `getMonth() + 1`. */
  type Month = m: int | 1 <= m <= 12 witness 1
  /** `getDate()`. */
  type Day = d: int | 1 <= d <= 31 witness 1

  /** The local-time calendar fields of a record's timestamp. */
  datatype CalendarDate = CalendarDate(month: Month, day: Day, year: int)

  function TwoDigits(n: nat): (r: string)
    ensures n < 100 ==> |r| == 2
  {
    PadStart(NatToDecimal(n), 2, '0')
  }

  /** `MM/DD/YYYY`, month and day zero-padded to two digits, the year as is. */
  function FormatDate(d: CalendarDate): (r: string)
    ensures |r| == 6 + |IntToString(d.year)|
    ensures r[2] == '/' && r[5] == '/'
    ensures r[6..] == IntToString(d.year)
  {
    TwoDigits(d.month) + "/" + TwoDigits(d.day) + "/" + IntToString(d.year)
  }

  lemma {:induction false} TwoDigitsRoundTrip(n: nat)
    requires n < 100
    ensures |TwoDigits(n)| == 2 && AllDigits(TwoDigits(n)) && DecimalValue(TwoDigits(n)) == n
  {
    var t := TwoDigits(n);
    DecimalRoundTrip(n);
    if n < 10 {
      var d := NatToDecimal(n);
      assert t == ['0'] + d;
      assert t[..1] == ['0'];
      assert t[..1][..0] == [];
      assert DecimalValue(t[..1]) == 0;
      assert t[1..] == d;
    } else {
      assert t == NatToDecimal(n);
    }
  }

  /** Reads back a `MM/DD/YYYY` text. */
  function ParseDate(s: string): Option<(int, int, int)> {
    if |s| >= 7 && s[2] == '/' && s[5] == '/' && AllDigits(s[..2]) && AllDigits(s[3..5]) then
      match ParseInt(s[6..])
      case Some(y) => Some((DecimalValue(s[..2]), DecimalValue(s[3..5]), y))
      case None => None
    else None
  }

  lemma ParseJoined(mm: string, dd: string, yy: string, y: int)
    requires |mm| == 2 && |dd| == 2 && AllDigits(mm) && AllDigits(dd)
    requires ParseInt(yy) == Some(y)
    ensures ParseDate(mm + "/" + dd + "/" + yy) == Some((DecimalValue(mm), DecimalValue(dd), y))
  {
    var r := mm + "/" + dd + "/" + yy;
    assert |yy| >= 1;
    assert |r| >= 7 && r[2] == '/' && r[5] == '/';
    assert r[..2] == mm;
    assert r[3..5] == dd;
    assert r[6..] == yy;
    assert AllDigits(r[..2]) && AllDigits(r[3..5]);
  }

  /** The rendered date reads back as the month, day and year it was made from. */
  lemma DateRoundTrip(d: CalendarDate)
    ensures ParseDate(FormatDate(d)) == Some((d.month as int, d.day as int, d.year))
  {
    TwoDigitsRoundTrip(d.month);
    TwoDigitsRoundTrip(d.day);
    IntRoundTrip(d.year);
    ParseJoined(TwoDigits(d.month), TwoDigits(d.day), IntToString(d.year), d.year);
  }

  lemma DateExample()
    ensures FormatDate(CalendarDate(3, 5, 2024)) == "03/05/2024"
  {
    assert NatToDecimal(2024) == "2024" by {
      assert NatToDecimal(202) == "202" by {
        assert NatToDecimal(20) == "20";
      }
    }
  }

  // ---------------------------------------------------------------- lines

  /** The text a reference is shown as: a string verbatim, an object flattened. */
  function RenderReference(ref: Reference): (r: string)
    ensures ref.Text? ==> r == ref.text
    ensures ref.Scalar? ==> r == ref.display
    ensures ref.Structured? ==> Clean(r)
  {
    match ref
    case Text(s) => s
    case Structured(json) => Flatten(json)
    case Scalar(shown) => shown
  }

  /** One line of the `viewLogs` answer. */
  function RenderLine(log: LogRecord, date: CalendarDate): (r: string)
    ensures var prefix := log.name + " " + log.action + " " + RenderReference(log.reference) + " on ";
      |r| == |prefix| + |FormatDate(date)| && r[..|prefix|] == prefix &&
      ParseDate(r[|prefix|..]) == Some((date.month as int, date.day as int, date.year))
  {
    var prefix := log.name + " " + log.action + " " + RenderReference(log.reference) + " on ";
    var r := prefix + FormatDate(date);
    DateRoundTrip(date);
    assert r[|prefix|..] == FormatDate(date);
    r
  }

  /**
    `logs.map(...)`: one line per found record, in the order `find` returned
    them; `dateOf` gives the local calendar fields of a timestamp.
  */
  function RenderLogs(found: seq<LogRecord>, dateOf: int -> CalendarDate): (lines: seq<string>)
    ensures |lines| == |found|
    ensures forall i :: 0 <= i < |found| ==> lines[i] == RenderLine(found[i], dateOf(found[i].timestamp))
  {
    seq(|found|, i requires 0 <= i < |found| => RenderLine(found[i], dateOf(found[i].timestamp)))
  }
}
