/**
 * Reading the master volume out of the mixer's text report
 * (vlc_my_web_interface.py:150-174): the report is split into lines, the first
 * line mentioning the front-left channel is picked, and the integer between its
 * first `[` and the following `%` is parsed the way Python's `int()` does.
 */
module AmixerOutput {
  import opened Wrappers

  /** What one read of the system volume yields. */
  datatype VolumeReading =
    | Percent(value: int)  // the parsed integer
    | NoReading            // the function returns None
    | IndexErrorRaised     // the marked line has no `[`: the exception escapes

  /** The text that marks the line holding the volume. */
  const Marker: string := "Front Left:"

  /** The index of the first character satisfying `p`, or `|s|` if none does. */
  function FirstIndex(s: string, p: char -> bool): (i: nat)
    ensures i <= |s|
    ensures i < |s| ==> p(s[i])
    ensures forall j :: 0 <= j < i ==> !p(s[j])
    decreases |s|
  {
    if s == [] || p(s[0]) then 0 else 1 + FirstIndex(s[1..], p)
  }

  // ---------------------------------------------------------------------------
  // str.splitlines

  /** The characters at which `str.splitlines` ends a line. */
  predicate IsLineBreak(c: char) {
    || c == '\n' || c == '\r' || c == '\U{0B}' || c == '\U{0C}'
    || c == '\U{1C}' || c == '\U{1D}' || c == '\U{1E}' || c == '\U{85}'
    || c == '\U{2028}' || c == '\U{2029}'
  }

  /** A string that holds no line break. */
  predicate IsLine(l: string) {
    forall c :: c in l ==> !IsLineBreak(c)
  }

  /** `str.splitlines()`: a `\r\n` pair ends one line, a final break opens no
      empty last line, and the empty string has no lines. */
  function SplitLines(s: string): (lines: seq<string>)
    ensures forall i :: 0 <= i < |lines| ==> IsLine(lines[i])
    ensures lines == [] <==> s == []
    decreases |s|
  {
    if s == [] then []
    else
      var i := FirstIndex(s, IsLineBreak);
      if i == |s| then [s]
      else
        var width := if s[i] == '\r' && i + 1 < |s| && s[i + 1] == '\n' then 2 else 1;
        [s[..i]] + SplitLines(s[i + width..])
  }

  /** Lines, each followed by a newline. */
  function Terminated(lines: seq<string>): (s: string)
    ensures |s| >= |lines|
  {
    if lines == [] then [] else lines[0] + "\n" + Terminated(lines[1..])
  }

  /** A line followed by a break: the first break is the one right after it. */
  lemma FirstBreakAfterLine(l: string, rest: string)
    requires IsLine(l) && rest != [] && IsLineBreak(rest[0])
    ensures FirstIndex(l + rest, IsLineBreak) == |l|
  {
    var s := l + rest;
    assert s[|l|] == rest[0];
    forall j | 0 <= j < |l| ensures !IsLineBreak(s[j]) {
      assert s[j] == l[j] && l[j] in l;
    }
  }

  /** A line holds no break at all. */
  lemma NoBreakInLine(l: string)
    requires IsLine(l)
    ensures FirstIndex(l, IsLineBreak) == |l|
  {
    forall j | 0 <= j < |l| ensures !IsLineBreak(l[j]) {
      assert l[j] in l;
    }
  }

  /** A line and a newline split off as the first line, whatever follows. */
  lemma SplitFirstLine(l: string, tail: string)
    requires IsLine(l)
    ensures SplitLines(l + "\n" + tail) == [l] + SplitLines(tail)
  {
    var s := l + ("\n" + tail);
    assert l + "\n" + tail == s;
    FirstBreakAfterLine(l, "\n" + tail);
    assert s[|l|] == '\n';
    assert s[..|l|] == l;
    assert s[|l| + 1..] == tail;
  }

  /** Splitting newline-terminated lines gives the lines back. */
  lemma {:induction false} SplitTerminated(lines: seq<string>)
    requires forall i :: 0 <= i < |lines| ==> IsLine(lines[i])
    ensures SplitLines(Terminated(lines)) == lines
  {
    if lines != [] {
      SplitFirstLine(lines[0], Terminated(lines[1..]));
      SplitTerminated(lines[1..]);
      assert lines == [lines[0]] + lines[1..];
    }
  }

  /** One more line in front of an unterminated report is one more line in
      front of its split. */
  lemma SplitConsLine(l: string, more: seq<string>, last: string)
    requires IsLine(l)
    requires SplitLines(Terminated(more) + last) == more + [last]
    ensures SplitLines(Terminated([l] + more) + last) == [l] + more + [last]
  {
    var tail := Terminated(more) + last;
    assert ([l] + more)[1..] == more;
    assert Terminated([l] + more) + last == l + "\n" + tail;
    SplitFirstLine(l, tail);
  }

  /** A last line without a final newline is still a line of its own. */
  lemma {:induction false} SplitUnterminated(lines: seq<string>, last: string)
    requires forall i :: 0 <= i < |lines| ==> IsLine(lines[i])
    requires last != [] && IsLine(last)
    ensures SplitLines(Terminated(lines) + last) == lines + [last]
  {
    if lines == [] {
      assert Terminated(lines) + last == last;
      NoBreakInLine(last);
    } else {
      SplitUnterminated(lines[1..], last);
      SplitConsLine(lines[0], lines[1..], last);
      assert lines == [lines[0]] + lines[1..];
    }
  }

  // ---------------------------------------------------------------------------
  // int()

  /** The characters `int()` strips around its digits: the ASCII white space
      `\t` to `\r` and the space, and the non-ASCII white space it maps to a
      space first. The ASCII separators U+001C to U+001F are not among them. */
  predicate IsSpace(c: char) {
    || ('\t' <= c <= '\r') || c == ' '
    || c == '\U{85}' || c == '\U{A0}' || c == '\U{1680}' || ('\U{2000}' <= c <= '\U{200A}')
    || c == '\U{2028}' || c == '\U{2029}' || c == '\U{202F}' || c == '\U{205F}' || c == '\U{3000}'
  }

  /** The string without its leading white space. */
  function TrimStart(s: string): (r: string)
    ensures |r| <= |s| && r == s[|s| - |r|..]
    ensures forall j :: 0 <= j < |s| - |r| ==> IsSpace(s[j])
    ensures r == [] || !IsSpace(r[0])
    decreases |s|
  {
    if s != [] && IsSpace(s[0]) then TrimStart(s[1..]) else s
  }

  /** The string without its trailing white space. */
  function TrimEnd(s: string): (r: string)
    ensures |r| <= |s| && r == s[..|r|]
    ensures forall j :: |r| <= j < |s| ==> IsSpace(s[j])
    ensures r == [] || !IsSpace(r[|r| - 1])
    decreases |s|
  {
    if s != [] && IsSpace(s[|s| - 1]) then TrimEnd(s[..|s| - 1]) else s
  }

  /** `str.strip()`: the text between the leading and the trailing white
      space. */
  function Strip(s: string): (r: string)
    ensures var a := |s| - |TrimStart(s)|; a + |r| <= |s| && r == s[a..a + |r|]
    ensures r == [] || (!IsSpace(r[0]) && !IsSpace(r[|r| - 1]))
  {
    var t := TrimStart(s);
    var r := TrimEnd(t);
    assert r == [] || r[0] == t[0];
    r
  }

  /** What `Strip` drops, on either side, is white space. */
  lemma StripDropsSpace(s: string, j: nat)
    requires j < |s|
    requires j < |s| - |TrimStart(s)| || j >= |s| - |TrimStart(s)| + |Strip(s)|
    ensures IsSpace(s[j])
  {
    var t := TrimStart(s);
    var a := |s| - |t|;
    if j >= a {
      assert s[j] == t[j - a];
    }
  }

  predicate IsDigit(c: char) {
    '0' <= c <= '9'
  }

  predicate AllDigits(s: string) {
    forall c :: c in s ==> IsDigit(c)
  }

  /** The number a string of decimal digits denotes. */
  function DigitsValue(ds: string): (n: nat)
    requires AllDigits(ds)
    ensures ds == [] ==> n == 0
    decreases |ds|
  {
    if ds == [] then 0
    else
      var last := ds[|ds| - 1];
      assert last in ds;
      10 * DigitsValue(ds[..|ds| - 1]) + (last as int - '0' as int)
  }

  /** The most decimal digits `int()` reads and `str()` writes before raising
      ValueError: the default of `sys.int_info.default_max_str_digits`. */
  const MaxDigits: nat := 4300

  /** An optional sign followed by one to `MaxDigits` decimal digits. */
  predicate IsIntLiteral(t: string) {
    && t != []
    && (IsDigit(t[0]) || ((t[0] == '-' || t[0] == '+') && |t| > 1))
    && (forall j :: 0 < j < |t| ==> IsDigit(t[j]))
    && |t| - (if IsDigit(t[0]) then 0 else 1) <= MaxDigits
  }

  /** Python's `int()` on a string, base 10: surrounding white space, an
      optional sign, then one to `MaxDigits` ASCII digits; anything else is a
      ValueError, here `None`. */
  function ParseInt(s: string): (r: Option<int>)
    // accepted exactly when the stripped text is an optional sign and digits
    ensures r.Some? <==> IsIntLiteral(Strip(s))
    // an unsigned or `+` literal denotes its digits' value, a `-` one its negation
    ensures r.Some? && IsDigit(Strip(s)[0]) ==> r.value == DigitsValue(Strip(s))
    ensures r.Some? && Strip(s)[0] == '+' ==> r.value == DigitsValue(Strip(s)[1..])
    ensures r.Some? && Strip(s)[0] == '-' ==> r.value == 0 - DigitsValue(Strip(s)[1..]) as int
  {
    var t := Strip(s);
    var signed := |t| > 0 && (t[0] == '-' || t[0] == '+');
    var digits := if signed then t[1..] else t;
    if digits != [] && AllDigits(digits) && |digits| <= MaxDigits then
      var n: int := DigitsValue(digits);
      Some(if signed && t[0] == '-' then -n else n)
    else None
  }

  function DigitChar(d: nat): (c: char)
    requires d < 10
    ensures IsDigit(c) && c as int - '0' as int == d
  {
    ('0' as int + d) as char
  }

  /** The decimal digits of a natural number, without leading zeros. */
  function NatText(n: nat): (r: string)
    ensures r != [] && AllDigits(r)
    ensures DigitsValue(r) == n
    ensures n > 0 ==> r[0] != '0'
    decreases n
  {
    if n < 10 then [DigitChar(n)]
    else
      var r := NatText(n / 10) + [DigitChar(n % 10)];
      assert r[..|r| - 1] == NatText(n / 10);
      r
  }

  /** The decimal text of an integer, as `str(n)` writes it when `Printable(n)`. */
  function IntText(n: int): (r: string)
    ensures r != []
    ensures forall c :: c in r ==> IsDigit(c) || c == '-'
  {
    if n < 0 then "-" + NatText(-n) else NatText(n)
  }

  /** `str(n)` writes `n` instead of raising ValueError: its digits are within
      `MaxDigits`. */
  predicate Printable(n: int) {
    |NatText(if n < 0 then -n else n)| <= MaxDigits
  }

  /** A number has at most one more digit than its value. */
  lemma {:induction false} NatTextLength(n: nat)
    ensures |NatText(n)| <= n + 1
    decreases n
  {
    if n >= 10 {
      NatTextLength(n / 10);
    }
  }

  /** Every integer of fewer than `MaxDigits` in magnitude is printable. */
  lemma SmallPrintable(n: int)
    requires -(MaxDigits as int) < n < MaxDigits
    ensures Printable(n)
  {
    NatTextLength(if n < 0 then -n else n);
  }

  /** A string that neither starts nor ends with white space is its own strip. */
  lemma StripUnpadded(t: string)
    requires t != [] && !IsSpace(t[0]) && !IsSpace(t[|t| - 1])
    ensures Strip(t) == t
  {
    assert TrimStart(t) == t;
  }

  /** An ASCII separator is not white space to `int()`: `int('\x1c5')` raises. */
  lemma SeparatorRejected()
    ensures ParseInt("\U{1C}5") == None
  {
    StripUnpadded("\U{1C}5");
  }

  /** `int(str(n)) == n` for a natural number. */
  lemma ParseNatText(n: int)
    requires n >= 0 && Printable(n)
    ensures ParseInt(IntText(n)) == Some(n)
  {
    var t := NatText(n);
    assert IntText(n) == t;
    assert t[0] in t && t[|t| - 1] in t;
    StripUnpadded(t);
  }

  /** A minus sign before an unpadded digit string negates its value. */
  lemma ParseMinus(ds: string)
    requires ds != [] && AllDigits(ds) && |ds| <= MaxDigits
    requires Strip("-" + ds) == "-" + ds
    ensures ParseInt("-" + ds) == Some(0 - DigitsValue(ds) as int)
  {
    var t := "-" + ds;
    assert t[0] == '-' && t[1..] == ds;
  }

  /** `int(str(n)) == n` for a negative number: the minus sign negates the
      value of the digits after it. */
  lemma ParseNegatedText(n: int)
    requires n < 0 && Printable(n)
    ensures ParseInt(IntText(n)) == Some(n)
  {
    var ds := NatText(-n);
    assert |ds| <= MaxDigits;
    var t := "-" + ds;
    assert IntText(n) == t;
    assert ds[|ds| - 1] in ds;
    assert t[|t| - 1] == ds[|ds| - 1];
    StripUnpadded(t);
    ParseMinus(ds);
  }

  /** `int(str(n)) == n` whenever `str(n)` does not raise. */
  lemma ParseIntText(n: int)
    requires Printable(n)
    ensures ParseInt(IntText(n)) == Some(n)
  {
    if n < 0 {
      ParseNegatedText(n);
    } else {
      ParseNatText(n);
    }
  }

  // ---------------------------------------------------------------------------
  // the volume line

  /** `pat` occurs in `s` at index `i`. */
  predicate OccursAt(s: string, pat: string, i: int) {
    0 <= i && i + |pat| <= |s| && s[i..i + |pat|] == pat
  }

  /** Python's `pat in s`. */
  predicate HasSubstring(s: string, pat: string) {
    exists i | 0 <= i <= |s| :: OccursAt(s, pat, i)
  }

  /** `'Front Left:' in line`. */
  predicate Marked(line: string): (m: bool)
    ensures m ==> |line| >= |Marker|
    ensures m <==> exists i | 0 <= i <= |line| :: OccursAt(line, Marker, i)
  {
    HasSubstring(line, Marker)
  }

  /** What follows the first occurrence of `c` in `s`. */
  function AfterFirst(s: string, c: char): (r: string)
    requires c in s
    ensures |r| < |s| && s[|s| - |r| - 1] == c && r == s[|s| - |r|..]
    ensures c !in s[..|s| - |r| - 1]
  {
    var i := FirstIndex(s, x => x == c);
    assert i < |s| by {
      var k :| 0 <= k < |s| && s[k] == c;
    }
    s[i + 1..]
  }

  /** `line.split('[')[1].split('%')[0]`: the text after the first `[`, cut at
      the next `[` or `%`; `None` when there is no `[` to split at. */
  function VolumeText(line: string): (r: Option<string>)
    ensures r.None? <==> '[' !in line
    ensures r.Some? ==> '[' !in r.value && '%' !in r.value
    ensures r.Some? ==>
      var rest := AfterFirst(line, '[');
      r.value <= rest && (|r.value| == |rest| || rest[|r.value|] == '[' || rest[|r.value|] == '%')
  {
    if '[' !in line then None
    else
      var rest := AfterFirst(line, '[');
      var field := rest[..FirstIndex(rest, x => x == '[')];
      Some(field[..FirstIndex(field, x => x == '%')])
  }

  /** The reading taken from the line that mentions the marker. */
  function LineVolume(line: string): (r: VolumeReading)
    ensures r.IndexErrorRaised? <==> '[' !in line
    ensures r.Percent? ==> ParseInt(VolumeText(line).value) == Some(r.value)
    ensures '[' in line ==> (r.Percent? <==> ParseInt(VolumeText(line).value).Some?)
  {
    match VolumeText(line)
    case None => IndexErrorRaised
    case Some(text) =>
      match ParseInt(text)
      case None => NoReading
      case Some(v) => Percent(v)
  }

  /** The text after the first `[` of a line whose prefix holds none. */
  lemma AfterBracket(prefix: string, tail: string)
    requires '[' !in prefix
    ensures '[' in prefix + "[" + tail
    ensures AfterFirst(prefix + "[" + tail, '[') == tail
  {
    var line := prefix + "[" + tail;
    assert line[|prefix|] == '[';
    var after := AfterFirst(line, '[');
    forall j | 0 <= j < |prefix| ensures line[j] == prefix[j] && prefix[j] in prefix {
    }
    assert |after| == |tail|;
    assert after == line[|line| - |tail|..];
  }

  /** The volume text of `<prefix>[<t>%<rest>` is `t` when `t` holds no `[` or `%`. */
  lemma VolumeTextOf(prefix: string, t: string, rest: string)
    requires '[' !in prefix && '[' !in t && '%' !in t
    ensures VolumeText(prefix + "[" + t + "%" + rest) == Some(t)
  {
    var line := prefix + "[" + t + "%" + rest;
    assert line == prefix + "[" + (t + "%" + rest);
    AfterBracket(prefix, t + "%" + rest);
    var after := t + "%" + rest;
    var text := VolumeText(line).value;
    assert text <= after;
    forall j | 0 <= j < |t| ensures after[j] == t[j] && after[j] != '[' && after[j] != '%' {
      assert t[j] in t;
    }
    assert after[|t|] == '%';
    assert |text| == |t|;
    assert text == after[..|t|] == t;
  }

  /** A line of the shape the mixer prints, `<prefix>[<v>%<rest>`, reads as `v`. */
  lemma LineVolumeOf(prefix: string, v: int, rest: string)
    requires '[' !in prefix && Printable(v)
    ensures LineVolume(prefix + "[" + IntText(v) + "%" + rest) == Percent(v)
  {
    var t := IntText(v);
    assert '[' !in t && '%' !in t;
    VolumeTextOf(prefix, t, rest);
    ParseIntText(v);
  }

  /** Line `i` is the first line that mentions the marker. */
  predicate FirstMarkedAt(lines: seq<string>, i: nat) {
    i < |lines| && Marked(lines[i]) && forall j :: 0 <= j < i ==> !Marked(lines[j])
  }

  /** The reading of the whole report, line by line. */
  function ReadVolume(lines: seq<string>): (r: VolumeReading)
    ensures (forall i :: 0 <= i < |lines| ==> !Marked(lines[i])) ==> r == NoReading
  {
    if lines == [] then NoReading
    else if Marked(lines[0]) then LineVolume(lines[0])
    else
      assert forall i :: 1 <= i < |lines| ==> lines[1..][i - 1] == lines[i];
      ReadVolume(lines[1..])
  }

  /** The first marked line alone decides the reading. */
  lemma {:induction false} FirstMarkedLineDecides(lines: seq<string>, i: nat)
    requires FirstMarkedAt(lines, i)
    ensures ReadVolume(lines) == LineVolume(lines[i])
  {
    if i > 0 {
      assert !Marked(lines[0]);
      var tail := lines[1..];
      assert forall j :: 0 <= j < i - 1 ==> tail[j] == lines[j + 1];
      FirstMarkedLineDecides(tail, i - 1);
    }
  }

  /** Lines after the first marked line never matter. */
  lemma {:induction false} LaterLinesIgnored(a: seq<string>, b: seq<string>, i: nat)
    requires i < |a| && Marked(a[i])
    ensures ReadVolume(a + b) == ReadVolume(a)
  {
    if !Marked(a[0]) {
      assert (a + b)[1..] == a[1..] + b;
      LaterLinesIgnored(a[1..], b, i - 1);
    }
  }

  /** `fetch_system_volume`: `None` for the mixer report stands for a failed
      mixer call. The loop returns at the first marked line. */
  method FetchSystemVolume(report: Option<string>) returns (r: VolumeReading)
    ensures report.None? ==> r == NoReading
    ensures report.Some? ==> r == ReadVolume(SplitLines(report.value))
  {
    if report.None? {
      return NoReading;
    }
    var lines := SplitLines(report.value);
    var i := 0;
    while i < |lines|
      invariant 0 <= i <= |lines|
      invariant ReadVolume(lines[i..]) == ReadVolume(lines)
    {
      if Marked(lines[i]) {
        return LineVolume(lines[i]);
      }
      assert lines[i..][1..] == lines[i + 1..];
      i := i + 1;
    }
    return NoReading;
  }
}
