/** String helpers the chat protocol relies on: Java's String.trim, an ASCII
    reading of String.equalsIgnoreCase, and the decimal rendering of a port
    number that `"Guest-" + port` performs. */
module Text {

  /** Java's trim removes every character whose code is at most U+0020. */
  predicate IsTrimmable(c: char) {
    c <= ' '
  }

  predicate IsBlank(s: string) {
    forall i :: 0 <= i < |s| ==> IsTrimmable(s[i])
  }

  /** How many trimmable characters `s` starts with. */
  function LeadingTrimmable(s: string): (k: nat)
    ensures k <= |s|
  {
    if |s| > 0 && IsTrimmable(s[0]) then 1 + LeadingTrimmable(s[1..]) else 0
  }

  /** The trimmable prefix is as long as it can be: every character before
      it is trimmable and the one after it is not. */
  lemma {:induction false} LeadingTrimmableShape(s: string)
    ensures var k := LeadingTrimmable(s);
      && (forall i :: 0 <= i < k ==> IsTrimmable(s[i]))
      && (k < |s| ==> !IsTrimmable(s[k]))
  {
    if |s| > 0 && IsTrimmable(s[0]) {
      LeadingTrimmableShape(s[1..]);
      var k := LeadingTrimmable(s);
      forall i | 0 <= i < k
        ensures IsTrimmable(s[i])
      {
        if i > 0 {
          assert s[i] == s[1..][i - 1];
        }
      }
    }
  }

  /** Where the trimmable suffix of `s` begins. */
  function TrailingStart(s: string): (k: nat)
    ensures k <= |s|
  {
    if |s| > 0 && IsTrimmable(s[|s| - 1]) then TrailingStart(s[..|s| - 1]) else |s|
  }

  /** The trimmable suffix is as long as it can be: every character from it
      on is trimmable and the one before it is not. */
  lemma {:induction false} TrailingStartShape(s: string)
    ensures var k := TrailingStart(s);
      && (forall i :: k <= i < |s| ==> IsTrimmable(s[i]))
      && (0 < k ==> !IsTrimmable(s[k - 1]))
  {
    if |s| > 0 && IsTrimmable(s[|s| - 1]) {
      var p := s[..|s| - 1];
      TrailingStartShape(p);
      var k := TrailingStart(s);
      forall i | k <= i < |s|
        ensures IsTrimmable(s[i])
      {
        if i < |s| - 1 {
          assert s[i] == p[i];
        }
      }
      if 0 < k {
        assert s[k - 1] == p[k - 1];
      }
    }
  }

  /** String.trim: the slice of `s` between its trimmable prefix and its
      trimmable suffix. */
  function Trim(s: string): string {
    var start, end := LeadingTrimmable(s), TrailingStart(s);
    if end <= start then [] else s[start..end]
  }

  /** The trim is no longer than the string, empty exactly when the string
      is blank, and otherwise starts and ends with a character that is
      kept. */
  lemma TrimShape(s: string)
    ensures var r := Trim(s);
      && |r| <= |s|
      && (r == [] <==> IsBlank(s))
      && (r == [] || (!IsTrimmable(r[0]) && !IsTrimmable(r[|r| - 1])))
  {
    LeadingTrimmableShape(s);
    TrailingStartShape(s);
    var start, end := LeadingTrimmable(s), TrailingStart(s);
    if end <= start {
      forall i | 0 <= i < |s|
        ensures IsTrimmable(s[i])
      {
      }
    } else {
      assert !IsTrimmable(s[start]);
    }
  }

  /** Trimming what is already trimmed changes nothing. */
  lemma TrimIdempotent(s: string)
    ensures Trim(Trim(s)) == Trim(s)
  {
    TrimShape(s);
    TrimmedIsFixed(Trim(s));
  }

  /** A string with visible characters at both ends is its own trim. */
  lemma TrimmedIsFixed(s: string)
    requires s == [] || (!IsTrimmable(s[0]) && !IsTrimmable(s[|s| - 1]))
    ensures Trim(s) == s
  {
    if s != [] {
      assert LeadingTrimmable(s) == 0;
      assert TrailingStart(s) == |s|;
    }
  }

  /** Upper-case ASCII letters are folded to lower case; all else is kept. */
  function ToLowerAscii(c: char): char {
    if 'A' <= c <= 'Z' then (c as int + 32) as char else c
  }

  /** What a case-insensitive compare relies on: folding never yields an
      upper-case letter, and two characters fold alike exactly when they are
      equal or one is the upper-case form of the other. */
  lemma ToLowerAsciiShape(a: char, b: char)
    ensures !('A' <= ToLowerAscii(a) <= 'Z')
    ensures ToLowerAscii(a) == ToLowerAscii(b) <==>
      || a == b
      || ('A' <= a <= 'Z' && b as int == a as int + 32)
      || ('A' <= b <= 'Z' && a as int == b as int + 32)
  {
  }

  /** String.equalsIgnoreCase restricted to ASCII case folding. */
  predicate EqualsIgnoreCase(a: string, b: string) {
    |a| == |b| && forall i :: 0 <= i < |a| ==> ToLowerAscii(a[i]) == ToLowerAscii(b[i])
  }

  const QuitCommand: string := "/quit"

  /** The quit test, letter by letter: the line is `/quit` in any ASCII
      letter case. */
  predicate IsQuit(line: string) {
    && |line| == 5
    && ToLowerAscii(line[0]) == '/' && ToLowerAscii(line[1]) == 'q' && ToLowerAscii(line[2]) == 'u'
    && ToLowerAscii(line[3]) == 'i' && ToLowerAscii(line[4]) == 't'
  }

  /** The letter-by-letter test is exactly equalsIgnoreCase against the quit
      command. */
  lemma QuitIsEqualsIgnoreCase(line: string)
    ensures IsQuit(line) <==> EqualsIgnoreCase(line, QuitCommand)
  {
    if EqualsIgnoreCase(line, QuitCommand) {
      assert ToLowerAscii(line[0]) == ToLowerAscii(QuitCommand[0]);
      assert ToLowerAscii(line[1]) == ToLowerAscii(QuitCommand[1]);
      assert ToLowerAscii(line[2]) == ToLowerAscii(QuitCommand[2]);
      assert ToLowerAscii(line[3]) == ToLowerAscii(QuitCommand[3]);
      assert ToLowerAscii(line[4]) == ToLowerAscii(QuitCommand[4]);
    }
    if IsQuit(line) {
      forall i | 0 <= i < |line|
        ensures ToLowerAscii(line[i]) == ToLowerAscii(QuitCommand[i])
      {
      }
    }
  }

  /** Any letter case of the quit token quits; a quit token is never blank
      and already trimmed. */
  lemma QuitTokenShape(line: string)
    requires IsQuit(line)
    ensures !IsBlank(line)
    ensures Trim(line) == line
    ensures IsQuit("/QuIt") && IsQuit("/QUIT") && !IsQuit("/quit ")
  {
    assert ToLowerAscii(line[0]) == '/';
    assert ToLowerAscii(line[4]) == 't';
    TrimmedIsFixed(line);
  }

  predicate IsDigit(c: char) {
    '0' <= c <= '9'
  }

  function DigitChar(d: nat): (c: char)
    requires d < 10
    ensures IsDigit(c) && (c as int) - ('0' as int) == d
  {
    (('0' as int) + d) as char
  }

  /** Decimal rendering of a non-negative integer, as `"" + port` prints it. */
  function NatToString(n: nat): string {
    if n < 10 then [DigitChar(n)] else NatToString(n / 10) + [DigitChar(n % 10)]
  }

  /** The rendering is a non-empty string of digits, with no leading zero
      unless the number is zero. */
  lemma {:induction false} NatToStringShape(n: nat)
    ensures var r := NatToString(n);
      && |r| >= 1
      && (forall i :: 0 <= i < |r| ==> IsDigit(r[i]))
      && (r[0] == '0' ==> n == 0)
  {
    if n >= 10 {
      NatToStringShape(n / 10);
      var p := NatToString(n / 10);
      assert NatToString(n)[0] == p[0];
    }
  }

  /** The value of a string of decimal digits, most significant first. */
  function DigitsValue(s: string): int {
    if s == [] then 0
    else DigitsValue(s[..|s| - 1]) * 10 + ((s[|s| - 1] as int) - ('0' as int))
  }

  /** Reading back the rendering gives the number: rendering is injective. */
  lemma {:induction false} NatToStringRoundTrip(n: nat)
    ensures DigitsValue(NatToString(n)) == n
  {
    if n >= 10 {
      var r := NatToString(n);
      NatToStringRoundTrip(n / 10);
      assert r[..|r| - 1] == NatToString(n / 10);
    }
  }
}
