/**
 * The text layer of the FT node: a line is cut at its commas and each piece is
 * read as a decimal number.
 */
module LineParser {

  // ---- cutting a line at its commas ----

  /** Length of the part of s in front of its first comma. */
  function UpToComma(s: string): (n: nat)
    ensures n <= |s| && ',' !in s[..n] && (n < |s| ==> s[n] == ',')
  {
    if s == "" || s[0] == ',' then 0 else
      var n := 1 + UpToComma(s[1..]);
      assert s[..n] == [s[0]] + s[1..][..n - 1];
      n
  }

  function Tokens(s: string): (ts: seq<string>)
    ensures ts != []
    decreases |s|
  {
    var n := UpToComma(s);
    if n == |s| then [s] else [s[..n]] + Tokens(s[n + 1..])
  }

  function Join(ts: seq<string>): string
    requires ts != []
  {
    if |ts| == 1 then ts[0] else ts[0] + "," + Join(ts[1..])
  }

  function Commas(s: string): nat {
    if s == "" then 0 else (if s[0] == ',' then 1 else 0) + Commas(s[1..])
  }

  /** The driver's getline loop: it goes on while the stream is good, that is, until a piece ends at the end of the line. */
  method Split(line: string) returns (tokens: seq<string>)
    ensures tokens == Tokens(line)
  {
    hide Tokens;
    tokens := [];
    var pos, good := 0, true;
    assert line[0..] == line;
    while good
      invariant 0 <= pos <= |line|
      invariant if good then tokens + Tokens(line[pos..]) == Tokens(line) else tokens == Tokens(line)
      decreases good, |line| - pos
    {
      var start := pos;
      while pos < |line| && line[pos] != ','
        invariant start <= pos <= |line|
        invariant ',' !in line[start..pos]
      {
        pos := pos + 1;
      }
      TokensFrom(line, start, pos);
      if pos == |line| {
        tokens, good := tokens + [line[start..]], false;
      } else {
        assert tokens + Tokens(line[start..]) == (tokens + [line[start..pos]]) + Tokens(line[pos + 1..]);
        tokens, pos := tokens + [line[start..pos]], pos + 1;
      }
    }
  }

  /** The pieces from start on, when the next one ends at pos. */
  lemma TokensFrom(line: string, start: nat, pos: nat)
    requires start <= pos <= |line| && ',' !in line[start..pos] && (pos < |line| ==> line[pos] == ',')
    ensures pos == |line| ==> Tokens(line[start..]) == [line[start..]]
    ensures pos < |line| ==> Tokens(line[start..]) == [line[start..pos]] + Tokens(line[pos + 1..])
  {
    var s, n := line[start..], pos - start;
    assert s[..n] == line[start..pos];
    UpToCommaIs(s, n);
    if pos < |line| {
      assert s[n + 1..] == line[pos + 1..];
    }
  }

  lemma UpToCommaIs(s: string, n: nat)
    requires n <= |s| && ',' !in s[..n] && (n < |s| ==> s[n] == ',')
    ensures UpToComma(s) == n
  {
  }

  lemma {:induction false} CommasInFront(s: string, n: nat)
    requires n <= |s| && ',' !in s[..n]
    ensures Commas(s) == Commas(s[n..])
  {
    if n > 0 {
      assert s[..n][0] == s[0];
      assert s[1..][..n - 1] == s[..n][1..] && s[1..][n - 1..] == s[n..];
      CommasInFront(s[1..], n - 1);
    } else {
      assert s[0..] == s;
    }
  }

  /** Cutting and joining undo each other; a line has one piece more than commas, even after a trailing comma. */
  lemma {:induction false} SplitThenJoin(s: string)
    ensures Join(Tokens(s)) == s
    ensures |Tokens(s)| == Commas(s) + 1
    ensures forall t <- Tokens(s) :: ',' !in t
    decreases |s|
  {
    var n := UpToComma(s);
    CommasInFront(s, n);
    if n == |s| {
      assert s[..n] == s;
    } else {
      SplitThenJoin(s[n + 1..]);
      assert Commas(s[n..]) == 1 + Commas(s[n..][1..]) && s[n..][1..] == s[n + 1..];
      assert s == s[..n] + [','] + s[n + 1..];
      assert Tokens(s)[1..] == Tokens(s[n + 1..]);
    }
  }

  lemma {:induction false} JoinThenSplit(ts: seq<string>)
    requires ts != [] && forall t <- ts :: ',' !in t
    ensures Tokens(Join(ts)) == ts
  {
    var s, n := Join(ts), |ts[0]|;
    assert s[..n] == ts[0];
    UpToCommaIs(s, n);
    if |ts| > 1 {
      JoinThenSplit(ts[1..]);
      assert s[n + 1..] == Join(ts[1..]);
    }
  }

  // ---- reading a decimal number ----

  predicate IsDigit(c: char) { '0' <= c <= '9' }

  function DigitValue(c: char): nat
    requires IsDigit(c)
  {
    c as int - '0' as int
  }

  /** Length of the leading run of digits. */
  function DigitRun(s: string): (n: nat)
    ensures n <= |s| && forall i | 0 <= i < n :: IsDigit(s[i])
    ensures n < |s| ==> !IsDigit(s[n])
  {
    if s == "" || !IsDigit(s[0]) then 0 else 1 + DigitRun(s[1..])
  }

  function Number(s: string): nat
    requires forall i | 0 <= i < |s| :: IsDigit(s[i])
  {
    if s == "" then 0 else 10 * Number(s[..|s| - 1]) + DigitValue(s[|s| - 1])
  }

  function Pow10(n: nat): (p: real)
    ensures p > 0.0
  {
    if n == 0 then 1.0 else 10.0 * Pow10(n - 1)
  }

  predicate IsSpace(c: char) { c == ' ' || '\t' <= c <= '\r' }

  function SkipSpace(s: string): string {
    if s != "" && IsSpace(s[0]) then SkipSpace(s[1..]) else s
  }

  /** Digits, and after a point further digits; whatever follows is ignored. */
  function Magnitude(s: string): real {
    var w := DigitRun(s);
    var whole, rest := Number(s[..w]) as real, s[w..];
    if rest != "" && rest[0] == '.' then
      var d := DigitRun(rest[1..]);
      whole + Number(rest[1..][..d]) as real / Pow10(d)
    else whole
  }

  /** The C library's text-to-double conversion, on plain decimal numerals. */
  function Atof(s: string): real {
    var t := SkipSpace(s);
    if t != "" && t[0] == '-' then -Magnitude(t[1..])
    else if t != "" && t[0] == '+' then Magnitude(t[1..])
    else Magnitude(t)
  }

  /** Decimal numeral of n. */
  function Print(n: nat): (s: string)
    ensures s != "" && forall i | 0 <= i < |s| :: IsDigit(s[i])
    decreases n
  {
    var last := ['0' + (n % 10) as char];
    if n < 10 then last else Print(n / 10) + last
  }

  lemma {:induction false} NumberOfPrint(n: nat)
    ensures Number(Print(n)) == n
    decreases n
  {
    var s := Print(n);
    if n < 10 {
      assert s[..|s| - 1] == "";
    } else {
      NumberOfPrint(n / 10);
      assert s[..|s| - 1] == Print(n / 10);
    }
  }

  lemma {:induction false} DigitRunIs(s: string, n: nat)
    requires n <= |s| && (forall i | 0 <= i < n :: IsDigit(s[i])) && (n < |s| ==> !IsDigit(s[n]))
    ensures DigitRun(s) == n
  {
    if n > 0 {
      DigitRunIs(s[1..], n - 1);
    }
  }

  /** What may follow a number without changing it, such as the end of the line. */
  predicate Ends(tail: string) { tail == "" || !(IsDigit(tail[0]) || tail[0] == '.') }

  lemma AtofOfPrint(n: nat, tail: string)
    requires Ends(tail)
    ensures Atof(Print(n) + tail) == n as real
  {
    var s := Print(n) + tail;
    assert s[0] == Print(n)[0] && IsDigit(s[0]);
    assert SkipSpace(s) == s;
    DigitRunIs(s, |Print(n)|);
    assert s[..|Print(n)|] == Print(n) && s[|Print(n)|..] == tail;
    NumberOfPrint(n);
  }

  lemma {:induction false} SkipsSpace(blank: string, s: string)
    requires (forall i | 0 <= i < |blank| :: IsSpace(blank[i])) && (s == "" || !IsSpace(s[0]))
    ensures SkipSpace(blank + s) == s
  {
    if blank == "" {
      assert blank + s == s;
    } else {
      assert (blank + s)[1..] == blank[1..] + s;
      SkipsSpace(blank[1..], s);
    }
  }

  lemma MagnitudeIs(s: string, w: nat, d: nat)
    requires w + 1 + d <= |s| && s[w] == '.'
    requires (forall i | 0 <= i < w :: IsDigit(s[i])) && (forall i | w < i <= w + d :: IsDigit(s[i]))
    requires w + 1 + d < |s| ==> !IsDigit(s[w + 1 + d])
    ensures Magnitude(s) == Number(s[..w]) as real + Number(s[w + 1..w + 1 + d]) as real / Pow10(d)
  {
    hide Number;
    DigitRunIs(s, w);
    assert s[w..][0] == '.' && s[w..][1..] == s[w + 1..];
    DigitRunIs(s[w + 1..], d);
    assert s[w + 1..][..d] == s[w + 1..w + 1 + d];
  }

  /** A decimal numeral: whole part, point, further digits. */
  function Decimal(n: nat, digits: string): string { Print(n) + "." + digits }

  lemma MagnitudeOfDecimal(n: nat, digits: string, tail: string)
    requires (forall i | 0 <= i < |digits| :: IsDigit(digits[i])) && (tail == "" || !IsDigit(tail[0]))
    ensures Magnitude(Decimal(n, digits) + tail) == n as real + Number(digits) as real / Pow10(|digits|)
  {
    hide Magnitude, Number, Print;
    var s, w := Decimal(n, digits) + tail, |Print(n)|;
    assert s[..w] == Print(n) && s[w + 1..w + 1 + |digits|] == digits;
    assert forall i | w < i <= w + |digits| :: s[i] == digits[i - w - 1];
    MagnitudeIs(s, w, |digits|);
    NumberOfPrint(n);
  }

  /** Reading a decimal with blanks before it, a sign and digits behind the point. */
  lemma AtofOfDecimal(blank: string, sign: string, n: nat, digits: string, tail: string)
    requires (forall i | 0 <= i < |blank| :: IsSpace(blank[i])) && (sign == "" || sign == "-" || sign == "+")
    requires (forall i | 0 <= i < |digits| :: IsDigit(digits[i])) && (tail == "" || !IsDigit(tail[0]))
    ensures Atof(blank + (sign + (Decimal(n, digits) + tail)))
         == (if sign == "-" then -1.0 else 1.0) * (n as real + Number(digits) as real / Pow10(|digits|))
  {
    hide Magnitude, Number, Print;
    var m := Decimal(n, digits) + tail;
    assert m[0] == Print(n)[0];
    assert sign == "" ==> sign + m == m;
    assert sign != "" ==> (sign + m)[1..] == m;
    SkipsSpace(blank, sign + m);
    MagnitudeOfDecimal(n, digits, tail);
  }

  lemma PrintHasNoComma(n: nat)
    ensures ',' !in Print(n)
  {
    var s := Print(n);
    assert forall i | 0 <= i < |s| :: IsDigit(s[i]);
  }

  // ---- whole lines ----

  /** The numbers of a line, in order. */
  function Values(line: string): (vs: seq<real>)
    ensures |vs| == |Tokens(line)|
  {
    var ts := Tokens(line);
    seq(|ts|, i requires 0 <= i < |ts| => Atof(ts[i]))
  }

  method ReadValues(line: string) returns (values: seq<real>)
    ensures values == Values(line)
  {
    var tokens := Split(line);
    values := [];
    for i := 0 to |tokens|
      invariant values == Values(line)[..i]
    {
      values := values + [Atof(tokens[i])];
    }
  }

  function PrintAll(ns: seq<nat>, tail: string): (ts: seq<string>)
    requires ns != []
    ensures |ts| == |ns|
  {
    seq(|ns|, i requires 0 <= i < |ns| => if i == |ns| - 1 then Print(ns[i]) + tail else Print(ns[i]))
  }

  /** The line that lists the numbers ns, closed by a line end. */
  function PrintLine(ns: seq<nat>, tail: string): string
    requires ns != []
  {
    Join(PrintAll(ns, tail))
  }

  /** Reading a printed line gives the numbers back, whatever comma-free end the line has. */
  lemma ValuesOfPrintLine(ns: seq<nat>, tail: string)
    requires ns != [] && Ends(tail) && ',' !in tail
    ensures |Values(PrintLine(ns, tail))| == |ns|
    ensures forall i | 0 <= i < |ns| :: Values(PrintLine(ns, tail))[i] == ns[i] as real
  {
    var ts := PrintAll(ns, tail);
    forall t | t in ts
      ensures ',' !in t
    {
      var i :| 0 <= i < |ns| && t == ts[i];
      PrintHasNoComma(ns[i]);
    }
    JoinThenSplit(ts);
    forall i | 0 <= i < |ns|
      ensures Atof(ts[i]) == ns[i] as real
    {
      AtofOfPrint(ns[i], if i == |ns| - 1 then tail else "");
      assert Print(ns[i]) + "" == Print(ns[i]);
    }
  }
}
