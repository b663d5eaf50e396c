/** The string operations the Go code takes from its standard library:
    `strings.Split` with a one-character separator, the `%d` verb of `fmt`
    for non-negative integers, and concatenation of many pieces. */
module Strings {

  /** Number of occurrences of `c` in `s`. */
  function CountChar(s: string, c: char): nat
  {
    if |s| == 0 then 0 else (if s[0] == c then 1 else 0) + CountChar(s[1..], c)
  }

  /** The parts put back together with `sep` between them (Go's `strings.Join`). */
  function Join(parts: seq<string>, sep: char): string
    requires |parts| > 0
    decreases |parts|
  {
    if |parts| == 1 then parts[0] else parts[0] + [sep] + Join(parts[1..], sep)
  }

  /** Go's `strings.Split(s, sep)` for a one-character separator: the pieces
      between the occurrences of `sep`, one more than there are occurrences
      (so the empty string gives `[""]`). */
  function Split(s: string, sep: char): (parts: seq<string>)
    ensures |parts| == CountChar(s, sep) + 1
    decreases |s|
  {
    if |s| == 0 then [""]
    else
      var rest := Split(s[1..], sep);
      if s[0] == sep then [""] + rest else [[s[0]] + rest[0]] + rest[1..]
  }

  /** The pieces hold no separator, and joining them with it gives back the
      input. */
  lemma {:induction false} JoinSplit(s: string, sep: char)
    ensures forall i :: 0 <= i < |Split(s, sep)| ==> sep !in Split(s, sep)[i]
    ensures Join(Split(s, sep), sep) == s
    decreases |s|
  {
    if |s| > 0 {
      var rest := Split(s[1..], sep);
      JoinSplit(s[1..], sep);
      if s[0] == sep {
        assert ([""] + rest)[1..] == rest;
      } else {
        var parts := [[s[0]] + rest[0]] + rest[1..];
        assert |rest| > 1 ==> parts[1..] == rest[1..];
        assert s == [s[0]] + s[1..];
      }
    }
  }

  /** A piece without a separator is not split. */
  lemma {:induction false} SplitNoSep(a: string, sep: char)
    requires sep !in a
    ensures Split(a, sep) == [a]
    decreases |a|
  {
    if |a| > 0 {
      SplitNoSep(a[1..], sep);
      assert a == [a[0]] + a[1..];
    }
  }

  /** Splitting at the first separator. */
  lemma {:induction false} SplitAt(a: string, b: string, sep: char)
    requires sep !in a
    ensures Split(a + [sep] + b, sep) == [a] + Split(b, sep)
    decreases |a|
  {
    var s := a + [sep] + b;
    if |a| == 0 {
      assert s[1..] == b;
    } else {
      assert s[1..] == a[1..] + [sep] + b;
      SplitAt(a[1..], b, sep);
      assert [s[0]] + a[1..] == a;
    }
  }

  /** Split undoes Join when no part holds the separator. */
  lemma {:induction false} SplitJoin(parts: seq<string>, sep: char)
    requires |parts| > 0
    requires forall i :: 0 <= i < |parts| ==> sep !in parts[i]
    ensures Split(Join(parts, sep), sep) == parts
    decreases |parts|
  {
    if |parts| == 1 {
      SplitNoSep(parts[0], sep);
    } else {
      SplitJoin(parts[1..], sep);
      SplitAt(parts[0], Join(parts[1..], sep), sep);
      assert [parts[0]] + parts[1..] == parts;
    }
  }

  predicate IsDigit(c: char)
  {
    '0' <= c <= '9'
  }

  predicate AllDigits(s: string)
  {
    forall i :: 0 <= i < |s| ==> IsDigit(s[i])
  }

  function DigitChar(d: nat): (c: char)
    requires d < 10
    ensures IsDigit(c)
  {
    (48 + d) as char
  }

  function DigitValue(c: char): (d: nat)
    requires IsDigit(c)
    ensures d < 10
  {
    c as int - 48
  }

  /** `fmt.Sprintf("%d", n)` for a non-negative `n`: decimal digits, most
      significant first, without leading zeros. */
  function FormatDecimal(n: nat): (s: string)
    ensures |s| > 0 && AllDigits(s)
    ensures s[0] == '0' <==> n == 0
    decreases n
  {
    if n < 10 then [DigitChar(n)] else FormatDecimal(n / 10) + [DigitChar(n % 10)]
  }

  /** The value of a string of decimal digits (the inverse of FormatDecimal). */
  function ParseDecimal(s: string): nat
    requires AllDigits(s)
    decreases |s|
  {
    if |s| == 0 then 0 else 10 * ParseDecimal(s[..|s| - 1]) + DigitValue(s[|s| - 1])
  }

  /** Reading back the decimal text of `n` gives `n`. */
  lemma {:induction false} ParseFormatDecimal(n: nat)
    ensures ParseDecimal(FormatDecimal(n)) == n
    decreases n
  {
    var s := FormatDecimal(n);
    if n >= 10 {
      ParseFormatDecimal(n / 10);
      assert s[..|s| - 1] == FormatDecimal(n / 10);
    }
  }

  /** The pieces written one after another (a `strings.Builder` or `+=` loop). */
  function Concat(parts: seq<string>): string
    decreases |parts|
  {
    if parts == [] then "" else parts[0] + Concat(parts[1..])
  }

  /** Writing one more piece appends it. */
  lemma {:induction false} ConcatSnoc(parts: seq<string>, x: string)
    ensures Concat(parts + [x]) == Concat(parts) + x
    decreases |parts|
  {
    if parts != [] {
      assert (parts + [x])[1..] == parts[1..] + [x];
      ConcatSnoc(parts[1..], x);
    }
  }

  /** Each line followed by a newline. */
  function Terminated(lines: seq<string>): (r: seq<string>)
    ensures |r| == |lines|
    ensures forall i :: 0 <= i < |lines| ==> r[i] == lines[i] + "\n"
  {
    seq(|lines|, i requires 0 <= i < |lines| => lines[i] + "\n")
  }

  /** Newline-terminated lines written one after another split back into
      those lines. */
  lemma {:induction false} SplitLines(lines: seq<string>, tail: string)
    requires forall i :: 0 <= i < |lines| ==> '\n' !in lines[i]
    ensures Split(Concat(Terminated(lines)) + tail, '\n') == lines + Split(tail, '\n')
    decreases |lines|
  {
    if lines == [] {
      SplitNoLines(lines, tail);
    } else {
      SplitFirstLine(lines, tail);
      SplitLines(lines[1..], tail);
      assert lines == [lines[0]] + lines[1..];
    }
  }

  /** No lines leave the tail alone. */
  lemma SplitNoLines(lines: seq<string>, tail: string)
    requires lines == []
    ensures Split(Concat(Terminated(lines)) + tail, '\n') == lines + Split(tail, '\n')
  {
    assert Terminated(lines) == [];
    assert "" + tail == tail;
  }

  /** The first line splits off. */
  lemma SplitFirstLine(lines: seq<string>, tail: string)
    requires lines != [] && '\n' !in lines[0]
    ensures Split(Concat(Terminated(lines)) + tail, '\n') == [lines[0]] + Split(Concat(Terminated(lines[1..])) + tail, '\n')
  {
    TerminatedFirst(lines, tail);
    SplitLine(lines[0], Concat(Terminated(lines[1..])) + tail);
  }

  /** The first line and its newline come first. */
  lemma TerminatedFirst(lines: seq<string>, tail: string)
    requires lines != []
    ensures Concat(Terminated(lines)) + tail == (lines[0] + "\n") + (Concat(Terminated(lines[1..])) + tail)
  {
    assert Terminated(lines)[1..] == Terminated(lines[1..]);
    AppendAssoc(lines[0] + "\n", Concat(Terminated(lines[1..])), tail);
  }

  /** A line without a newline, its newline, then the rest. */
  lemma SplitLine(line: string, rest: string)
    requires '\n' !in line
    ensures Split((line + "\n") + rest, '\n') == [line] + Split(rest, '\n')
  {
    SplitAt(line, rest, '\n');
    assert line + ['\n'] == line + "\n";
  }

  /** Writing `b` and then `c` after `a` is writing `b + c` after it. */
  lemma AppendAssoc(a: string, b: string, c: string)
    ensures (a + b) + c == a + (b + c)
  {
  }
}
