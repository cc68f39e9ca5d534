/** The standard-library string primitives the client relies on, stated over
    `seq<char>`: `std::string::find`, `std::getline` over an
    `std::istringstream`, `std::isspace` in the "C" locale, `std::to_string`
    and `operator<<` on integers, and `std::stoi`. */
module Text {
  import opened Wrappers

  const MinInt: int := -0x8000_0000
  const MaxInt: int := 0x7FFF_FFFF

  /** An `int` of the C++ sources (32 bits wide). */
  predicate InInt32(i: int) {
    MinInt <= i <= MaxInt
  }

  /** `std::string::find(c, from)`: the first index at or after `from` that
      holds `c`; `|s|` stands for `npos`. */
  function IndexOf(s: string, c: char, from: nat): (i: nat)
    requires from <= |s|
    ensures from <= i <= |s|
    ensures i < |s| ==> s[i] == c
    ensures forall j :: from <= j < i ==> s[j] != c
    decreases |s| - from
  {
    if from == |s| then |s|
    else if s[from] == c then from
    else IndexOf(s, c, from + 1)
  }

  /** Searching from `from` is searching the suffix that starts there. */
  lemma {:induction false} IndexOfSuffix(s: string, c: char, from: nat)
    requires from <= |s|
    ensures IndexOf(s[from..], c, 0) == IndexOf(s, c, from) - from
    decreases |s| - from
  {
    var t := s[from..];
    assert forall j :: 0 <= j < |t| ==> t[j] == s[from + j];
  }

  /** The first `c` of `a + [c] + b` is the one right after `a` when `a`
      holds none. */
  lemma IndexOfAfter(a: string, c: char, b: string)
    requires c !in a
    ensures IndexOf(a + [c] + b, c, 0) == |a|
  {
    var s := a + [c] + b;
    assert s[|a|] == c;
    assert forall j :: 0 <= j < |a| ==> s[j] == a[j];
  }

  /** A line of `s` that starts at `pos` and holds no newline ends at the
      first newline after `pos`. */
  lemma IndexOfLineAt(s: string, pos: nat, line: string)
    requires '\n' !in line
    requires pos + |line| < |s| && s[pos..pos + |line| + 1] == line + "\n"
    ensures IndexOf(s, '\n', pos) == pos + |line|
    ensures s[pos..pos + |line|] == line
  {
    var t := s[pos..];
    assert t[..|line| + 1] == line + "\n";
    assert t == line + "\n" + t[|line| + 1..];
    IndexOfAfter(line, '\n', t[|line| + 1..]);
    IndexOfSuffix(s, '\n', pos);
    assert s[pos..pos + |line|] == t[..|line|];
  }

  /** A slice that reads `a + b` splits into a slice reading `a` and one
      reading `b`. */
  lemma SliceSplit(s: string, i: nat, j: nat, a: string, b: string)
    requires i <= j <= |s| && s[i..j] == a + b
    ensures i + |a| <= j
    ensures s[i..i + |a|] == a && s[i + |a|..j] == b
  {
    var t := s[i..j];
    assert |t| == |a| + |b|;
    assert t[..|a|] == a && t[|a|..] == b;
    assert s[i..i + |a|] == t[..|a|];
    assert s[i + |a|..j] == t[|a|..];
  }

  /** The three slices of a concatenation of three strings. */
  lemma Parts3(x: string, y: string, z: string)
    ensures (x + y + z)[..|x|] == x
    ensures (x + y + z)[0..|x|] == x
    ensures (x + y + z)[|x|..|x| + |y|] == y
    ensures (x + y + z)[|x| + |y|..] == z
    ensures |x + y + z| == |x| + |y| + |z|
  {
  }

  /** `s.rfind(p, 0) == 0`, `s.substr(0, |p|) == p`: `s` begins with `p`. */
  predicate StartsWith(s: string, p: string) {
    |p| <= |s| && s[..|p|] == p
  }

  /** `line.substr(n)` followed by erasing one leading blank, as the event
      parser and `getUserFromBody` do after a field prefix. */
  function AfterPrefix(line: string, n: nat): (r: string)
    requires n <= |line|
    ensures line[n..] == r || line[n..] == [' '] + r
  {
    var rest := line[n..];
    if rest != [] && rest[0] == ' ' then rest[1..] else rest
  }

  /** A prefix written with one blank after it is read back exactly. */
  lemma AfterPrefixOf(p: string, s: string)
    ensures AfterPrefix(p + " " + s, |p|) == s
  {
    assert (p + " " + s)[|p|..] == [' '] + s;
  }

  /** `s` does not start with `p` when they differ at a position both have. */
  lemma DiffersAt(s: string, p: string, i: nat)
    requires i < |s| && i < |p| && s[i] != p[i]
    ensures !StartsWith(s, p)
  {
  }

  /** The lines `std::getline(iss, line)` yields for the text `s`: the pieces
      between newlines, where a last piece is produced only when it is not
      empty (text ending in a newline has no extra empty line). */
  function Lines(s: string): (ls: seq<string>)
    ensures forall k :: 0 <= k < |ls| ==> '\n' !in ls[k]
    decreases |s|
  {
    if s == [] then []
    else
      var i := IndexOf(s, '\n', 0);
      if i == |s| then [s] else [s[..i]] + Lines(s[i + 1..])
  }

  /** Each line followed by a newline: what writing `line << "\n"` for each
      element produces. */
  function Unlines(ls: seq<string>): string {
    if ls == [] then [] else ls[0] + "\n" + Unlines(ls[1..])
  }

  /** One line written with its newline is read back by `getline` as that
      line, and reading continues right after it. */
  lemma LinesCons(line: string, rest: string)
    requires '\n' !in line
    ensures Lines(line + "\n" + rest) == [line] + Lines(rest)
  {
    var s := line + "\n" + rest;
    assert s[|line|] == '\n';
    assert forall j :: 0 <= j < |line| ==> s[j] == line[j];
    var i := IndexOf(s, '\n', 0);
    assert i == |line|;
    assert s[..i] == line;
    assert s[i + 1..] == rest;
  }

  lemma AppendAfterLine(line: string, more: string, rest: string)
    ensures line + "\n" + more + rest == line + "\n" + (more + rest)
  {
  }

  /** `getline` reads back exactly the lines that were written, one per
      newline, when no line holds a newline of its own. */
  lemma {:induction false} LinesOfUnlines(ls: seq<string>, rest: string)
    requires forall k :: 0 <= k < |ls| ==> '\n' !in ls[k]
    ensures Lines(Unlines(ls) + rest) == ls + Lines(rest)
  {
    if ls == [] {
      assert Unlines(ls) + rest == rest;
    } else {
      var head, tail := ls[0], ls[1..];
      assert forall k :: 0 <= k < |tail| ==> tail[k] == ls[k + 1];
      LinesOfUnlines(tail, rest);
      assert Unlines(ls) == head + "\n" + Unlines(tail);
      LinesAfterLine(head, Unlines(tail), rest, tail + Lines(rest));
      ConsAppend(ls, Lines(rest));
    }
  }

  lemma ConsAppend<T>(a: seq<T>, b: seq<T>)
    requires a != []
    ensures a + b == [a[0]] + (a[1..] + b)
  {
  }

  /** Writing two runs of lines one after the other. */
  lemma {:induction false} UnlinesAppend(a: seq<string>, b: seq<string>)
    ensures Unlines(a + b) == Unlines(a) + Unlines(b)
    decreases |a|
  {
    if a == [] {
      assert a + b == b;
    } else {
      assert (a + b)[1..] == a[1..] + b;
      UnlinesAppend(a[1..], b);
    }
  }

  /** Writing one more line after a run of lines. */
  lemma UnlinesSnoc(ls: seq<string>, x: string)
    ensures Unlines(ls + [x]) == Unlines(ls) + x + "\n"
  {
    UnlinesAppend(ls, [x]);
    assert Unlines([x]) == x + "\n" + Unlines([]);
  }

  /** `if (!line.empty() && line.back() == '\r') line.pop_back();`: one
      trailing carriage return is dropped. */
  function StripCr(line: string): (r: string)
    ensures r == line || line == r + "\r"
  {
    if |line| > 0 && line[|line| - 1] == '\r' then line[..|line| - 1] else line
  }

  /** A text that `getline` and `StripCr` hand back unchanged when it is
      written as a line of its own. */
  predicate OneLine(s: string) {
    '\n' !in s && (s == [] || s[|s| - 1] != '\r')
  }

  lemma LinesAfterLine(line: string, more: string, rest: string, tail: seq<string>)
    requires '\n' !in line && Lines(more + rest) == tail
    ensures Lines(line + "\n" + more + rest) == [line] + tail
  {
    AppendAfterLine(line, more, rest);
    LinesCons(line, more + rest);
  }

  /** `std::isspace` in the "C" locale: blank, tab, newline, vertical tab,
      form feed, carriage return. */
  predicate IsSpace(c: char) {
    c == ' ' || c == '\t' || c == '\n' || c == '\U{B}' || c == '\U{C}' || c == '\r'
  }

  predicate IsDigit(c: char) {
    '0' <= c <= '9'
  }

  predicate AllDigits(s: string) {
    forall k :: 0 <= k < |s| ==> IsDigit(s[k])
  }

  function DigitChar(d: nat): (c: char)
    requires d < 10
    ensures IsDigit(c)
  {
    (48 + d) as char
  }

  /** `std::to_string` of a non-negative integer: its decimal digits, most
      significant first, without leading zeros. */
  function NatToString(n: nat): (s: string)
    ensures s != [] && AllDigits(s)
    ensures n > 0 ==> s[0] != '0'
    decreases n
  {
    if n < 10 then [DigitChar(n)] else NatToString(n / 10) + [DigitChar(n % 10)]
  }

  /** `operator<<` and `std::to_string` on an `int`: a minus sign before the
      digits of a negative value. */
  function IntToString(i: int): string {
    if i < 0 then "-" + NatToString(-i) else NatToString(i)
  }

  /** The number a string of decimal digits denotes. */
  function DigitsValue(s: string): nat
    requires AllDigits(s)
  {
    if s == [] then 0
    else DigitsValue(s[..|s| - 1]) * 10 + (s[|s| - 1] as int - 48)
  }

  /** Reading back the decimal digits of `n` gives `n`. */
  lemma {:induction false} DigitsValueOfNatToString(n: nat)
    ensures DigitsValue(NatToString(n)) == n
    decreases n
  {
    if n >= 10 {
      var s := NatToString(n);
      assert s[..|s| - 1] == NatToString(n / 10);
      DigitsValueOfNatToString(n / 10);
    }
  }

  /** Distinct numbers have distinct decimal renderings. */
  lemma NatToStringInjective(a: nat, b: nat)
    ensures NatToString(a) == NatToString(b) ==> a == b
  {
    DigitsValueOfNatToString(a);
    DigitsValueOfNatToString(b);
  }

  /** A decimal numeral ends in a digit. */
  lemma IntToStringEndsInDigit(i: int)
    ensures IntToString(i) != [] && IsDigit(IntToString(i)[|IntToString(i)| - 1])
  {
    var n := NatToString(if i < 0 then -i else i);
    assert IntToString(i)[|IntToString(i)| - 1] == n[|n| - 1];
  }

  /** `s` less its leading white space. */
  function DropLeadingSpaces(s: string): (r: string)
    ensures |r| <= |s| && r == s[|s| - |r|..]
    ensures forall k :: 0 <= k < |s| - |r| ==> IsSpace(s[k])
    ensures r != [] ==> !IsSpace(r[0])
  {
    if s != [] && IsSpace(s[0]) then DropLeadingSpaces(s[1..]) else s
  }

  /** `s` less its trailing white space. */
  function DropTrailingSpaces(s: string): (r: string)
    ensures |r| <= |s| && r == s[..|r|]
    ensures forall k :: |r| <= k < |s| ==> IsSpace(s[k])
    ensures r != [] ==> !IsSpace(r[|r| - 1])
  {
    if s != [] && IsSpace(s[|s| - 1]) then DropTrailingSpaces(s[..|s| - 1]) else s
  }

  /** The longest prefix of `s` made of decimal digits. */
  function DigitPrefix(s: string): (d: string)
    ensures AllDigits(d) && |d| <= |s| && d == s[..|d|]
    ensures |d| < |s| ==> !IsDigit(s[|d|])
  {
    if s != [] && IsDigit(s[0]) then [s[0]] + DigitPrefix(s[1..]) else []
  }

  lemma {:induction false} DigitPrefixOfDigits(s: string)
    requires AllDigits(s)
    ensures DigitPrefix(s) == s
  {
    if s != [] {
      DigitPrefixOfDigits(s[1..]);
      assert s == [s[0]] + s[1..];
    }
  }

  /** `std::stoi(s)`: leading white space is skipped, an optional sign is
      read, then the longest run of decimal digits; `None` stands for the
      exceptions it throws when there is no digit (`invalid_argument`) or the
      value does not fit an `int` (`out_of_range`). Text after the digits is
      ignored. */
  function StoI(s: string): (r: Option<int>)
    ensures r.Some? ==> InInt32(r.value)
  {
    SignedValue(DropLeadingSpaces(s))
  }

  /** The optional sign and the digits after it. */
  function SignedValue(t: string): (r: Option<int>)
    ensures r.Some? ==> InInt32(r.value)
  {
    if t != [] && t[0] == '-' then Int32Of(DigitPrefix(t[1..]), true)
    else if t != [] && t[0] == '+' then Int32Of(DigitPrefix(t[1..]), false)
    else Int32Of(DigitPrefix(t), false)
  }

  /** The value of a run of digits with its sign, when there is at least one
      digit and the value fits an `int`. */
  function Int32Of(d: string, negative: bool): (r: Option<int>)
    requires AllDigits(d)
    ensures r.Some? ==> InInt32(r.value)
  {
    if d == [] then None
    else
      var v: int := if negative then -(DigitsValue(d) as int) else DigitsValue(d);
      if InInt32(v) then Some(v) else None
  }

  lemma DropLeadingSpacesOfDigits(s: string)
    requires s != [] && IsDigit(s[0])
    ensures DropLeadingSpaces(s) == s
  {
  }

  lemma StoIOfNatToString(n: nat)
    requires n <= MaxInt
    ensures StoI(NatToString(n)) == Some(n)
  {
    DropLeadingSpacesOfDigits(NatToString(n));
    DigitPrefixOfDigits(NatToString(n));
    DigitsValueOfNatToString(n);
  }

  lemma StoIOfSignedDigits(d: string)
    requires d != [] && AllDigits(d)
    ensures StoI("-" + d) == Int32Of(d, true)
  {
    assert ("-" + d)[0] == '-';
    assert DropLeadingSpaces("-" + d) == "-" + d;
    assert ("-" + d)[1..] == d;
    DigitPrefixOfDigits(d);
  }

  lemma StoIOfNegated(n: nat)
    requires 0 < n <= -MinInt
    ensures StoI("-" + NatToString(n)) == Some(-(n as int))
  {
    StoIOfSignedDigits(NatToString(n));
    DigitsValueOfNatToString(n);
  }

  /** `std::stoi` reads back what `operator<<` wrote for any `int`. */
  lemma StoIOfIntToString(i: int)
    requires InInt32(i)
    ensures StoI(IntToString(i)) == Some(i)
  {
    if i < 0 {
      StoIOfNegated(-i);
    } else {
      StoIOfNatToString(i);
    }
  }
}
