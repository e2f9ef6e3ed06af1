/** The string operations of the wire path: Go's strings package, Python's readlines, split and int. */
module Text {
  import opened Options

  function IndexOf(s: string, c: char): (i: nat)
    ensures i <= |s|
    ensures c !in s[..i] && (i < |s| ==> s[i] == c)
  {
    if s == "" || s[0] == c then 0 else 1 + IndexOf(s[1..], c)
  }

  /** strings.Split(s, sep) for a one-character separator. */
  function Split(s: string, c: char): seq<string>
    decreases |s|
  {
    var i := IndexOf(s, c);
    if i == |s| then [s] else [s[..i]] + Split(s[i + 1..], c)
  }

  /** strings.Count(s, sep) for a one-character separator. */
  function Count(s: string, c: char): nat {
    if s == "" then 0 else (if s[0] == c then 1 else 0) + Count(s[1..], c)
  }

  /** strings.ReplaceAll(s, old, new) for single characters. */
  function Replace(s: string, c: char, d: char): string {
    if s == "" then "" else [if s[0] == c then d else s[0]] + Replace(s[1..], c, d)
  }

  lemma {:induction false} IndexOfFirst(s: string, c: char, rest: string)
    requires c !in s
    ensures IndexOf(s + [c] + rest, c) == |s|
    ensures (s + [c] + rest)[..|s|] == s && (s + [c] + rest)[|s| + 1..] == rest
  {
    if s != "" {
      assert (s + [c] + rest)[1..] == s[1..] + [c] + rest;
      assert forall x :: x in s[1..] ==> x in s;
      IndexOfFirst(s[1..], c, rest);
    }
  }

  lemma {:induction false} IndexOfNone(s: string, c: char)
    requires c !in s
    ensures IndexOf(s, c) == |s|
  {
    if s != "" {
      assert forall x :: x in s[1..] ==> x in s;
      IndexOfNone(s[1..], c);
    }
  }

  lemma SplitFirst(s: string, c: char, rest: string)
    requires c !in s
    ensures Split(s + [c] + rest, c) == [s] + Split(rest, c)
  {
    IndexOfFirst(s, c, rest);
  }

  lemma SplitNone(s: string, c: char)
    requires c !in s
    ensures Split(s, c) == [s]
  {
    IndexOfNone(s, c);
  }

  lemma {:induction false} CountConcat(s: string, t: string, c: char)
    ensures Count(s + t, c) == Count(s, c) + Count(t, c)
  {
    if s == "" {
      assert s + t == t;
    } else {
      CountConcat(s[1..], t, c);
      assert (s + t)[1..] == s[1..] + t;
    }
  }

  lemma {:induction false} CountNone(s: string, c: char)
    requires c !in s
    ensures Count(s, c) == 0
  {
    if s != "" {
      assert forall x :: x in s[1..] ==> x in s;
      CountNone(s[1..], c);
    }
  }

  lemma {:induction false} ReplaceConcat(s: string, t: string, c: char, d: char)
    ensures Replace(s + t, c, d) == Replace(s, c, d) + Replace(t, c, d)
  {
    if s == "" {
      assert s + t == t;
    } else {
      ReplaceConcat(s[1..], t, c, d);
      assert (s + t)[1..] == s[1..] + t;
    }
  }

  lemma {:induction false} ReplaceNone(s: string, c: char, d: char)
    requires c !in s
    ensures Replace(s, c, d) == s
  {
    if s != "" {
      assert forall x :: x in s[1..] ==> x in s;
      ReplaceNone(s[1..], c, d);
    }
  }

  // ----- Decimal numbers

  predicate IsDigit(c: char) {
    '0' <= c <= '9'
  }

  function DigitValue(c: char): nat
    requires IsDigit(c)
  {
    c as int - '0' as int
  }

  function Digit(n: nat): (c: char)
    requires n < 10
    ensures IsDigit(c) && DigitValue(c) == n
  {
    ('0' as int + n) as char
  }

  function NatText(n: nat): (s: string)
    ensures s != "" && forall c :: c in s ==> IsDigit(c)
  {
    if n < 10 then [Digit(n)] else NatText(n / 10) + [Digit(n % 10)]
  }

  /** fmt.Sprintf("%d", n). */
  function Decimal(n: int): string {
    if n < 0 then "-" + NatText(-n) else NatText(n)
  }

  /** Digits, with single underscores between them, as int() accepts. */
  predicate IsNumeral(s: string) {
    && s != "" && IsDigit(s[0]) && IsDigit(s[|s| - 1])
    && forall i :: 0 <= i < |s| - 1 ==> IsDigit(s[i]) || (s[i] == '_' && IsDigit(s[i + 1]))
  }

  function NumeralValue(s: string): nat {
    if s == "" then 0
    else if IsDigit(s[|s| - 1]) then 10 * NumeralValue(s[..|s| - 1]) + DigitValue(s[|s| - 1])
    else NumeralValue(s[..|s| - 1])
  }

  /** Characters that Python's str.split and str.strip treat as white space. */
  predicate IsSpace(c: char) {
    || '\t' <= c <= '\r' || '\U{001c}' <= c <= '\U{0020}' || c == '\U{0085}' || c == '\U{00a0}'
    || c == '\U{1680}' || '\U{2000}' <= c <= '\U{200a}' || c == '\U{2028}' || c == '\U{2029}'
    || c == '\U{202f}' || c == '\U{205f}' || c == '\U{3000}'
  }

  function StripLeft(s: string): string {
    if s != "" && IsSpace(s[0]) then StripLeft(s[1..]) else s
  }

  function StripRight(s: string): string {
    if s != "" && IsSpace(s[|s| - 1]) then StripRight(s[..|s| - 1]) else s
  }

  /** int(s), for ASCII digits. */
  function PyInt(s: string): Option<int> {
    var t := StripRight(StripLeft(s));
    if t != "" && (t[0] == '-' || t[0] == '+') && IsNumeral(t[1..]) then
      var v: int := NumeralValue(t[1..]);
      Some(if t[0] == '-' then -v else v)
    else if IsNumeral(t) then Some(NumeralValue(t))
    else None
  }

  lemma {:induction false} NatTextValue(n: nat)
    ensures NumeralValue(NatText(n)) == n && IsNumeral(NatText(n))
  {
    var s := NatText(n);
    assert forall i :: 0 <= i < |s| ==> s[i] in s && IsDigit(s[i]);
    if n >= 10 {
      NatTextValue(n / 10);
      assert s[..|s| - 1] == NatText(n / 10);
    } else {
      assert s[..0] == "";
    }
  }

  lemma IntOfNumeral(s: string)
    requires IsNumeral(s)
    ensures PyInt(s) == PyInt(s + "\n") == Some(NumeralValue(s))
  {
    Stripped(s);
  }

  lemma IntOfNegative(s: string)
    requires IsNumeral(s)
    ensures var v: int := NumeralValue(s); PyInt("-" + s) == PyInt("-" + s + "\n") == Some(-v)
  {
    Stripped("-" + s);
    assert ("-" + s)[1..] == s;
  }

  /** int() reads back a printed number, sign and line end and all. */
  lemma DecimalReadBack(n: int)
    ensures PyInt(Decimal(n) + "\n") == Some(n) && PyInt(Decimal(n)) == Some(n)
  {
    NatTextValue(if n < 0 then -n else n);
    if n < 0 {
      IntOfNegative(NatText(-n));
    } else {
      IntOfNumeral(NatText(n));
    }
  }

  lemma Stripped(s: string)
    requires s != "" && !IsSpace(s[0]) && !IsSpace(s[|s| - 1])
    ensures StripRight(StripLeft(s)) == s && StripRight(StripLeft(s + "\n")) == s
  {
    assert (s + "\n")[0] == s[0] && (s + "\n")[..|s|] == s;
  }

  /** There is one part more than there are separators. */
  lemma {:induction false} SplitCount(s: string, c: char)
    ensures |Split(s, c)| == Count(s, c) + 1
    decreases |s|
  {
    var i := IndexOf(s, c);
    if i == |s| {
      assert s[..i] == s;
      CountNone(s, c);
    } else {
      var rest := s[i + 1..];
      assert s == s[..i] + ([c] + rest);
      CountConcat(s[..i], [c] + rest, c);
      CountNone(s[..i], c);
      assert ([c] + rest)[1..] == rest;
      SplitCount(rest, c);
    }
  }

  // ----- Lines and words

  /** Text mode turns every "\r\n" and "\r" into "\n". */
  function UniversalNewlines(s: string): string {
    if s == "" then ""
    else if s[0] == '\r' then
      "\n" + UniversalNewlines(if |s| > 1 && s[1] == '\n' then s[2..] else s[1..])
    else [s[0]] + UniversalNewlines(s[1..])
  }

  /** f.readlines() after newline translation: each line keeps its "\n". */
  function Lines(s: string): seq<string>
    decreases |s|
  {
    var i := IndexOf(s, '\n');
    if s == "" then []
    else if i == |s| then [s]
    else [s[..i + 1]] + Lines(s[i + 1..])
  }

  /** s.split(): the maximal runs of non-space characters. */
  function Words(s: string): seq<string> {
    if s == "" then []
    else if IsSpace(s[0]) then Words(s[1..])
    else if |s| == 1 || IsSpace(s[1]) then [[s[0]]] + Words(s[1..])
    else
      var rest := Words(s[1..]);
      [[s[0]] + rest[0]] + rest[1..]
  }

  lemma {:induction false} NoReturns(s: string)
    requires '\r' !in s
    ensures UniversalNewlines(s) == s
  {
    if s != "" {
      assert forall x :: x in s[1..] ==> x in s;
      NoReturns(s[1..]);
    }
  }

  lemma LinesFirst(s: string, rest: string)
    requires '\n' !in s
    ensures Lines(s + "\n" + rest) == [s + "\n"] + Lines(rest)
  {
    IndexOfFirst(s, '\n', rest);
    assert (s + "\n" + rest)[..|s| + 1] == s + "\n";
  }

  ghost predicate NoSpace(s: string) {
    forall c :: c in s ==> !IsSpace(c)
  }

  lemma {:induction false} WordsFirst(w: string, c: char, rest: string)
    requires w != "" && NoSpace(w) && IsSpace(c)
    ensures Words(w + [c] + rest) == [w] + Words(rest)
  {
    var s := w + [c] + rest;
    assert s[1..] == w[1..] + [c] + rest;
    assert w[0] in w;
    if |w| == 1 {
      assert s[1..][0] == c && s[1..][1..] == rest && [w[0]] == w;
    } else {
      assert w[1] in w && s[1] == w[1];
      assert forall x :: x in w[1..] ==> x in w;
      WordsFirst(w[1..], c, rest);
      assert [w[0]] + w[1..] == w;
    }
  }
}
