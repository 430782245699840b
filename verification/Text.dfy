/**
  The string functions the parsers use.  Case mapping is ASCII; white space is the full Unicode
  property for `strings` functions and the five ASCII characters of `\s` for regular expressions.
*/
module Text {
  import opened Models

  // ---------------------------------------------------------------- characters

  predicate IsUpper(c: char) {
    'A' <= c <= 'Z'
  }

  predicate IsLower(c: char) {
    'a' <= c <= 'z'
  }

  predicate IsDigit(c: char) {
    '0' <= c <= '9'
  }

  /** unicode.IsSpace */
  predicate IsSpace(c: char) {
    || '\t' <= c <= '\r' || c == ' ' || c == '\U{85}' || c == '\U{A0}' || c == '\U{1680}'
    || '\U{2000}' <= c <= '\U{200A}' || c == '\U{2028}' || c == '\U{2029}' || c == '\U{202F}' || c == '\U{205F}'
    || c == '\U{3000}'
  }

  /** The class \s: unlike unicode.IsSpace it lacks the vertical tab. */
  predicate IsBlank(c: char) {
    c == ' ' || c == '\t' || c == '\n' || c == '\U{0C}' || c == '\r'
  }

  /** The class \w, which decides word boundaries. */
  predicate IsWord(c: char) {
    IsUpper(c) || IsLower(c) || IsDigit(c) || c == '_'
  }

  function Upper(c: char): char {
    if IsLower(c) then c - 'a' + 'A' else c
  }

  function Lower(c: char): char {
    if IsUpper(c) then c - 'A' + 'a' else c
  }

  function ToUpper(s: string): (r: string)
    ensures |r| == |s|
  {
    seq(|s|, i requires 0 <= i < |s| => Upper(s[i]))
  }

  function ToLower(s: string): (r: string)
    ensures |r| == |s|
  {
    seq(|s|, i requires 0 <= i < |s| => Lower(s[i]))
  }

  /** Case mapping moves letters by their place in the alphabet and leaves every other character alone. */
  lemma CaseMapping(s: string, i: nat)
    requires i < |s|
    ensures if IsLower(s[i]) then IsUpper(ToUpper(s)[i]) && ToUpper(s)[i] - 'A' == s[i] - 'a' else ToUpper(s)[i] == s[i]
    ensures if IsUpper(s[i]) then IsLower(ToLower(s)[i]) && ToLower(s)[i] - 'a' == s[i] - 'A' else ToLower(s)[i] == s[i]
  {
  }

  // ---------------------------------------------------------------- trimming and splitting

  function TrimLeft(s: string): string {
    if s != [] && IsSpace(s[0]) then TrimLeft(s[1..]) else s
  }

  function TrimRight(s: string): string {
    if s != [] && IsSpace(s[|s| - 1]) then TrimRight(s[..|s| - 1]) else s
  }

  function TrimSpace(s: string): string {
    TrimRight(TrimLeft(s))
  }

  lemma TrimIdle(s: string)
    requires s == [] || (!IsSpace(s[0]) && !IsSpace(s[|s| - 1]))
    ensures TrimSpace(s) == s
  {
  }

  lemma {:induction false} TrimLeftOf(left: string, rest: string)
    requires All(left, IsSpace) && (rest == "" || !IsSpace(rest[0]))
    ensures TrimLeft(left + rest) == rest
  {
    if left == "" {
      assert left + rest == rest;
    } else {
      assert (left + rest)[0] == left[0] && (left + rest)[1..] == left[1..] + rest;
      TrimLeftOf(left[1..], rest);
    }
  }

  lemma {:induction false} TrimRightOf(rest: string, right: string)
    requires All(right, IsSpace) && (rest == "" || !IsSpace(rest[|rest| - 1]))
    ensures TrimRight(rest + right) == rest
  {
    if right == "" {
      assert rest + right == rest;
    } else {
      var n := |right| - 1;
      assert (rest + right)[|rest| + n] == right[n] && (rest + right)[..|rest| + n] == rest + right[..n];
      TrimRightOf(rest, right[..n]);
    }
  }

  /** All space around a text is removed, and nothing else. */
  lemma TrimOf(left: string, core: string, right: string)
    requires All(left, IsSpace) && All(right, IsSpace)
    requires core != "" && !IsSpace(core[0]) && !IsSpace(core[|core| - 1])
    ensures TrimSpace(left + (core + right)) == core
  {
    assert (core + right)[0] == core[0];
    TrimLeftOf(left, core + right);
    TrimRightOf(core, right);
  }

  /** Only a text of nothing but space trims to nothing. */
  lemma {:induction false} TrimmedEmpty(s: string)
    ensures TrimSpace(s) == "" <==> All(s, IsSpace)
  {
    if All(s, IsSpace) {
      assert s == s + "";
      TrimLeftOf(s, "");
    } else {
      var i :| 0 <= i < |s| && !IsSpace(s[i]);
      TrimKeeps(s, i);
    }
  }

  lemma {:induction false} TrimLeftKeeps(s: string, i: nat) returns (j: nat)
    requires i < |s| && !IsSpace(s[i])
    ensures j < |TrimLeft(s)| && TrimLeft(s)[j] == s[i]
  {
    if IsSpace(s[0]) {
      j := TrimLeftKeeps(s[1..], i - 1);
    } else {
      j := i;
    }
  }

  lemma {:induction false} TrimRightKeeps(s: string, i: nat)
    requires i < |s| && !IsSpace(s[i])
    ensures TrimRight(s) != ""
  {
    if IsSpace(s[|s| - 1]) {
      TrimRightKeeps(s[..|s| - 1], i);
    }
  }

  lemma TrimKeeps(s: string, i: nat)
    requires i < |s| && !IsSpace(s[i])
    ensures TrimSpace(s) != ""
  {
    var j := TrimLeftKeeps(s, i);
    TrimRightKeeps(TrimLeft(s), j);
  }

  /** The length of the longest prefix whose characters all satisfy `p`. */
  function Span(s: string, p: char -> bool): (n: nat)
    ensures n <= |s| && (forall i :: 0 <= i < n ==> p(s[i])) && (n < |s| ==> !p(s[n]))
  {
    if s == [] || !p(s[0]) then 0 else 1 + Span(s[1..], p)
  }

  predicate All(s: string, p: char -> bool) {
    forall i :: 0 <= i < |s| ==> p(s[i])
  }

  /** `s` ends here, as far as a run of `p` is concerned. */
  predicate Stops(s: string, p: char -> bool) {
    s == [] || !p(s[0])
  }

  lemma SpanOf(word: string, tail: string, p: char -> bool)
    requires All(word, p) && Stops(tail, p)
    ensures Span(word + tail, p) == |word|
    ensures (word + tail)[..|word|] == word && (word + tail)[|word|..] == tail
  {
    var s := word + tail;
    assert forall i :: 0 <= i < |word| ==> s[i] == word[i];
    assert tail != [] ==> s[|word|] == tail[0];
  }

  predicate NotSpace(c: char) {
    !IsSpace(c)
  }

  predicate NotBlank(c: char) {
    !IsBlank(c)
  }

  /** strings.Fields */
  function Fields(s: string): seq<string>
    decreases |s|
  {
    if s == [] then []
    else if IsSpace(s[0]) then Fields(s[1..])
    else var n := Span(s, NotSpace); [s[..n]] + Fields(s[n..])
  }

  /** Prefixing a word that ends where white space or the end follows. */
  lemma FieldsOfWord(word: string, tail: string)
    requires word != [] && All(word, NotSpace) && Stops(tail, NotSpace)
    ensures Fields(word + tail) == [word] + Fields(tail)
  {
    SpanOf(word, tail, NotSpace);
    assert (word + tail)[0] == word[0];
  }

  lemma {:induction false} FieldsOfGap(gap: string, tail: string)
    requires All(gap, IsSpace)
    ensures Fields(gap + tail) == Fields(tail)
  {
    if gap == [] {
      assert gap + tail == tail;
    } else {
      assert (gap + tail)[0] == gap[0] && (gap + tail)[1..] == gap[1..] + tail;
      FieldsOfGap(gap[1..], tail);
    }
  }

  // ---------------------------------------------------------------- decimal numbers

  function Value(digits: string): nat
    requires All(digits, IsDigit)
  {
    if digits == [] then 0 else 10 * Value(digits[..|digits| - 1]) + (digits[|digits| - 1] - '0') as nat
  }

  const INT64_MAX: nat := 0x7FFF_FFFF_FFFF_FFFF

  /** strconv.Atoi on a 64-bit platform: an optional sign, digits, and the range of int. */
  function Atoi(s: string): Option<int> {
    var signed := s != [] && (s[0] == '-' || s[0] == '+');
    var digits := if signed then s[1..] else s;
    if digits == [] || !All(digits, IsDigit) then None
    else
      var n: int := Value(digits);
      if signed && s[0] == '-' then (if n <= INT64_MAX + 1 then Some(-n) else None)
      else if n <= INT64_MAX then Some(n) else None
  }

  function Digit(d: nat): (c: char)
    requires d < 10
    ensures IsDigit(c) && (c - '0') as nat == d
  {
    '0' + d as char
  }

  /** The decimal numeral of a natural number. */
  function Itoa(n: nat): (s: string)
    ensures s != [] && All(s, IsDigit)
  {
    if n < 10 then [Digit(n)] else Itoa(n / 10) + [Digit(n % 10)]
  }

  lemma {:induction false} ValueOfItoa(n: nat)
    ensures Value(Itoa(n)) == n
  {
    if n >= 10 {
      ValueOfItoa(n / 10);
      var s := Itoa(n);
      assert s[..|s| - 1] == Itoa(n / 10) && s[|s| - 1] == Digit(n % 10);
    } else {
      assert Itoa(n)[..0] == [];
    }
  }

  /** Decimal round trip over the whole range of int. */
  lemma AtoiOfItoa(n: nat)
    ensures n <= INT64_MAX ==> Atoi(Itoa(n)) == Some(n)
    ensures n <= INT64_MAX + 1 ==> Atoi("-" + Itoa(n)) == Some(-(n as int))
    ensures n > INT64_MAX ==> Atoi(Itoa(n)) == None
  {
    ValueOfItoa(n);
    assert IsDigit(Itoa(n)[0]);
    assert ("-" + Itoa(n))[1..] == Itoa(n);
  }

  /** An optional sign and digits, and their value if it is in the range of int. */
  lemma AtoiOfNumeral(sign: string, digits: string)
    requires sign == "" || sign == "+" || sign == "-"
    requires digits != "" && All(digits, IsDigit)
    ensures var n := Value(digits);
            Atoi(sign + digits) == if sign == "-" then (if n <= INT64_MAX + 1 then Some(-(n as int)) else None)
            else if n <= INT64_MAX then Some(n) else None
  {
    assert IsDigit(digits[0]);
    if sign == "" {
      assert sign + digits == digits;
    } else {
      assert (sign + digits)[0] == sign[0] && (sign + digits)[1..] == digits;
    }
  }

  /** Nothing else is a number. */
  lemma OnlyNumeralsAreNumbers(s: string) returns (sign: string, digits: string)
    requires Atoi(s).Some?
    ensures s == sign + digits && (sign == "" || sign == "+" || sign == "-") && digits != "" && All(digits, IsDigit)
  {
    if s[0] == '-' || s[0] == '+' {
      sign, digits := s[..1], s[1..];
    } else {
      sign, digits := "", s;
    }
  }

  /** Leading zeros do not change the value, and every digit counts ten times the next. */
  lemma {:induction false} LeadingZero(digits: string)
    requires All(digits, IsDigit)
    ensures All("0" + digits, IsDigit) && Value("0" + digits) == Value(digits)
  {
    var s := "0" + digits;
    assert forall i :: 0 <= i < |s| ==> s[i] == if i == 0 then '0' else digits[i - 1];
    if digits == "" {
      assert s[..0] == "";
    } else {
      var n := |digits| - 1;
      LeadingZero(digits[..n]);
      assert s[..|s| - 1] == "0" + digits[..n] && s[|s| - 1] == digits[n];
    }
  }
}
