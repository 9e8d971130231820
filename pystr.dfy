/**
 * The small slice of Python's built-in behaviour that the Tiny-T and Tiny-P
 * tools rely on: exceptions as values, list indexing (negative indices count
 * from the end), and the `str` methods `split()`, `split('\n')`, `lower()`,
 * `upper()`, `isnumeric()`, `isalnum()`, `zfill()`, plus `int(...)`,
 * `str(n)` and `f'{n:X}'`.  Characters are treated as ASCII.
 */
module Py {

  datatype Option<+T> = None | Some(value: T)

  /** Why a `ValueError` was raised. */
  datatype Reason =
    | NotAnInteger(text: string)         // int(text) failed
    | IllegalOpcode(opcode: int)         // Tiny-T execute / Tiny-P test_opcode
    | IllegalOperand(operand: int)       // Tiny-P test_operand
    | UndefinedOpcode(instr: int)        // Tiny-P decode
    | IllegalOrigin(token: string)       // assembler `org.` directive
    | UndefinedSymbol(name: string)      // assembler fixup
    | IllegalMachineCode(value: int)     // assembler fixup, word too large
    | WrongFieldCount(line: string)      // tuple unpacking of line.split()
    | NotHex(text: string)               // assembler from_hex

  /** The Python exceptions the modelled code can raise. */
  datatype Exception =
    | IndexError                 // list index out of range
    | TypeError                  // None used where an int is needed
    | AttributeError             // a method called on None (a missing token)
    | ValueError(reason: Reason)

  /** The outcome of a Python call: its value, or the exception it raised. */
  datatype Result<+T> = Ok(value: T) | Err(error: Exception)

  /** The outcome of a Python call whose value is not used. */
  datatype Status = Pass | Fail(error: Exception)

  function StatusOf<T>(r: Result<T>): (s: Status)
    ensures s.Pass? <==> r.Ok?
    ensures s.Fail? ==> s.error == r.error
  {
    match r
    case Ok(_) => Pass
    case Err(e) => Fail(e)
  }

  // ---------------------------------------------------------------------------
  // List indexing

  /** The position `xs[i]` refers to in a Python list of length `n`. */
  function PyIndex(n: nat, i: int): (r: Option<nat>)
    ensures r.Some? <==> -(n as int) <= i < n
    ensures r.Some? ==> r.value < n && (r.value == i || r.value == n + i)
  {
    if 0 <= i < n then Some(i)
    else if -(n as int) <= i < 0 then Some(n + i)
    else None
  }

  // ---------------------------------------------------------------------------
  // Bitwise operators on integers of either sign (two's complement with
  // infinitely many sign bits), defined bit by bit from the lowest

  function Abs(x: int): nat { if x < 0 then -x else x }

  /** `a & b` */
  function BitAnd(a: int, b: int): (r: int)
    ensures a >= 0 ==> 0 <= r <= a
    ensures b >= 0 ==> 0 <= r <= b
    decreases Abs(a) + Abs(b)
  {
    if a == 0 || b == 0 then 0
    else if a == -1 then b
    else if b == -1 then a
    else 2 * BitAnd(a / 2, b / 2) + (if a % 2 == 1 && b % 2 == 1 then 1 else 0)
  }

  /** `a | b` */
  function BitOr(a: int, b: int): (r: int)
    ensures r == 0 <==> a == 0 && b == 0
    ensures a >= 0 && b >= 0 ==> r >= a && r >= b
    decreases Abs(a) + Abs(b)
  {
    if a == 0 then b
    else if b == 0 then a
    else if a == -1 || b == -1 then -1
    else 2 * BitOr(a / 2, b / 2) + (if a % 2 == 1 || b % 2 == 1 then 1 else 0)
  }

  /** `a ^ b` */
  function BitXor(a: int, b: int): (r: int)
    ensures r == 0 <==> a == b
    decreases Abs(a) + Abs(b)
  {
    if a == 0 then b
    else if b == 0 then a
    else if a == -1 then -b - 1
    else if b == -1 then -a - 1
    else 2 * BitXor(a / 2, b / 2) + (if a % 2 != b % 2 then 1 else 0)
  }

  // ---------------------------------------------------------------------------
  // Characters

  predicate IsSpace(c: char) {
    c == ' ' || c == '\t' || c == '\n' || c == '\r'
    || c == 11 as char || c == 12 as char || (28 as char <= c <= 31 as char)
  }

  predicate IsDigit(c: char) { '0' <= c <= '9' }

  predicate IsLetter(c: char) { 'a' <= c <= 'z' || 'A' <= c <= 'Z' }

  predicate IsHexDigit(c: char) { IsDigit(c) || 'a' <= c <= 'f' || 'A' <= c <= 'F' }

  function LowerChar(c: char): char {
    if 'A' <= c <= 'Z' then (c as int + 32) as char else c
  }

  function UpperChar(c: char): char {
    if 'a' <= c <= 'z' then (c as int - 32) as char else c
  }

  function DigitValue(c: char): nat
    requires IsDigit(c)
  {
    c as int - '0' as int
  }

  function HexDigitValue(c: char): (v: nat)
    requires IsHexDigit(c)
    ensures v < 16
  {
    if IsDigit(c) then c as int - '0' as int
    else if 'a' <= c <= 'f' then c as int - 'a' as int + 10
    else c as int - 'A' as int + 10
  }

  function DigitChar(d: nat): (c: char)
    requires d < 10
    ensures IsDigit(c) && DigitValue(c) == d
  {
    ('0' as int + d) as char
  }

  /** One upper-case hexadecimal digit, as `f'{d:X}'` writes it. */
  function HexChar(d: nat): (c: char)
    requires d < 16
    ensures IsHexDigit(c) && HexDigitValue(c) == d
    ensures !('a' <= c <= 'z')
  {
    if d < 10 then ('0' as int + d) as char else ('A' as int + d - 10) as char
  }

  // ---------------------------------------------------------------------------
  // Whole strings

  predicate NoSpace(s: string) { forall k :: 0 <= k < |s| ==> !IsSpace(s[k]) }

  predicate AllSpace(s: string) { forall k :: 0 <= k < |s| ==> IsSpace(s[k]) }

  /** A word of `split()`: non-empty and free of white space. */
  predicate IsWord(s: string) { |s| > 0 && NoSpace(s) }

  predicate AllDigits(s: string) { forall k :: 0 <= k < |s| ==> IsDigit(s[k]) }

  /** `s.isnumeric()`: non-empty, digits only. */
  predicate IsNumeric(s: string) { |s| > 0 && AllDigits(s) }

  /** `s.isalnum()`: non-empty, letters and digits only. */
  predicate IsAlnum(s: string) {
    |s| > 0 && forall k :: 0 <= k < |s| ==> IsDigit(s[k]) || IsLetter(s[k])
  }

  predicate AllHexDigits(s: string) { forall k :: 0 <= k < |s| ==> IsHexDigit(s[k]) }

  predicate StartsWith(s: string, p: string) { |p| <= |s| && s[..|p|] == p }

  predicate EndsWith(s: string, c: char) { |s| > 0 && s[|s| - 1] == c }

  /** `s.lower()` */
  function Lower(s: string): (r: string)
    ensures |r| == |s| && forall k :: 0 <= k < |s| ==> r[k] == LowerChar(s[k])
  {
    seq(|s|, k requires 0 <= k < |s| => LowerChar(s[k]))
  }

  /** `s.upper()` */
  function Upper(s: string): (r: string)
    ensures |r| == |s| && forall k :: 0 <= k < |s| ==> r[k] == UpperChar(s[k])
  {
    seq(|s|, k requires 0 <= k < |s| => UpperChar(s[k]))
  }

  /** The value of a string of decimal digits (what `int` makes of it). */
  function DecValue(s: string): nat
    requires AllDigits(s)
  {
    if s == [] then 0 else 10 * DecValue(s[..|s| - 1]) + DigitValue(s[|s| - 1])
  }

  /** The value of a string of hexadecimal digits (`int(s, 16)`). */
  function HexValue(s: string): nat
    requires AllHexDigits(s)
  {
    if s == [] then 0 else 16 * HexValue(s[..|s| - 1]) + HexDigitValue(s[|s| - 1])
  }

  /**
   * `int(s)` for a token of `split()`: an optional sign followed by decimal
   * digits; anything else raises `ValueError`.
   */
  function ParseInt(s: string): (r: Result<int>)
    ensures r.Ok? <==> (IsNumeric(s) || (|s| > 1 && (s[0] == '+' || s[0] == '-') && IsNumeric(s[1..])))
    ensures r.Err? ==> r.error == ValueError(NotAnInteger(s))
    ensures IsNumeric(s) ==> r == Ok(DecValue(s))
  {
    if IsNumeric(s) then Ok(DecValue(s))
    else if |s| > 1 && s[0] == '+' && IsNumeric(s[1..]) then Ok(DecValue(s[1..]))
    else if |s| > 1 && s[0] == '-' && IsNumeric(s[1..]) then Ok(0 - DecValue(s[1..]))
    else Err(ValueError(NotAnInteger(s)))
  }

  /**
   * `int(s, 16)` for a token of `split()`: an optional sign, an optional
   * `0x`/`0X` prefix, then one or more hexadecimal digits; None where `int`
   * raises.
   */
  function HexInt(s: string): (r: Option<int>)
    ensures |s| > 0 && AllHexDigits(s) ==> r == Some(HexValue(s))
    ensures r.Some? ==> |s| > 0 && (s[0] != '-' ==> r.value >= 0)
  {
    assert |s| >= 2 ==> s[..2][1] == s[1];
    var body := if |s| > 0 && (s[0] == '+' || s[0] == '-') then s[1..] else s;
    var digits := if StartsWith(body, "0x") || StartsWith(body, "0X") then body[2..] else body;
    if digits == [] || !AllHexDigits(digits) then None
    else if s[0] == '-' then Some(0 - HexValue(digits) as int)
    else Some(HexValue(digits))
  }

  /** `str(n)` for a natural number. */
  function Dec(n: nat): (s: string)
    ensures IsNumeric(s)
  {
    if n < 10 then [DigitChar(n)] else Dec(n / 10) + [DigitChar(n % 10)]
  }

  /** `f'{n:X}'`: upper-case hexadecimal, no padding, no prefix. */
  function HexUpper(n: nat): (s: string)
    ensures |s| > 0 && AllHexDigits(s)
    ensures forall k :: 0 <= k < |s| ==> !('a' <= s[k] <= 'z')
  {
    if n < 16 then [HexChar(n)] else HexUpper(n / 16) + [HexChar(n % 16)]
  }

  /** `str(v)` for an integer of either sign. */
  function IntText(v: int): string {
    if v < 0 then "-" + Dec(-v) else Dec(v)
  }

  function Repeat<T>(x: T, n: nat): (r: seq<T>)
    ensures |r| == n && forall k :: 0 <= k < n ==> r[k] == x
  {
    seq(n, _ => x)
  }

  /**
   * `s.zfill(width)`: pad on the left with '0' up to `width`; a leading sign
   * stays in front of the padding.
   */
  function ZFill(s: string, width: nat): (r: string)
    ensures |r| == if |s| >= width then |s| else width
  {
    if |s| >= width then s
    else if |s| > 0 && (s[0] == '+' || s[0] == '-') then [s[0]] + Repeat('0', width - |s|) + s[1..]
    else Repeat('0', width - |s|) + s
  }

  // ---------------------------------------------------------------------------
  // Splitting

  /** `split()` scanning `s`, with `cur` the word read so far. */
  function WordsFrom(s: string, cur: string): (ws: seq<string>)
    requires NoSpace(cur)
    ensures forall k :: 0 <= k < |ws| ==> IsWord(ws[k])
    decreases |s|
  {
    if s == [] then (if cur == [] then [] else [cur])
    else if IsSpace(s[0]) then (if cur == [] then [] else [cur]) + WordsFrom(s[1..], [])
    else WordsFrom(s[1..], cur + [s[0]])
  }

  /** `s.split()`: the maximal runs of non-white-space characters, in order. */
  function Words(s: string): (ws: seq<string>)
    ensures forall k :: 0 <= k < |ws| ==> IsWord(ws[k])
  {
    WordsFrom(s, [])
  }

  /** `s.split(sep)` scanning `s`, with `cur` the field read so far. */
  function SplitFrom(s: string, sep: char, cur: string): (fs: seq<string>)
    ensures |fs| > 0
    decreases |s|
  {
    if s == [] then [cur]
    else if s[0] == sep then [cur] + SplitFrom(s[1..], sep, [])
    else SplitFrom(s[1..], sep, cur + [s[0]])
  }

  /** `s.split('\n')`: always at least one (possibly empty) line. */
  function Lines(s: string): (ls: seq<string>)
    ensures |ls| > 0
  {
    SplitFrom(s, '\n', [])
  }

  /** The text whose lines are `ls`, each followed by a newline. */
  function Terminated(ls: seq<string>): string {
    if ls == [] then [] else ls[0] + "\n" + Terminated(ls[1..])
  }

  // ---------------------------------------------------------------------------
  // Lemmas

  lemma {:induction false} DecRoundTrip(n: nat)
    ensures DecValue(Dec(n)) == n
  {
    if n >= 10 {
      var s := Dec(n / 10) + [DigitChar(n % 10)];
      assert s[..|s| - 1] == Dec(n / 10);
      DecRoundTrip(n / 10);
    }
  }

  /** Leading zeros do not change the value of a decimal string. */
  lemma {:induction false} DecLeadingZeros(k: nat, s: string)
    requires AllDigits(s)
    ensures AllDigits(Repeat('0', k) + s)
    ensures DecValue(Repeat('0', k) + s) == DecValue(s)
  {
    var t := Repeat('0', k) + s;
    if s == [] {
      assert t == Repeat('0', k);
      ZerosValue(k);
    } else {
      var s' := s[..|s| - 1];
      assert t[..|t| - 1] == Repeat('0', k) + s';
      DecLeadingZeros(k, s');
    }
  }

  lemma {:induction false} ZerosValue(k: nat)
    ensures AllDigits(Repeat('0', k)) && DecValue(Repeat('0', k)) == 0
  {
    if k > 0 {
      assert Repeat('0', k)[..k - 1] == Repeat('0', k - 1);
      ZerosValue(k - 1);
    }
  }

  lemma {:induction false} HexRoundTrip(n: nat)
    ensures HexValue(HexUpper(n)) == n
  {
    if n >= 16 {
      var s := HexUpper(n / 16) + [HexChar(n % 16)];
      assert s[..|s| - 1] == HexUpper(n / 16);
      HexRoundTrip(n / 16);
    }
  }

  /** Lower-casing a hex string keeps it a hex string of the same value. */
  lemma {:induction false} HexValueLower(s: string)
    requires AllHexDigits(s)
    ensures AllHexDigits(Lower(s)) && HexValue(Lower(s)) == HexValue(s)
  {
    if s != [] {
      assert Lower(s)[..|s| - 1] == Lower(s[..|s| - 1]);
      HexValueLower(s[..|s| - 1]);
    }
  }

  /** A run of non-space characters extends the current word. */
  lemma {:induction false} WordsFromWord(a: string, b: string, cur: string)
    requires NoSpace(cur) && NoSpace(a)
    ensures NoSpace(cur + a)
    ensures WordsFrom(a + b, cur) == WordsFrom(b, cur + a)
  {
    if a != [] {
      assert (a + b)[1..] == a[1..] + b;
      assert cur + a == (cur + [a[0]]) + a[1..];
      WordsFromWord(a[1..], b, cur + [a[0]]);
    } else {
      assert a + b == b && cur + a == cur;
    }
  }

  /** A non-empty run of white space ends the current word. */
  lemma {:induction false} WordsFromSpace(sp: string, b: string, cur: string)
    requires NoSpace(cur) && AllSpace(sp) && |sp| > 0
    ensures WordsFrom(sp + b, cur) == (if cur == [] then [] else [cur]) + WordsFrom(b, [])
  {
    assert (sp + b)[1..] == sp[1..] + b;
    if |sp| > 1 {
      WordsFromSpace(sp[1..], b, []);
    } else {
      assert sp[1..] + b == b;
    }
  }

  /** `split()` of "<space> a <space> b <space>" is [a, b]. */
  lemma WordsOfTwo(lead: string, a: string, sp: string, b: string, trail: string)
    requires AllSpace(lead) && IsWord(a) && AllSpace(sp) && |sp| > 0 && IsWord(b) && AllSpace(trail)
    ensures Words(lead + a + sp + b + trail) == [a, b]
  {
    var bt := b + trail;
    var rest := sp + bt;
    var s := lead + (a + rest);
    assert lead + a + sp + b + trail == s;
    if lead != [] {
      WordsFromSpace(lead, a + rest, []);
    } else {
      assert s == a + rest;
    }
    assert WordsFrom(s, []) == WordsFrom(a + rest, []);
    WordsFromWord(a, rest, []);
    assert [] + a == a;
    WordsFromSpace(sp, bt, a);
    WordsFromWord(b, trail, []);
    assert [] + b == b;
    if trail != [] {
      assert trail == trail + [];
      WordsFromSpace(trail, [], b);
      assert WordsFrom([], []) == [];
    }
    assert WordsFrom(bt, []) == [b];
  }

  /** `split()` of a text holding one word between white space. */
  lemma WordsOfOne(lead: string, a: string, trail: string)
    requires AllSpace(lead) && IsWord(a) && AllSpace(trail)
    ensures Words(lead + a + trail) == [a]
  {
    var s := lead + a + trail;
    if lead != [] {
      assert s == lead + (a + trail);
      WordsFromSpace(lead, a + trail, []);
    } else {
      assert s == a + trail;
    }
    WordsFromWord(a, trail, []);
    assert [] + a == a;
    if trail != [] {
      assert trail == trail + [];
      WordsFromSpace(trail, [], a);
    }
  }

  /** `split()` of a word, some white space and a rest: the word, then the words of the rest. */
  lemma WordsCons(a: string, sp: string, rest: string)
    requires IsWord(a) && AllSpace(sp) && |sp| > 0
    ensures Words(a + sp + rest) == [a] + Words(rest)
  {
    assert a + sp + rest == a + (sp + rest);
    WordsFromWord(a, sp + rest, []);
    assert [] + a == a;
    WordsFromSpace(sp, rest, a);
  }

  /** Leading white space does not change `split()`. */
  lemma WordsAfterSpace(sp: string, rest: string)
    requires AllSpace(sp)
    ensures Words(sp + rest) == Words(rest)
  {
    if sp != [] {
      WordsFromSpace(sp, rest, []);
    } else {
      assert sp + rest == rest;
    }
  }

  /** `str` then `int` gives the integer back. */
  lemma IntTextRoundTrip(v: int)
    ensures ParseInt(IntText(v)) == Ok(v)
  {
    if v < 0 {
      DecRoundTrip(-v);
      assert IntText(v)[1..] == Dec(-v);
    } else {
      DecRoundTrip(v);
    }
  }

  /** `lower()` acts character by character, so it distributes over concatenation. */
  lemma LowerAppend(a: string, b: string)
    ensures Lower(a + b) == Lower(a) + Lower(b)
  {
  }

  /** Text without upper-case letters is its own `lower()`. */
  lemma LowerIdle(s: string)
    requires forall k :: 0 <= k < |s| ==> !('A' <= s[k] <= 'Z')
    ensures Lower(s) == s
  {
  }

  /** Lower-case letters survive `upper()` then `lower()`. */
  lemma LowerUpper(s: string)
    requires forall k :: 0 <= k < |s| ==> 'a' <= s[k] <= 'z'
    ensures Lower(Upper(s)) == s
  {
  }

  /** A field free of the separator extends the current field. */
  lemma {:induction false} SplitFromField(a: string, b: string, sep: char, cur: string)
    requires sep !in a
    ensures SplitFrom(a + b, sep, cur) == SplitFrom(b, sep, cur + a)
  {
    if a != [] {
      assert (a + b)[1..] == a[1..] + b;
      assert cur + a == (cur + [a[0]]) + a[1..];
      SplitFromField(a[1..], b, sep, cur + [a[0]]);
    } else {
      assert a + b == b && cur + a == cur;
    }
  }

  /** Splitting newline-terminated lines gives them back, plus the empty tail. */
  lemma {:induction false} LinesOfTerminated(ls: seq<string>)
    requires forall k :: 0 <= k < |ls| ==> '\n' !in ls[k]
    ensures Lines(Terminated(ls)) == ls + [""]
  {
    if ls != [] {
      var rest := Terminated(ls[1..]);
      assert Terminated(ls) == ls[0] + ("\n" + rest);
      SplitFromField(ls[0], "\n" + rest, '\n', []);
      assert [] + ls[0] == ls[0];
      assert ("\n" + rest)[1..] == rest;
      LinesOfTerminated(ls[1..]);
      assert ls == [ls[0]] + ls[1..];
    }
  }

  lemma {:induction false} TerminatedAppend(ls: seq<string>, l: string)
    ensures Terminated(ls + [l]) == Terminated(ls) + l + "\n"
  {
    if ls == [] {
      assert ls + [l] == [l];
    } else {
      assert (ls + [l])[1..] == ls[1..] + [l];
      TerminatedAppend(ls[1..], l);
    }
  }
}
