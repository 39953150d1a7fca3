/**
 * The JavaScript string built-ins the terminal's command handling relies on:
 * `trim`, `toLowerCase`, `split` and `join` with a one-character separator,
 * and the global `parseInt` with no radix argument.
 */
module JsText {
  import opened Wrappers
  import opened Decimal

  // ---------------------------------------------------------------------
  // Whitespace and trim
  // ---------------------------------------------------------------------

  /** ECMAScript's WhiteSpace and LineTerminator characters: what `trim` and `parseInt` skip. */
  predicate IsSpace(c: char) {
    || c == '\t' || c == '\n' || c == '\U{000B}' || c == '\U{000C}' || c == '\r' || c == ' '
    || c == '\U{00A0}' || c == '\U{1680}' || ('\U{2000}' <= c <= '\U{200A}')
    || c == '\U{2028}' || c == '\U{2029}' || c == '\U{202F}' || c == '\U{205F}'
    || c == '\U{3000}' || c == '\U{FEFF}'
  }

  predicate AllSpace(s: string) {
    forall i :: 0 <= i < |s| ==> IsSpace(s[i])
  }

  /** The number of whitespace characters `s` starts with. */
  function LeadingSpaces(s: string): (n: nat)
    ensures n <= |s| && AllSpace(s[..n])
    ensures n < |s| ==> !IsSpace(s[n])
  {
    if |s| == 0 || !IsSpace(s[0]) then 0
    else
      var n := 1 + LeadingSpaces(s[1..]);
      assert s[..n] == [s[0]] + s[1..][..n - 1];
      n
  }

  /** The number of whitespace characters `s` ends with. */
  function TrailingSpaces(s: string): (n: nat)
    ensures n <= |s| && AllSpace(s[|s| - n..])
    ensures n < |s| ==> !IsSpace(s[|s| - n - 1])
  {
    if |s| == 0 || !IsSpace(s[|s| - 1]) then 0
    else
      var n := 1 + TrailingSpaces(s[..|s| - 1]);
      assert s[|s| - n..] == s[..|s| - 1][|s| - n..] + [s[|s| - 1]];
      n
  }

  /** `s.trim()`. */
  function Trim(s: string): string {
    var lead := LeadingSpaces(s);
    var rest := s[lead..];
    rest[..|rest| - TrailingSpaces(rest)]
  }

  /**
   * Trimming cuts `s` into whitespace, a middle part and whitespace, where
   * the middle part neither starts nor ends with whitespace.
   */
  lemma TrimShape(s: string)
    ensures var t := Trim(s);
      exists i, j :: 0 <= i <= j <= |s| && t == s[i..j] && AllSpace(s[..i]) && AllSpace(s[j..])
    ensures var t := Trim(s); |t| > 0 ==> !IsSpace(t[0]) && !IsSpace(t[|t| - 1])
  {
    var lead := LeadingSpaces(s);
    var rest := s[lead..];
    var n := TrailingSpaces(rest);
    var j := lead + |rest| - n;
    assert Trim(s) == s[lead..j];
    assert s[j..] == rest[|rest| - n..];
    assert AllSpace(s[..lead]) && AllSpace(s[j..]);
    var t := Trim(s);
    if |t| > 0 {
      assert t[0] == rest[0] && t[|t| - 1] == rest[|rest| - n - 1];
    }
  }

  /** The trimmed text is empty exactly when the input is all whitespace. */
  lemma TrimEmpty(s: string)
    ensures Trim(s) == [] <==> AllSpace(s)
  {
    if AllSpace(s) {
      TrimAllSpace(s);
    }
    if Trim(s) == [] {
      AllSpaceOfTrimEmpty(s);
    }
  }

  lemma TrimAllSpace(s: string)
    requires AllSpace(s)
    ensures Trim(s) == []
  {
    LeadingAll(s);
  }

  lemma AllSpaceOfTrimEmpty(s: string)
    requires Trim(s) == []
    ensures AllSpace(s)
  {
    var lead := LeadingSpaces(s);
    var rest := s[lead..];
    var n := TrailingSpaces(rest);
    assert |rest[..|rest| - n]| == 0;
    assert rest[|rest| - n..] == rest;
    AllSpaceConcat(s[..lead], rest);
    assert s[..lead] + rest == s;
  }

  lemma AllSpaceConcat(a: string, b: string)
    requires AllSpace(a) && AllSpace(b)
    ensures AllSpace(a + b)
  {
    forall i | 0 <= i < |a + b| ensures IsSpace((a + b)[i]) {
      if i < |a| {
        assert (a + b)[i] == a[i];
      } else {
        assert (a + b)[i] == b[i - |a|];
      }
    }
  }

  /** A text that neither starts nor ends with whitespace is its own trim. */
  lemma TrimUnpadded(s: string)
    requires |s| > 0 && !IsSpace(s[0]) && !IsSpace(s[|s| - 1])
    ensures Trim(s) == s
  {
    assert LeadingSpaces(s) == 0;
    assert s[0..] == s;
    assert TrailingSpaces(s) == 0;
  }

  /** Trimming twice trims nothing more. */
  lemma TrimIdempotent(s: string)
    ensures Trim(Trim(s)) == Trim(s)
  {
    var t := Trim(s);
    TrimShape(s);
    assert LeadingSpaces(t) == 0;
    assert TrailingSpaces(t) == 0;
  }

  // ---------------------------------------------------------------------
  // Lower case
  // ---------------------------------------------------------------------

  function LowerChar(c: char): char {
    if 'A' <= c <= 'Z' then (c as int - 'A' as int + 'a' as int) as char else c
  }

  /** `s.toLowerCase()` on the ASCII letters; every other character is kept. */
  function Lower(s: string): (r: string)
    ensures |r| == |s|
    ensures forall i :: 0 <= i < |s| ==> r[i] == LowerChar(s[i])
  {
    seq(|s|, i requires 0 <= i < |s| => LowerChar(s[i]))
  }

  /** A text without upper-case ASCII letters is its own lower case. */
  lemma LowerUnchanged(s: string)
    requires forall i :: 0 <= i < |s| ==> !('A' <= s[i] <= 'Z')
    ensures Lower(s) == s
  {
  }

  /** Lower-casing changes no character other than an upper-case letter, and is idempotent. */
  lemma LowerFacts(s: string)
    ensures Lower(Lower(s)) == Lower(s)
    ensures forall i :: 0 <= i < |s| ==> (Lower(s)[i] != s[i] <==> 'A' <= s[i] <= 'Z')
    ensures forall i :: 0 <= i < |s| ==> !('A' <= Lower(s)[i] <= 'Z')
  {
  }

  // ---------------------------------------------------------------------
  // split and join
  // ---------------------------------------------------------------------

  /** The position of the first `c` in `s`, or `|s|` when there is none. */
  function IndexOf(s: string, c: char): (i: nat)
    ensures i <= |s| && c !in s[..i]
    ensures i < |s| ==> s[i] == c
  {
    if |s| == 0 then 0
    else if s[0] == c then 0
    else
      var i := 1 + IndexOf(s[1..], c);
      assert s[..i] == [s[0]] + s[1..][..i - 1];
      i
  }

  /** `s.split(sep)` for a one-character separator: the pieces between the separators. */
  function Split(s: string, sep: char): (parts: seq<string>)
    ensures |parts| > 0
    ensures forall k :: 0 <= k < |parts| ==> sep !in parts[k]
    decreases |s|
  {
    var i := IndexOf(s, sep);
    if i == |s| then [s] else [s[..i]] + Split(s[i + 1..], sep)
  }

  /** `parts.join(sep)`. */
  function Join(parts: seq<string>, sep: string): string {
    if |parts| == 0 then ""
    else if |parts| == 1 then parts[0]
    else parts[0] + sep + Join(parts[1..], sep)
  }

  /** Joining the pieces of a split with the same separator gives the text back. */
  lemma {:induction false} JoinSplit(s: string, sep: char)
    ensures Join(Split(s, sep), [sep]) == s
    decreases |s|
  {
    var i := IndexOf(s, sep);
    if i < |s| {
      var rest := Split(s[i + 1..], sep);
      var parts := [s[..i]] + rest;
      assert Split(s, sep) == parts;
      assert parts[1..] == rest;
      assert Join(parts, [sep]) == s[..i] + [sep] + Join(rest, [sep]);
      JoinSplit(s[i + 1..], sep);
      assert s == s[..i] + [sep] + s[i + 1..];
    }
  }

  /** Splitting a join recovers the pieces, when no piece holds the separator. */
  lemma {:induction false} SplitJoin(parts: seq<string>, sep: char)
    requires |parts| > 0 && forall k :: 0 <= k < |parts| ==> sep !in parts[k]
    ensures Split(Join(parts, [sep]), sep) == parts
    decreases |parts|
  {
    var head := parts[0];
    assert sep !in head;
    if |parts| == 1 {
      assert Join(parts, [sep]) == head;
      SplitNone(head, sep);
    } else {
      var tail := parts[1..];
      assert forall k :: 0 <= k < |tail| ==> tail[k] == parts[k + 1];
      var rest := Join(tail, [sep]);
      assert Join(parts, [sep]) == head + [sep] + rest;
      SplitCons(head, sep, rest);
      SplitJoin(tail, sep);
      assert parts == [head] + tail;
    }
  }

  /** Splitting at a first separator that follows `head` gives `head`, then the pieces of the rest. */
  lemma SplitCons(head: string, sep: char, rest: string)
    requires sep !in head
    ensures Split(head + [sep] + rest, sep) == [head] + Split(rest, sep)
  {
    var s := head + [sep] + rest;
    assert s == head + ([sep] + rest);
    IndexOfPrefix(head, sep, rest);
    assert s[|head| + 1..] == rest;
  }

  /** A text without the separator splits into itself alone. */
  lemma SplitNone(s: string, sep: char)
    requires sep !in s
    ensures Split(s, sep) == [s]
  {
    var i := IndexOf(s, sep);
    if i < |s| {
      assert false;
    }
  }

  /** The first separator of `a + [c] + b` is the one after `a`, when `a` has none. */
  lemma IndexOfPrefix(a: string, c: char, b: string)
    requires c !in a
    ensures IndexOf(a + ([c] + b), c) == |a|
    ensures (a + ([c] + b))[..|a|] == a
  {
    var s := a + ([c] + b);
    assert s[|a|] == c;
    assert forall k :: 0 <= k < |a| ==> s[k] == a[k];
  }

  /** JavaScript's `sep.join` of all but the first piece is the text after the first separator. */
  lemma SplitAtFirst(s: string, sep: char)
    ensures var parts := Split(s, sep); var i := IndexOf(s, sep);
      && parts[0] == s[..i]
      && Join(parts[1..], [sep]) == (if i < |s| then s[i + 1..] else "")
  {
    var i := IndexOf(s, sep);
    if i < |s| {
      JoinSplit(s[i + 1..], sep);
    }
  }

  // ---------------------------------------------------------------------
  // parseInt
  // ---------------------------------------------------------------------

  /** The result of `parseInt`: `NaN`, or a sign and a magnitude (`Num(true, 0)` is `-0`). */
  datatype Parsed = NaN | Num(negative: bool, magnitude: nat) {

    /** The number as an integer; `-0` is 0. */
    function Value(): int
      requires Num?
    {
      if negative then -(magnitude as int) else magnitude as int
    }

    /** JavaScript's truthiness of a number: `NaN`, `0` and `-0` are false. */
    predicate Truthy() {
      Num? && magnitude != 0
    }
  }

  /** The value of a digit character in radix 16 when `hex`, in radix 10 otherwise, when it is one. */
  function DigitIn(c: char, hex: bool): Option<nat> {
    if '0' <= c <= '9' then Some(c as int - '0' as int)
    else if hex && 'a' <= c <= 'f' then Some(c as int - 'a' as int + 10)
    else if hex && 'A' <= c <= 'F' then Some(c as int - 'A' as int + 10)
    else None
  }

  /** The length of the longest prefix of `s` made of digits of the radix. */
  function DigitRun(s: string, hex: bool): (n: nat)
    ensures n <= |s|
    ensures forall i :: 0 <= i < n ==> DigitIn(s[i], hex).Some?
    ensures n < |s| ==> DigitIn(s[n], hex).None?
  {
    if |s| == 0 || DigitIn(s[0], hex).None? then 0
    else
      var n := 1 + DigitRun(s[1..], hex);
      assert forall i :: 1 <= i < n ==> s[i] == s[1..][i - 1];
      n
  }

  /** The value of a string of digits of the radix, most significant first. */
  function RadixValue(s: string, hex: bool): nat
    requires forall i :: 0 <= i < |s| ==> DigitIn(s[i], hex).Some?
  {
    if |s| == 0 then 0
    else
      var init := s[..|s| - 1];
      assert forall i :: 0 <= i < |init| ==> init[i] == s[i];
      var v := RadixValue(init, hex);
      var d := DigitIn(s[|s| - 1], hex).value;
      if hex then 16 * v + d else 10 * v + d
  }

  /** Step 4 onwards of `parseInt`: an optional `0x` prefix selects radix 16, then the longest digit run. */
  function ParseMagnitude(s: string): (r: Option<nat>) {
    var hex := |s| >= 2 && s[0] == '0' && (s[1] == 'x' || s[1] == 'X');
    var body := if hex then s[2..] else s;
    var n := DigitRun(body, hex);
    if n == 0 then None else Some(RadixValue(body[..n], hex))
  }

  /** `parseInt(s)`: skip leading whitespace, read an optional sign, then the magnitude. */
  function ParseInt(s: string): (r: Parsed) {
    var t := s[LeadingSpaces(s)..];
    var negative := |t| > 0 && t[0] == '-';
    var body := if |t| > 0 && (t[0] == '-' || t[0] == '+') then t[1..] else t;
    match ParseMagnitude(body)
    case None => NaN
    case Some(m) => Num(negative, m)
  }

  /** Decimal digits read back as the number they denote. */
  lemma {:induction false} RadixValueDecimal(s: string)
    requires AllDigits(s)
    ensures forall i :: 0 <= i < |s| ==> DigitIn(s[i], false).Some?
    ensures RadixValue(s, false) == ParseDigits(s)
    decreases |s|
  {
    if |s| > 0 {
      RadixValueDecimal(s[..|s| - 1]);
    }
  }

  /**
   * `parseInt` reads the decimal text of a number back, with any whitespace
   * before it and whatever follows it that is not a digit; after a lone `0`,
   * an `x` would start a hexadecimal number instead.
   */
  lemma ParseIntOfNat(pre: string, n: nat, post: string)
    requires AllSpace(pre)
    requires |post| > 0 ==> !IsDigit(post[0]) && (n == 0 ==> post[0] != 'x' && post[0] != 'X')
    ensures ParseInt(pre + NatToString(n) + post) == Num(false, n)
  {
    var digits := NatToString(n);
    var body := digits + post;
    assert pre + digits + post == pre + body;
    ParseMagnitudeOfNat(n, post);
    ParseIntOfUnsigned(pre, body, n);
  }

  /** The decimal text of a natural number, alone, parses back to it. */
  lemma ParseIntOfNatString(n: nat)
    ensures ParseInt(NatToString(n)) == Num(false, n)
  {
    ParseIntOfNat("", n, "");
    assert "" + NatToString(n) + "" == NatToString(n);
  }

  /** Whitespace, then a magnitude that starts with a digit: `parseInt` reads that magnitude. */
  lemma ParseIntOfUnsigned(pre: string, body: string, m: nat)
    requires AllSpace(pre) && |body| > 0 && IsDigit(body[0])
    requires ParseMagnitude(body) == Some(m)
    ensures ParseInt(pre + body) == Num(false, m)
  {
    LeadingOfSpaces(pre, body);
    var s := pre + body;
    assert s[|pre|..] == body;
  }

  /** The digits of `n`, then something that is not a digit, read back as `n`. */
  lemma ParseMagnitudeOfNat(n: nat, post: string)
    requires |post| > 0 ==> !IsDigit(post[0]) && (n == 0 ==> post[0] != 'x' && post[0] != 'X')
    ensures ParseMagnitude(NatToString(n) + post) == Some(n)
  {
    var digits := NatToString(n);
    var body := digits + post;
    assert !(|body| >= 2 && body[0] == '0' && (body[1] == 'x' || body[1] == 'X')) by {
      if |digits| >= 2 {
        assert body[0] == digits[0] && digits[0] != '0';
      } else {
        assert |body| >= 2 ==> body[1] == post[0];
      }
    }
    RadixValueDecimal(digits);
    DigitRunPrefix(digits, post);
    assert body[..|digits|] == digits;
    ParseNatToString(n);
  }

  /** The leading whitespace of `a + b` is all of `a` when `b` starts with something else. */
  lemma LeadingOfSpaces(a: string, b: string)
    requires AllSpace(a) && |b| > 0 && !IsSpace(b[0])
    ensures LeadingSpaces(a + b) == |a|
    decreases |a|
  {
    if |a| > 0 {
      assert (a + b)[1..] == a[1..] + b;
      LeadingOfSpaces(a[1..], b);
    }
  }

  /** A decimal digit run followed by a non-digit ends there. */
  lemma {:induction false} DigitRunPrefix(digits: string, post: string)
    requires AllDigits(digits)
    requires |post| > 0 ==> !IsDigit(post[0])
    ensures DigitRun(digits + post, false) == |digits|
    decreases |digits|
  {
    var s := digits + post;
    if |digits| == 0 {
      assert s == post;
      if |post| > 0 {
        assert DigitIn(post[0], false).None?;
      }
    } else {
      assert s[0] == digits[0] && IsDigit(digits[0]);
      assert DigitIn(s[0], false).Some?;
      var tail := digits[1..];
      assert AllDigits(tail) by {
        forall i | 0 <= i < |tail| ensures IsDigit(tail[i]) {
          assert tail[i] == digits[i + 1];
        }
      }
      assert s[1..] == tail + post;
      DigitRunPrefix(tail, post);
    }
  }

  /** Nothing to read is `NaN`: the empty text, whitespace only, or a bare sign. */
  lemma ParseIntNaN(s: string)
    requires AllSpace(s)
    ensures ParseInt(s) == NaN
    ensures ParseInt(s + "-") == NaN && ParseInt(s + "+") == NaN
  {
    LeadingAll(s);
    LeadingOfSpaces(s, "-");
    LeadingOfSpaces(s, "+");
    assert (s + "-")[|s|..] == "-";
    assert (s + "+")[|s|..] == "+";
  }

  lemma LeadingAll(s: string)
    requires AllSpace(s)
    ensures LeadingSpaces(s) == |s|
    decreases |s|
  {
    if |s| > 0 {
      LeadingAll(s[1..]);
    }
  }
}
