/** The line in a maintenance file that silences notifications, for a number of seconds or until
    further notice. */
module MaintenanceFile {
  import opened Types

  const PREFIX := "HEALTH_GO_DISABLE_NOTIFICATIONS"

  predicate OccursAt(text: string, word: string, i: nat) {
    i + |word| <= |text| && word <= text[i..]
  }

  /** What follows the first occurrence of a word. */
  function Cut(text: string, word: string): Option<string> {
    if word <= text then Some(text[|word|..])
    else if text == "" then None
    else Cut(text[1..], word)
  }

  lemma OccursInTail(text: string, word: string, i: nat)
    requires text != "" && i > 0
    ensures OccursAt(text, word, i) <==> OccursAt(text[1..], word, i - 1)
  {
    if i <= |text| {
      assert text[1..][i - 1..] == text[i..];
    }
  }

  lemma OccursAtStart(text: string, word: string)
    ensures OccursAt(text, word, 0) <==> word <= text
  {
    assert text[0..] == text;
  }

  ghost predicate FirstAt(text: string, word: string, i: nat) {
    OccursAt(text, word, i) && forall j: nat :: j < i ==> !OccursAt(text, word, j)
  }

  lemma FirstInTail(text: string, word: string, i: nat)
    requires FirstAt(text, word, i) && i > 0
    ensures text != "" && !(word <= text) && FirstAt(text[1..], word, i - 1)
  {
    OccursInTail(text, word, i);
    OccursAtStart(text, word);
    forall j: nat | j < i - 1
      ensures !OccursAt(text[1..], word, j)
    {
      OccursInTail(text, word, j + 1);
    }
  }

  /** The rest is cut off behind the first occurrence ... */
  lemma {:induction false} CutFindsFirst(text: string, word: string, i: nat)
    requires FirstAt(text, word, i)
    ensures Cut(text, word) == Some(text[i + |word|..])
    decreases i
  {
    if i == 0 {
      OccursAtStart(text, word);
    } else {
      FirstInTail(text, word, i);
      CutFindsFirst(text[1..], word, i - 1);
      assert text[1..][i - 1 + |word|..] == text[i + |word|..];
    }
  }

  /** ... and there is something to cut exactly if the word occurs. */
  lemma {:induction false} CutFindsAny(text: string, word: string)
    ensures Cut(text, word).Some? <==> exists i: nat :: OccursAt(text, word, i)
    decreases |text|
  {
    OccursAtStart(text, word);
    if !(word <= text) && text != "" {
      CutFindsAny(text[1..], word);
      if i: nat :| OccursAt(text, word, i) {
        OccursInTail(text, word, i);
        assert OccursAt(text[1..], word, i - 1);
      }
      if i: nat :| OccursAt(text[1..], word, i) {
        OccursInTail(text, word, i + 1);
        assert OccursAt(text, word, i + 1);
      }
    }
  }

  predicate IsDigit(c: char) { '0' <= c <= '9' }

  /** Length of the digits a text begins with. */
  function DigitCount(s: string): (n: nat)
    ensures n <= |s|
  {
    if s == "" || !IsDigit(s[0]) then 0 else 1 + DigitCount(s[1..])
  }

  lemma {:induction false} DigitCountIs(s: string, n: nat)
    requires n <= |s| && (forall i :: 0 <= i < n ==> IsDigit(s[i])) && (n < |s| ==> !IsDigit(s[n]))
    ensures DigitCount(s) == n
    decreases n
  {
    if n > 0 {
      DigitCountIs(s[1..], n - 1);
    }
  }

  function Digit(c: char): nat
    requires IsDigit(c)
  {
    c as int - '0' as int
  }

  function DigitsValue(s: string): nat
    requires forall i :: 0 <= i < |s| ==> IsDigit(s[i])
  {
    if s == "" then 0 else DigitsValue(s[..|s| - 1]) * 10 + Digit(s[|s| - 1])
  }

  /** Decimal digits to a 64-bit number; too large a number is an error. */
  function Atoi(s: string): Option<nat> {
    if s != "" && (forall i :: 0 <= i < |s| ==> IsDigit(s[i])) && DigitsValue(s) <= MAX_INT64
    then Some(DigitsValue(s)) else None
  }

  /** Signed 64-bit wrap-around. */
  function Wrap64(x: int): Duration {
    (x + MAX_INT64 + 1) % (2 * (MAX_INT64 + 1)) - (MAX_INT64 + 1)
  }

  /** The duration asked for right after the prefix; 0 means until further notice. */
  function DurationAfter(rest: string): Duration {
    if rest == "" || rest[0] != '_' then 0
    else
      var digits := rest[1..][..DigitCount(rest[1..])];
      if Atoi(digits).Some? then Wrap64(Atoi(digits).value * SECOND) else 0
  }

  /** No number of seconds: nothing, anything but an underscore, or an underscore without a digit. */
  predicate NoNumber(rest: string) {
    rest == "" || rest[0] != '_' || |rest| == 1 || !IsDigit(rest[1])
  }

  /** The first prefix of the text is followed by `rest`. */
  ghost predicate Marks(text: string, i: nat, rest: string) {
    FirstAt(text, PREFIX, i) && text[i + |PREFIX|..] == rest
  }

  /** `n` as a line may write it: an underscore, leading zeros, the number, and no digit after it. */
  function Number(zeros: nat, n: nat, tail: string): string {
    "_" + Zeros(zeros) + Print(n) + tail
  }

  /** The seconds as nanoseconds, modulo 64 bits: exactly up to 9223372036. A number that does not fit
      64 bits itself counts as none. */
  predicate Seconds(d: Duration, n: nat) {
    && (if n <= MAX_INT64 then (d - n * SECOND) % (2 * (MAX_INT64 + 1)) == 0 else d == 0)
    && (d == n * SECOND <==> n <= 9223372036)
  }

  method ParseNotificationDisable(message: string) returns (d: Duration, found: bool)
    ensures found <==> exists i: nat :: OccursAt(message, PREFIX, i)
    ensures !found ==> d == 0
    ensures forall i: nat, rest: string :: Marks(message, i, rest) && NoNumber(rest) ==> found && d == 0
    ensures forall i: nat, zeros: nat, n: nat, tail: string ::
              Marks(message, i, Number(zeros, n, tail)) && (tail == "" || !IsDigit(tail[0])) ==>
                found && Seconds(d, n)
    ensures found ==> Cut(message, PREFIX).Some? && d == DurationAfter(Cut(message, PREFIX).value)
  {
    AnswersByText(message);
    CutFindsAny(message, PREFIX);
    var after := Cut(message, PREFIX);
    if after.None? {
      return 0, false;
    }
    var remaining := after.value;
    if |remaining| > 0 && remaining[0] == '_' {
      var numStr := remaining[1..];
      var endIdx := 0;
      while endIdx < |numStr| && '0' <= numStr[endIdx] <= '9'
        invariant 0 <= endIdx <= |numStr|
        invariant forall i :: 0 <= i < endIdx ==> IsDigit(numStr[i])
      {
        endIdx := endIdx + 1;
      }
      DigitCountIs(numStr, endIdx);
      if endIdx > 0 {
        var seconds := Atoi(numStr[..endIdx]);
        if seconds.Some? {
          return Wrap64(seconds.value * SECOND), true;
        }
      }
    }
    return 0, true;
  }

  // ---------------------------------------------------------------- round trip

  function Print(n: nat): string {
    if n < 10 then [('0' as int + n) as char]
    else Print(n / 10) + [('0' as int + n % 10) as char]
  }

  lemma {:induction false} PrintedReadsBack(n: nat)
    ensures Print(n) != "" && (forall i :: 0 <= i < |Print(n)| ==> IsDigit(Print(n)[i])) && DigitsValue(Print(n)) == n
    decreases n
  {
    if n >= 10 {
      PrintedReadsBack(n / 10);
      var front := Print(n / 10);
      assert Print(n)[..|front|] == front;
    } else {
      assert Print(n)[..0] == "";
    }
  }

  function Zeros(k: nat): string {
    if k == 0 then "" else "0" + Zeros(k - 1)
  }

  lemma {:induction false} LeadingZeros(k: nat, s: string)
    requires forall i :: 0 <= i < |s| ==> IsDigit(s[i])
    ensures var all := Zeros(k) + s;
            (forall i :: 0 <= i < |all| ==> IsDigit(all[i])) && DigitsValue(all) == DigitsValue(s)
    decreases k
  {
    if k > 0 {
      LeadingZeros(k - 1, s);
      assert Zeros(k) + s == "0" + (Zeros(k - 1) + s);
      OneZero(Zeros(k - 1) + s);
    } else {
      assert Zeros(0) + s == s;
    }
  }

  lemma {:induction false} OneZero(s: string)
    requires forall i :: 0 <= i < |s| ==> IsDigit(s[i])
    ensures (forall i :: 0 <= i < |"0" + s| ==> IsDigit(("0" + s)[i])) && DigitsValue("0" + s) == DigitsValue(s)
    decreases |s|
  {
    if s != "" {
      OneZero(s[..|s| - 1]);
      assert ("0" + s)[..|s|] == "0" + s[..|s| - 1];
    } else {
      assert "0" + s == "0" && "0"[..0] == "";
    }
  }

  /** Every string of digits is a printed number behind leading zeros. */
  lemma {:induction false} DigitsAreANumber(s: string) returns (zeros: nat, n: nat)
    requires s != "" && forall i :: 0 <= i < |s| ==> IsDigit(s[i])
    ensures s == Zeros(zeros) + Print(n)
    decreases |s|
  {
    var front, last := s[..|s| - 1], Digit(s[|s| - 1]);
    if front == "" {
      zeros, n := 0, last;
      assert s == Print(last);
    } else {
      zeros, n := DigitsAreANumber(front);
      if n == 0 {
        zeros, n := zeros + 1, last;
        ZerosEnd(zeros - 1);
        assert front == Zeros(zeros) && s == front + Print(last);
      } else {
        n := n * 10 + last;
        assert Print(n) == Print(n / 10) + Print(last);
      }
    }
  }

  lemma {:induction false} ZerosEnd(k: nat)
    ensures Zeros(k) + Print(0) == Zeros(k + 1)
    decreases k
  {
    if k > 0 {
      ZerosEnd(k - 1);
      assert Zeros(k) + Print(0) == "0" + (Zeros(k - 1) + Print(0));
    }
  }

  lemma NumberIsRead(zeros: nat, n: nat, tail: string)
    requires tail == "" || !IsDigit(tail[0])
    ensures Seconds(DurationAfter(Number(zeros, n, tail)), n)
  {
    var digits := Zeros(zeros) + Print(n);
    PrintedReadsBack(n);
    LeadingZeros(zeros, Print(n));
    DigitsEndThere(digits, tail);
    assert Number(zeros, n, tail) == "_" + (digits + tail);
    DurationOfDigits(digits, digits + tail);
    WrapsToSeconds(n);
  }

  lemma {:induction false} DigitsEndThere(digits: string, tail: string)
    requires forall i :: 0 <= i < |digits| ==> IsDigit(digits[i])
    requires tail == "" || !IsDigit(tail[0])
    ensures (digits + tail)[..DigitCount(digits + tail)] == digits
  {
    DigitCountIs(digits + tail, |digits|);
  }

  lemma {:induction false} DurationOfDigits(digits: string, rest: string)
    requires digits != "" && (forall i :: 0 <= i < |digits| ==> IsDigit(digits[i]))
    requires rest[..DigitCount(rest)] == digits
    ensures DurationAfter("_" + rest) ==
            if DigitsValue(digits) <= MAX_INT64 then Wrap64(DigitsValue(digits) * SECOND) else 0
  {
    assert ("_" + rest)[1..] == rest;
  }

  lemma {:induction false} AnswersByText(text: string)
    ensures forall i: nat, rest: string :: Marks(text, i, rest) ==> Cut(text, PREFIX) == Some(rest)
    ensures forall rest: string :: NoNumber(rest) ==> DurationAfter(rest) == 0
    ensures forall zeros: nat, n: nat, tail: string :: tail == "" || !IsDigit(tail[0]) ==>
              Seconds(DurationAfter(Number(zeros, n, tail)), n)
  {
    forall i: nat, rest: string | Marks(text, i, rest)
      ensures Cut(text, PREFIX) == Some(rest)
    {
      CutFindsFirst(text, PREFIX, i);
    }
    forall zeros: nat, n: nat, tail: string | tail == "" || !IsDigit(tail[0])
      ensures Seconds(DurationAfter(Number(zeros, n, tail)), n)
    {
      NumberIsRead(zeros, n, tail);
    }
  }

  lemma {:induction false} CutBehind(before: string, word: string, tail: string)
    requires forall i: nat :: i < |before| ==> !OccursAt(before + word + tail, word, i)
    ensures Cut(before + word + tail, word) == Some(tail)
  {
    var text := before + word + tail;
    assert text[|before|..] == word + tail;
    CutFindsFirst(text, word, |before|);
    assert text[|before| + |word|..] == tail;
  }

  /** A number after the prefix and an underscore is found wherever the prefix stands first, and read
      back exactly if its nanoseconds fit 64 bits. */
  lemma {:induction false} PrintedSecondsParseBack(before: string, zeros: nat, n: nat, tail: string)
    requires tail == "" || !IsDigit(tail[0])
    requires forall i: nat :: i < |before| ==> !OccursAt(before + PREFIX + Number(zeros, n, tail), PREFIX, i)
    ensures var cut := Cut(before + PREFIX + Number(zeros, n, tail), PREFIX);
            && cut.Some?
            && Seconds(DurationAfter(cut.value), n)
  {
    CutBehind(before, PREFIX, Number(zeros, n, tail));
    NumberIsRead(zeros, n, tail);
  }

  lemma WrapsToSeconds(n: nat)
    ensures Seconds(if n <= MAX_INT64 then Wrap64(n * SECOND) else 0, n)
  {
    if n <= MAX_INT64 {
      WrapIsCongruent(n * SECOND);
    }
  }

  lemma WrapIsCongruent(x: int)
    ensures (Wrap64(x) - x) % (2 * (MAX_INT64 + 1)) == 0
    ensures Wrap64(x) == x <==> -MAX_INT64 - 1 <= x <= MAX_INT64
  {
    var m := 2 * (MAX_INT64 + 1);
    var y := x + MAX_INT64 + 1;
    assert Wrap64(x) - x == -(y / m) * m;
    assert (-(y / m) * m) % m == 0;
  }
}
