/** Decimal numerals and the names mysqld gives its binary logs. */
module BinlogNames {

  import opened Options

  predicate IsDigit(c: char) { '0' <= c <= '9' }

  function DigitTest(): char -> bool { (c: char) => IsDigit(c) }

  predicate AllDigits(s: string) { forall i | 0 <= i < |s| :: IsDigit(s[i]) }

  function DigitValue(c: char): nat
    requires IsDigit(c)
  {
    (c as int) - ('0' as int)
  }

  function Digit(d: nat): char
    requires d < 10
  {
    (('0' as int) + d) as char
  }

  /** Python's `int(s)` for a string of ASCII digits. */
  function FromDecimal(s: string): nat
    requires AllDigits(s)
  {
    if s == "" then 0 else FromDecimal(s[..|s| - 1]) * 10 + DigitValue(s[|s| - 1])
  }

  /** Python's `str(n)`. */
  function ToDecimal(n: nat): (r: string)
    ensures r != "" && AllDigits(r)
  {
    if n < 10 then [Digit(n)] else ToDecimal(n / 10) + [Digit(n % 10)]
  }

  lemma {:induction false} DecimalRoundTrip(n: nat)
    ensures FromDecimal(ToDecimal(n)) == n
  {
    if n >= 10 {
      DecimalRoundTrip(n / 10);
      var front := ToDecimal(n / 10);
      assert (front + [Digit(n % 10)])[..|front|] == front;
    } else {
      assert ToDecimal(n)[..0] == "";
    }
  }

  function Zeros(k: nat): string { seq(k, _ => '0') }

  lemma {:induction false} LeadingZeros(k: nat, s: string)
    requires AllDigits(s)
    ensures AllDigits(Zeros(k) + s) && FromDecimal(Zeros(k) + s) == FromDecimal(s)
    decreases |s|, k
  {
    var z := Zeros(k) + s;
    if s != "" {
      LeadingZeros(k, s[..|s| - 1]);
      assert z[..|z| - 1] == Zeros(k) + s[..|s| - 1];
    } else if k > 0 {
      LeadingZeros(k - 1, s);
      assert z[..|z| - 1] == Zeros(k - 1) + s;
    }
  }

  /** mysqld's own name for log number `n`: the base, a dot, at least six digits. */
  function LogName(base: string, n: nat): string {
    base + "." + Numeral(n)
  }

  function Padding(width: nat): string { Zeros(if width < 6 then 6 - width else 0) }

  function Numeral(n: nat): string {
    Padding(|ToDecimal(n)|) + ToDecimal(n)
  }

  lemma NumeralIs(n: nat)
    ensures Numeral(n) != "" && AllDigits(Numeral(n)) && FromDecimal(Numeral(n)) == n
  {
    DecimalRoundTrip(n);
    LeadingZeros(|Padding(|ToDecimal(n)|)|, ToDecimal(n));
  }

  /** How many characters at the end of `s` are digits. */
  function TrailingDigits(s: string): (k: nat)
    ensures k <= |s|
    ensures forall i | |s| - k <= i < |s| :: IsDigit(s[i])
    ensures k < |s| ==> !IsDigit(s[|s| - k - 1])
  {
    if s == "" || !IsDigit(s[|s| - 1]) then 0
    else TrailingDigits(s[..|s| - 1]) + 1
  }

  /** `re.search(r"(\d+)$", name)` as a number: the pruner's reading of a log name. */
  function TrailingSequence(name: string): Option<nat> {
    var k := TrailingDigits(name);
    if k == 0 then None else Some(FromDecimal(name[|name| - k..]))
  }

  datatype LogId = LogId(base: string, number: nat)

  /** `^(?P<base>.+\.)(?P<seq>\d+)$`: the replay's and the gate's reading of a log name. */
  function ParseLogName(name: string): Option<LogId> {
    var k := TrailingDigits(name);
    var cut := |name| - k;
    if k == 0 || cut < 2 || name[cut - 1] != '.' then None
    else Some(LogId(name[..cut], FromDecimal(name[cut..])))
  }

  lemma TrailingDigitsUnique(s: string, k: nat)
    requires k <= |s| && forall i | |s| - k <= i < |s| :: IsDigit(s[i])
    requires k < |s| ==> !IsDigit(s[|s| - k - 1])
    ensures TrailingDigits(s) == k
  {
  }

  /** Both readers recover the number mysqld put in the name. */
  lemma LogNameParses(base: string, n: nat)
    requires base != ""
    ensures ParseLogName(LogName(base, n)) == Some(LogId(base + ".", n))
    ensures TrailingSequence(LogName(base, n)) == Some(n)
  {
    NumeralIs(n);
    var name := LogName(base, n);
    var k := |Numeral(n)|;
    assert name[|name| - k..] == Numeral(n) && name[..|name| - k] == base + ".";
    assert forall i | |name| - k <= i < |name| :: name[i] == Numeral(n)[i - (|name| - k)];
    assert name[|name| - k - 1] == '.';
    TrailingDigitsUnique(name, k);
  }

  /** Whatever the replay accepts, the pruner numbers the same way. */
  lemma ReadersAgree(name: string)
    requires ParseLogName(name).Some?
    ensures TrailingSequence(name) == Some(ParseLogName(name).value.number)
  {
  }

  /** The text is a numeral of that number, leading zeros and all. */
  predicate NumeralOf(s: string, n: nat) { s != "" && AllDigits(s) && FromDecimal(s) == n }

  /** The name is a base that ends in a dot, and a numeral of that number. */
  ghost predicate NamesLog(name: string, base: string, n: nat) {
    |base| >= 2 && base[|base| - 1] == '.' && exists digits :: name == base + digits && NumeralOf(digits, n)
  }

  lemma ParseLogNameIff(name: string, base: string, n: nat)
    ensures ParseLogName(name) == Some(LogId(base, n)) <==> NamesLog(name, base, n)
  {
    var k := TrailingDigits(name);
    assert name == name[..|name| - k] + name[|name| - k..];
    if NamesLog(name, base, n) {
      var digits :| name == base + digits && NumeralOf(digits, n);
      assert name[|name| - |digits|..] == digits && name[..|name| - |digits|] == base;
      assert forall i | |base| <= i < |name| :: name[i] == digits[i - |base|];
      TrailingDigitsUnique(name, |digits|);
    }
    if ParseLogName(name) == Some(LogId(base, n)) {
      assert NumeralOf(name[|name| - k..], n);
    }
  }

  lemma LogNameInjective(base: string, m: nat, n: nat)
    requires base != "" && LogName(base, m) == LogName(base, n)
    ensures m == n
  {
    LogNameParses(base, m);
    LogNameParses(base, n);
  }
}
