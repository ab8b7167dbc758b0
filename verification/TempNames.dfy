/** The temporary file names of src/config/file_backend.rs: "{file}.tmp.{pid}.{attempt}". */
module TempNames {

  /** WRITE_COUNTER is an AtomicU64, so fetch_add wraps at 2^64. */
  const COUNTER_MODULUS: nat := 0x1_0000_0000_0000_0000

  function Digit(d: nat): (c: char)
    requires d < 10
    ensures '0' <= c <= '9'
  {
    '0' + d as char
  }

  /** The shortest decimal rendering of a number, as `format!` prints it. */
  function Decimal(n: nat): (s: string)
    ensures |s| > 0 && '.' !in s
  {
    if n < 10 then [Digit(n)] else Decimal(n / 10) + [Digit(n % 10)]
  }

  function DecimalValue(s: string): nat
  {
    if s == [] || !('0' <= s[|s| - 1] <= '9') then 0
    else 10 * DecimalValue(s[..|s| - 1]) + (s[|s| - 1] as int - '0' as int)
  }

  lemma {:induction false} DecimalRoundTrip(n: nat)
    ensures DecimalValue(Decimal(n)) == n
  {
    var s := Decimal(n);
    if n < 10 {
      assert s[..|s| - 1] == [];
    } else {
      DecimalRoundTrip(n / 10);
      assert s[..|s| - 1] == Decimal(n / 10);
    }
  }

  /** The name one write call uses, once its counter value is taken modulo 2^64. */
  function TempName(file: string, pid: nat, attempt: nat): (name: string)
    ensures name != file
  {
    file + ".tmp." + Decimal(pid) + "." + Decimal(attempt % COUNTER_MODULUS)
  }

  /** What such a name looks like. */
  lemma {:induction false} TempNameShown()
    ensures TempName("config.toml", 42, 7) == "config.toml.tmp.42.7"
  {
    assert Decimal(42) == Decimal(4) + [Digit(2)] == "42" && Decimal(7) == "7";
  }

  /** Two dot-separated pairs of dot-free words agree only word by word. */
  lemma {:induction false} DotSplit(a: string, b: string, c: string, d: string)
    requires '.' !in a && '.' !in c
    requires a + "." + b == c + "." + d
    ensures a == c && b == d
  {
    var s := a + "." + b;
    var t := c + "." + d;
    assert s[|a|] == '.' && t[|c|] == '.';
    assert |a| == |c|;
    assert a == s[..|a|] && c == t[..|c|];
    assert b == s[|a| + 1..] && d == t[|c| + 1..];
  }

  /** Calls of different processes, or calls of one process less than 2^64 apart, never share a name. */
  lemma {:induction false} TempNamesDistinct(file: string, pid: nat, attempt: nat, pid': nat, attempt': nat)
    requires TempName(file, pid, attempt) == TempName(file, pid', attempt')
    ensures pid == pid'
    ensures -(COUNTER_MODULUS as int) < attempt - attempt' < COUNTER_MODULUS ==> attempt == attempt'
  {
    var head := file + ".tmp.";
    var (p, q) := (Decimal(pid), Decimal(pid'));
    var (a, b) := (Decimal(attempt % COUNTER_MODULUS), Decimal(attempt' % COUNTER_MODULUS));
    var s, t := TempName(file, pid, attempt), TempName(file, pid', attempt');
    assert s == head + (p + "." + a) && t == head + (q + "." + b);
    assert s[|head|..] == p + "." + a && t[|head|..] == q + "." + b;
    DotSplit(p, a, q, b);
    DecimalRoundTrip(pid);
    DecimalRoundTrip(pid');
    DecimalRoundTrip(attempt % COUNTER_MODULUS);
    DecimalRoundTrip(attempt' % COUNTER_MODULUS);
    ModDistinct(attempt, attempt');
  }

  lemma {:induction false} ModDistinct(x: nat, y: nat)
    requires x % COUNTER_MODULUS == y % COUNTER_MODULUS
    ensures -(COUNTER_MODULUS as int) < x - y < COUNTER_MODULUS ==> x == y
  {
  }
}
