/** Standard-library string operations that the translation pass relies on:
    `str::repeat`, `usize::from_str` and `Path::file_name`, modelled on
    `string` values. */
module Text {

  datatype Option<T> = None | Some(value: T) {
    /** The value in `Some`, or `default` for `None` (Rust's `unwrap_or`). */
    function GetOr(default: T): T {
      match this
      case Some(v) => v
      case None => default
    }
  }

  // ---------------------------------------------------------------------
  // str::repeat

  /** `s` written `n` times in a row. */
  function Repeat(s: string, n: nat): string {
    if n == 0 then "" else s + Repeat(s, n - 1)
  }

  lemma {:induction false} RepeatLength(s: string, n: nat)
    ensures |Repeat(s, n)| == n * |s|
  {
    if n > 0 {
      RepeatLength(s, n - 1);
    }
  }

  /** The `k`-th block of `|s|` characters of `Repeat(s, n)` is `s` itself. */
  lemma {:induction false} RepeatBlock(s: string, n: nat, k: nat)
    requires k < n
    ensures (k + 1) * |s| <= |Repeat(s, n)|
    ensures Repeat(s, n)[k * |s| .. (k + 1) * |s|] == s
  {
    RepeatLength(s, n);
    if k > 0 {
      RepeatBlock(s, n - 1, k - 1);
      RepeatLength(s, n - 1);
      var rest := Repeat(s, n - 1);
      assert k * |s| == |s| + (k - 1) * |s|;
      assert (k + 1) * |s| == |s| + k * |s|;
      assert Repeat(s, n) == s + rest;
      assert (s + rest)[|s| + (k - 1) * |s| .. |s| + k * |s|] == rest[(k - 1) * |s| .. k * |s|];
    }
  }

  // ---------------------------------------------------------------------
  // usize::from_str

  /** One more than the largest `usize` on a 64-bit target. */
  const USIZE_LIMIT: nat := 0x1_0000_0000_0000_0000

  predicate IsDigit(c: char) {
    '0' <= c <= '9'
  }

  predicate AllDigits(s: string) {
    forall i :: 0 <= i < |s| ==> IsDigit(s[i])
  }

  /** The value of a string of decimal digits, most significant first. */
  function DigitsValue(ds: string): nat
    requires AllDigits(ds)
  {
    if ds == [] then 0
    else 10 * DigitsValue(ds[..|ds| - 1]) + (ds[|ds| - 1] as int - '0' as int)
  }

  /** `usize::from_str`: an optional `+`, then at least one ASCII digit and
      nothing else, with a value that fits in a `usize`; `None` otherwise
      (empty text, a sign alone, a `-`, any other character, overflow). */
  function ParseUsize(s: string): (r: Option<nat>)
    ensures r.Some? ==> r.value < USIZE_LIMIT
    ensures r.Some? ==> s != "" && s != "+"
    ensures r.Some? ==> forall i :: 0 < i < |s| ==> IsDigit(s[i])
    ensures r.Some? ==> IsDigit(s[0]) || s[0] == '+'
  {
    var digits := if s != [] && s[0] == '+' then s[1..] else s;
    if digits != [] && AllDigits(digits) && DigitsValue(digits) < USIZE_LIMIT
    then Some(DigitsValue(digits))
    else None
  }

  function DigitChar(d: nat): (c: char)
    requires d < 10
    ensures IsDigit(c)
  {
    ('0' as int + d) as char
  }

  /** The shortest decimal spelling of `n` (what `n.to_string()` gives). */
  function Decimal(n: nat): (r: string)
    ensures r != [] && AllDigits(r)
  {
    if n < 10 then [DigitChar(n)] else Decimal(n / 10) + [DigitChar(n % 10)]
  }

  lemma {:induction false} DigitsValueOfDecimal(n: nat)
    ensures DigitsValue(Decimal(n)) == n
  {
    if n >= 10 {
      DigitsValueOfDecimal(n / 10);
      var d := Decimal(n);
      assert d[..|d| - 1] == Decimal(n / 10);
    }
  }

  /** Parsing the decimal spelling of a `usize` gives it back, with or
      without a leading `+`. */
  lemma DecimalRoundTrip(n: nat)
    requires n < USIZE_LIMIT
    ensures ParseUsize(Decimal(n)) == Some(n)
    ensures ParseUsize("+" + Decimal(n)) == Some(n)
  {
    DigitsValueOfDecimal(n);
    assert ("+" + Decimal(n))[1..] == Decimal(n);
  }

  /** A number too large for a `usize` does not parse. */
  lemma DecimalOverflow(n: nat)
    requires n >= USIZE_LIMIT
    ensures ParseUsize(Decimal(n)).None?
  {
    DigitsValueOfDecimal(n);
  }

  // ---------------------------------------------------------------------
  // Path::file_name, for '/'-separated paths

  /** The text after the last '/' of `p`; all of `p` when it has none. */
  function LastComponent(p: string): (c: string)
    ensures '/' !in c
  {
    if p == [] || p[|p| - 1] == '/' then []
    else LastComponent(p[..|p| - 1]) + [p[|p| - 1]]
  }

  /** A path component that `file_name` returns: not empty, no separator,
      and neither `.` nor `..`. */
  predicate IsNormalName(c: string) {
    c != "" && c != "." && c != ".." && '/' !in c
  }

  /** `Path::file_name`: the final component of `p` once trailing
      separators and trailing `.` components are skipped; `None` when that
      component is `..` or there is none (empty path, root, `.`). */
  function FileName(p: string): (r: Option<string>)
    ensures r.Some? ==> IsNormalName(r.value)
    decreases |p|
  {
    if p == [] then None
    else if p[|p| - 1] == '/' then FileName(p[..|p| - 1])
    else
      var c := LastComponent(p);
      if c == "." then FileName(p[..|p| - 1])
      else if c == ".." then None
      else Some(c)
  }

  lemma {:induction false} LastComponentOfJoin(dir: string, name: string)
    requires '/' !in name
    ensures LastComponent(dir + "/" + name) == name
  {
    if name != [] {
      var init := name[..|name| - 1];
      assert (dir + "/" + name)[..|dir + "/" + name| - 1] == dir + "/" + init;
      LastComponentOfJoin(dir, init);
      assert init + [name[|name| - 1]] == name;
    }
  }

  lemma {:induction false} LastComponentOfName(name: string)
    requires '/' !in name
    ensures LastComponent(name) == name
  {
    if name != [] {
      var init, last := name[..|name| - 1], name[|name| - 1];
      assert last != '/';
      assert '/' !in init;
      LastComponentOfName(init);
      assert LastComponent(name) == LastComponent(init) + [last];
      assert init + [last] == name;
    }
  }

  /** The final component of a joined path is the name joined on, and a
      bare name is its own final component. */
  lemma FileNameOfJoin(dir: string, name: string)
    requires IsNormalName(name)
    ensures FileName(name) == Some(name)
    ensures FileName(dir + "/" + name) == Some(name)
  {
    LastComponentOfName(name);
    LastComponentOfJoin(dir, name);
  }

  /** Trailing separators do not change the final component. */
  lemma FileNameIgnoresTrailingSeparator(p: string)
    ensures FileName(p + "/") == FileName(p)
  {
    assert (p + "/")[..|p|] == p;
  }

  /** A path ending in `..` has no final component. */
  lemma FileNameOfParent(dir: string)
    ensures FileName(dir + "/..").None?
  {
    var p := dir + "/..";
    assert p == dir + "/" + "..";
    LastComponentOfJoin(dir, "..");
    assert p != [] && p[|p| - 1] == '.';
    assert LastComponent(p) == "..";
    assert |LastComponent(p)| == 2;
  }
}
