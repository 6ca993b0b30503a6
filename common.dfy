/** Shared value types of the pipedput model: optional values, results that
    carry a raised exception, loosely typed JSON scalars, and the few string
    helpers (prefix/suffix tests, decimal formatting, POSIX path joining and
    base names) that the dispatcher and the hooks use. */
module Common {

  datatype Option<+T> = None | Some(value: T)

  /** The exceptions the model distinguishes. `ProcessFailed` is
      subprocess.CalledProcessError: the exit status and what the tool
      printed. `DoesNotExist` is `Project.DoesNotExist`; `OtherError` stands
      for any exception raised by code outside the model (a download, a
      callback, a file operation). */
  datatype Error =
    | ProcessFailed(returnCode: int, stdout: string, stderr: Option<string>)
    | ConfigurationError(message: string)
    | ValueError(message: string)
    | IndexError
    | DoesNotExist
    | OtherError(message: string)

  datatype Result<+T> = Ok(value: T) | Err(error: Error)

  /** A JSON scalar as it arrives in an event payload. Identity tests such as
      `x is True` hold only of `SBool(true)`. */
  datatype Scalar = SBool(b: bool) | SInt(i: int) | SStr(s: string) | SNone

  predicate StartsWith(s: string, prefix: string) {
    |prefix| <= |s| && s[..|prefix|] == prefix
  }

  predicate EndsWith(s: string, suffix: string) {
    |suffix| <= |s| && s[|s| - |suffix|..] == suffix
  }

  function DigitChar(d: nat): (c: char)
    requires d < 10
    ensures '0' <= c <= '9'
    ensures c as int - '0' as int == d
  {
    "0123456789"[d]
  }

  /** Decimal text of a natural number, as Python's `str` prints it. */
  function NatToString(n: nat): (s: string)
    ensures |s| > 0
    ensures forall i :: 0 <= i < |s| ==> '0' <= s[i] <= '9'
  {
    if n < 10 then [DigitChar(n)] else NatToString(n / 10) + [DigitChar(n % 10)]
  }

  /** The number a string of decimal digits denotes, as `int(s)` reads it. */
  function DigitsValue(s: string): nat
    requires forall i :: 0 <= i < |s| ==> '0' <= s[i] <= '9'
    decreases |s|
  {
    if s == [] then 0 else DigitsValue(s[..|s| - 1]) * 10 + (s[|s| - 1] as int - '0' as int)
  }

  /** Reading the decimal text back gives the number. */
  lemma {:induction false} NatToStringValue(n: nat)
    ensures DigitsValue(NatToString(n)) == n
    decreases n
  {
    if n >= 10 {
      NatToStringValue(n / 10);
      var s := NatToString(n);
      assert s[..|s| - 1] == NatToString(n / 10);
    }
  }

  /** Different numbers are printed differently. */
  lemma NatToStringInjective(m: nat, n: nat)
    ensures NatToString(m) == NatToString(n) <==> m == n
  {
    NatToStringValue(m);
    NatToStringValue(n);
  }

  /** Decimal text of an integer, with a leading '-' when it is negative. */
  function IntToString(i: int): (s: string)
    ensures |s| > 0
    ensures s[0] == '-' <==> i < 0
  {
    if i < 0 then "-" + NatToString(-i) else NatToString(i)
  }

  /** The decimal text of an integer holds only digits and a sign. */
  lemma IntToStringChars(i: int)
    ensures forall k :: 0 <= k < |IntToString(i)| ==> IntToString(i)[k] == '-' || '0' <= IntToString(i)[k] <= '9'
  {
    if i < 0 {
      var n := NatToString(-i);
      assert forall k :: 1 <= k < |IntToString(i)| ==> IntToString(i)[k] == n[k - 1];
    }
  }

  /** Different integers are printed differently. */
  lemma IntToStringInjective(i: int, j: int)
    ensures IntToString(i) == IntToString(j) <==> i == j
  {
    if IntToString(i) == IntToString(j) {
      if i < 0 {
        assert IntToString(i)[1..] == NatToString(-i);
        assert IntToString(j)[1..] == NatToString(-j);
        NatToStringInjective(-i, -j);
      } else {
        NatToStringInjective(i, j);
      }
    }
  }

  /** Two strings that each start with a part free of `sep`, followed by a
      rest that starts with `sep`, split the same way when they are equal. */
  lemma SplitAtSeparator(x1: string, t1: string, x2: string, t2: string, sep: char)
    requires forall k :: 0 <= k < |x1| ==> x1[k] != sep
    requires forall k :: 0 <= k < |x2| ==> x2[k] != sep
    requires |t1| > 0 && t1[0] == sep && |t2| > 0 && t2[0] == sep
    requires x1 + t1 == x2 + t2
    ensures x1 == x2 && t1 == t2
  {
    assert forall k :: 0 <= k < |x1| ==> (x1 + t1)[k] == x1[k];
    assert forall k :: 0 <= k < |x2| ==> (x2 + t2)[k] == x2[k];
    FirstIndexUnique(x1 + t1, sep, |x1|);
    FirstIndexUnique(x2 + t2, sep, |x2|);
    assert x1 == (x1 + t1)[..|x1|];
    assert x2 == (x2 + t2)[..|x2|];
    assert t1 == (x1 + t1)[|x1|..];
    assert t2 == (x2 + t2)[|x2|..];
  }

  /** os.path.join for two POSIX path components: an absolute second
      component replaces the first; otherwise a '/' is inserted unless the
      first is empty or already ends with one. */
  function JoinPath(dir: string, name: string): (p: string)
    ensures EndsWith(p, name)
    ensures StartsWith(name, "/") ==> p == name
  {
    if StartsWith(name, "/") then name
    else if dir == [] || dir[|dir| - 1] == '/' then dir + name
    else dir + "/" + name
  }

  /** os.path.basename: everything after the last '/'. */
  function BaseName(p: string): (b: string)
    ensures EndsWith(p, b)
    ensures forall i :: 0 <= i < |b| ==> b[i] != '/'
  {
    if p == [] then []
    else if p[|p| - 1] == '/' then []
    else BaseName(p[..|p| - 1]) + [p[|p| - 1]]
  }

  /** The sequence holds no value twice. */
  predicate Distinct<T(==)>(s: seq<T>) {
    forall i, j :: 0 <= i < j < |s| ==> s[i] != s[j]
  }

  /** The position of the first element of `s` equal to `x`, if any (what
      `list.index` finds, or the first match of a search loop). */
  function FirstIndex<T(==)>(s: seq<T>, x: T): (r: Option<nat>)
    ensures r.Some? ==>
      && r.value < |s| && s[r.value] == x
      && forall j :: 0 <= j < r.value ==> s[j] != x
    ensures r.None? ==> forall j :: 0 <= j < |s| ==> s[j] != x
    decreases |s|
  {
    if s == [] then None
    else if s[0] == x then Some(0)
    else
      match FirstIndex(s[1..], x)
      case None => None
      case Some(i) => Some(i + 1)
  }

  /** An element at position i with no equal element before it is the
      first one. */
  lemma {:induction false} FirstIndexUnique<T>(s: seq<T>, x: T, i: nat)
    requires i < |s| && s[i] == x
    requires forall j :: 0 <= j < i ==> s[j] != x
    ensures FirstIndex(s, x) == Some(i)
    decreases |s|
  {
    if i > 0 {
      FirstIndexUnique(s[1..], x, i - 1);
    }
  }
}
