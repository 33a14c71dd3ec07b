/** String splitting, stripping and decimal numbers, as Python does them. */
module Text {
  import opened Wrappers

  /** `s.split(c)` for a one-character separator. */
  function Split(s: string, c: char): (r: seq<string>)
    ensures |r| >= 1
  {
    if s == "" then [""]
    else
      var r := Split(s[1..], c);
      if s[0] == c then [""] + r else [[s[0]] + r[0]] + r[1..]
  }

  lemma {:induction false} SplitWithout(s: string, c: char)
    ensures |Split(s, c)| == 1 <==> c !in s
    ensures c !in s ==> Split(s, c) == [s]
  {
    if s != "" {
      SplitWithout(s[1..], c);
      assert s == [s[0]] + s[1..];
    }
  }

  /** Splitting at the first separator; every separator makes one more part. */
  lemma {:induction false} SplitAt(a: string, c: char, b: string)
    ensures |Split(a + [c] + b, c)| == |Split(a, c)| + |Split(b, c)|
    ensures c !in a ==> Split(a + [c] + b, c) == [a] + Split(b, c)
  {
    var s := a + [c] + b;
    if a == "" {
      assert s[1..] == b;
    } else {
      assert s[1..] == a[1..] + [c] + b;
      assert a == [a[0]] + a[1..];
      SplitAt(a[1..], c, b);
    }
  }

  function Join(parts: seq<string>, c: char): string {
    if parts == [] then "" else if |parts| == 1 then parts[0] else parts[0] + [c] + Join(parts[1..], c)
  }

  /** Splitting undoes joining. */
  lemma {:induction false} SplitJoin(parts: seq<string>, c: char)
    requires parts != [] && forall i :: 0 <= i < |parts| ==> c !in parts[i]
    ensures Split(Join(parts, c), c) == parts
  {
    if |parts| == 1 {
      SplitWithout(parts[0], c);
    } else {
      SplitJoin(parts[1..], c);
      SplitAt(parts[0], c, Join(parts[1..], c));
    }
  }

  predicate IsSpace(c: char) {
    c == ' ' || '\U{0009}' <= c <= '\U{000D}'
  }

  function StripLeft(s: string): string {
    if s != "" && IsSpace(s[0]) then StripLeft(s[1..]) else s
  }

  function StripRight(s: string): string {
    if s != "" && IsSpace(s[|s| - 1]) then StripRight(s[..|s| - 1]) else s
  }

  function Strip(s: string): string {
    StripRight(StripLeft(s))
  }

  /** Only blanks, tabs, line and form feeds and the like. */
  predicate AllSpace(s: string) {
    forall i :: 0 <= i < |s| ==> s[i] == ' ' || '\U{0009}' <= s[i] <= '\U{000D}'
  }

  /** Space at both ends goes, and nothing else. */
  lemma {:induction false} StripPadded(left: string, core: string, right: string)
    requires AllSpace(left) && AllSpace(right)
    requires core != "" ==> !IsSpace(core[0]) && !IsSpace(core[|core| - 1])
    ensures Strip(left + core + right) == core
    decreases |left| + |right|
  {
    var s := left + core + right;
    if left != "" {
      assert s[1..] == left[1..] + core + right;
      StripPadded(left[1..], core, right);
    } else if right != "" && core == "" {
      assert s[1..] == left + core + right[1..];
      StripPadded(left, core, right[1..]);
    } else if right != "" {
      assert StripLeft(s) == s;
      assert s[..|s| - 1] == left + core + right[..|right| - 1];
      StripPadded(left, core, right[..|right| - 1]);
      assert StripLeft(s[..|s| - 1]) == s[..|s| - 1];
    } else {
      assert s == core;
    }
  }

  // ----- decimal integers ----------------------------------------------------------------

  predicate IsDigit(c: char) {
    '0' <= c <= '9'
  }

  function PrintNat(n: nat): (s: string)
    ensures s != "" && forall i :: 0 <= i < |s| ==> IsDigit(s[i])
    ensures n > 0 ==> s[0] != '0'
  {
    var d := [('0' as int + n % 10) as char];
    if n < 10 then d else PrintNat(n / 10) + d
  }

  function PrintInt(n: int): (s: string)
    ensures s != "" && (s[0] == '-' <==> n < 0)
  {
    if n < 0 then "-" + PrintNat(-n) else PrintNat(n)
  }

  function ReadNat(s: string): nat
    requires forall i :: 0 <= i < |s| ==> IsDigit(s[i])
  {
    if s == "" then 0
    else
      var d := s[|s| - 1];
      assert IsDigit(d);
      10 * ReadNat(s[..|s| - 1]) + (d as int - '0' as int)
  }

  function ReadDigits(s: string): Option<nat> {
    if s != "" && (forall i :: 0 <= i < |s| ==> IsDigit(s[i])) then Some(ReadNat(s)) else None
  }

  /** `int(s)`: surrounding space and a sign are allowed; anything else is a ValueError. */
  function ReadInt(s: string): Option<int> {
    var t := Strip(s);
    if t == "" then None
    else
      var digits := ReadDigits(if t[0] in "+-" then t[1..] else t);
      match digits
      case None => None
      case Some(n) =>
        var v: int := if t[0] == '-' then -(n as int) else n as int;
        Some(v)
  }

  lemma {:induction false} ReadPrintedNat(n: nat)
    ensures ReadNat(PrintNat(n)) == n
    decreases n
  {
    if n >= 10 {
      ReadPrintedNat(n / 10);
      var s := PrintNat(n);
      assert s[..|s| - 1] == PrintNat(n / 10);
    } else {
      assert PrintNat(n)[..0] == "";
    }
  }

  lemma ReadStripped(s: string, sign: string, digits: string, n: nat)
    requires Strip(s) == sign + digits && digits == PrintNat(n) && (sign == "" || sign == "+" || sign == "-")
    ensures ReadInt(s).Some? && ReadInt(s).value == if sign == "-" then -(n as int) else n as int
  {
    var t := Strip(s);
    ReadPrintedNat(n);
    if sign == "" {
      assert t == digits && IsDigit(t[0]);
    } else {
      assert t[0] == sign[0] && t[1..] == digits;
    }
  }

  /** Space around a number and a sign before it are read over. */
  lemma ReadPadded(left: string, sign: string, n: nat, right: string)
    requires AllSpace(left) && AllSpace(right) && (sign == "" || sign == "+" || sign == "-")
    ensures var r := ReadInt(left + (sign + PrintNat(n)) + right);
            r.Some? && r.value == if sign == "-" then -(n as int) else n as int
  {
    var digits := PrintNat(n);
    var core := sign + digits;
    assert !IsSpace(core[0]) && !IsSpace(core[|core| - 1]) by {
      assert core[|core| - 1] == digits[|digits| - 1] && core[0] == if sign == "" then digits[0] else sign[0];
    }
    StripPadded(left, core, right);
    ReadStripped(left + core + right, sign, digits, n);
  }

  /** Anything that is not a sign and digits, but for space around it, is refused. */
  lemma ReadNeedsDigits(left: string, core: string, right: string, i: nat)
    requires AllSpace(left) && AllSpace(right) && i < |core| && !IsDigit(core[i]) && (i == 0 ==> core[0] !in "+-")
    requires !IsSpace(core[0]) && !IsSpace(core[|core| - 1])
    ensures ReadInt(left + core + right) == None
  {
    StripPadded(left, core, right);
    if core[0] in "+-" {
      assert core[1..][i - 1] == core[i];
    }
  }

  lemma ReadPrintedInt(n: int)
    ensures ReadInt(PrintInt(n)) == Some(n)
  {
    var s := PrintInt(n);
    var digits := PrintNat(if n < 0 then -n else n);
    ReadPrintedNat(if n < 0 then -n else n);
    assert s[|s| - 1] == digits[|digits| - 1];
    assert Strip(s) == s;
    if n < 0 {
      assert s[1..] == digits;
    }
  }
}
