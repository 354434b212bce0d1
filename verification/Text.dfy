/** Strings as the provider handles them: searching, splitting, joining, ASCII case,
    trimming, and decimal numbers.  The laws proved here are the ones every printer
    and parser of the other modules rests on. */
module Text {

  datatype Option<+T> = None | Some(value: T)

  /** A Terraform attribute value: null, not known yet, or known. */
  datatype Tf<+T> = Null | Unknown | Known(v: T)

  /** ValueString(), ValueBool() and ValueInt64(): null and unknown read as the zero value. */
  function Str(x: Tf<string>): string {
    if x.Known? then x.v else ""
  }

  function Bool(x: Tf<bool>): bool {
    x.Known? && x.v
  }

  function Int(x: Tf<Int64>): Int64 {
    if x.Known? then x.v else 0
  }

  const TWO_TO_THE_63: int := 0x8000_0000_0000_0000

  type Int64 = n: int | -TWO_TO_THE_63 <= n < TWO_TO_THE_63

  // ---------------------------------------------------------------- case

  function LowerChar(c: char): char {
    if 'A' <= c <= 'Z' then (c as int + 32) as char else c
  }

  function UpperChar(c: char): char {
    if 'a' <= c <= 'z' then (c as int - 32) as char else c
  }

  function Lower(s: string): (t: string)
    ensures |t| == |s|
  {
    seq(|s|, i requires 0 <= i < |s| => LowerChar(s[i]))
  }

  function Upper(s: string): (t: string)
    ensures |t| == |s|
  {
    seq(|s|, i requires 0 <= i < |s| => UpperChar(s[i]))
  }

  predicate EqualFold(a: string, b: string) {
    Lower(a) == Lower(b)
  }

  lemma LowerConcat(a: string, b: string)
    ensures Lower(a + b) == Lower(a) + Lower(b)
  {
  }

  // ---------------------------------------------------------------- searching

  predicate At(s: string, sub: string, i: int) {
    0 <= i <= |s| - |sub| && s[i..i + |sub|] == sub
  }

  /** strings.Index: the first occurrence of sub, or -1. */
  function Index(s: string, sub: string): (i: int)
    ensures -1 <= i <= |s|
    ensures i >= 0 ==> At(s, sub, i)
    ensures forall j :: 0 <= j && (i < 0 || j < i) ==> !At(s, sub, j)
  {
    IndexFrom(s, sub, 0)
  }

  function IndexFrom(s: string, sub: string, k: nat): (i: int)
    requires k <= |s|
    ensures i == -1 || k <= i <= |s|
    ensures i >= 0 ==> At(s, sub, i)
    ensures forall j :: k <= j && (i < 0 || j < i) ==> !At(s, sub, j)
    decreases |s| - k
  {
    if At(s, sub, k) then k
    else if k == |s| then -1
    else IndexFrom(s, sub, k + 1)
  }

  /** A character is found where it first stands. */
  lemma IndexAt(s: string, c: char, k: int)
    requires 0 <= k < |s| && s[k] == c && c !in s[..k]
    ensures Index(s, [c]) == k
  {
    assert s[k..k + 1] == [c] && At(s, [c], k);
    forall j | 0 <= j < k ensures !At(s, [c], j) {
      assert s[j..j + 1][0] == s[j] == s[..k][j];
    }
  }

  /** strings.LastIndex: the last occurrence of sub, or -1. */
  function LastIndex(s: string, sub: string): (i: int)
    ensures -1 <= i <= |s|
    ensures i >= 0 ==> At(s, sub, i)
    ensures forall j :: j > i ==> !At(s, sub, j)
  {
    LastIndexFrom(s, sub, |s|)
  }

  function LastIndexFrom(s: string, sub: string, k: nat): (i: int)
    requires k <= |s|
    ensures -1 <= i <= k
    ensures i >= 0 ==> At(s, sub, i)
    ensures forall j :: i < j <= k ==> !At(s, sub, j)
  {
    if At(s, sub, k) then k
    else if k == 0 then -1
    else LastIndexFrom(s, sub, k - 1)
  }

  predicate HasSuffix(s: string, t: string) {
    |t| <= |s| && s[|s| - |t|..] == t
  }

  function TrimSuffix(s: string, t: string): string {
    if HasSuffix(s, t) then s[..|s| - |t|] else s
  }

  function CountChar(s: string, c: char): nat {
    if s == "" then 0 else (if s[0] == c then 1 else 0) + CountChar(s[1..], c)
  }

  lemma CountCharZero(s: string, c: char)
    ensures CountChar(s, c) == 0 <==> c !in s
  {
    if s != "" {
      CountCharZero(s[1..], c);
      assert s == [s[0]] + s[1..];
    }
  }

  lemma CountCharConcat(a: string, b: string, c: char)
    ensures CountChar(a + b, c) == CountChar(a, c) + CountChar(b, c)
  {
    if a == "" {
      assert a + b == b;
    } else {
      assert (a + b)[1..] == a[1..] + b;
      CountCharConcat(a[1..], b, c);
    }
  }

  /** Two texts joined by the one colon come apart at it. */
  lemma OneColon(a: string, b: string)
    requires ':' !in a && ':' !in b
    ensures var s := a + ":" + b;
      CountChar(s, ':') == 1 && Index(s, ":") == |a| && s[..|a|] == a && s[|a| + 1..] == b
  {
    var s := a + ":" + b;
    CountCharZero(a, ':');
    CountCharZero(b, ':');
    CountCharConcat(a + ":", b, ':');
    CountCharConcat(a, ":", ':');
    assert CountChar(":", ':') == 1 by { assert ":"[1..] == ""; }
    assert s[..|a|] == a && s[|a| + 1..] == b;
    IndexAt(s, ':', |a|);
  }

  // ---------------------------------------------------------------- white space

  /** unicode.IsSpace */
  predicate IsSpace(c: char) {
    var n := c as int;
    9 <= n <= 13 || n == 32 || n == 0x85 || n == 0xA0 || n == 0x1680 || 0x2000 <= n <= 0x200a ||
    n == 0x2028 || n == 0x2029 || n == 0x202f || n == 0x205f || n == 0x3000
  }

  function TrimLeftSpace(s: string): (t: string)
    ensures t != "" ==> !IsSpace(t[0])
  {
    if s == "" || !IsSpace(s[0]) then s else TrimLeftSpace(s[1..])
  }

  function TrimRightSpace(s: string): (t: string)
    ensures t <= s
    ensures t != "" ==> !IsSpace(t[|t| - 1])
  {
    if s == "" || !IsSpace(s[|s| - 1]) then s else TrimRightSpace(s[..|s| - 1])
  }

  /** strings.TrimSpace */
  function TrimSpace(s: string): (t: string)
    ensures t != "" ==> !IsSpace(t[0]) && !IsSpace(t[|t| - 1])
  {
    TrimRightSpace(TrimLeftSpace(s))
  }

  lemma TrimSpaceNoop(s: string)
    requires s == "" || (!IsSpace(s[0]) && !IsSpace(s[|s| - 1]))
    ensures TrimSpace(s) == s
  {
  }

  /** strings.TrimRight(s, " ") */
  function TrimRightBlank(s: string): (t: string)
    ensures t <= s
    ensures t != "" ==> t[|t| - 1] != ' '
  {
    if s == "" || s[|s| - 1] != ' ' then s else TrimRightBlank(s[..|s| - 1])
  }

  // ---------------------------------------------------------------- split and join

  /** strings.Split(s, sep) for a one-character separator. */
  function Split(s: string, sep: char): (parts: seq<string>)
    ensures |parts| >= 1
    ensures forall i :: 0 <= i < |parts| ==> sep !in parts[i]
  {
    if s == "" then [""]
    else
      var rest := Split(s[1..], sep);
      if s[0] == sep then [""] + rest else [[s[0]] + rest[0]] + rest[1..]
  }

  /** strings.Join(parts, sep) */
  function Join(parts: seq<string>, sep: string): string {
    if |parts| == 0 then ""
    else if |parts| == 1 then parts[0]
    else parts[0] + sep + Join(parts[1..], sep)
  }

  lemma {:induction false} SplitNone(s: string, sep: char)
    requires sep !in s
    ensures Split(s, sep) == [s]
  {
    if s != "" {
      SplitNone(s[1..], sep);
      assert s == [s[0]] + s[1..];
    }
  }

  /** A separator-free head is cut off whole. */
  lemma {:induction false} SplitCons(a: string, b: string, sep: char)
    requires sep !in a
    ensures Split(a + [sep] + b, sep) == [a] + Split(b, sep)
  {
    var s := a + [sep] + b;
    if a == "" {
      assert s[1..] == b;
    } else {
      assert s[1..] == a[1..] + [sep] + b;
      SplitCons(a[1..], b, sep);
      assert a == [a[0]] + a[1..];
    }
  }

  /** A separator-free tail is cut off whole, whatever the head holds. */
  lemma {:induction false} SplitSnoc(a: string, b: string, sep: char)
    requires sep !in b
    ensures Split(a + [sep] + b, sep) == Split(a, sep) + [b]
  {
    var s := a + [sep] + b;
    if a == "" {
      assert s[1..] == b;
      SplitNone(b, sep);
    } else {
      assert s[1..] == a[1..] + [sep] + b;
      SplitSnoc(a[1..], b, sep);
    }
  }

  lemma {:induction false} JoinSplit(s: string, sep: char)
    ensures Join(Split(s, sep), [sep]) == s
  {
    if s != "" {
      JoinSplit(s[1..], sep);
      var rest := Split(s[1..], sep);
      if s[0] == sep {
        assert ([""] + rest)[1..] == rest;
        assert s == [s[0]] + s[1..];
      } else {
        var parts := [[s[0]] + rest[0]] + rest[1..];
        assert parts[1..] == rest[1..];
        assert s == [s[0]] + s[1..];
      }
    }
  }

  lemma {:induction false} SplitJoin(parts: seq<string>, sep: char)
    requires |parts| >= 1
    requires forall i :: 0 <= i < |parts| ==> sep !in parts[i]
    ensures Split(Join(parts, [sep]), sep) == parts
  {
    if |parts| == 1 {
      SplitNone(parts[0], sep);
    } else {
      SplitJoin(parts[1..], sep);
      SplitCons(parts[0], Join(parts[1..], [sep]), sep);
    }
  }

  // ---------------------------------------------------------------- decimal numbers

  predicate IsDigit(c: char) {
    '0' <= c <= '9'
  }

  predicate AllDigits(s: string) {
    forall i :: 0 <= i < |s| ==> IsDigit(s[i])
  }

  function DigitsValue(s: string): nat
    requires AllDigits(s)
  {
    if s == "" then 0
    else DigitsValue(s[..|s| - 1]) * 10 + (s[|s| - 1] as int - '0' as int)
  }

  function PrintNat(n: nat): (s: string)
    ensures s != "" && AllDigits(s) && DigitsValue(s) == n
  {
    var last := ('0' as int + n % 10) as char;
    if n < 10 then [last]
    else
      var s := PrintNat(n / 10) + [last];
      assert s[..|s| - 1] == PrintNat(n / 10);
      s
  }

  /** strconv.Itoa, and the verb %d */
  function Itoa(n: int): (s: string)
    ensures s != ""
    ensures forall c :: c in s ==> IsDigit(c) || c == '-'
  {
    if n < 0 then "-" + PrintNat(-n) else PrintNat(n)
  }

  /** strconv.ParseInt(s, 10, 64) */
  function ParseInt64(s: string): (r: Option<Int64>)
    ensures r.Some? ==> s != ""
  {
    var signed := s != "" && (s[0] == '+' || s[0] == '-');
    var body := if signed then s[1..] else s;
    if body == "" || !AllDigits(body) then None
    else
      var v: int := DigitsValue(body);
      var v := if signed && s[0] == '-' then 0 - v else v;
      if -TWO_TO_THE_63 <= v < TWO_TO_THE_63 then Some(v) else None
  }

  lemma ParseItoa(n: Int64)
    ensures ParseInt64(Itoa(n)) == Some(n)
  {
    if n < 0 {
      var s := Itoa(n);
      assert s[1..] == PrintNat(0 - n as int);
    }
  }

  /** The verb %t */
  function FormatBool(b: bool): string {
    if b then "true" else "false"
  }

  /** No decimal number reads "true" or "false". */
  lemma ItoaIsNotABool(n: int)
    ensures Itoa(n) != "true" && Itoa(n) != "false"
  {
    assert Itoa(n)[0] in Itoa(n);
  }
}
