/** Small helpers that give JavaScript values and string operations a meaning in Dafny.
    Strings are sequences of characters; identifiers coming back from the storage API
    may be strings or (integral) numbers, or be missing altogether. */
module JsValues {

  datatype Option<+T> = None | Some(value: T)

  /** An identifier field of a JSON response (`fileID`, `parentFileID`, ...). */
  datatype JsId = Absent | Null | Text(s: string) | Number(n: int)

  /** JavaScript truthiness of an identifier: `undefined`, `null`, `""` and `0` are falsy. */
  predicate Truthy(v: JsId) {
    match v
    case Absent => false
    case Null => false
    case Text(s) => s != ""
    case Number(n) => n != 0
  }

  function Min(a: int, b: int): int {
    if a <= b then a else b
  }

  function Max(a: int, b: int): int {
    if a <= b then b else a
  }

  predicate IsDigit(c: char) {
    '0' <= c <= '9'
  }

  predicate IsAsciiAlnum(c: char) {
    IsDigit(c) || 'a' <= c <= 'z' || 'A' <= c <= 'Z'
  }

  function DigitChar(d: nat): (c: char)
    requires d < 10
    ensures IsDigit(c)
  {
    "0123456789"[d]
  }

  /** Decimal notation of a natural number, without leading zeros. */
  function NatText(n: nat): (t: string)
    ensures |t| >= 1
    ensures forall i :: 0 <= i < |t| ==> IsDigit(t[i])
    ensures n > 0 ==> t[0] != '0'
    decreases n
  {
    if n < 10 then [DigitChar(n)] else NatText(n / 10) + [DigitChar(n % 10)]
  }

  /** Value of a string of decimal digits. */
  function DigitsValue(t: string): nat
    requires forall i :: 0 <= i < |t| ==> IsDigit(t[i])
  {
    if |t| == 0 then 0
    else 10 * DigitsValue(t[..|t| - 1]) + DigitValue(t[|t| - 1])
  }

  function DigitValue(c: char): nat
    requires IsDigit(c)
  {
    c as int - '0' as int
  }

  /** Reading the decimal text back gives the number. */
  lemma {:induction false} NatTextValue(n: nat)
    ensures DigitsValue(NatText(n)) == n
    decreases n
  {
    if n >= 10 {
      var t := NatText(n);
      assert t[..|t| - 1] == NatText(n / 10);
      NatTextValue(n / 10);
    }
  }

  /** `String(n)` for an integral number. */
  function IntText(n: int): string {
    if n < 0 then "-" + NatText(-n) else NatText(n)
  }

  /** `String(v)` / template-literal interpolation of an identifier. */
  function ToText(v: JsId): string {
    match v
    case Absent => "undefined"
    case Null => "null"
    case Text(s) => s
    case Number(n) => IntText(n)
  }

  /** `s.includes(needle)`. */
  predicate Contains(s: string, needle: string) {
    exists i :: 0 <= i <= |s| - |needle| && OccursAt(s, needle, i)
  }

  /** `needle` occurs in `s` starting at index `i`. */
  predicate OccursAt(s: string, needle: string, i: int) {
    0 <= i <= |s| - |needle| && s[i..i + |needle|] == needle
  }

  /** A witness position is enough to show containment. */
  lemma ContainsAt(s: string, needle: string, i: int)
    requires 0 <= i <= |s| - |needle|
    requires s[i..i + |needle|] == needle
    ensures Contains(s, needle)
  {
    assert OccursAt(s, needle, i);
  }

  /** `String.prototype.toLowerCase`, restricted to the ASCII letters. */
  function AsciiLower(c: char): char {
    if 'A' <= c <= 'Z' then (c as int + 32) as char else c
  }

  function ToLower(s: string): (r: string)
    ensures |r| == |s|
  {
    seq(|s|, i requires 0 <= i < |s| => AsciiLower(s[i]))
  }

  /** Lower-casing cannot create or destroy an occurrence of a needle without ASCII letters. */
  lemma LowerKeepsNonLetterNeedle(s: string, needle: string)
    requires forall j :: 0 <= j < |needle| ==> !('A' <= needle[j] <= 'Z') && !('a' <= needle[j] <= 'z')
    ensures Contains(ToLower(s), needle) <==> Contains(s, needle)
  {
    var l := ToLower(s);
    if Contains(l, needle) {
      var i :| 0 <= i <= |l| - |needle| && OccursAt(l, needle, i);
      LowerOccurrence(s, needle, i);
      ContainsAt(s, needle, i);
    }
    if Contains(s, needle) {
      var i :| 0 <= i <= |s| - |needle| && OccursAt(s, needle, i);
      LowerOccurrence(s, needle, i);
      ContainsAt(l, needle, i);
    }
  }

  lemma LowerOccurrence(s: string, needle: string, i: int)
    requires forall j :: 0 <= j < |needle| ==> !('A' <= needle[j] <= 'Z') && !('a' <= needle[j] <= 'z')
    requires 0 <= i <= |s| - |needle|
    ensures ToLower(s)[i..i + |needle|] == needle <==> s[i..i + |needle|] == needle
  {
    var l := ToLower(s);
    if l[i..i + |needle|] == needle {
      forall j | 0 <= j < |needle|
        ensures s[i + j] == needle[j]
      {
        assert l[i + j] == needle[j];
      }
    }
    if s[i..i + |needle|] == needle {
      forall j | 0 <= j < |needle|
        ensures l[i + j] == needle[j]
      {
        assert s[i + j] == needle[j];
      }
    }
  }
}
