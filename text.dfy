/** The JavaScript string operations the catalog code calls: `toLowerCase`,
    `includes`, the default order of `Array.prototype.sort` on strings, and
    `parseFloat`. */
module Text {
  import opened Prelude
  import opened Sorting

  /** `toLowerCase` on one character, for the Latin and Cyrillic letters the
      catalog is written in; every other character is left as it is. */
  function Lower(c: char): (l: char)
    ensures 'A' <= c <= 'Z' ==> l as int == c as int + 32
    ensures 'А' <= c <= 'Я' ==> l as int == c as int + 32
    ensures 'Ѐ' <= c <= 'Џ' ==> l as int == c as int + 80
    ensures 'a' <= l <= 'z' || 'a' <= c <= 'z' ==> ('A' <= c <= 'Z' || l == c)
  {
    if 'A' <= c <= 'Z' then (c as int + 32) as char
    else if 'А' <= c <= 'Я' then (c as int + 32) as char   // А-Я to а-я
    else if 'Ѐ' <= c <= 'Џ' then (c as int + 80) as char   // Ѐ-Џ (Ё among them) to ѐ-џ
    else c
  }

  /** `s.toLowerCase()`, character by character. */
  function LowerStr(s: string): (r: string)
    ensures |r| == |s|
    ensures forall i :: 0 <= i < |s| ==> r[i] == Lower(s[i])
  {
    seq(|s|, i requires 0 <= i < |s| => Lower(s[i]))
  }

  lemma LowerIdempotent(c: char)
    ensures Lower(Lower(c)) == Lower(c)
  {
  }

  /** Lower-casing twice is lower-casing once. */
  lemma LowerStrIdempotent(s: string)
    ensures LowerStr(LowerStr(s)) == LowerStr(s)
  {
    forall i | 0 <= i < |s| ensures LowerStr(LowerStr(s))[i] == LowerStr(s)[i] {
      LowerIdempotent(s[i]);
    }
  }

  /** `hay.includes(needle)`: every string includes the empty string, and
      a needle that is found is no longer than the string searched. */
  function Contains(hay: string, needle: string): (r: bool)
    ensures |needle| == 0 ==> r
    ensures r ==> |needle| <= |hay|
    decreases |hay|
  {
    needle <= hay || (|hay| > 0 && Contains(hay[1..], needle))
  }

  /** `needle` occurs in `hay` starting at index `i`. */
  ghost predicate OccursAt(hay: string, needle: string, i: int) {
    0 <= i && i + |needle| <= |hay| && hay[i..i + |needle|] == needle
  }

  /** `Contains` finds `needle` exactly when it occurs at some position of
      `hay`. */
  lemma ContainsOccurrence(hay: string, needle: string)
    ensures Contains(hay, needle) <==> exists i :: OccursAt(hay, needle, i)
  {
    if Contains(hay, needle) {
      var i := FoundAt(hay, needle);
    }
    if exists i :: OccursAt(hay, needle, i) {
      var i :| OccursAt(hay, needle, i);
      OccurrenceFound(hay, needle, i);
    }
  }

  /** A position where a needle that `Contains` finds occurs. */
  lemma {:induction false} FoundAt(hay: string, needle: string) returns (i: int)
    requires Contains(hay, needle)
    ensures OccursAt(hay, needle, i)
    decreases |hay|
  {
    if needle <= hay {
      i := 0;
    } else {
      var j := FoundAt(hay[1..], needle);
      assert hay[1..][j..j + |needle|] == hay[j + 1..j + 1 + |needle|];
      i := j + 1;
    }
  }

  /** `Contains` finds a needle that occurs at position `i`. */
  lemma {:induction false} OccurrenceFound(hay: string, needle: string, i: int)
    requires OccursAt(hay, needle, i)
    ensures Contains(hay, needle)
    decreases |hay|
  {
    if i > 0 {
      assert hay[1..][i - 1..i - 1 + |needle|] == hay[i..i + |needle|];
      OccurrenceFound(hay[1..], needle, i - 1);
    }
  }

  /** The default order of `sort()` on strings: lexicographic by character
      code, a proper prefix first. */
  function StrLe(a: string, b: string): bool
    decreases |a|
  {
    if |a| == 0 then true
    else if |b| == 0 then false
    else if a[0] != b[0] then a[0] < b[0]
    else StrLe(a[1..], b[1..])
  }

  lemma {:induction false} StrLeTotal(a: string, b: string)
    ensures StrLe(a, b) || StrLe(b, a)
    decreases |a|
  {
    if |a| > 0 && |b| > 0 && a[0] == b[0] {
      StrLeTotal(a[1..], b[1..]);
    }
  }

  lemma {:induction false} StrLeTransitive(a: string, b: string, c: string)
    requires StrLe(a, b) && StrLe(b, c)
    ensures StrLe(a, c)
    decreases |a|
  {
    if |a| > 0 && |b| > 0 && |c| > 0 && a[0] == b[0] && b[0] == c[0] {
      StrLeTransitive(a[1..], b[1..], c[1..]);
    }
  }

  lemma StrLeIsTotalPreorder()
    ensures TotalPreorder(StrLe)
  {
    forall a, b ensures StrLe(a, b) || StrLe(b, a) {
      StrLeTotal(a, b);
    }
    forall a, b, c | StrLe(a, b) && StrLe(b, c) ensures StrLe(a, c) {
      StrLeTransitive(a, b, c);
    }
  }

  function IsDigit(c: char): bool { '0' <= c <= '9' }

  /** The characters `trim` and `parseFloat` skip: the white space and line
      terminators of ECMAScript, that is TAB, VT, FF, SP, NBSP, the byte order
      mark, every other space separator (Zs), LF, CR, LS and PS. */
  function IsSpace(c: char): bool {
    || c == '\t' || c == '\U{000B}' || c == '\U{000C}' || c == ' ' || c == '\U{00A0}'
    || c == '\U{FEFF}' || c == '\U{1680}' || '\U{2000}' <= c <= '\U{200A}'
    || c == '\U{202F}' || c == '\U{205F}' || c == '\U{3000}'
    || c == '\n' || c == '\r' || c == '\U{2028}' || c == '\U{2029}'
  }

  /** The length of the run of digits `s` starts with. */
  function LeadingDigits(s: string): (n: nat)
    ensures n <= |s|
    ensures forall i :: 0 <= i < n ==> IsDigit(s[i])
    ensures n < |s| ==> !IsDigit(s[n])
  {
    if |s| > 0 && IsDigit(s[0]) then 1 + LeadingDigits(s[1..]) else 0
  }

  /** The value of a run of decimal digits, most significant first. */
  function DigitsValue(ds: string): nat {
    if |ds| == 0 then 0
    else
      var d := ds[|ds| - 1];
      10 * DigitsValue(ds[..|ds| - 1]) + (if IsDigit(d) then d as int - '0' as int else 0)
  }

  /** A run of `k` digits is worth less than `10^k`. */
  lemma {:induction false} DigitsValueBound(ds: string)
    ensures DigitsValue(ds) < Pow10(|ds|)
  {
    if |ds| > 0 {
      DigitsValueBound(ds[..|ds| - 1]);
    }
  }

  function Pow10(n: nat): (p: nat)
    ensures p > 0
  {
    if n == 0 then 1 else 10 * Pow10(n - 1)
  }

  function TrimStart(s: string): string {
    if |s| > 0 && IsSpace(s[0]) then TrimStart(s[1..]) else s
  }

  /** `s` with its leading white space and one optional sign removed. */
  function Unsigned(s: string): string {
    var t := TrimStart(s);
    if |t| > 0 && (t[0] == '-' || t[0] == '+') then t[1..] else t
  }

  /** `s` has a minus sign after its leading white space. */
  function IsNegative(s: string): bool {
    var t := TrimStart(s);
    |t| > 0 && t[0] == '-'
  }

  /** The integer digits at the front of `Unsigned(s)`. */
  function IntegerDigits(s: string): string {
    Unsigned(s)[..LeadingDigits(Unsigned(s))]
  }

  /** The digits after a point that follows the leading digits of `u`;
      empty when there is no such point or no digit after it. */
  function FractionDigits(u: string): (f: string)
    ensures forall i :: 0 <= i < |f| ==> IsDigit(f[i])
    ensures LeadingDigits(u) == 0 ==> (|f| > 0 <==> |u| > 1 && u[0] == '.' && IsDigit(u[1]))
    ensures LeadingDigits(u) == |u| ==> f == ""
  {
    var rest := u[LeadingDigits(u)..];
    if |rest| > 0 && rest[0] == '.' then
      assert |rest| > 1 ==> rest[1..][0] == rest[1];
      rest[1..][..LeadingDigits(rest[1..])]
    else ""
  }

  /** The value of the fraction digits `f`: a number in [0, 1). */
  function FractionValue(f: string): (v: real)
    ensures 0.0 <= v < 1.0
  {
    DigitsValueBound(f);
    QuotientBelowOne(DigitsValue(f) as real, Pow10(|f|) as real);
    DigitsValue(f) as real / Pow10(|f|) as real
  }

  lemma QuotientBelowOne(x: real, p: real)
    requires 0.0 <= x < p
    ensures 0.0 <= x / p < 1.0
  {
  }

  /** `parseFloat(s)` for decimal notation: leading white space, an optional
      sign, digits, and an optional fraction, read as far as they go; `None`
      stands for `NaN`. A number is found exactly when a digit follows the
      sign, or a point and then a digit; its magnitude lies between the value
      of the integer digits and that value plus one, and equals it when there
      is nothing after those digits. */
  function ParseFloat(s: string): (r: Option<real>)
    ensures r.Some? <==>
      var u := Unsigned(s);
      (|u| > 0 && IsDigit(u[0])) || (|u| > 1 && u[0] == '.' && IsDigit(u[1]))
    ensures r.Some? ==>
      var magnitude := if IsNegative(s) then -r.value else r.value;
      var whole := DigitsValue(IntegerDigits(s)) as real;
      && whole <= magnitude < whole + 1.0
      && (|IntegerDigits(s)| == |Unsigned(s)| ==> magnitude == whole)
  {
    var u := Unsigned(s);
    var fraction := FractionDigits(u);
    if LeadingDigits(u) == 0 && |fraction| == 0 then None
    else
      var magnitude := DigitsValue(IntegerDigits(s)) as real + FractionValue(fraction);
      Some(if IsNegative(s) then -magnitude else magnitude)
  }
}
