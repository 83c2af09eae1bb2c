/**
 * The JavaScript string operations the onboarding screen relies on: `length`,
 * `slice`, `trim`, `trimStart`, `includes`, `startsWith` and `toLowerCase`.
 * A JavaScript string is a sequence of UTF-16 code units, and so is `JsString`:
 * a character above U+FFFF takes two code units (a surrogate pair).
 */
module JsText {

  /** One UTF-16 code unit. */
  newtype CodeUnit = x: int | 0 <= x < 0x1_0000

  /** A JavaScript string. */
  type JsString = seq<CodeUnit>

  predicate IsHighSurrogate(u: CodeUnit) {
    0xD800 <= u < 0xDC00
  }

  predicate IsLowSurrogate(u: CodeUnit) {
    0xDC00 <= u < 0xE000
  }

  /**
   * The UTF-16 encoding of one character: a single code unit up to U+FFFF, above
   * that a high and a low surrogate from which the character can be recovered.
   */
  function EncodeChar(c: char): (r: JsString)
    ensures c as int < 0x1_0000 ==> r == [c as int as CodeUnit]
    ensures c as int >= 0x1_0000 ==>
              |r| == 2 && IsHighSurrogate(r[0]) && IsLowSurrogate(r[1]) &&
              0x1_0000 + (r[0] as int - 0xD800) * 0x400 + (r[1] as int - 0xDC00) == c as int
  {
    if c as int < 0x1_0000 then [c as int as CodeUnit]
    else
      var v := c as int - 0x1_0000;
      [(0xD800 + v / 0x400) as CodeUnit, (0xDC00 + v % 0x400) as CodeUnit]
  }

  /** The UTF-16 encoding of a text: what a JavaScript string literal or a text input holds. */
  function Utf16(s: string): (r: JsString)
    ensures |r| >= |s|
  {
    if s == [] then [] else Utf16(s[..|s| - 1]) + EncodeChar(s[|s| - 1])
  }

  /** Text without characters above U+FFFF is encoded one code unit per character. */
  lemma {:induction false} Utf16Bmp(s: string)
    requires forall i :: 0 <= i < |s| ==> s[i] as int < 0x1_0000
    ensures |Utf16(s)| == |s|
    ensures forall i :: 0 <= i < |s| ==> Utf16(s)[i] as int == s[i] as int
  {
    if s != [] {
      Utf16Bmp(s[..|s| - 1]);
    }
  }

  /** Every character above U+FFFF counts twice in the length. */
  lemma Utf16Astral(s: string, c: char)
    requires c as int >= 0x1_0000
    ensures |Utf16(s + [c])| == |Utf16(s)| + 2
  {
    assert (s + [c])[..|s|] == s;
  }

  /** The characters `trim` removes and the regular-expression class `\s` matches: WhiteSpace and LineTerminator. */
  predicate IsSpace(c: CodeUnit)
    ensures c < 0x80 ==> (IsSpace(c) <==> c == 0x20 || 0x09 <= c <= 0x0D)
    ensures IsSpace(c) ==> !IsDigit(c) && !IsUpper(c)
  {
    c == 0x09 || c == 0x0A || c == 0x0B || c == 0x0C || c == 0x0D || c == 0x20 ||
    c == 0xA0 || c == 0x1680 || (0x2000 <= c <= 0x200A) ||
    c == 0x2028 || c == 0x2029 || c == 0x202F || c == 0x205F ||
    c == 0x3000 || c == 0xFEFF
  }

  /** The ASCII digits, the class `\d`. */
  predicate IsDigit(c: CodeUnit) {
    0x30 <= c <= 0x39
  }

  /** The ASCII capitals. */
  predicate IsUpper(c: CodeUnit) {
    0x41 <= c <= 0x5A
  }

  /** Some character of `s` is not white space: what `s.trim().length > 0` tests. */
  predicate HasVisible(s: JsString) {
    exists i :: 0 <= i < |s| && !IsSpace(s[i])
  }

  /** `s.trimStart()`: the longest suffix of `s` that does not start with white space. */
  function TrimStart(s: JsString): (r: JsString)
    ensures |r| <= |s| && r == s[|s| - |r|..]
    ensures forall i :: 0 <= i < |s| - |r| ==> IsSpace(s[i])
    ensures r == [] || !IsSpace(r[0])
  {
    if s != [] && IsSpace(s[0]) then TrimStart(s[1..]) else s
  }

  /** `s.trimEnd()`: the longest prefix of `s` that does not end with white space. */
  function TrimEnd(s: JsString): (r: JsString)
    ensures |r| <= |s| && r == s[..|r|]
    ensures forall i :: |r| <= i < |s| ==> IsSpace(s[i])
    ensures r == [] || !IsSpace(r[|r| - 1])
  {
    if s != [] && IsSpace(s[|s| - 1]) then TrimEnd(s[..|s| - 1]) else s
  }

  /** `s.trim()`. */
  function Trim(s: JsString): (r: JsString)
    ensures |r| <= |s|
    ensures r == [] || (!IsSpace(r[0]) && !IsSpace(r[|r| - 1]))
  {
    TrimEnd(TrimStart(s))
  }

  /** A trimmed string is empty exactly when the string is all white space. */
  lemma TrimEmpty(s: JsString)
    ensures Trim(s) == [] <==> !HasVisible(s)
  {
    var t := TrimStart(s);
    if Trim(s) != [] {
      var r := Trim(s);
      assert !IsSpace(r[0]);
      assert s[|s| - |t|] == t[0] == r[0];
    }
  }

  /** Trimming white space leaves nothing more to trim. */
  lemma TrimIdempotent(s: JsString)
    ensures Trim(Trim(s)) == Trim(s)
  {
    var r := Trim(s);
    if r != [] {
      var t := TrimStart(s);
      assert r[0] == t[0];
      assert TrimStart(r) == r;
    }
  }

  /** `s.startsWith(p)`. */
  predicate StartsWith(s: JsString, p: JsString) {
    |p| <= |s| && s[..|p|] == p
  }

  /** `sub` occurs in `s` starting at position `i`. */
  predicate OccursAt(s: JsString, sub: JsString, i: nat) {
    i + |sub| <= |s| && s[i..i + |sub|] == sub
  }

  /** `s.includes(sub)`: `sub` occurs at some position of `s`. */
  predicate Includes(s: JsString, sub: JsString) {
    exists i: nat | i <= |s| :: OccursAt(s, sub, i)
  }

  /** A string shorter than `sub`, or without the first character of `sub`, does not include it. */
  lemma IncludesNeedsFirst(s: JsString, sub: JsString)
    requires sub != []
    requires forall i :: 0 <= i < |s| ==> s[i] != sub[0]
    ensures !Includes(s, sub)
  {
    forall i: nat | i + |sub| <= |s| ensures !OccursAt(s, sub, i) {
      assert s[i..i + |sub|][0] == s[i];
    }
  }

  /** One code unit of `toLowerCase`, for the ASCII capitals. */
  function LowerChar(c: CodeUnit): (r: CodeUnit)
    ensures IsUpper(c) ==> r == c + 32
    ensures !IsUpper(c) ==> r == c
  {
    if IsUpper(c) then c + 32 else c
  }

  /** `s.toLowerCase()` over ASCII. */
  function ToLower(s: JsString): (r: JsString)
    ensures |r| == |s|
    ensures forall i :: 0 <= i < |s| ==> r[i] == LowerChar(s[i])
  {
    seq(|s|, i requires 0 <= i < |s| => LowerChar(s[i]))
  }

  /** A lowered string has no capitals left, and lowering it again changes nothing. */
  lemma ToLowerIdempotent(s: JsString)
    ensures forall i :: 0 <= i < |ToLower(s)| ==> !IsUpper(ToLower(s)[i])
    ensures ToLower(ToLower(s)) == ToLower(s)
  {
  }

  /** Lowering a character never turns white space into text or text into white space. */
  lemma LowerKeepsSpace(c: CodeUnit)
    ensures IsSpace(LowerChar(c)) <==> IsSpace(c)
  {
  }

  /** Trimming and lowering commute. */
  lemma TrimToLower(s: JsString)
    ensures Trim(ToLower(s)) == ToLower(Trim(s))
  {
    TrimStartToLower(s);
    TrimEndToLower(TrimStart(s));
  }

  lemma {:induction false} TrimStartToLower(s: JsString)
    ensures TrimStart(ToLower(s)) == ToLower(TrimStart(s))
  {
    if s != [] {
      LowerKeepsSpace(s[0]);
      assert ToLower(s)[1..] == ToLower(s[1..]);
      TrimStartToLower(s[1..]);
    }
  }

  lemma {:induction false} TrimEndToLower(s: JsString)
    ensures TrimEnd(ToLower(s)) == ToLower(TrimEnd(s))
  {
    if s != [] {
      LowerKeepsSpace(s[|s| - 1]);
      assert ToLower(s)[..|s| - 1] == ToLower(s[..|s| - 1]);
      TrimEndToLower(s[..|s| - 1]);
    }
  }
}
