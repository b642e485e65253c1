/** String helpers: whitespace trimming as JavaScript and Python do it, joining, decimal numerals. */
module Text {
  import opened Sequences

  /** WhiteSpace and LineTerminator of ECMAScript, which `String.prototype.trim` removes. */
  predicate IsJsSpace(c: char) {
    var n := c as int;
    || 9 <= n <= 13 || n == 32 || n == 0xa0 || n == 0x1680 || 0x2000 <= n <= 0x200a
    || n == 0x2028 || n == 0x2029 || n == 0x202f || n == 0x205f || n == 0x3000 || n == 0xfeff
  }

  /** The characters for which Python's `str.isspace` holds, which `str.strip` removes. */
  predicate IsPySpace(c: char) {
    var n := c as int;
    || 9 <= n <= 13 || 28 <= n <= 32 || n == 0x85 || n == 0xa0 || n == 0x1680 || 0x2000 <= n <= 0x200a
    || n == 0x2028 || n == 0x2029 || n == 0x202f || n == 0x205f || n == 0x3000
  }

  function TrimBy(space: char -> bool, s: string): string
    decreases |s|
  {
    if s == "" then ""
    else if space(s[0]) then TrimBy(space, s[1..])
    else if space(Last(s)) then TrimBy(space, Front(s))
    else s
  }

  function JsSpace(): char -> bool { (c: char) => IsJsSpace(c) }

  function PySpace(): char -> bool { (c: char) => IsPySpace(c) }

  function Trim(s: string): string { TrimBy(JsSpace(), s) }

  function Strip(s: string): string { TrimBy(PySpace(), s) }

  /** `words.join(separator)` */
  function Joined(separator: string, words: seq<string>): string {
    if words == [] then ""
    else if |words| == 1 then words[0]
    else Joined(separator, Front(words)) + separator + Last(words)
  }

  /** Every backslash turned into a slash. */
  function Slashed(s: string): string { Map((c: char) => if c == '\\' then '/' else c, s) }

  /** The last of these texts that is not empty, or the empty one if all are. */
  ghost predicate IsLastNonEmpty(texts: seq<string>, x: string) {
    if x == "" then forall i :: 0 <= i < |texts| ==> texts[i] == ""
    else exists i :: 0 <= i < |texts| && texts[i] == x && forall j :: i < j < |texts| ==> texts[j] == ""
  }

  lemma LastNonEmptySnoc(texts: seq<string>, x: string, t: string)
    requires IsLastNonEmpty(texts, x)
    ensures IsLastNonEmpty(texts + [t], if t != "" then t else x)
  {
    var more := texts + [t];
    if t != "" {
      assert more[|texts|] == t;
    } else if x != "" {
      var i :| 0 <= i < |texts| && texts[i] == x && forall j :: i < j < |texts| ==> texts[j] == "";
      assert more[i] == x;
    }
  }

  // ----- numerals

  function Digit(n: nat): char
    requires n < 10
  {
    ('0' as int + n) as char
  }

  function Decimal(n: nat): (s: string)
    ensures s != ""
  {
    if n < 10 then [Digit(n)] else Decimal(n / 10) + [Digit(n % 10)]
  }

  /** `f"{n:04d}"` */
  function Padded(n: nat): string {
    if n < 10 then "000" + Decimal(n)
    else if n < 100 then "00" + Decimal(n)
    else if n < 1000 then "0" + Decimal(n)
    else Decimal(n)
  }

  /** What a string of digits denotes. */
  function Denotes(s: string): int {
    if s == "" then 0 else 10 * Denotes(Front(s)) + (Last(s) as int - '0' as int)
  }

  lemma {:induction false} DecimalDenotes(n: nat)
    ensures Denotes(Decimal(n)) == n
  {
    if n < 10 {
      assert Front([Digit(n)]) == "";
    } else {
      DecimalDenotes(n / 10);
      assert Front(Decimal(n)) == Decimal(n / 10) && Last(Decimal(n)) == Digit(n % 10);
    }
  }

  lemma {:induction false} LeadingZero(s: string)
    ensures Denotes("0" + s) == Denotes(s)
  {
    if s == "" {
      assert "0" + s == "0" && Front("0") == "";
    } else {
      LeadingZero(Front(s));
      assert Front("0" + s) == "0" + Front(s);
    }
  }

  lemma PaddedDenotes(n: nat)
    ensures Denotes(Padded(n)) == n
  {
    var s := Decimal(n);
    DecimalDenotes(n);
    LeadingZero(s);
    LeadingZero("0" + s);
    LeadingZero("00" + s);
    assert "00" + s == "0" + ("0" + s) && "000" + s == "0" + ("00" + s);
  }

  // ----- what trimming leaves

  ghost predicate AllSpace(space: char -> bool, s: string) { forall i :: 0 <= i < |s| ==> space(s[i]) }

  /** Trimming takes off whitespace only, at the two ends, and leaves none there. */
  ghost predicate IsTrimmed(space: char -> bool, s: string, t: string) {
    && (t != "" ==> !space(t[0]) && !space(t[|t| - 1]))
    && exists a: string, b: string :: s == a + t + b && AllSpace(space, a) && AllSpace(space, b)
  }

  /** Spaces around a text leave its trimmed form alone. */
  lemma SpacedOut(space: char -> bool, before: string, s: string, after: string, t: string)
    requires IsTrimmed(space, s, t) && AllSpace(space, before) && AllSpace(space, after)
    ensures IsTrimmed(space, before + s + after, t)
  {
    var a: string, b: string :| s == a + t + b && AllSpace(space, a) && AllSpace(space, b);
    assert before + s + after == (before + a) + t + (b + after);
    assert AllSpace(space, before + a) && AllSpace(space, b + after);
  }

  lemma {:induction false} TrimIs(space: char -> bool, s: string)
    ensures IsTrimmed(space, s, TrimBy(space, s))
    decreases |s|
  {
    var t := TrimBy(space, s);
    if s == "" || (!space(s[0]) && !space(Last(s))) {
      assert s == "" + t + "" && AllSpace(space, "");
    } else if space(s[0]) {
      TrimIs(space, s[1..]);
      SpacedOut(space, [s[0]], s[1..], "", t);
      assert s == [s[0]] + s[1..] + "";
    } else {
      TrimIs(space, Front(s));
      SpacedOut(space, "", Front(s), [Last(s)], t);
      assert s == "" + Front(s) + [Last(s)];
    }
  }
}
