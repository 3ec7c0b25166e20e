/** The few pieces of JavaScript string semantics the application relies on:
    the whitespace class of `\s` and `String.prototype.trim`, truthiness of a
    string, `String.prototype.includes`, and the decimal rendering of a
    non-negative integer in a template literal. */
module JsText {

  /** The characters matched by `\s` in a JavaScript regular expression, which
      are also the characters `trim` removes (WhiteSpace and LineTerminator). */
  predicate IsSpace(c: char) {
    var n := c as int;
    n == 0x09 || n == 0x0A || n == 0x0B || n == 0x0C || n == 0x0D || n == 0x20 ||
    n == 0xA0 || n == 0x1680 || (0x2000 <= n <= 0x200A) || n == 0x2028 ||
    n == 0x2029 || n == 0x202F || n == 0x205F || n == 0x3000 || n == 0xFEFF
  }

  /** `\d` without the `u` flag: an ASCII digit. */
  predicate IsDigit(c: char) {
    '0' <= c <= '9'
  }

  predicate AllSpace(s: string) {
    forall i :: 0 <= i < |s| ==> IsSpace(s[i])
  }

  predicate NoSpace(s: string) {
    forall i :: 0 <= i < |s| ==> !IsSpace(s[i])
  }

  /** A JavaScript string is truthy exactly when it is not empty. */
  predicate Truthy(s: string) {
    s != ""
  }

  function TrimStart(s: string): (r: string)
    ensures |r| <= |s| && r == s[|s| - |r|..]
    ensures r != [] ==> !IsSpace(r[0])
  {
    if s != [] && IsSpace(s[0]) then TrimStart(s[1..]) else s
  }

  function TrimEnd(s: string): (r: string)
    ensures |r| <= |s| && r == s[..|r|]
    ensures r != [] ==> !IsSpace(r[|r| - 1])
  {
    if s != [] && IsSpace(s[|s| - 1]) then TrimEnd(s[..|s| - 1]) else s
  }

  /** `String.prototype.trim`. */
  function Trim(s: string): string {
    TrimEnd(TrimStart(s))
  }

  lemma {:induction false} TrimStartEmptyIffBlank(s: string)
    ensures TrimStart(s) == [] <==> AllSpace(s)
  {
    if s != [] && IsSpace(s[0]) {
      TrimStartEmptyIffBlank(s[1..]);
      assert AllSpace(s[1..]) ==> AllSpace(s) by {
        if AllSpace(s[1..]) {
          forall i | 0 <= i < |s| ensures IsSpace(s[i]) {
            if i > 0 { assert s[i] == s[1..][i - 1]; }
          }
        }
      }
    }
  }

  /** The form treats a name as missing exactly when trimming leaves nothing,
      that is when every character of it is whitespace. */
  lemma TrimEmptyIffBlank(s: string)
    ensures Trim(s) == [] <==> AllSpace(s)
  {
    TrimStartEmptyIffBlank(s);
    var t := TrimStart(s);
    if t != [] {
      TrimEndKeepsSolidStart(t);
    }
  }

  lemma {:induction false} TrimEndKeepsSolidStart(s: string)
    requires s != [] && !IsSpace(s[0])
    ensures TrimEnd(s) != []
    decreases |s|
  {
    if IsSpace(s[|s| - 1]) {
      TrimEndKeepsSolidStart(s[..|s| - 1]);
    }
  }

  /** `s.includes(t)`. */
  function Includes(s: string, t: string): bool
    decreases |s|
  {
    if |t| > |s| then false
    else if s[..|t|] == t then true
    else Includes(s[1..], t)
  }

  /** `t` occurs in `s` starting at index `i`. */
  predicate OccursAt(s: string, t: string, i: int) {
    0 <= i <= |s| - |t| && s[i..i + |t|] == t
  }

  /** `includes` holds exactly when `t` occurs at some position of `s`. */
  lemma {:induction false} IncludesIffOccurs(s: string, t: string)
    ensures Includes(s, t) <==> exists i :: OccursAt(s, t, i)
    decreases |s|
  {
    if |t| > |s| {
    } else if s[..|t|] == t {
      assert OccursAt(s, t, 0);
    } else {
      IncludesIffOccurs(s[1..], t);
      if exists i :: OccursAt(s, t, i) {
        var i :| OccursAt(s, t, i);
        assert i != 0;
        assert s[1..][i - 1..i - 1 + |t|] == s[i..i + |t|];
        assert OccursAt(s[1..], t, i - 1);
      }
      if exists j :: OccursAt(s[1..], t, j) {
        var j :| OccursAt(s[1..], t, j);
        assert s[1..][j..j + |t|] == s[j + 1..j + 1 + |t|];
        assert OccursAt(s, t, j + 1);
      }
    }
  }

  /** A string that lacks the first character of a non-empty `t` cannot include `t`. */
  lemma {:induction false} NotIncludesWithoutFirst(s: string, t: string)
    requires |t| > 0 && t[0] !in s
    ensures !Includes(s, t)
    decreases |s|
  {
    if |t| <= |s| {
      assert s[..|t|][0] == s[0];
      NotIncludesWithoutFirst(s[1..], t);
    }
  }

  function DigitChar(d: nat): char
    requires d < 10
  {
    ('0' as int + d) as char
  }

  /** The decimal digits of `n`, as a template literal renders a non-negative integer. */
  function NatToString(n: nat): (r: string)
    ensures |r| > 0
    ensures forall i :: 0 <= i < |r| ==> IsDigit(r[i])
    decreases n
  {
    if n < 10 then [DigitChar(n)] else NatToString(n / 10) + [DigitChar(n % 10)]
  }
}
