/** The string operations the storefront borrows from JavaScript:
    `trim`, the `\s` and `\d` regular-expression classes, `toLowerCase`
    and `includes`. Whitespace and case are modelled on ASCII only. */
module Text {

  /** The `\s` class, restricted to ASCII: space, tab, line feed,
      vertical tab, form feed and carriage return. */
  predicate IsSpace(c: char) {
    c == ' ' || c == '\t' || c == '\n' || c == '\r' || c == '\U{B}' || c == '\U{C}'
  }

  /** The `\d` class: an ASCII decimal digit. */
  predicate IsDigit(c: char) {
    '0' <= c <= '9'
  }

  predicate AllDigits(s: string) {
    forall i :: 0 <= i < |s| ==> IsDigit(s[i])
  }

  predicate IsBlank(s: string) {
    forall i :: 0 <= i < |s| ==> IsSpace(s[i])
  }

  function TrimStart(s: string): string {
    if |s| > 0 && IsSpace(s[0]) then TrimStart(s[1..]) else s
  }

  function TrimEnd(s: string): string {
    if |s| > 0 && IsSpace(s[|s| - 1]) then TrimEnd(s[..|s| - 1]) else s
  }

  /** `s.trim()` */
  function Trim(s: string): string {
    TrimEnd(TrimStart(s))
  }

  /** `s.replace(/\s+/g, "")`: every whitespace character removed. */
  function StripSpaces(s: string): string {
    if |s| == 0 then ""
    else if IsSpace(s[0]) then StripSpaces(s[1..])
    else [s[0]] + StripSpaces(s[1..])
  }

  function LowerChar(c: char): char {
    if 'A' <= c <= 'Z' then (c as int + 32) as char else c
  }

  /** `s.toLowerCase()`, on ASCII letters. */
  function Lower(s: string): (r: string)
    ensures |r| == |s|
    ensures forall i :: 0 <= i < |s| ==> r[i] == LowerChar(s[i])
  {
    if |s| == 0 then "" else [LowerChar(s[0])] + Lower(s[1..])
  }

  /** `sub` occurs in `s` starting at index `i`. */
  predicate OccursAt(s: string, sub: string, i: int) {
    0 <= i && i + |sub| <= |s| && s[i..i + |sub|] == sub
  }

  /** `s.includes(sub)`, computed the way a naive scan does: try every
      starting position from the left. */
  function Includes(s: string, sub: string): bool
  {
    (|sub| <= |s| && s[..|sub|] == sub) || (|s| > 0 && Includes(s[1..], sub))
  }

  /** The scan agrees with the definition of containment: `Includes`
      holds exactly when `sub` occurs at some position of `s`. */
  lemma {:induction false} IncludesIff(s: string, sub: string)
    ensures Includes(s, sub) <==> exists i :: OccursAt(s, sub, i)
  {
    if |sub| <= |s| && s[..|sub|] == sub {
      assert OccursAt(s, sub, 0);
    } else if |s| > 0 {
      IncludesIff(s[1..], sub);
      if Includes(s[1..], sub) {
        var i :| OccursAt(s[1..], sub, i);
        assert s[1..][i..i + |sub|] == s[i + 1..i + 1 + |sub|];
        assert OccursAt(s, sub, i + 1);
      } else {
        forall i | OccursAt(s, sub, i) ensures false {
          if i != 0 {
            assert s[1..][i - 1..i - 1 + |sub|] == s[i..i + |sub|];
            assert OccursAt(s[1..], sub, i - 1);
          }
        }
      }
    }
  }

  /** A string trims to the empty string exactly when it is all whitespace. */
  lemma {:induction false} TrimEmptyIffBlank(s: string)
    ensures Trim(s) == "" <==> IsBlank(s)
  {
    TrimStartBlank(s);
    var t := TrimStart(s);
    TrimStartShape(s);
    if |t| > 0 {
      TrimEndKeepsFirst(t);
    }
  }

  lemma {:induction false} TrimStartBlank(s: string)
    ensures TrimStart(s) == "" <==> IsBlank(s)
  {
    if |s| > 0 && IsSpace(s[0]) {
      TrimStartBlank(s[1..]);
      if IsBlank(s[1..]) {
        assert IsBlank(s) by {
          forall i | 0 <= i < |s| ensures IsSpace(s[i]) {
            if i > 0 { assert s[i] == s[1..][i - 1]; }
          }
        }
      } else {
        var j :| 0 <= j < |s[1..]| && !IsSpace(s[1..][j]);
        assert !IsSpace(s[j + 1]);
      }
    }
  }

  /** `TrimStart` yields a suffix of its input that starts with a
      non-space character, unless it is empty. */
  lemma {:induction false} TrimStartShape(s: string)
    ensures |TrimStart(s)| > 0 ==> !IsSpace(TrimStart(s)[0])
  {
    if |s| > 0 && IsSpace(s[0]) {
      TrimStartShape(s[1..]);
    }
  }

  /** Trimming the end of a string whose first character is not whitespace
      keeps that character, so the result is not empty. */
  lemma {:induction false} TrimEndKeepsFirst(t: string)
    requires |t| > 0 && !IsSpace(t[0])
    ensures |TrimEnd(t)| > 0
  {
    if IsSpace(t[|t| - 1]) {
      assert |t| > 1;
      TrimEndKeepsFirst(t[..|t| - 1]);
    }
  }

  lemma {:induction false} StripSpacesAppend(a: string, b: string)
    ensures StripSpaces(a + b) == StripSpaces(a) + StripSpaces(b)
  {
    if |a| == 0 {
      assert a + b == b;
    } else {
      assert (a + b)[0] == a[0];
      assert (a + b)[1..] == a[1..] + b;
      StripSpacesAppend(a[1..], b);
    }
  }

  lemma {:induction false} StripSpacesTrimStart(s: string)
    ensures StripSpaces(TrimStart(s)) == StripSpaces(s)
  {
    if |s| > 0 && IsSpace(s[0]) {
      StripSpacesTrimStart(s[1..]);
    }
  }

  lemma {:induction false} StripSpacesTrimEnd(s: string)
    ensures StripSpaces(TrimEnd(s)) == StripSpaces(s)
  {
    if |s| > 0 && IsSpace(s[|s| - 1]) {
      var init := s[..|s| - 1];
      StripSpacesTrimEnd(init);
      assert s == init + [s[|s| - 1]];
      StripSpacesAppend(init, [s[|s| - 1]]);
      assert StripSpaces([s[|s| - 1]]) == "";
    }
  }

  /** Removing all whitespace after trimming is the same as removing all
      whitespace: the trim in front of the phone rule changes nothing. */
  lemma StripSpacesTrim(s: string)
    ensures StripSpaces(Trim(s)) == StripSpaces(s)
  {
    StripSpacesTrimEnd(TrimStart(s));
    StripSpacesTrimStart(s);
  }

  /** `StripSpaces` keeps exactly the characters that are not whitespace. */
  lemma {:induction false} StripSpacesMembers(s: string)
    ensures forall x :: x in StripSpaces(s) <==> x in s && !IsSpace(x)
  {
    if |s| > 0 {
      StripSpacesMembers(s[1..]);
      assert s == [s[0]] + s[1..];
    }
  }
}
