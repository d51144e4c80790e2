/** The string operations of the audit script. */
module PyStrings {
  /** The characters that stripping removes. */
  predicate IsSpace(c: char) {
    '\t' <= c <= '\r' || '\U{1C}' <= c <= ' ' || c == '\U{85}' || c == '\U{A0}' || c == '\U{1680}'
    || '\U{2000}' <= c <= '\U{200A}' || c == '\U{2028}' || c == '\U{2029}' || c == '\U{202F}' || c == '\U{205F}'
    || c == '\U{3000}'
  }

  /** Nothing to strip. */
  predicate Trimmed(s: string) {
    s == "" || (!IsSpace(s[0]) && !IsSpace(s[|s| - 1]))
  }

  function StripLeft(s: string): (r: string)
    ensures r == "" || !IsSpace(r[0])
  {
    if s != "" && IsSpace(s[0]) then StripLeft(s[1..]) else s
  }

  function StripRight(s: string): (r: string)
    ensures r == "" || !IsSpace(r[|r| - 1])
    ensures s != "" && !IsSpace(s[0]) ==> r != "" && r[0] == s[0]
  {
    if s != "" && IsSpace(s[|s| - 1]) then StripRight(s[..|s| - 1]) else s
  }

  function Strip(s: string): (r: string)
    ensures Trimmed(r)
    ensures Trimmed(s) ==> r == s
  {
    StripRight(StripLeft(s))
  }

  lemma {:induction false} StripLeftPadded(left: string, s: string)
    requires s != "" && !IsSpace(s[0])
    requires forall i :: 0 <= i < |left| ==> IsSpace(left[i])
    ensures StripLeft(left + s) == s
  {
    if left == "" {
      assert left + s == s;
    } else {
      assert (left + s)[1..] == left[1..] + s;
      StripLeftPadded(left[1..], s);
    }
  }

  lemma {:induction false} StripRightPadded(s: string, right: string)
    requires s != "" && !IsSpace(s[|s| - 1])
    requires forall i :: 0 <= i < |right| ==> IsSpace(right[i])
    ensures StripRight(s + right) == s
  {
    if right == "" {
      assert s + right == s;
    } else {
      assert (s + right)[..|s| + |right| - 1] == s + right[..|right| - 1];
      StripRightPadded(s, right[..|right| - 1]);
    }
  }

  /** Spaces around a trimmed string go away. */
  lemma StripPadded(left: string, s: string, right: string)
    requires Trimmed(s) && s != ""
    requires forall i :: 0 <= i < |left| ==> IsSpace(left[i])
    requires forall i :: 0 <= i < |right| ==> IsSpace(right[i])
    ensures Strip(left + s + right) == s
  {
    assert left + s + right == left + (s + right);
    StripLeftPadded(left, s + right);
    StripRightPadded(s, right);
  }

  /** Nothing but spaces strips to nothing. */
  lemma {:induction false} StripBlank(s: string)
    requires forall i :: 0 <= i < |s| ==> IsSpace(s[i])
    ensures Strip(s) == ""
  {
    if s != "" {
      StripBlank(s[1..]);
    }
  }

  lemma {:induction false} StripRightParts(s: string) returns (right: string)
    ensures s == StripRight(s) + right && forall i :: 0 <= i < |right| ==> IsSpace(right[i])
  {
    right := "";
    if s != "" && IsSpace(s[|s| - 1]) {
      var n := |s| - 1;
      right := StripRightParts(s[..n]);
      assert s == s[..n] + [s[n]];
      right := right + [s[n]];
    }
  }

  /** Stripping takes away spaces at the two ends and nothing else. */
  lemma {:induction false} StripParts(s: string) returns (left: string, right: string)
    ensures s == left + Strip(s) + right
    ensures forall i :: 0 <= i < |left| ==> IsSpace(left[i])
    ensures forall i :: 0 <= i < |right| ==> IsSpace(right[i])
  {
    if s != "" && IsSpace(s[0]) {
      left, right := StripParts(s[1..]);
      assert s == [s[0]] + s[1..];
      left := [s[0]] + left;
    } else {
      left := "";
      right := StripRightParts(s);
    }
  }

  /** A string with a character that is no space does not strip to nothing. */
  lemma {:induction false} StripKeeps(s: string, i: nat)
    requires i < |s| && !IsSpace(s[i])
    ensures Strip(s) != ""
    decreases |s|
  {
    if IsSpace(s[0]) {
      StripKeeps(s[1..], i - 1);
    }
  }

  /** Lower case, for the ASCII letters. */
  function Lower(s: string): (r: string)
    ensures |r| == |s|
    ensures forall i :: 0 <= i < |s| ==> r[i] == (if 'A' <= s[i] <= 'Z' then s[i] + ' ' else s[i])
  {
    if s == "" then "" else [if 'A' <= s[0] <= 'Z' then s[0] + ' ' else s[0]] + Lower(s[1..])
  }

  /** Case folding is done after one pass. */
  lemma LowerTwice(s: string)
    ensures Lower(Lower(s)) == Lower(s)
  {
    assert forall i :: 0 <= i < |s| ==> Lower(Lower(s))[i] == Lower(s)[i];
  }

  function Digits(n: nat): string {
    if n < 10 then ["0123456789"[n]] else Digits(n / 10) + ["0123456789"[n % 10]]
  }

  /** A number in decimal notation. */
  function Decimal(n: int): string {
    if n < 0 then "-" + Digits(-n) else Digits(n)
  }

  predicate IsDigit(c: char) {
    '0' <= c <= '9'
  }

  /** The number some digits stand for. */
  function DigitsValue(s: string): nat {
    if s == "" then 0
    else
      var c := s[|s| - 1];
      DigitsValue(s[..|s| - 1]) * 10 + if IsDigit(c) then (c - '0') as int else 0
  }

  /** The decimal notation is made of digits without a leading zero, and reads back as the number. */
  lemma {:induction false} DigitsRead(n: nat)
    ensures Digits(n) != "" && forall i :: 0 <= i < |Digits(n)| ==> IsDigit(Digits(n)[i])
    ensures n > 0 ==> Digits(n)[0] != '0'
    ensures DigitsValue(Digits(n)) == n
  {
    var d := "0123456789"[n % 10];
    assert IsDigit(d) && (d - '0') as int == n % 10;
    if n >= 10 {
      DigitsRead(n / 10);
      assert Digits(n)[..|Digits(n)| - 1] == Digits(n / 10);
    } else {
      assert Digits(n) == [d] && [d][..0] == "";
    }
  }

  /** The position of the first c, or the length if there is none. */
  function Find(s: string, c: char): (k: nat)
    ensures k <= |s| && c !in s[..k]
    ensures k < |s| ==> s[k] == c
    ensures k == |s| <==> c !in s
  {
    if s == "" || s[0] == c then 0
    else
      assert s == [s[0]] + s[1..];
      var k := Find(s[1..], c);
      assert s[..k + 1] == [s[0]] + s[1..][..k];
      k + 1
  }

  lemma FindAfter(p: string, c: char, q: string)
    requires c !in p
    ensures Find(p + [c] + q, c) == |p|
  {
    var s := p + [c] + q;
    var k := Find(s, c);
    assert s[|p|] == c;
    assert forall i :: 0 <= i < |p| ==> s[i] == p[i] && p[i] in p;
    assert forall i :: 0 <= i < k ==> s[i] in s[..k];
  }
}
