/** ASCII text: trimming, lower-casing, splitting and decimal numerals. */
module Text {
  import opened Wrappers

  predicate IsSpace(c: char) {
    c == ' ' || 9 <= c as int <= 13
  }

  function TrimStart(s: string): string {
    if s != [] && IsSpace(s[0]) then TrimStart(s[1..]) else s
  }

  function TrimEnd(s: string): string {
    if s != [] && IsSpace(s[|s| - 1]) then TrimEnd(s[..|s| - 1]) else s
  }

  function Trim(s: string): string {
    TrimEnd(TrimStart(s))
  }

  predicate Trimmed(s: string) {
    s != [] ==> !IsSpace(s[0]) && !IsSpace(s[|s| - 1])
  }

  predicate AllSpaces(s: string) {
    forall i :: 0 <= i < |s| ==> IsSpace(s[i])
  }

  function LowerChar(c: char): char {
    if 'A' <= c <= 'Z' then (c as int + 32) as char else c
  }

  function ToLower(s: string): (r: string)
    ensures |r| == |s|
    ensures forall i :: 0 <= i < |s| ==> r[i] == LowerChar(s[i])
  {
    seq(|s|, i requires 0 <= i < |s| => LowerChar(s[i]))
  }

  lemma TrimEndShape(s: string)
    ensures TrimEnd(s) <= s && AllSpaces(s[|TrimEnd(s)|..])
    ensures TrimEnd(s) != [] ==> !IsSpace(TrimEnd(s)[|TrimEnd(s)| - 1])
  {
  }

  lemma {:induction false} TrimStartShape(s: string) returns (left: string)
    ensures s == left + TrimStart(s) && AllSpaces(left)
    ensures TrimStart(s) != [] ==> !IsSpace(TrimStart(s)[0])
  {
    if s != [] && IsSpace(s[0]) {
      var rest := TrimStartShape(s[1..]);
      left := [s[0]] + rest;
      assert s == [s[0]] + s[1..];
    } else {
      left := [];
    }
  }

  lemma TrimEndSplit(t: string) returns (right: string)
    ensures t == TrimEnd(t) + right && AllSpaces(right)
    ensures TrimEnd(t) != [] ==> TrimEnd(t)[0] == t[0] && !IsSpace(TrimEnd(t)[|TrimEnd(t)| - 1])
  {
    TrimEndShape(t);
    right := t[|TrimEnd(t)|..];
  }

  lemma JoinThree(s: string, left: string, t: string, body: string, right: string)
    requires s == left + t && t == body + right
    ensures s == left + body + right
  {
  }

  /** Trimming removes exactly the white space around the text. */
  lemma TrimShape(s: string) returns (left: string, right: string)
    ensures s == left + Trim(s) + right
    ensures AllSpaces(left) && AllSpaces(right) && Trimmed(Trim(s))
  {
    left := TrimStartShape(s);
    right := TrimEndSplit(TrimStart(s));
    JoinThree(s, left, TrimStart(s), Trim(s), right);
  }

  lemma TrimStartOver(left: string, s: string)
    requires AllSpaces(left)
    ensures TrimStart(left + s) == TrimStart(s)
  {
    if left == [] {
      assert left + s == s;
    } else {
      assert (left + s)[1..] == left[1..] + s;
      assert (left + s)[0] == left[0];
      TrimStartOver(left[1..], s);
    }
  }

  lemma TrimEndOver(s: string, right: string)
    requires AllSpaces(right)
    ensures TrimEnd(s + right) == TrimEnd(s)
    decreases |right|
  {
    if right == [] {
      assert s + right == s;
    } else {
      var n := |right| - 1;
      assert (s + right)[..|s + right| - 1] == s + right[..n];
      assert (s + right)[|s + right| - 1] == right[n];
      TrimEndOver(s, right[..n]);
    }
  }

  /** Padding any trimmed text with white space and trimming gives the text back. */
  lemma TrimOver(left: string, s: string, right: string)
    requires AllSpaces(left) && AllSpaces(right) && Trimmed(s)
    ensures Trim(left + s + right) == s
  {
    assert left + s + right == left + (s + right);
    TrimStartOver(left, s + right);
    if s == [] {
      assert s + right == right + [];
      TrimStartOver(right, []);
    } else {
      assert (s + right)[0] == s[0];
      TrimEndOver(s, right);
    }
  }

  lemma TrimIdentity(s: string)
    requires Trimmed(s)
    ensures Trim(s) == s
  {
    TrimOver([], s, []);
    assert [] + s + [] == s;
  }

  // ---- Profile fields -------------------------------------------------------------------------

  function CleanName(s: string): Option<string> {
    var name := Trim(s);
    if name == [] then None else Some(name)
  }

  function CleanEmail(s: string): Option<string> {
    var email := ToLower(Trim(s));
    if email == [] || '@' !in email || email[0] == '@' || email[|email| - 1] == '@' then None else Some(email)
  }

  function NameKey(s: string): string {
    ToLower(Trim(s))
  }

  predicate IsNameChar(c: char) {
    'a' <= c <= 'z' || 'A' <= c <= 'Z' || '0' <= c <= '9' || c == '_' || c == '-'
  }

  function NormalizeUsername(s: string): Option<string> {
    var name := NameKey(s);
    if |name| < 3 || exists i | 0 <= i < |name| :: !IsNameChar(name[i]) then None else Some(name)
  }

  // ---- What the fields accept, character by character -----------------------------------------

  lemma SpaceCharacters(c: char)
    ensures IsSpace(c) <==> c in [' ', '\t', '\n', 11 as char, 12 as char, '\r']
  {
  }

  /** A name is accepted iff it is not blank, and then kept without the white space around it. */
  lemma NameAccepted(s: string)
    ensures CleanName(s).Some? <==> exists i :: 0 <= i < |s| && !IsSpace(s[i])
    ensures CleanName(s).Some? ==> CleanName(s).value == Trim(s)
  {
    var left, right := TrimShape(s);
    if Trim(s) == [] {
      assert forall i :: 0 <= i < |s| ==> IsSpace(s[i]);
    } else {
      assert s[|left|] == Trim(s)[0];
    }
  }

  /** A lower-case e-mail address with an at sign in it, but not at either end. */
  ghost predicate IsAddress(e: string) {
    e != [] && e[0] != '@' && e[|e| - 1] != '@' && exists i :: 0 < i < |e| - 1 && e[i] == '@'
  }

  lemma EmailAccepted(s: string)
    ensures CleanEmail(s) == if IsAddress(NameKey(s)) then Some(NameKey(s)) else None
  {
  }

  /** What a stored user name consists of. */
  ghost predicate IsUsername(name: string) {
    |name| >= 3
    && forall i :: 0 <= i < |name| ==>
      'a' <= name[i] <= 'z' || '0' <= name[i] <= '9' || name[i] == '_' || name[i] == '-'
  }

  lemma UsernameAccepted(s: string)
    ensures NormalizeUsername(s) == if IsUsername(NameKey(s)) then Some(NameKey(s)) else None
  {
    var name := NameKey(s);
    assert forall i :: 0 <= i < |name| ==> !('A' <= name[i] <= 'Z');
  }

  lemma KeyStable(s: string)
    ensures NameKey(NameKey(s)) == NameKey(s)
  {
    var _, _ := TrimShape(s);
    var k := NameKey(s);
    TrimIdentity(k);
    assert ToLower(k) == k;
  }

  /** Cleaned profile fields and normalised user names are fixed points of cleaning. */
  lemma CleaningStable(s: string)
    ensures CleanName(s).Some? ==> CleanName(CleanName(s).value) == CleanName(s)
    ensures CleanEmail(s).Some? ==> CleanEmail(CleanEmail(s).value) == CleanEmail(s)
    ensures NormalizeUsername(s).Some? ==> NormalizeUsername(NormalizeUsername(s).value) == NormalizeUsername(s)
  {
    var _, _ := TrimShape(s);
    TrimIdentity(Trim(s));
    KeyStable(s);
  }

  // ---- Decimal numerals -----------------------------------------------------------------------

  predicate IsDigit(c: char) {
    '0' <= c <= '9'
  }

  predicate AllDigits(s: string) {
    forall i :: 0 <= i < |s| ==> IsDigit(s[i])
  }

  function DigitChar(d: nat): char
    requires d < 10
  {
    (d + '0' as int) as char
  }

  function Decimal(n: nat): (s: string)
    ensures s != [] && AllDigits(s)
  {
    if n < 10 then [DigitChar(n)] else Decimal(n / 10) + [DigitChar(n % 10)]
  }

  /** The number a string of digits denotes. */
  function Value(s: string): nat
    requires AllDigits(s)
  {
    if s == [] then 0 else 10 * Value(s[..|s| - 1]) + (s[|s| - 1] as int - '0' as int)
  }

  lemma {:induction false} ValueOfDecimal(n: nat)
    ensures Value(Decimal(n)) == n
  {
    if n >= 10 {
      var s := Decimal(n);
      ValueOfDecimal(n / 10);
      assert s[..|s| - 1] == Decimal(n / 10);
    } else {
      assert Decimal(n)[..0] == [];
    }
  }

  // ---- Splitting at dots ----------------------------------------------------------------------

  /** The parts of s between its dots, in order; a string without dots is its own only part. */
  function SplitDots(s: string): (parts: seq<string>)
    ensures parts != []
  {
    if s == [] then [[]]
    else if s[0] == '.' then [[]] + SplitDots(s[1..])
    else
      var rest := SplitDots(s[1..]);
      [[s[0]] + rest[0]] + rest[1..]
  }

  function JoinDots(parts: seq<string>): string
    requires parts != []
  {
    if |parts| == 1 then parts[0] else parts[0] + "." + JoinDots(parts[1..])
  }

  ghost predicate NoDots(parts: seq<string>) {
    forall k :: 0 <= k < |parts| ==> '.' !in parts[k]
  }

  /** Splitting loses nothing. */
  lemma {:induction false} SplitThenJoin(s: string)
    ensures JoinDots(SplitDots(s)) == s
  {
    if s != [] {
      SplitThenJoin(s[1..]);
      var rest := SplitDots(s[1..]);
      var parts := SplitDots(s);
      if s[0] == '.' {
        assert parts[1..] == rest;
        assert JoinDots(parts) == [] + "." + JoinDots(rest);
      } else {
        assert parts[1..] == rest[1..];
        assert JoinDots(parts) == [s[0]] + JoinDots(rest);
      }
    }
  }

  /** Splitting leaves no dot in any part. */
  lemma {:induction false} SplitParts(s: string)
    ensures NoDots(SplitDots(s))
  {
    if s != [] {
      SplitParts(s[1..]);
      var rest := SplitDots(s[1..]);
      var parts := SplitDots(s);
      forall k | 0 <= k < |parts|
        ensures '.' !in parts[k]
      {
        if s[0] != '.' && k == 0 {
          assert parts[0] == [s[0]] + rest[0];
        } else if k > 0 {
          assert parts[k] == if s[0] == '.' then rest[k - 1] else rest[k];
        }
      }
    }
  }

  lemma {:induction false} SplitNoDot(a: string)
    requires '.' !in a
    ensures SplitDots(a) == [a]
  {
    if a != [] {
      SplitNoDot(a[1..]);
      assert a == [a[0]] + a[1..];
    }
  }

  lemma {:induction false} SplitOneDot(a: string, b: string)
    requires '.' !in a && '.' !in b
    ensures SplitDots(a + "." + b) == [a, b]
  {
    var s := a + "." + b;
    if a == [] {
      assert s == "." + b;
      assert s[1..] == b;
      SplitNoDot(b);
    } else {
      assert s[1..] == a[1..] + "." + b;
      SplitOneDot(a[1..], b);
      assert a == [a[0]] + a[1..];
    }
  }
}
