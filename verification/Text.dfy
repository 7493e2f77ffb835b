/** The string helpers the configuration code leans on: trimming and lower-casing. */
module Text {

  // unicode.IsSpace, spelled out.
  predicate IsSpace(c: char) {
    var n := c as int;
    || 9 <= n <= 13 || n == 0x20 || n == 0x85 || n == 0xA0 || n == 0x1680
    || 0x2000 <= n <= 0x200A || n == 0x2028 || n == 0x2029 || n == 0x202F || n == 0x205F || n == 0x3000
  }

  function LowerChar(c: char): (r: char)
    ensures IsSpace(r) <==> IsSpace(c)
    ensures LowerCharFixed(r)
  {
    if 'A' <= c <= 'Z' then (c as int + 32) as char else c
  }

  predicate LowerCharFixed(c: char) {
    !('A' <= c <= 'Z')
  }

  function ToLower(s: string): (r: string)
    ensures |r| == |s|
    ensures forall i :: 0 <= i < |s| ==> r[i] == LowerChar(s[i])
  {
    seq(|s|, i requires 0 <= i < |s| => LowerChar(s[i]))
  }

  function TrimLeft(s: string): (r: string)
    ensures |r| <= |s| && r == s[|s| - |r|..]
    ensures r != "" ==> !IsSpace(r[0])
  {
    if s != "" && IsSpace(s[0]) then TrimLeft(s[1..]) else s
  }

  function TrimRight(s: string): (r: string)
    ensures r <= s
    ensures r != "" ==> !IsSpace(r[|r| - 1])
  {
    if s != "" && IsSpace(s[|s| - 1]) then TrimRight(s[..|s| - 1]) else s
  }

  function TrimSpace(s: string): string {
    TrimRight(TrimLeft(s))
  }

  // No white space at either end: exactly the strings trimming leaves alone.
  predicate Trimmed(s: string) {
    s != "" ==> !IsSpace(s[0]) && !IsSpace(s[|s| - 1])
  }

  lemma TrimSpaceIsTrimmed(s: string)
    ensures Trimmed(TrimSpace(s))
    ensures forall c :: c in TrimSpace(s) ==> c in s
  {
    hide IsSpace;
    var l := TrimLeft(s);
    var r := TrimRight(l);
    assert r != "" ==> r[0] == l[0];
    SliceMembers(s, |s| - |l|, |s|);
    SliceMembers(l, 0, |r|);
  }

  lemma SliceMembers(s: string, lo: nat, hi: nat)
    requires lo <= hi <= |s|
    ensures forall c :: c in s[lo..hi] ==> c in s
  {
  }

  lemma {:induction false} TrimLeftDropsSpaces(s: string)
    ensures forall c :: c in s ==> IsSpace(c) || c in TrimLeft(s)
  {
    hide IsSpace;
    if s != "" && IsSpace(s[0]) {
      TrimLeftDropsSpaces(s[1..]);
      assert s == [s[0]] + s[1..];
    }
  }

  lemma {:induction false} TrimRightDropsSpaces(s: string)
    ensures forall c :: c in s ==> IsSpace(c) || c in TrimRight(s)
  {
    hide IsSpace;
    if s != "" && IsSpace(s[|s| - 1]) {
      TrimRightDropsSpaces(s[..|s| - 1]);
      assert s == s[..|s| - 1] + [s[|s| - 1]];
    }
  }

  // Trimming drops white space only.
  lemma TrimSpaceDropsSpaces(s: string)
    ensures forall c :: c in s ==> IsSpace(c) || c in TrimSpace(s)
  {
    hide IsSpace;
    TrimLeftDropsSpaces(s);
    TrimRightDropsSpaces(TrimLeft(s));
  }

  // What is cut off at either end is white space, and what is left neither begins nor ends
  // with any: there is one such text.
  lemma TrimSpaceCutsEnds(s: string) returns (left: string, right: string)
    ensures s == left + TrimSpace(s) + right
    ensures forall k | 0 <= k < |left| :: IsSpace(left[k])
    ensures forall k | 0 <= k < |right| :: IsSpace(right[k])
    ensures Trimmed(TrimSpace(s))
  {
    hide IsSpace, TrimLeft, TrimRight, Trimmed;
    TrimSpaceIsTrimmed(s);
    var l := TrimLeft(s);
    TrimLeftCuts(s);
    TrimRightCuts(l);
    left, right := s[..|s| - |l|], l[|TrimRight(l)|..];
    assert l == TrimRight(l) + right;
  }

  lemma {:induction false} TrimLeftCuts(s: string)
    ensures forall k | 0 <= k < |s| - |TrimLeft(s)| :: IsSpace(s[k])
  {
    hide IsSpace;
    if s != "" && IsSpace(s[0]) {
      TrimLeftCuts(s[1..]);
      assert forall k | 1 <= k < |s| :: s[k] == s[1..][k - 1];
    }
  }

  lemma {:induction false} TrimRightCuts(s: string)
    ensures forall k | |TrimRight(s)| <= k < |s| :: IsSpace(s[k])
  {
    hide IsSpace;
    if s != "" && IsSpace(s[|s| - 1]) {
      TrimRightCuts(s[..|s| - 1]);
    }
  }

  // White space among the ASCII characters, and the two alphabets, in full.
  lemma CharactersInFull(c: char, i: nat)
    requires c as int < 128 && i < 26
    ensures IsSpace(c) <==> c in {' ', '\t', '\n', '\r', '\U{00000B}', '\U{00000C}'}
    ensures LowerChar("ABCDEFGHIJKLMNOPQRSTUVWXYZ"[i]) == "abcdefghijklmnopqrstuvwxyz"[i]
    ensures c !in "ABCDEFGHIJKLMNOPQRSTUVWXYZ" ==> LowerChar(c) == c
  {
    hide IsSpace;
    SpaceInFull(c);
    hide LowerChar;
    UpperInFull(c, i);
  }

  lemma SpaceInFull(c: char)
    requires c as int < 128
    ensures IsSpace(c) <==> c in {' ', '\t', '\n', '\r', '\U{00000B}', '\U{00000C}'}
  {
  }

  lemma UpperInFull(c: char, i: nat)
    requires i < 26
    ensures LowerChar("ABCDEFGHIJKLMNOPQRSTUVWXYZ"[i]) == "abcdefghijklmnopqrstuvwxyz"[i]
    ensures c !in "ABCDEFGHIJKLMNOPQRSTUVWXYZ" ==> LowerChar(c) == c
  {
    var upper, lower := "ABCDEFGHIJKLMNOPQRSTUVWXYZ", "abcdefghijklmnopqrstuvwxyz";
    assert forall k | 0 <= k < 26 :: upper[k] as int == 65 + k && lower[k] as int == 97 + k;
    if 'A' <= c <= 'Z' {
      assert upper[c as int - 65] == c;
    }
  }

  lemma TrimSpaceFixed(s: string)
    requires Trimmed(s)
    ensures TrimSpace(s) == s
  {
  }

  lemma LowerLetter(c: char)
    requires 'a' <= c <= 'z'
    ensures !IsSpace(c) && LowerChar(c) == c
  {
  }

  lemma LowerLettersFixed(s: string)
    requires forall i :: 0 <= i < |s| ==> 'a' <= s[i] <= 'z'
    ensures TrimSpace(s) == s && ToLower(s) == s
  {
    hide IsSpace, LowerChar, TrimSpace;
    forall i | 0 <= i < |s| ensures !IsSpace(s[i]) && LowerChar(s[i]) == s[i] {
      LowerLetter(s[i]);
    }
    TrimSpaceFixed(s);
    assert ToLower(s) == s;
  }

  lemma ToLowerTwice(s: string)
    ensures ToLower(ToLower(s)) == ToLower(s)
    ensures Trimmed(s) ==> Trimmed(ToLower(s))
  {
    var l := ToLower(s);
    forall i | 0 <= i < |l| ensures ToLower(l)[i] == l[i] {
      assert LowerCharFixed(l[i]);
    }
  }

  // Trimming and lower-casing a second time changes nothing: the fact that lets a
  // normalised value be normalised again before it is compared.
  lemma NormaliseTwice(s: string)
    ensures TrimSpace(TrimSpace(s)) == TrimSpace(s)
    ensures ToLower(TrimSpace(ToLower(TrimSpace(s)))) == ToLower(TrimSpace(s))
  {
    TrimSpaceIsTrimmed(s);
    var t := TrimSpace(s);
    TrimSpaceFixed(t);
    ToLowerTwice(t);
    TrimSpaceFixed(ToLower(t));
  }

  lemma DropHead(head: string, r: string, s: string)
    requires head + r == head + s
    ensures r == s
  {
    assert r == (head + r)[|head|..] && s == (head + s)[|head|..];
  }

  function IndexOf(s: string, sep: char): (i: nat)
    ensures i <= |s|
  {
    if s == "" || s[0] == sep then 0 else 1 + IndexOf(s[1..], sep)
  }

  // The first occurrence, or the length.
  lemma {:induction false} IndexOfFirst(s: string, sep: char)
    ensures var i := IndexOf(s, sep); sep !in s[..i] && (i < |s| ==> s[i] == sep)
  {
    if s != "" && s[0] != sep {
      IndexOfFirst(s[1..], sep);
      assert s[..IndexOf(s, sep)] == [s[0]] + s[1..][..IndexOf(s[1..], sep)];
    }
  }

  lemma {:induction false} IndexOfSeparator(a: string, r: string, sep: char)
    requires sep !in a
    ensures IndexOf(a + [sep] + r, sep) == |a|
  {
    if a != "" {
      assert (a + [sep] + r)[1..] == a[1..] + [sep] + r;
      IndexOfSeparator(a[1..], r, sep);
    }
  }

  // A separator that occurs in neither left part splits both strings at the same place.
  lemma SplitAtSeparator(a: string, b: string, r: string, s: string, sep: char)
    requires sep !in a && sep !in b
    requires a + [sep] + r == b + [sep] + s
    ensures a == b && r == s
  {
    IndexOfSeparator(a, r, sep);
    IndexOfSeparator(b, s, sep);
    var whole := a + [sep] + r;
    assert a == whole[..|a|] && r == whole[|a| + 1..];
    assert b == (b + [sep] + s)[..|b|] && s == (b + [sep] + s)[|b| + 1..];
  }
}
