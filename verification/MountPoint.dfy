/** The octal escapes of /proc/mounts and how hoststats.go undoes them. */
module MountPoint {
  import opened Wrappers

  // The four characters the kernel escapes, and their three-digit octal codes.
  function Code(c: char): Option<string> {
    match c
    case ' ' => Some("040")
    case '\t' => Some("011")
    case '\n' => Some("012")
    case '\\' => Some("134")
    case _ => None
  }

  function EscapedChar(code: string): Option<char> {
    if code == "040" then Some(' ')
    else if code == "011" then Some('\t')
    else if code == "012" then Some('\n')
    else if code == "134" then Some('\\')
    else None
  }

  lemma CodeInverse(c: char, code: string)
    ensures Code(c) == Some(code) <==> EscapedChar(code) == Some(c)
    ensures Code(c) == Some(code) ==> |code| == 3
  {
  }

  // How the kernel writes a mount point.
  function Escape(path: string): string {
    if path == "" then ""
    else
      var code := Code(path[0]);
      (if code.Some? then "\\" + code.value else [path[0]]) + Escape(path[1..])
  }

  // An escape sequence at the head of s.
  function HeadEscape(s: string): Option<char> {
    if |s| >= 4 && s[0] == '\\' then EscapedChar(s[1..4]) else None
  }

  // The replacer's single left-to-right pass.
  function Replace(s: string): string {
    if s == "" then ""
    else
      var e := HeadEscape(s);
      if e.Some? then [e.value] + Replace(s[4..]) else [s[0]] + Replace(s[1..])
  }

  function UnescapeMountPoint(field: string): string {
    if '\\' !in field then field else Replace(field)
  }

  lemma {:induction false} NoBackslash(s: string)
    requires '\\' !in s
    ensures Replace(s) == s
  {
    if s != "" {
      assert s[0] in s;
      NoBackslash(s[1..]);
      assert s == [s[0]] + s[1..];
    }
  }

  // The shortcut for fields without a backslash agrees with the full pass.
  lemma ShortcutAgrees(field: string)
    ensures UnescapeMountPoint(field) == Replace(field)
  {
    if '\\' !in field {
      NoBackslash(field);
    }
  }

  // Unescaping, in full: each of the four sequences becomes its character, and a character
  // that begins none of them stays.
  lemma UnescapedInFull(c: char, rest: string)
    ensures UnescapeMountPoint("") == ""
    ensures UnescapeMountPoint("\\040" + rest) == " " + UnescapeMountPoint(rest)
    ensures UnescapeMountPoint("\\011" + rest) == "\t" + UnescapeMountPoint(rest)
    ensures UnescapeMountPoint("\\012" + rest) == "\n" + UnescapeMountPoint(rest)
    ensures UnescapeMountPoint("\\134" + rest) == "\\" + UnescapeMountPoint(rest)
    ensures c != '\\' || |rest| < 3 || rest[..3] !in ["040", "011", "012", "134"]
      ==> UnescapeMountPoint([c] + rest) == [c] + UnescapeMountPoint(rest)
  {
    hide UnescapeMountPoint, EscapedChar, Replace;
    ShortcutAgrees(rest);
    SequencesInFull();
    assert "\\040" == "\\" + "040" && "\\011" == "\\" + "011";
    assert "\\012" == "\\" + "012" && "\\134" == "\\" + "134";
    ReplaceSequence(' ', "040", rest);
    ReplaceSequence('\t', "011", rest);
    ReplaceSequence('\n', "012", rest);
    ReplaceSequence('\\', "134", rest);
    if c != '\\' || |rest| < 3 || rest[..3] !in ["040", "011", "012", "134"] {
      if c == '\\' && |rest| >= 3 {
        NoSequence(rest[..3]);
      }
      PlainCharacter(c, rest);
    }
  }

  lemma SequencesInFull()
    ensures UnescapeMountPoint("") == "" && EscapedChar("040") == Some(' ') && EscapedChar("011") == Some('\t')
    ensures EscapedChar("012") == Some('\n') && EscapedChar("134") == Some('\\')
  {
  }

  lemma NoSequence(code: string)
    requires code !in ["040", "011", "012", "134"]
    ensures EscapedChar(code).None?
  {
    var codes := ["040", "011", "012", "134"];
    assert codes[0] in codes && codes[1] in codes && codes[2] in codes && codes[3] in codes;
  }

  lemma PlainCharacter(c: char, rest: string)
    requires c == '\\' && |rest| >= 3 ==> EscapedChar(rest[..3]).None?
    ensures UnescapeMountPoint([c] + rest) == [c] + Replace(rest)
  {
    hide EscapedChar, Replace, HeadEscape;
    var s := [c] + rest;
    PlainHeadOf(c, rest, s);
    ReplacePlain(s);
    assert s[1..] == rest;
    ShortcutAgrees(s);
  }

  lemma PlainHeadOf(c: char, rest: string, s: string)
    requires s == [c] + rest && (c == '\\' && |rest| >= 3 ==> EscapedChar(rest[..3]).None?)
    ensures HeadEscape(s).None?
  {
    hide EscapedChar;
    if |rest| >= 3 {
      assert s[1..4] == rest[..3];
    }
  }

  lemma ReplacePlain(s: string)
    requires s != "" && HeadEscape(s).None?
    ensures Replace(s) == [s[0]] + Replace(s[1..])
  {
    hide HeadEscape;
  }

  lemma ReplaceSequence(c: char, code: string, rest: string)
    requires |code| == 3 && EscapedChar(code) == Some(c)
    ensures UnescapeMountPoint("\\" + code + rest) == [c] + Replace(rest)
  {
    hide EscapedChar;
    ShortcutAgrees("\\" + code + rest);
    HeadEscapeOf(c, code, rest);
  }

  lemma {:induction false} ReplaceEscape(path: string)
    ensures Replace(Escape(path)) == path
  {
    if path != "" {
      var c, rest := path[0], Escape(path[1..]);
      ReplaceEscape(path[1..]);
      assert path == [c] + path[1..];
      if Code(c).Some? {
        var code := Code(c).value;
        CodeInverse(c, code);
        HeadEscapeOf(c, code, rest);
      } else {
        hide Escape;
        assert ([c] + rest)[1..] == rest;
        assert c != '\\';
      }
    }
  }

  lemma HeadEscapeOf(c: char, code: string, rest: string)
    requires |code| == 3 && EscapedChar(code) == Some(c)
    ensures HeadEscape("\\" + code + rest) == Some(c) && ("\\" + code + rest)[4..] == rest
  {
    hide EscapedChar;
    var s := "\\" + code + rest;
    assert s[1..4] == code;
  }

  // Every mount point is recovered, whatever it contains: a literal backslash is itself
  // escaped, so text that looks like an escape comes back as that text.
  lemma UnescapeInvertsEscape(path: string)
    ensures UnescapeMountPoint(Escape(path)) == path
  {
    ShortcutAgrees(Escape(path));
    ReplaceEscape(path);
  }

  // The fields the kernel can write.
  predicate Written(s: string) {
    if s == "" then true
    else if HeadEscape(s).Some? then Written(s[4..])
    else Code(s[0]).None? && Written(s[1..])
  }

  // Escaping again gives the field back exactly when the kernel could have written it.
  lemma {:induction false} EscapeInvertsUnescape(s: string)
    ensures Escape(UnescapeMountPoint(s)) == s <==> Written(s)
  {
    ShortcutAgrees(s);
    EscapeReplace(s);
  }

  function EscapeChar(c: char): string {
    if Code(c).Some? then "\\" + Code(c).value else [c]
  }

  lemma EscapeCons(c: char, rest: string)
    ensures Escape([c] + rest) == EscapeChar(c) + Escape(rest)
  {
    assert ([c] + rest)[1..] == rest;
  }

  lemma {:induction false} EscapeReplace(s: string)
    ensures Escape(Replace(s)) == s <==> Written(s)
  {
    if s != "" {
      if HeadEscape(s).Some? {
        EscapeReplace(s[4..]);
        EscapedHead(s, HeadEscape(s).value);
      } else {
        EscapeReplace(s[1..]);
        PlainHead(s);
      }
    }
  }

  lemma EscapedHead(s: string, c: char)
    requires HeadEscape(s) == Some(c)
    ensures Escape(Replace(s)) == s <==> Escape(Replace(s[4..])) == s[4..]
  {
    var inner := Replace(s[4..]);
    assert Replace(s) == [c] + inner;
    EscapeCons(c, inner);
    CodeInverse(c, s[1..4]);
    assert s == "\\" + s[1..4] + s[4..];
    SameTail("\\" + s[1..4], Escape(inner), s[4..]);
    hide Escape, Replace, EscapedChar, Code;
  }

  lemma PlainHead(s: string)
    requires s != "" && HeadEscape(s).None?
    ensures Escape(Replace(s)) == s <==> Code(s[0]).None? && Escape(Replace(s[1..])) == s[1..]
  {
    var inner := Replace(s[1..]);
    assert Replace(s) == [s[0]] + inner;
    EscapeCons(s[0], inner);
    assert s == [s[0]] + s[1..];
    hide Escape, Replace, HeadEscape, Code;
    if Code(s[0]).Some? {
      EscapedIsNot(s, Code(s[0]).value, Escape(inner));
    } else {
      SameTail([s[0]], Escape(inner), s[1..]);
    }
  }

  // A raw special character does not survive: its escape reads differently.
  lemma EscapedIsNot(s: string, code: string, rest: string)
    requires s != "" && Code(s[0]) == Some(code) && HeadEscape(s).None?
    ensures "\\" + code + rest != s
  {
    CodeInverse(s[0], code);
    var t := "\\" + code + rest;
    HeadEscapeOf(s[0], code, rest);
    hide Code, EscapedChar;
  }

  lemma SameTail(head: string, a: string, b: string)
    ensures head + a == head + b <==> a == b
  {
    assert a == (head + a)[|head|..] && b == (head + b)[|head|..];
  }
}
