/**
 The operations on text the other modules share: trimming as Go's strings.TrimSpace does it,
 folding the case of ASCII letters, and looking for a part.
 */
module Text {

  /** The characters Go's strings.TrimSpace removes. */
  predicate IsSpace(c: char) {
    var n := c as int;
    || n == 0x20 || 0x09 <= n <= 0x0D || n == 0x85 || n == 0xA0 || n == 0x1680
    || 0x2000 <= n <= 0x200A || n == 0x2028 || n == 0x2029 || n == 0x202F || n == 0x205F || n == 0x3000
  }

  function TrimLeft(s: string): string {
    if s != "" && IsSpace(s[0]) then TrimLeft(s[1..]) else s
  }

  function TrimRight(s: string): string {
    if s != "" && IsSpace(s[|s| - 1]) then TrimRight(s[..|s| - 1]) else s
  }

  function TrimSpace(s: string): string { TrimRight(TrimLeft(s)) }

  /** Nothing to trim at either end. */
  predicate Tight(s: string) {
    s == "" || (!IsSpace(s[0]) && !IsSpace(s[|s| - 1]))
  }

  function LowerChar(c: char): char {
    if 'A' <= c <= 'Z' then (c as int + 32) as char else c
  }

  function UpperChar(c: char): char {
    if 'a' <= c <= 'z' then (c as int - 32) as char else c
  }

  function Lower(s: string): (r: string) { seq(|s|, i requires 0 <= i < |s| => LowerChar(s[i])) }

  function Upper(s: string): (r: string) { seq(|s|, i requires 0 <= i < |s| => UpperChar(s[i])) }

  predicate EqualFold(a: string, b: string) { Lower(a) == Lower(b) }

  /** The same character but for the case of a letter. */
  predicate SameLetter(a: char, b: char) {
    || a == b
    || ('A' <= a <= 'Z' && b as int == a as int + 32)
    || ('A' <= b <= 'Z' && a as int == b as int + 32)
  }

  lemma EqualFoldIff(a: string, b: string)
    ensures EqualFold(a, b) <==> |a| == |b| && forall i :: 0 <= i < |a| ==> SameLetter(a[i], b[i])
  {
    hide LowerChar, SameLetter;
    forall x, y ensures LowerChar(x) == LowerChar(y) <==> SameLetter(x, y) {
      LetterIff(x, y);
    }
    if EqualFold(a, b) {
      assert forall i :: 0 <= i < |a| ==> LowerChar(a[i]) == Lower(a)[i] == Lower(b)[i] == LowerChar(b[i]);
    }
  }

  lemma LetterIff(a: char, b: char)
    ensures LowerChar(a) == LowerChar(b) <==> SameLetter(a, b)
  {
  }

  predicate FoundAt(text: string, part: string, i: nat) { i + |part| <= |text| && text[i..i + |part|] == part }

  predicate Contains(text: string, part: string) { exists i: nat | i <= |text| :: FoundAt(text, part, i) }

  lemma TrimTight(s: string)
    requires s != "" && Tight(s)
    ensures TrimSpace(s) == s && TrimSpace(" " + s) == s
  {
    assert (" " + s)[1..] == s;
    assert TrimLeft(" " + s) == TrimLeft(s) == s;
  }

  /** Only a text of spaces is trimmed away. */
  lemma {:induction false} TrimmedAwayIff(s: string)
    ensures TrimSpace(s) == "" <==> forall c :: c in s ==> IsSpace(c)
    decreases |s|
  {
    hide IsSpace;
    if s != "" {
      if IsSpace(s[0]) {
        TrimmedAwayIff(s[1..]);
        assert forall c :: c in s ==> c == s[0] || c in s[1..];
      } else {
        TrimLeftKeeps(s);
        assert s[0] in s;
      }
    }
  }

  lemma {:induction false} TrimLeftKeeps(s: string)
    requires s != "" && !IsSpace(s[0])
    ensures TrimRight(s) != ""
    decreases |s|
  {
    hide IsSpace;
    if IsSpace(s[|s| - 1]) {
      TrimLeftKeeps(s[..|s| - 1]);
    }
  }

  // ---- what trimming does with spaces around a text

  lemma {:induction false} TrimLeftAppend(s: string)
    ensures TrimLeft(s + " ") == if TrimLeft(s) == "" then "" else TrimLeft(s) + " "
    decreases |s|
  {
    if s == "" {
      assert s + " " == " " && " "[1..] == "";
    } else if IsSpace(s[0]) {
      assert (s + " ")[1..] == s[1..] + " ";
      TrimLeftAppend(s[1..]);
    }
  }

  lemma TrimEnds(s: string)
    ensures TrimSpace(" " + s) == TrimSpace(s) == TrimSpace(s + " ")
  {
    assert (" " + s)[1..] == s;
    TrimLeftAppend(s);
    if TrimLeft(s) != "" {
      assert (TrimLeft(s) + " ")[..|TrimLeft(s)|] == TrimLeft(s);
    }
  }

  /** One blank at either end makes no difference. */
  lemma TrimAround(s: string)
    ensures TrimSpace(" " + s + " ") == TrimSpace(s)
  {
    hide TrimSpace;
    TrimEnds(s);
    TrimEnds(" " + s);
  }

  lemma {:induction false} TrimRightIsTight(s: string)
    requires s == "" || !IsSpace(s[0])
    ensures Tight(TrimRight(s))
    decreases |s|
  {
    if s != "" && IsSpace(s[|s| - 1]) {
      TrimRightIsTight(s[..|s| - 1]);
    }
  }

  lemma {:induction false} TrimLeftStarts(s: string)
    ensures TrimLeft(s) == "" || !IsSpace(TrimLeft(s)[0])
    decreases |s|
  {
    if s != "" && IsSpace(s[0]) {
      TrimLeftStarts(s[1..]);
    }
  }

  /** Trimming leaves nothing to trim, and a text with nothing to trim alone. */
  lemma TightIffTrimmed(s: string)
    ensures Tight(TrimSpace(s))
    ensures Tight(s) <==> TrimSpace(s) == s
  {
    TrimLeftStarts(s);
    TrimRightIsTight(TrimLeft(s));
    if Tight(s) && s != "" {
      TrimTight(s);
    }
  }
}
