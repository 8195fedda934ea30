/**
 LOCK_DATA text (internal/engine/data.go, SplitLockData and componentMatches).

 InnoDB prints the key a lock is on as components joined by commas, with string values in single
 quotes. `Print` writes that format and `Components` reads it back as the source does.
 */
module LockText {
  import opened Text

  predicate NamesSupremum(data: string) { Contains(Lower(data), "supremum") }

  // ---- reading

  function Undouble(s: string): string {
    if s == "" then ""
    else if |s| >= 2 && s[0] == '\'' && s[1] == '\'' then "'" + Undouble(s[2..])
    else [s[0]] + Undouble(s[1..])
  }

  function Unquote(part: string): string {
    var s := TrimSpace(part);
    if |s| >= 2 && s[0] == '\'' && s[|s| - 1] == '\'' then Undouble(s[1..|s| - 1]) else s
  }

  /** What is read from `s` when `current` has been gathered and a quote is open or not. */
  function Split(s: string, current: string, inQuote: bool): (out: seq<string>)
    decreases |s|
  {
    if s == "" then [Unquote(current)]
    else if s[0] == '\'' then
      if inQuote && |s| > 1 && s[1] == '\'' then Split(s[2..], current + "''", true)
      else Split(s[1..], current + "'", !inQuote)
    else if s[0] == ',' && !inQuote then [Unquote(current)] + Split(s[1..], "", false)
    else Split(s[1..], current + [s[0]], inQuote)
  }

  function Components(data: string): seq<string> {
    var s := TrimSpace(data);
    if s == "" || NamesSupremum(s) then [] else Split(s, "", false)
  }

  method SplitLockData(lockData: string) returns (out: seq<string>)
    ensures out == Components(lockData)
  {
    hide TrimSpace, NamesSupremum, Unquote;
    var data := TrimSpace(lockData);
    out := [];
    if data == "" || NamesSupremum(data) {
      return;
    }
    var current, inQuote, i := "", false, 0;
    while i < |data|
      invariant i <= |data|
      invariant Split(data, "", false) == out + Split(data[i..], current, inQuote)
    {
      var c := data[i];
      assert data[i..][1..] == data[i + 1..] && current + [c] == current + [data[i..][0]];
      if c == '\'' {
        if inQuote && i + 1 < |data| && data[i + 1] == '\'' {
          assert data[i..][2..] == data[i + 2..];
          assert current + [c] + [c] == current + "''";
          current := current + [c] + [c];
          i := i + 2;
          continue;
        }
        inQuote := !inQuote;
        current := current + [c];
      } else if c == ',' && !inQuote {
        ghost var rest := Split(data[i + 1..], "", false);
        assert out + ([Unquote(current)] + rest) == (out + [Unquote(current)]) + rest;
        out := out + [Unquote(current)];
        current := "";
      } else {
        current := current + [c];
      }
      i := i + 1;
    }
    assert data[i..] == "";
    out := out + [Unquote(current)];
  }

  // ---- printing

  datatype Token = Bare(text: string) | Quoted(text: string)

  /** A number, a hex string or NULL: nothing in it that the format gives a meaning to. */
  predicate WellFormed(t: Token) {
    t.Bare? ==> t.text != "" && Tight(t.text) && '\'' !in t.text && ',' !in t.text
  }

  function Double(s: string): string {
    if s == "" then "" else (if s[0] == '\'' then "''" else [s[0]]) + Double(s[1..])
  }

  function PrintToken(t: Token): string {
    if t.Bare? then t.text else "'" + Double(t.text) + "'"
  }

  function Print(ts: seq<Token>): string {
    if |ts| == 0 then "" else if |ts| == 1 then PrintToken(ts[0]) else PrintToken(ts[0]) + ", " + Print(ts[1..])
  }

  function Values(ts: seq<Token>): seq<string> { seq(|ts|, i requires 0 <= i < |ts| => ts[i].text) }

  // ---- reading undoes printing

  lemma {:induction false} UndoubleDouble(s: string)
    ensures Undouble(Double(s)) == s
    decreases |s|
  {
    if s != "" {
      UndoubleDouble(s[1..]);
      if s[0] == '\'' {
        assert Double(s)[2..] == Double(s[1..]);
      } else {
        assert Double(s)[1..] == Double(s[1..]);
      }
    }
  }

  lemma UnquoteToken(t: Token)
    requires WellFormed(t)
    ensures PrintToken(t) != "" && Tight(PrintToken(t))
    ensures Unquote(PrintToken(t)) == t.text && Unquote(" " + PrintToken(t)) == t.text
  {
    hide Undouble, Double, TrimSpace, TrimLeft, TrimRight;
    var s := PrintToken(t);
    assert s[0] in s;
    TrimTight(s);
    if t.Quoted? {
      assert s[1..|s| - 1] == Double(t.text);
      UndoubleDouble(t.text);
    }
  }

  lemma {:induction false} SplitBare(t: string, rest: string, current: string)
    requires '\'' !in t && ',' !in t
    ensures Split(t + rest, current, false) == Split(rest, current + t, false)
    decreases |t|
  {
    hide Unquote;
    if t == "" {
      assert t + rest == rest && current + t == current;
    } else {
      assert t[0] in t;
      assert (t + rest)[1..] == t[1..] + rest;
      assert current + t == current + [t[0]] + t[1..];
      SplitBare(t[1..], rest, current + [t[0]]);
    }
  }

  lemma {:induction false} SplitInner(t: string, rest: string, current: string)
    requires rest == "" || rest[0] != '\''
    ensures Split(Double(t) + "'" + rest, current, true) == Split(rest, current + Double(t) + "'", false)
    decreases |t|
  {
    hide Unquote;
    var s := Double(t) + "'" + rest;
    if t == "" {
      assert s == "'" + rest && s[1..] == rest;
      assert current + Double(t) + "'" == current + "'";
    } else {
      var more := Double(t[1..]) + "'" + rest;
      var head := if t[0] == '\'' then "''" else [t[0]];
      assert s == head + more && s[|head|..] == more;
      assert current + Double(t) + "'" == current + head + Double(t[1..]) + "'";
      SplitInner(t[1..], rest, current + head);
    }
  }

  lemma SplitToken(t: Token, rest: string, current: string)
    requires WellFormed(t) && (rest == "" || rest[0] == ',')
    ensures Split(PrintToken(t) + rest, current, false) == Split(rest, current + PrintToken(t), false)
  {
    hide Double, Unquote;
    if t.Bare? {
      SplitBare(t.text, rest, current);
    } else {
      var s := PrintToken(t) + rest;
      assert s[1..] == Double(t.text) + "'" + rest;
      SplitInner(t.text, rest, current + "'");
      assert current + "'" + Double(t.text) + "'" == current + PrintToken(t);
    }
  }

  /** At a comma outside quotes the component is done; the blank after it starts the next. */
  lemma SplitComma(rest: string, current: string)
    ensures Split(", " + rest, current, false) == [Unquote(current)] + Split(rest, " ", false)
  {
    hide Unquote;
    assert (", " + rest)[1..] == " " + rest && (" " + rest)[1..] == rest;
    assert "" + [' '] == " ";
  }

  lemma SplitNothing(current: string)
    ensures Split("", current, false) == [Unquote(current)]
  {
  }

  lemma {:induction false} SplitPrint(ts: seq<Token>, current: string)
    requires ts != [] && (forall t :: t in ts ==> WellFormed(t)) && (current == "" || current == " ")
    ensures Split(Print(ts), current, false) == Values(ts)
    decreases |ts|
  {
    hide PrintToken, Unquote, Split, WellFormed, IsSpace, Tight;
    var t := ts[0];
    UnquoteToken(t);
    assert current + PrintToken(t) == if current == "" then PrintToken(t) else " " + PrintToken(t);
    assert Unquote(current + PrintToken(t)) == t.text;
    if |ts| == 1 {
      SplitToken(t, "", current);
      SplitNothing(current + PrintToken(t));
      assert PrintToken(t) + "" == PrintToken(t);
      assert Values(ts) == [t.text];
    } else {
      assert forall u :: u in ts[1..] ==> u in ts;
      var rest := Print(ts[1..]);
      assert Print(ts) == PrintToken(t) + (", " + rest);
      SplitToken(t, ", " + rest, current);
      SplitComma(rest, current + PrintToken(t));
      SplitPrint(ts[1..], " ");
      assert Values(ts) == [t.text] + Values(ts[1..]);
    }
  }

  lemma {:induction false} PrintTight(ts: seq<Token>)
    requires ts != [] && (forall t :: t in ts ==> WellFormed(t))
    ensures Print(ts) != "" && Tight(Print(ts))
    decreases |ts|
  {
    hide PrintToken, WellFormed, IsSpace;
    UnquoteToken(ts[0]);
    if |ts| > 1 {
      PrintTight(ts[1..]);
    }
  }

  /** Reading undoes printing, for any strings at all, exactly when the text does not name the
      supremum. */
  lemma SplitUndoesPrint(ts: seq<Token>)
    requires ts != [] && forall t :: t in ts ==> WellFormed(t)
    ensures Components(Print(ts)) == Values(ts) <==> !NamesSupremum(Print(ts))
  {
    hide Print, Split, TrimSpace, NamesSupremum, Tight, WellFormed;
    PrintTight(ts);
    TrimTight(Print(ts));
    SplitPrint(ts, "");
  }

  /** The guard looks at the whole text, so a string value that is the word is lost with it. */
  lemma SupremumValueIsLost()
    ensures WellFormed(Quoted("supremum")) && Components(Print([Quoted("supremum")])) == []
  {
    hide TrimSpace, Split;
    assert forall c :: c in "supremum" ==> 'a' <= c <= 'z';
    QuotedWord("supremum");
  }

  lemma QuotedWord(w: string)
    requires forall c :: c in w ==> 'a' <= c <= 'z'
    ensures TrimSpace(Print([Quoted(w)])) == Print([Quoted(w)]) && Contains(Lower(Print([Quoted(w)])), w)
  {
    hide TrimSpace;
    DoublePlain(w);
    var s := "'" + w + "'";
    TrimTight(s);
    forall k | 0 <= k < |w| ensures Lower(s)[1 + k] == w[k] {
      assert w[k] in w && s[1 + k] == w[k];
    }
    assert FoundAt(Lower(s), w, 1);
  }

  lemma {:induction false} DoublePlain(s: string)
    requires '\'' !in s
    ensures Double(s) == s
    decreases |s|
  {
    if s != "" {
      assert s == [s[0]] + s[1..];
      DoublePlain(s[1..]);
    }
  }

  // ---- comparing components

  function DropSpaces(s: string): string {
    if s != "" && s[|s| - 1] == ' ' then DropSpaces(s[..|s| - 1]) else s
  }

  type Octet = n: nat | n < 256

  function Utf8(c: char): seq<Octet> {
    var n := c as int;
    if n < 0x80 then [n]
    else if n < 0x800 then [0xC0 + n / 64, 0x80 + n % 64]
    else if n < 0x10000 then [0xE0 + n / 4096, 0x80 + n / 64 % 64, 0x80 + n % 64]
    else [0xF0 + n / 262144, 0x80 + n / 4096 % 64, 0x80 + n / 64 % 64, 0x80 + n % 64]
  }

  /** The UTF-8 form of RFC 3629, section 3: the first octet tells the length, each of the others holds
      six bits, and no shorter form would do. */
  lemma Utf8Reads(c: char)
    ensures var b, n := Utf8(c), c as int;
            && |b| == (if n <= 0x7F then 1 else if n <= 0x7FF then 2 else if n <= 0xFFFF then 3 else 4)
            && (forall i :: 1 <= i < |b| ==> 0x80 <= b[i] <= 0xBF)
            && n == match |b|
                    case 1 => b[0]
                    case 2 => Bits(b[0], 0xC0) * 64 + Bits(b[1], 0x80)
                    case 3 => Bits(b[0], 0xE0) * 4096 + Bits(b[1], 0x80) * 64 + Bits(b[2], 0x80)
                    case _ => Bits(b[0], 0xF0) * 262144 + Bits(b[1], 0x80) * 4096 + Bits(b[2], 0x80) * 64
                              + Bits(b[3], 0x80)
  {
    var n := c as int;
    SixtyFours(n);
    SixtyFours(n / 64);
    SixtyFours(n / 4096);
    assert n / 64 / 64 == n / 4096 && n / 4096 / 64 == n / 262144;
  }

  /** What an octet holds beside its marker. */
  function Bits(octet: int, marker: int): int { octet - marker }

  lemma SixtyFours(n: int)
    ensures n == n / 64 * 64 + n % 64
  {
  }

  const DIGITS := "0123456789abcdef"

  function HexBytes(bs: seq<Octet>): string {
    if bs == [] then "" else [DIGITS[bs[0] / 16], DIGITS[bs[0] % 16]] + HexBytes(bs[1..])
  }

  function DigitValue(c: char): int {
    if '0' <= c <= '9' then c as int - '0' as int else if 'a' <= c <= 'f' then c as int - 'a' as int + 10 else -1
  }

  /** Two digits for each octet, the high one first. */
  lemma {:induction false} HexReads(bs: seq<Octet>, k: nat)
    requires k < |bs|
    ensures var h := HexBytes(bs);
            && |h| == 2 * |bs| && bs[k] == 16 * DigitValue(h[2 * k]) + DigitValue(h[2 * k + 1])
            && 0 <= DigitValue(h[2 * k]) < 16 && 0 <= DigitValue(h[2 * k + 1]) < 16
    decreases |bs|
  {
    var h, rest := HexBytes(bs), HexBytes(bs[1..]);
    DigitIs(bs[0] / 16);
    DigitIs(bs[0] % 16);
    assert h[2..] == rest;
    if |bs| > 1 {
      HexReads(bs[1..], if k > 0 then k - 1 else 0);
    }
  }

  lemma DigitIs(n: nat)
    requires n < 16
    ensures DigitValue(DIGITS[n]) == n
  {
  }

  function Hex(s: string): string {
    if s == "" then "" else HexBytes(Utf8(s[0])) + Hex(s[1..])
  }

  predicate ComponentMatches(value: string, lock: string) {
    value == lock || EqualFold(lock, "0x" + Hex(value)) || DropSpaces(value) == DropSpaces(lock)
  }

  predicate KeyMatches(rowKey: seq<string>, lockKey: seq<string>) {
    && |rowKey| > 0 && |lockKey| > 0
    && forall i :: 0 <= i < |rowKey| && i < |lockKey| ==> ComponentMatches(rowKey[i], lockKey[i])
  }

  method MatchKey(rowKey: seq<string>, lockKey: seq<string>) returns (yes: bool)
    ensures yes <==> KeyMatches(rowKey, lockKey)
  {
    hide ComponentMatches;
    var n := |rowKey|;
    if |lockKey| < n {
      n := |lockKey|;
    }
    if n == 0 {
      return false;
    }
    for i := 0 to n
      invariant forall j :: 0 <= j < i ==> ComponentMatches(rowKey[j], lockKey[j])
    {
      if !ComponentMatches(rowKey[i], lockKey[i]) {
        return false;
      }
    }
    return true;
  }

  function Spaces(n: nat): string { seq(n, i => ' ') }

  lemma {:induction false} DropPadding(s: string, n: nat)
    ensures DropSpaces(s + Spaces(n)) == DropSpaces(s)
    decreases n
  {
    if n == 0 {
      assert s + Spaces(0) == s;
    } else {
      assert (s + Spaces(n))[..|s| + n - 1] == s + Spaces(n - 1);
      DropPadding(s, n - 1);
    }
  }

  lemma {:induction false} DroppedIsAPrefix(s: string) returns (n: nat)
    ensures s == DropSpaces(s) + Spaces(n)
    decreases |s|
  {
    if s != "" && s[|s| - 1] == ' ' {
      n := DroppedIsAPrefix(s[..|s| - 1]);
      assert s == s[..|s| - 1] + " ";
      assert Spaces(n) + " " == Spaces(n + 1);
      assert s == DropSpaces(s) + (Spaces(n) + " ");
      n := n + 1;
    } else {
      n := 0;
      assert Spaces(0) == "";
    }
  }

  /** Padding with spaces on either side does not matter, and apart from hex nothing else is let
      pass: two components match just when they differ in trailing spaces at most. */
  lemma MatchIgnoresPadding(value: string, lock: string)
    requires !EqualFold(lock, "0x" + Hex(value))
    ensures ComponentMatches(value, lock) <==> exists n: nat, m: nat :: value + Spaces(n) == lock + Spaces(m)
  {
    hide Hex, EqualFold, DropSpaces;
    if n: nat, m: nat :| value + Spaces(n) == lock + Spaces(m) {
      DropPadding(value, n);
      DropPadding(lock, m);
    }
    if DropSpaces(value) == DropSpaces(lock) {
      var a := DroppedIsAPrefix(value);
      var b := DroppedIsAPrefix(lock);
      var core := DropSpaces(value);
      assert Spaces(a) + Spaces(b) == Spaces(b) + Spaces(a);
      assert value + Spaces(b) == core + (Spaces(a) + Spaces(b)) == lock + Spaces(a);
    }
  }

  /** The ways a column value may be printed in LOCK_DATA: as it is, quoted, or as its bytes in hex. */
  predicate Prints(t: Token, value: string) {
    WellFormed(t) && (t.text == value || (t.Bare? && t.text == "0x" + Hex(value)))
  }

  /** The components of a key and of some lock data, as far as both go. */
  predicate PrintsAll(ts: seq<Token>, key: seq<string>) {
    forall c :: 0 <= c < |ts| && c < |key| ==> Prints(ts[c], key[c])
  }

  /** A lock on a row's key is found to match that row, however each component was printed and
      whatever the values are. The data may go on with the columns of another key, as that of a
      secondary index does, or stop short of the row's. */
  lemma PrintedKeyMatches(key: seq<string>, ts: seq<Token>)
    requires key != [] && ts != [] && PrintsAll(ts, key) && forall t :: t in ts ==> WellFormed(t)
    requires !NamesSupremum(Print(ts))
    ensures KeyMatches(key, Components(Print(ts)))
  {
    hide NamesSupremum, Components, Print, WellFormed, Hex, Lower, DropSpaces;
    SplitUndoesPrint(ts);
    forall i | 0 <= i < |key| && i < |ts| ensures ComponentMatches(key[i], ts[i].text) {
      assert Prints(ts[i], key[i]);
    }
  }

  /** Some component both have tells the key from the data, or the key has none. */
  predicate ToldApart(key: seq<string>, ts: seq<Token>) {
    key == [] || exists c :: 0 <= c < |key| && c < |ts| && !ComponentMatches(key[c], ts[c].text)
  }

  lemma MatchesUnlessToldApart(key: seq<string>, ts: seq<Token>)
    requires ts != [] && (forall t :: t in ts ==> WellFormed(t)) && !NamesSupremum(Print(ts))
    ensures KeyMatches(key, Components(Print(ts))) <==> !ToldApart(key, ts)
  {
    hide NamesSupremum, Components, Print, WellFormed, ComponentMatches;
    SplitUndoesPrint(ts);
  }

  /** A key printed in hex is a well-formed bare token whatever bytes are in it. */
  lemma HexIsBare(value: string)
    ensures Prints(Bare("0x" + Hex(value)), value)
  {
    hide Hex;
    var t := "0x" + Hex(value);
    HexPlain(value);
    forall c | c in t ensures c != '\'' && c != ',' && !IsSpace(c) {
      assert c == '0' || c == 'x' || c in Hex(value);
    }
    assert t[0] in t && t[|t| - 1] in t;
  }

  lemma {:induction false} HexPlain(value: string)
    ensures forall c :: c in Hex(value) ==> c != '\'' && c != ',' && !IsSpace(c)
    decreases |value|
  {
    if value != "" {
      HexPlain(value[1..]);
      HexBytesPlain(Utf8(value[0]));
    }
  }

  lemma {:induction false} HexBytesPlain(bs: seq<Octet>)
    ensures forall c :: c in HexBytes(bs) ==> c != '\'' && c != ',' && !IsSpace(c)
    decreases |bs|
  {
    if bs != [] {
      HexBytesPlain(bs[1..]);
      DigitPlain(bs[0] / 16);
      DigitPlain(bs[0] % 16);
    }
  }

  lemma DigitPlain(n: nat)
    requires n < 16
    ensures DIGITS[n] != '\'' && DIGITS[n] != ',' && !IsSpace(DIGITS[n])
  {
  }
}
