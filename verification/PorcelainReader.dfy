/** A reader for the porcelain text, and the proof that it gives back every value: the encoder loses
    nothing. The reader is not part of the crate; it is the witness that equal texts mean equal
    values. */
module PorcelainReader {
  import opened Porcelain

  // ---------------------------------------------------------------- reading tokens

  function Skip(s: string, n: nat): string {
    if n <= |s| then s[n..] else []
  }

  predicate StartsWith(s: string, t: string) {
    |s| >= |t| && s[..|t|] == t
  }

  function HexValue(c: char): nat {
    if '0' <= c <= '9' then (c as int) - ('0' as int)
    else if 'a' <= c <= 'f' then (c as int) - ('a' as int) + 10
    else 0
  }

  function CharOf(n: nat): char {
    if n < 0xD800 || 0xE000 <= n < 0x11_0000 then n as char else ' '
  }

  /** The character behind a backslash and its letter. */
  function Unescaped(c: char): char {
    if c == 'b' then '\U{08}'
    else if c == 'f' then '\U{0C}'
    else if c == 'n' then '\n'
    else if c == 'r' then '\r'
    else if c == 't' then '\t'
    else c
  }

  /** The text up to the closing quote, and what follows it. */
  function ReadQuoted(s: string): (r: (string, string))
    ensures |r.1| <= |s|
  {
    if s == [] then ([], [])
    else if s[0] == '"' then ([], s[1..])
    else if s[0] == '\\' && |s| >= 6 && s[1] == 'u' then
      var c := CharOf(4096 * HexValue(s[2]) + 256 * HexValue(s[3]) + 16 * HexValue(s[4]) + HexValue(s[5]));
      var more := ReadQuoted(s[6..]);
      ([c] + more.0, more.1)
    else if s[0] == '\\' && |s| >= 2 then
      var more := ReadQuoted(s[2..]);
      ([Unescaped(s[1])] + more.0, more.1)
    else
      var more := ReadQuoted(s[1..]);
      ([s[0]] + more.0, more.1)
  }

  /** Where an unquoted token ends: at a colon, at a cell separator, or at the end of the line. */
  function BareEnd(s: string): (n: nat)
    ensures n <= |s|
  {
    if s == [] || s[0] == ':' || StartsWith(s, " |") then 0 else 1 + BareEnd(s[1..])
  }

  datatype Token = Token(text: string, quoted: bool, rest: string)

  function ReadToken(s: string): (t: Token)
    ensures |t.rest| <= |s|
  {
    if s != [] && s[0] == '"' then
      var q := ReadQuoted(s[1..]);
      Token(q.0, true, q.1)
    else
      Token(s[..BareEnd(s)], false, s[BareEnd(s)..])
  }

  function Meaning(t: Token): Json {
    if t.quoted then Str(t.text)
    else if t.text == "null" then Null
    else if t.text == "true" then Bool(true)
    else if t.text == "false" then Bool(false)
    else if t.text == "[]" then Arr([])
    else if t.text == "{}" then Obj([])
    else if IsNumber(t.text) then Num(t.text)
    else Str(t.text)
  }

  function ReadCells(s: string): (cells: seq<Token>)
    ensures cells != []
    decreases |s|
  {
    var t := ReadToken(s);
    if StartsWith(t.rest, " | ") then [t] + ReadCells(t.rest[3..]) else [t]
  }

  // ---------------------------------------------------------------- tokens read back

  lemma {:induction false} NibblesMake(n: int)
    requires 0 <= n < 0x1_0000
    ensures 0 <= n / 4096 < 16 && 4096 * (n / 4096) + 256 * (n / 256 % 16) + 16 * (n / 16 % 16) + n % 16 == n
  {
    var a, b := n / 16, n / 16 / 16;
    assert n == 16 * a + n % 16 && a == 16 * b + a % 16;
    assert n / 256 == b && n / 4096 == b / 16;
  }

  lemma {:induction false} HexReadsBack(c: char)
    requires c as int < 0x1_0000
    ensures var h := Hex4(c);
      CharOf(4096 * HexValue(h[0]) + 256 * HexValue(h[1]) + 16 * HexValue(h[2]) + HexValue(h[3])) == c
  {
    var n := c as int;
    NibblesMake(n);
    DigitReadsBack(n / 4096);
    DigitReadsBack(n / 256 % 16);
    DigitReadsBack(n / 16 % 16);
    DigitReadsBack(n % 16);
    CharReadsBack(c);
  }

  lemma {:induction false} CharReadsBack(c: char)
    ensures CharOf(c as int) == c
  {
  }

  lemma {:induction false} DigitReadsBack(d: int)
    requires 0 <= d < 16
    ensures HexValue(HexDigit(d)) == d
  {
  }

  /** One step of the reader over a six-character escape. */
  lemma {:induction false} HexEscapeIsRead(c: char, rest: string)
    requires c as int < 0x1_0000
    ensures ReadQuoted("\\u" + Hex4(c) + rest) == ([c] + ReadQuoted(rest).0, ReadQuoted(rest).1)
  {
    hide Hex4, HexValue, CharOf;
    HexReadsBack(c);
    var s := "\\u" + Hex4(c) + rest;
    assert s[2..6] == Hex4(c) && s[6..] == rest;
    assert s[2] == s[2..6][0] && s[3] == s[2..6][1] && s[4] == s[2..6][2] && s[5] == s[2..6][3];
  }

  /** One step of the reader over a two-character escape. */
  lemma {:induction false} ShortEscapeIsRead(e: char, rest: string)
    requires e != 'u'
    ensures ReadQuoted(['\\', e] + rest) == ([Unescaped(e)] + ReadQuoted(rest).0, ReadQuoted(rest).1)
  {
    hide Unescaped;
    assert (['\\', e] + rest)[2..] == rest;
  }

  lemma {:induction false} PlainIsRead(c: char, rest: string)
    requires c != '"' && c != '\\'
    ensures ReadQuoted([c] + rest) == ([c] + ReadQuoted(rest).0, ReadQuoted(rest).1)
  {
    assert ([c] + rest)[1..] == rest;
  }

  lemma {:induction false} EscapeReadsBack(c: char, rest: string)
    ensures ReadQuoted(Escaped(c) + rest) == ([c] + ReadQuoted(rest).0, ReadQuoted(rest).1)
  {
    hide ReadQuoted, Hex4;
    if |Escaped(c)| == 6 {
      HexEscapeIsRead(c, rest);
    } else if |Escaped(c)| == 2 {
      ShortEscapeIsRead(Escaped(c)[1], rest);
      assert Escaped(c) == ['\\', Escaped(c)[1]];
    } else {
      PlainIsRead(c, rest);
    }
  }

  /** A quoted string reads back, whatever follows it. */
  lemma {:induction false} QuotedReadsBack(s: string, rest: string)
    ensures ReadQuoted(EscapedAll(s) + "\"" + rest) == (s, rest)
  {
    if s == [] {
      assert EscapedAll(s) + "\"" + rest == "\"" + rest;
    } else {
      QuotedReadsBack(s[1..], rest);
      EscapeReadsBack(s[0], EscapedAll(s[1..]) + "\"" + rest);
      assert EscapedAll(s) + "\"" + rest == Escaped(s[0]) + (EscapedAll(s[1..]) + "\"" + rest);
      assert s == [s[0]] + s[1..];
    }
  }

  /** What may follow a token: nothing, a colon, or the next cell. */
  predicate Delimits(rest: string) {
    rest == [] || rest[0] == ':' || StartsWith(rest, " |")
  }

  lemma {:induction false} BareReadsBack(s: string, rest: string)
    requires (forall c :: c in s ==> c != ':' && c != '|') && Delimits(rest)
    ensures BareEnd(s + rest) == |s|
  {
    if s == [] {
      assert s + rest == rest;
    } else {
      assert s[0] in s && (s + rest)[1..] == s[1..] + rest;
      assert forall c :: c in s[1..] ==> c in s;
      BareReadsBack(s[1..], rest);
      if |s| > 1 {
        assert (s + rest)[1] == s[1] && s[1] in s;
      }
    }
  }

  lemma {:induction false} LowerOfLower(s: string)
    requires forall c :: c in s ==> !('A' <= c <= 'Z')
    ensures Lower(s) == s
  {
    if s != [] {
      assert s[0] in s && forall c :: c in s[1..] ==> c in s;
      LowerOfLower(s[1..]);
      assert s == [s[0]] + s[1..];
    }
  }

  lemma {:induction false} PlainHead(s: string, letters: char -> bool)
    requires IsPlain(s, letters)
    ensures s[0] != '"' && s[0] != '-' && s[0] != ' ' && s[0] != '|' && s[0] != '[' && s[0] != '{' && !IsNumber(s)
  {
    hide Lower, Trim;
    assert s[0] in s;
  }

  lemma {:induction false} PlainIsNotReserved(s: string, letters: char -> bool)
    requires IsPlain(s, letters)
    ensures s != "null" && s != "true" && s != "false" && s != "[]" && s != "{}" && !IsNumber(s)
    ensures s[0] != '"' && s[0] != '-' && s[0] != ' ' && s[0] != '|'
  {
    hide IsNumber, Lower, Trim, IsAlphabetic, IsControl;
    PlainHead(s, letters);
    LowerOfLower("null");
    LowerOfLower("true");
    LowerOfLower("false");
    assert "[]"[0] == '[' && "{}"[0] == '{';
  }

  lemma {:induction false} BareTokenReadsBack(s: string, rest: string)
    requires s != [] && s[0] != '"' && (forall c :: c in s ==> c != ':' && c != '|') && Delimits(rest)
    ensures ReadToken(s + rest) == Token(s, false, rest)
  {
    BareReadsBack(s, rest);
    assert (s + rest)[..|s|] == s && (s + rest)[|s|..] == rest;
  }

  lemma {:induction false} QuotedTokenReadsBack(s: string, rest: string)
    ensures ReadToken(Quoted(s) + rest) == Token(s, true, rest)
  {
    hide ReadQuoted, EscapedAll;
    QuotedReadsBack(s, rest);
    assert (Quoted(s) + rest)[1..] == EscapedAll(s) + "\"" + rest;
  }

  lemma {:induction false} StringReadsBack(s: string, rest: string, letters: char -> bool)
    requires Delimits(rest)
    ensures ReadToken(RenderString(s, letters) + rest) == Token(s, !IsPlain(s, letters), rest)
    ensures Meaning(ReadToken(RenderString(s, letters) + rest)) == Str(s)
  {
    if IsPlain(s, letters) {
      PlainIsNotReserved(s, letters);
      assert forall c :: c in s ==> c != ':' && c != '|' by { assert ':' in PUNCTUATION && '|' in PUNCTUATION; }
      BareTokenReadsBack(s, rest);
    } else {
      QuotedTokenReadsBack(s, rest);
    }
  }

  /** Values that are rendered in place: scalars, and empty collections. */
  predicate InPlace(v: Json) {
    match v
    case Arr(items) => items == []
    case Obj(fields) => fields == []
    case _ => true
  }

  lemma {:induction false} ScalarReadsBack(v: Json, rest: string, letters: char -> bool)
    requires WellFormed(v) && InPlace(v) && Delimits(rest)
    ensures Meaning(ReadToken(RenderScalar(v, letters) + rest)) == v
    ensures ReadToken(RenderScalar(v, letters) + rest).rest == rest
  {
    match v
    case Str(s) => StringReadsBack(s, rest, letters);
    case Num(l) =>
      assert l[0] in l;
      BareTokenReadsBack(l, rest);
    case _ => BareTokenReadsBack(RenderScalar(v, letters), rest);
  }

  // ---------------------------------------------------------------- rows and headings

  function RenderValues(fields: seq<Field>, letters: char -> bool): seq<string> {
    if fields == [] then [] else [RenderScalar(fields[0].value, letters)] + RenderValues(fields[1..], letters)
  }

  function Values(fields: seq<Field>): seq<Json> {
    if fields == [] then [] else [fields[0].value] + Values(fields[1..])
  }

  function Meanings(tokens: seq<Token>): seq<Json> {
    if tokens == [] then [] else [Meaning(tokens[0])] + Meanings(tokens[1..])
  }

  function Texts(tokens: seq<Token>): seq<string> {
    if tokens == [] then [] else [tokens[0].text] + Texts(tokens[1..])
  }

  lemma {:induction false} JoinedHead(first: string, more: seq<string>, separator: string)
    requires more != []
    ensures Joined([first] + more, separator) == first + (separator + Joined(more, separator))
  {
    assert ([first] + more)[1..] == more;
  }

  lemma {:induction false} CellsReadBack(fields: seq<Field>, letters: char -> bool)
    requires fields != [] && forall f :: f in fields ==> WellFormed(f.value) && IsScalar(f.value)
    ensures Meanings(ReadCells(Joined(RenderValues(fields, letters), " | "))) == Values(fields)
  {
    var first := RenderScalar(fields[0].value, letters);
    assert fields[0] in fields;
    if |fields| == 1 {
      assert RenderValues(fields, letters) == [first];
      ScalarReadsBack(fields[0].value, "", letters);
      assert first + "" == first && fields[1..] == [];
      assert Meanings([ReadToken(first)]) == [Meaning(ReadToken(first))] + Meanings([]);
    } else {
      var more := RenderValues(fields[1..], letters);
      JoinedHead(first, more, " | ");
      var rest := " | " + Joined(more, " | ");
      ScalarReadsBack(fields[0].value, rest, letters);
      assert rest[3..] == Joined(more, " | ") && StartsWith(rest, " | ");
      CellsReadBack(fields[1..], letters);
      var tokens := ReadCells(Joined(more, " | "));
      assert ([ReadToken(first + rest)] + tokens)[1..] == tokens;
    }
  }

  lemma {:induction false} KeysReadBack(keys: seq<string>, letters: char -> bool)
    requires keys != []
    ensures Texts(ReadCells(Joined(RenderKeys(keys, letters), " | "))) == keys
  {
    var first := RenderString(keys[0], letters);
    if |keys| == 1 {
      assert RenderKeys(keys, letters) == [first];
      StringReadsBack(keys[0], "", letters);
      assert first + "" == first && keys[1..] == [];
      assert Texts([ReadToken(first)]) == [ReadToken(first).text] + Texts([]);
    } else {
      var more := RenderKeys(keys[1..], letters);
      JoinedHead(first, more, " | ");
      var rest := " | " + Joined(more, " | ");
      StringReadsBack(keys[0], rest, letters);
      assert rest[3..] == Joined(more, " | ") && StartsWith(rest, " | ");
      KeysReadBack(keys[1..], letters);
      var tokens := ReadCells(Joined(more, " | "));
      assert ([ReadToken(first + rest)] + tokens)[1..] == tokens;
    }
  }

  /** With distinct keys, looking a row's values up by key is reading them in order. */
  lemma {:induction false} CellsArePositional(row: seq<Field>, i: nat, letters: char -> bool)
    requires Keyed(row) && i <= |row|
    ensures Cells(row, Keys(row[i..]), letters) == RenderValues(row[i..], letters)
    decreases |row| - i
  {
    if i < |row| {
      CellsArePositional(row, i + 1, letters);
      LookupFinds(row, i);
      assert row[i..][1..] == row[i + 1..];
      assert Keys(row[i..])[1..] == Keys(row[i + 1..]);
    }
  }

  lemma {:induction false} LookupFinds(row: seq<Field>, i: nat)
    requires Keyed(row) && i < |row|
    ensures Lookup(row, row[i].key) == row[i].value
  {
    if i > 0 {
      LookupFinds(row[1..], i - 1);
    }
  }

  // ---------------------------------------------------------------- texts in lines

  predicate Ended(s: string) {
    s == [] || s[|s| - 1] == '\n'
  }

  function Unlines(lines: seq<string>, ended: bool): string {
    Joined(if ended then lines + [""] else lines, "\n")
  }

  lemma {:induction false} UnlinesStep(first: string, more: seq<string>, ended: bool)
    requires ended || more != []
    ensures Unlines([first] + more, ended) == first + ("\n" + Unlines(more, ended))
  {
    JoinedHead(first, if ended then more + [""] else more, "\n");
    assert ([first] + more) + [""] == [first] + (more + [""]);
  }

  /** The line breaks of a text are where its lines end. */
  lemma {:induction false} TextReadsBack(s: string)
    ensures s == Unlines(TextLines(s), Ended(s))
    ensures s != [] ==> TextLines(s) != []
    ensures forall l :: l in TextLines(s) ==> '\n' !in l
    decreases |s|
  {
    var n := Break(s);
    if s != [] && n == |s| {
      assert s[..n] == s && s[n - 1] in s;
    } else if s != [] {
      var first, more := s[..n], s[n + 1..];
      assert s == first + ("\n" + more) && Ended(more) == Ended(s);
      TextReadsBack(more);
      UnlinesStep(first, TextLines(more), Ended(more));
    }
  }

  lemma {:induction false} BreakAt(first: string, rest: string)
    requires '\n' !in first
    ensures Break(first + ("\n" + rest)) == |first|
  {
    if first == [] {
      assert first + ("\n" + rest) == "\n" + rest;
    } else {
      assert first[0] in first && (first + ("\n" + rest))[1..] == first[1..] + ("\n" + rest);
      BreakAt(first[1..], rest);
    }
  }

  /** Lines that are each ended by a line break read back as those lines. */
  lemma {:induction false} LinesReadBack(lines: seq<string>)
    requires forall l :: l in lines ==> '\n' !in l
    ensures TextLines(Joined(lines + [""], "\n")) == lines
  {
    if lines == [] {
      assert lines + [""] == [""];
    } else {
      var rest := Joined(lines[1..] + [""], "\n");
      assert lines + [""] == [lines[0]] + (lines[1..] + [""]);
      JoinedHead(lines[0], lines[1..] + [""], "\n");
      assert lines[0] in lines;
      BreakAt(lines[0], rest);
      var s := lines[0] + ("\n" + rest);
      assert s[..|lines[0]|] == lines[0] && s[|lines[0]| + 1..] == rest;
      LinesReadBack(lines[1..]);
    }
  }
}
