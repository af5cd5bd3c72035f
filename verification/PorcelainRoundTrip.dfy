/** Reading whole values back from porcelain lines, and the round trip. */
module PorcelainRoundTrip {
  import opened Porcelain
  import opened PorcelainReader

  // ---------------------------------------------------------------- reading values

  /** How many lines from the front lie at least this deep. */
  function BlockLength(lines: seq<string>, depth: nat): (n: nat)
    ensures n <= |lines|
  {
    if lines == [] || !StartsWith(lines[0], Indent(depth)) then 0 else 1 + BlockLength(lines[1..], depth)
  }

  function Outdent(lines: seq<string>, depth: nat): seq<string> {
    if lines == [] then [] else [Skip(lines[0], 2 * depth)] + Outdent(lines[1..], depth)
  }

  function ReadText(lines: seq<string>, chomping: string): string {
    Unlines(lines, chomping != "-")
  }

  function Zipped(keys: seq<string>, values: seq<Json>): seq<Field> {
    if keys == [] || values == [] then [] else [Field(keys[0], values[0])] + Zipped(keys[1..], values[1..])
  }

  function ReadRows(keys: seq<string>, lines: seq<string>): seq<Json> {
    if lines == [] then [] else [Obj(Zipped(keys, Meanings(ReadCells(lines[0]))))] + ReadRows(keys, lines[1..])
  }

  function AfterBracket(s: string): string {
    if s == [] then [] else if s[0] == ']' then s else AfterBracket(s[1..])
  }

  datatype Reading<T> = Reading(value: T, rest: seq<string>)

  predicate IsAt(line: string, depth: nat) {
    StartsWith(line, Indent(depth)) && |line| > 2 * depth && line[2 * depth] != ' '
  }

  /** The value whose head line, after its label, reads `body`; nothing stands for a collection that
      starts on the next line. */
  function ReadValue(body: string, depth: nat, lines: seq<string>): (r: Reading<Json>)
    ensures |r.rest| <= |lines|
    decreases |lines|, 2
  {
    if body == "" then
      if lines != [] && IsAt(lines[0], depth + 1) && lines[0][2 * depth + 2] == '-' then
        var items := ReadItems(depth + 1, lines);
        Reading(Arr(items.value), items.rest)
      else
        var fields := ReadFields(depth + 1, lines);
        Reading(Obj(fields.value), fields.rest)
    else if StartsWith(body, "|2") then
      var n := BlockLength(lines, depth + 1);
      Reading(Str(ReadText(Outdent(lines[..n], depth + 1), body[2..])), lines[n..])
    else if StartsWith(body, "table[") then
      var n := BlockLength(lines, depth + 1);
      Reading(Arr(ReadRows(Texts(ReadCells(Skip(AfterBracket(body), 3))), Outdent(lines[..n], depth + 1))), lines[n..])
    else Reading(Meaning(ReadToken(body)), lines)
  }

  function ReadFields(depth: nat, lines: seq<string>): (r: Reading<seq<Field>>)
    ensures |r.rest| <= |lines|
    decreases |lines|, 1
  {
    if lines == [] || !IsAt(lines[0], depth) then Reading([], lines)
    else
      var key := ReadToken(lines[0][2 * depth..]);
      var first := ReadValue(Skip(key.rest, 2), depth, lines[1..]);
      var more := ReadFields(depth, first.rest);
      Reading([Field(key.text, first.value)] + more.value, more.rest)
  }

  function ReadItems(depth: nat, lines: seq<string>): (r: Reading<seq<Json>>)
    ensures |r.rest| <= |lines|
    decreases |lines|, 1
  {
    if lines == [] || !IsAt(lines[0], depth) then Reading([], lines)
    else
      var first := ReadValue(Skip(lines[0][2 * depth..], 2), depth, lines[1..]);
      var more := ReadItems(depth, first.rest);
      Reading([first.value] + more.value, more.rest)
  }

  /** A whole document; its value carries no label. */
  function ReadDocument(lines: seq<string>): Json {
    if lines == [] then Null
    else
      var body := lines[0];
      if body != [] && body[0] == '-' && (|body| == 1 || body[1] == ' ') then Arr(ReadItems(0, lines).value)
      else if StartsWith(body, "|2") || StartsWith(body, "table[") then ReadValue(body, 0, lines[1..]).value
      else if ReadToken(body).rest != [] then Obj(ReadFields(0, lines).value)
      else Meaning(ReadToken(body))
  }

  function ReadPorcelain(text: string): Json {
    ReadDocument(TextLines(text))
  }

  // ---------------------------------------------------------------- the shape of what is rendered

  /** A label that some value inside a collection carries. */
  predicate IsLabel(lead: string) {
    |lead| >= 2 && lead[|lead| - 1] == ' ' && !IsWhitespace(lead[|lead| - 2]) && lead[0] != ' '
  }

  /** The head line's text after the label; nothing for a collection that opens on the next line. */
  function BodyOf(v: Json, letters: char -> bool): string {
    match v
    case Obj(fields) => if fields == [] then RenderScalar(v, letters) else ""
    case Arr(items) =>
      if items == [] then RenderScalar(v, letters)
      else if IsTable(items, letters) then
          "table[" + Decimal(|items|) + "]: " + Joined(RenderKeys(Keys(items[0].fields), letters), " | ")
      else ""
    case Str(s) => if IsLiteral(s) then "|2" + Chomping(s) else RenderScalar(v, letters)
    case _ => RenderScalar(v, letters)
  }

  /** The lines under the head line, at this depth. */
  function TailOf(v: Json, depth: nat, inner: nat, letters: char -> bool): seq<string> {
    match v
    case Obj(fields) => if fields == [] then [] else FieldLines(fields, inner, letters)
    case Arr(items) =>
      if items == [] then []
      else if IsTable(items, letters) then RowLines(items, Keys(items[0].fields), depth, letters)
      else ItemLines(items, inner, letters)
    case Str(s) => if IsLiteral(s) then Indented(TextLines(s), depth) else []
    case _ => []
  }

  function Head(depth: nat, lead: string, body: string): string {
    if body == "" && lead != "" then Indent(depth) + lead[..|lead| - 1] else Indent(depth) + lead + body
  }

  lemma {:induction false} TrimDropsOneSpace(depth: nat, lead: string)
    requires IsLabel(lead)
    ensures TrimEnd(Indent(depth) + lead) == Indent(depth) + lead[..|lead| - 1]
  {
    var s := Indent(depth) + lead;
    assert s[..|s| - 1] == Indent(depth) + lead[..|lead| - 1];
    assert s[..|s| - 1][|s| - 2] == lead[|lead| - 2];
  }

  lemma {:induction false} ScalarIsText(v: Json, letters: char -> bool)
    requires WellFormed(v) && InPlace(v)
    ensures RenderScalar(v, letters) != ""
  {
  }

  lemma {:induction false} HeadingConcat(p: string, a: string, b: string)
    ensures p + "table[" + a + "]: " + b == p + ("table[" + a + "]: " + b)
  {
  }

  lemma {:induction false} LabelledShape(v: Json, depth: nat, lead: string, letters: char -> bool)
    requires IsLabel(lead) && WellFormed(v)
    ensures Lines(v, depth, lead, letters) == [Head(depth, lead, BodyOf(v, letters))]
        + TailOf(v, depth, depth + 1, letters)
  {
    if InPlace(v) && !(v.Str? && IsLiteral(v.text)) {
      ScalarIsText(v, letters);
      assert [Indent(depth) + lead + RenderScalar(v, letters)] == [Indent(depth) + lead + RenderScalar(v, letters)]
          + [];
    } else if v.Str? {
      var prefix := Indent(depth) + lead;
      assert prefix + "|2" + Chomping(v.text) == prefix + ("|2" + Chomping(v.text));
    } else if v.Arr? && IsTable(v.items, letters) {
      HeadingConcat(Indent(depth) + lead, Decimal(|v.items|), Joined(RenderKeys(Keys(v.items[0].fields), letters),
        " | "));
    } else {
      TrimDropsOneSpace(depth, lead);
    }
  }

  lemma {:induction false} KeyIsLabel(key: string, letters: char -> bool)
    ensures IsLabel(RenderString(key, letters) + ": ")
    ensures RenderString(key, letters) != "" && RenderString(key, letters)[0] != '-'
    ensures RenderString(key, letters)[0] != '|'
  {
    if IsPlain(key, letters) {
      PlainIsNotReserved(key, letters);
    }
  }

  // ---------------------------------------------------------------- blocks

  /** What follows a value's lines is no deeper than the value itself. */
  predicate Outdented(lines: seq<string>, depth: nat) {
    lines == [] || !StartsWith(lines[0], Indent(depth))
  }

  lemma {:induction false} DeeperLine(depth: nat, text: string)
    ensures StartsWith(Indent(depth) + "  " + text, Indent(depth + 1))
    ensures Skip(Indent(depth) + "  " + text, 2 * depth + 2) == text
  {
    assert Indent(depth + 1) == Indent(depth) + "  ";
    assert (Indent(depth) + "  " + text)[..2 * depth + 2] == Indent(depth) + "  ";
  }

  lemma {:induction false} BlockReadsBack(texts: seq<string>, depth: nat, rest: seq<string>)
    requires Outdented(rest, depth + 1)
    ensures BlockLength(Indented(texts, depth) + rest, depth + 1) == |Indented(texts, depth)|
    ensures Outdent(Indented(texts, depth), depth + 1) == texts
  {
    if texts == [] {
      assert Indented(texts, depth) + rest == rest;
    } else {
      BlockReadsBack(texts[1..], depth, rest);
      DeeperLine(depth, texts[0]);
      var first, more := Indent(depth) + "  " + texts[0], Indented(texts[1..], depth);
      assert ([first] + more) + rest == [first] + (more + rest);
      assert ([first] + (more + rest))[1..] == more + rest && ([first] + more)[1..] == more;
      assert texts == [texts[0]] + texts[1..];
    }
  }

  lemma {:induction false} ChompingTells(s: string)
    requires IsLiteral(s)
    ensures Ended(s) <==> Chomping(s) != "-"
  {
    assert EndsWith(s, "\n") <==> s[|s| - 1] == '\n';
    assert EndsWith(s, "\n\n") ==> s[|s| - 1] == '\n';
  }

  lemma {:induction false} LiteralReadsBack(s: string, depth: nat, rest: seq<string>)
    requires IsLiteral(s) && Outdented(rest, depth + 1)
    ensures ReadValue("|2" + Chomping(s), depth, Indented(TextLines(s), depth) + rest) == Reading(Str(s), rest)
  {
    var body, lines := "|2" + Chomping(s), Indented(TextLines(s), depth) + rest;
    BlockReadsBack(TextLines(s), depth, rest);
    var n := |Indented(TextLines(s), depth)|;
    assert lines[..n] == Indented(TextLines(s), depth) && lines[n..] == rest;
    TextReadsBack(s);
    ChompingTells(s);
    assert StartsWith(body, "|2") && body[2..] == Chomping(s);
  }

  // ---------------------------------------------------------------- tables

  function RowTexts(rows: seq<Json>, letters: char -> bool): seq<string>
    requires forall x :: x in rows ==> x.Obj?
  {
    if rows == [] then [] else [Joined(RenderValues(rows[0].fields, letters), " | ")] + RowTexts(rows[1..], letters)
  }

  lemma {:induction false} RowsAreIndented(rows: seq<Json>, keys: seq<string>, depth: nat, letters: char -> bool)
    requires forall x :: x in rows ==> x.Obj? && Keys(x.fields) == keys && Keyed(x.fields)
    ensures RowLines(rows, keys, depth, letters) == Indented(RowTexts(rows, letters), depth)
  {
    if rows != [] {
      assert rows[0] in rows && forall x :: x in rows[1..] ==> x in rows;
      RowsAreIndented(rows[1..], keys, depth, letters);
      assert rows[0].fields[0..] == rows[0].fields;
      CellsArePositional(rows[0].fields, 0, letters);
      var texts := [Joined(RenderValues(rows[0].fields, letters), " | ")] + RowTexts(rows[1..], letters);
      assert texts[1..] == RowTexts(rows[1..], letters);
    }
  }

  lemma {:induction false} ZippedBack(fields: seq<Field>)
    ensures Zipped(Keys(fields), Values(fields)) == fields
  {
    if fields != [] {
      ZippedBack(fields[1..]);
      assert Keys(fields)[1..] == Keys(fields[1..]) && Values(fields)[1..] == Values(fields[1..]);
      assert fields == [Field(fields[0].key, fields[0].value)] + fields[1..];
    }
  }

  lemma {:induction false} RowReadsBack(fields: seq<Field>, keys: seq<string>, letters: char -> bool)
    requires keys != [] && WellFormed(Obj(fields)) && RowFits(Obj(fields), keys, letters)
    ensures Zipped(keys, Meanings(ReadCells(Joined(RenderValues(fields, letters), " | ")))) == fields
  {
    assert fields != [];
    CellsReadBack(fields, letters);
    ZippedBack(fields);
  }

  lemma {:induction false} RowsReadBack(rows: seq<Json>, keys: seq<string>, letters: char -> bool)
    requires keys != [] && (forall x :: x in rows ==> x.Obj? && WellFormed(x) && RowFits(x, keys, letters))
    ensures ReadRows(keys, RowTexts(rows, letters)) == rows
  {
    if rows != [] {
      assert rows[0] in rows && forall x :: x in rows[1..] ==> x in rows;
      RowsReadBack(rows[1..], keys, letters);
      RowReadsBack(rows[0].fields, keys, letters);
      assert RowTexts(rows, letters)[1..] == RowTexts(rows[1..], letters);
      assert rows == [Obj(rows[0].fields)] + rows[1..];
    }
  }

  lemma {:induction false} DecimalIsPlain(n: nat)
    ensures ']' !in Decimal(n) && Decimal(n) != ""
    decreases n
  {
    if n >= 10 {
      DecimalIsPlain(n / 10);
    }
  }

  lemma {:induction false} BracketIsFirst(s: string, rest: string)
    requires ']' !in s
    ensures AfterBracket(s + ("]" + rest)) == "]" + rest
  {
    if s == [] {
      assert s + ("]" + rest) == "]" + rest;
    } else {
      assert s[0] in s && (s + ("]" + rest))[1..] == s[1..] + ("]" + rest);
      BracketIsFirst(s[1..], rest);
    }
  }

  lemma {:induction false} HeadingReadsBack(n: nat, keys: seq<string>, letters: char -> bool)
    requires keys != []
    ensures var body := "table[" + Decimal(n) + "]: " + Joined(RenderKeys(keys, letters), " | ");
      StartsWith(body, "table[") && Texts(ReadCells(Skip(AfterBracket(body), 3))) == keys
  {
    var cells := Joined(RenderKeys(keys, letters), " | ");
    var body := "table[" + Decimal(n) + "]: " + cells;
    DecimalIsPlain(n);
    assert body == ("table[" + Decimal(n)) + ("]" + (": " + cells));
    BracketIsFirst("table[" + Decimal(n), ": " + cells);
    assert Skip("]" + (": " + cells), 3) == cells;
    KeysReadBack(keys, letters);
    assert body[..6] == "table[";
  }

  lemma {:induction false} RowBlockReadsBack(items: seq<Json>, keys: seq<string>, depth: nat, rest: seq<string>,
      letters: char -> bool)
    requires keys != [] && (forall x :: x in items ==> x.Obj? && WellFormed(x) && RowFits(x, keys, letters))
    requires Outdented(rest, depth + 1)
    ensures var lines := RowLines(items, keys, depth, letters) + rest;
      var n := BlockLength(lines, depth + 1);
      ReadRows(keys, Outdent(lines[..n], depth + 1)) == items && lines[n..] == rest
  {
    forall x | x in items ensures Keys(x.fields) == keys && Keyed(x.fields) {
      assert RowFits(x, keys, letters);
    }
    RowsAreIndented(items, keys, depth, letters);
    var block := RowLines(items, keys, depth, letters);
    BlockReadsBack(RowTexts(items, letters), depth, rest);
    assert (block + rest)[..|block|] == block && (block + rest)[|block|..] == rest;
    RowsReadBack(items, keys, letters);
  }

  lemma {:induction false} TableBranch(body: string, depth: nat, lines: seq<string>)
    requires StartsWith(body, "table[")
    ensures var n := BlockLength(lines, depth + 1);
      ReadValue(body, depth, lines) == Reading(Arr(ReadRows(Texts(ReadCells(Skip(AfterBracket(body), 3))),
          Outdent(lines[..n], depth + 1))), lines[n..])
  {
    assert body[0] == "table["[0] && body[..2][0] == body[0];
  }

  lemma {:induction false} TableReadsBack(items: seq<Json>, depth: nat, rest: seq<string>, letters: char -> bool)
    requires IsTable(items, letters) && (forall x :: x in items ==> x.Obj? && WellFormed(x))
    requires Outdented(rest, depth + 1)
    ensures ReadValue(BodyOf(Arr(items), letters), depth,
        RowLines(items, Keys(items[0].fields), depth, letters) + rest) == Reading(Arr(items), rest)
  {
    var keys := Keys(items[0].fields);
    HeadingReadsBack(|items|, keys, letters);
    RowBlockReadsBack(items, keys, depth, rest, letters);
    TableBranch(BodyOf(Arr(items), letters), depth, RowLines(items, keys, depth, letters) + rest);
  }
}
