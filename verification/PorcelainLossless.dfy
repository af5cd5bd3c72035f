/** The encoder itself, line by line, and the theorem: its text is lossless. */
module PorcelainLossless {
  import opened Porcelain
  import opened PorcelainReader
  import opened PorcelainRoundTrip

  // ---------------------------------------------------------------- head lines

  lemma {:induction false} HeadIsAt(depth: nat, lead: string, body: string)
    requires IsLabel(lead)
    ensures IsAt(Head(depth, lead, body), depth) && Head(depth, lead, body)[2 * depth] == lead[0]
    ensures Head(depth, lead, body)[2 * depth..] == if body == "" then lead[..|lead| - 1] else lead + body
    ensures !StartsWith(Head(depth, lead, body), Indent(depth + 1))
  {
    var line := Head(depth, lead, body);
    assert line[..2 * depth] == Indent(depth);
    if |line| >= 2 * depth + 2 {
      assert line[..2 * depth + 2][2 * depth] == lead[0] && Indent(depth + 1)[2 * depth] == ' ';
    }
  }

  /** What follows the name of a field on its line. */
  function AfterName(body: string): string {
    if body == "" then ":" else ": " + body
  }

  lemma {:induction false} NameReadsBack(key: string, body: string, letters: char -> bool)
    ensures ReadToken(RenderString(key, letters) + AfterName(body)).text == key
    ensures ReadToken(RenderString(key, letters) + AfterName(body)).rest == AfterName(body)
    ensures AfterName(body) != [] && Skip(AfterName(body), 2) == body
  {
    StringReadsBack(key, AfterName(body), letters);
    assert body != "" ==> (": " + body)[2..] == body;
  }

  lemma {:induction false} NameSplits(name: string, body: string)
    ensures (if body == "" then (name + ": ")[..|name + ": "| - 1] else name + ": " + body) == name + AfterName(body)
  {
    assert (name + ": ")[..|name + ": "| - 1] == name + ":";
    assert (name + ": ") + body == name + (": " + body);
  }

  lemma {:induction false} FieldHead(depth: nat, key: string, body: string, letters: char -> bool)
    ensures var line := Head(depth, RenderString(key, letters) + ": ", body);
      && IsAt(line, depth) && line[2 * depth] != '-' && line[2 * depth] != '|'
      && !StartsWith(line, Indent(depth + 1))
      && line[2 * depth..] == RenderString(key, letters) + AfterName(body)
  {
    KeyIsLabel(key, letters);
    HeadIsAt(depth, RenderString(key, letters) + ": ", body);
    NameSplits(RenderString(key, letters), body);
  }

  lemma {:induction false} ItemHead(depth: nat, body: string)
    ensures var line := Head(depth, "- ", body);
      && IsLabel("- ") && IsAt(line, depth) && line[2 * depth] == '-'
      && !StartsWith(line, Indent(depth + 1))
      && Skip(line[2 * depth..], 2) == body
      && (|line| == 2 * depth + 1 || line[2 * depth + 1] == ' ')
  {
    HeadIsAt(depth, "- ", body);
    assert "- "[..1] == "-" && ("- " + body)[2..] == body;
    var line := Head(depth, "- ", body);
    assert body != "" ==> line[2 * depth..][1] == ' ';
  }

  lemma {:induction false} ScalarHead(v: Json, letters: char -> bool)
    requires WellFormed(v) && InPlace(v)
    ensures var s := RenderScalar(v, letters);
      && s != "" && !StartsWith(s, "|2") && !StartsWith(s, "table[")
      && (s[0] == '-' ==> |s| > 1 && s[1] != ' ')
  {
    var s := RenderScalar(v, letters);
    if v.Str? && IsPlain(v.text, letters) {
      PlainIsNotReserved(s, letters);
      assert '[' in PUNCTUATION;
      assert |s| >= 6 ==> s[5] in s && s[..6][5] == s[5];
      assert "table["[5] == '[';
    } else {
      assert |s| >= 1 ==> s[..1][0] == s[0];
      assert |s| >= 2 ==> s[..2][0] == s[0];
      assert |s| >= 6 ==> s[..6][0] == s[0] && s[..6][1] == s[1];
      assert "table["[0] == 't' && "table["[1] == 'a' && "|2"[0] == '|';
      if v.Num? { assert s[0] in s; }
    }
  }

  lemma {:induction false} ScalarBranch(v: Json, depth: nat, rest: seq<string>, letters: char -> bool)
    requires WellFormed(v) && InPlace(v)
    ensures ReadValue(RenderScalar(v, letters), depth, rest) == Reading(v, rest)
  {
    ScalarHead(v, letters);
    ScalarReadsBack(v, "", letters);
    assert RenderScalar(v, letters) + "" == RenderScalar(v, letters);
  }

  // ---------------------------------------------------------------- collections

  /** What follows a field or an item: the next one at the same depth, or what follows them all. */
  lemma {:induction false} FieldLinesAreAt(fields: seq<Field>, depth: nat, rest: seq<string>, letters: char -> bool)
    requires (forall f :: f in fields ==> WellFormed(f.value)) && Outdented(rest, depth + 1)
    ensures Outdented(FieldLines(fields, depth, letters) + rest, depth + 1)
    ensures fields != [] ==> (
      && FieldLines(fields, depth, letters) != [] && IsAt(FieldLines(fields, depth, letters)[0], depth)
      && FieldLines(fields, depth, letters)[0][2 * depth] != '-')
  {
    if fields == [] {
      assert FieldLines(fields, depth, letters) + rest == rest;
    } else {
      assert fields[0] in fields;
      KeyIsLabel(fields[0].key, letters);
      LabelledShape(fields[0].value, depth, RenderString(fields[0].key, letters) + ": ", letters);
      FieldHead(depth, fields[0].key, BodyOf(fields[0].value, letters), letters);
    }
  }

  lemma {:induction false} ItemLinesAreAt(items: seq<Json>, depth: nat, rest: seq<string>, letters: char -> bool)
    requires (forall x :: x in items ==> WellFormed(x)) && Outdented(rest, depth + 1)
    ensures Outdented(ItemLines(items, depth, letters) + rest, depth + 1)
    ensures items != [] ==> (
      && ItemLines(items, depth, letters) != [] && IsAt(ItemLines(items, depth, letters)[0], depth)
      && ItemLines(items, depth, letters)[0][2 * depth] == '-')
  {
    if items == [] {
      assert ItemLines(items, depth, letters) + rest == rest;
    } else {
      assert items[0] in items;
      ItemHead(depth, BodyOf(items[0], letters));
      LabelledShape(items[0], depth, "- ", letters);
    }
  }

  lemma {:induction false} Shallower(rest: seq<string>, depth: nat)
    requires Outdented(rest, depth)
    ensures Outdented(rest, depth + 1)
  {
    assert Indent(depth + 1)[..2 * depth] == Indent(depth);
    assert rest != [] && |rest[0]| >= 2 * depth + 2 ==> rest[0][..2 * depth + 2][..2 * depth] == rest[0][..2 * depth];
  }

  lemma {:induction false} OpensFields(depth: nat, lines: seq<string>, fields: seq<Field>, rest: seq<string>)
    requires lines != [] && IsAt(lines[0], depth + 1) && lines[0][2 * (depth + 1)] != '-'
    requires ReadFields(depth + 1, lines) == Reading(fields, rest)
    ensures ReadValue("", depth, lines) == Reading(Obj(fields), rest)
  {
  }

  lemma {:induction false} OpensItems(depth: nat, lines: seq<string>, items: seq<Json>, rest: seq<string>)
    requires lines != [] && IsAt(lines[0], depth + 1) && lines[0][2 * (depth + 1)] == '-'
    requires ReadItems(depth + 1, lines) == Reading(items, rest)
    ensures ReadValue("", depth, lines) == Reading(Arr(items), rest)
  {
  }

  lemma {:induction false} FieldsBranch(fields: seq<Field>, depth: nat, rest: seq<string>, letters: char -> bool)
    requires fields != [] && (forall f :: f in fields ==> WellFormed(f.value)) && Outdented(rest, depth + 1)
    requires ReadFields(depth + 1, FieldLines(fields, depth + 1, letters) + rest) == Reading(fields, rest)
    ensures ReadValue("", depth, FieldLines(fields, depth + 1, letters) + rest) == Reading(Obj(fields), rest)
  {
    Shallower(rest, depth + 1);
    FieldLinesAreAt(fields, depth + 1, rest, letters);
    OpensFields(depth, FieldLines(fields, depth + 1, letters) + rest, fields, rest);
  }

  lemma {:induction false} ItemsBranch(items: seq<Json>, depth: nat, rest: seq<string>, letters: char -> bool)
    requires items != [] && (forall x :: x in items ==> WellFormed(x)) && Outdented(rest, depth + 1)
    requires ReadItems(depth + 1, ItemLines(items, depth + 1, letters) + rest) == Reading(items, rest)
    ensures ReadValue("", depth, ItemLines(items, depth + 1, letters) + rest) == Reading(Arr(items), rest)
  {
    Shallower(rest, depth + 1);
    ItemLinesAreAt(items, depth + 1, rest, letters);
    OpensItems(depth, ItemLines(items, depth + 1, letters) + rest, items, rest);
  }

  lemma {:induction false} TableMember(items: seq<Json>, letters: char -> bool)
    requires IsTable(items, letters)
    ensures forall x :: x in items ==> x.Obj?
  {
    forall x | x in items ensures x.Obj? {
      assert RowFits(x, Keys(items[0].fields), letters);
    }
  }

  /** Every value reads back from its lines, and reading stops where they end. */
  lemma {:induction false} ValueReadsBack(v: Json, depth: nat, rest: seq<string>, letters: char -> bool)
    returns (body: string, tail: seq<string>)
    requires WellFormed(v) && Outdented(rest, depth + 1)
    ensures body == BodyOf(v, letters) && tail == TailOf(v, depth, depth + 1, letters)
    ensures ReadValue(body, depth, tail + rest) == Reading(v, rest)
    decreases v, 1
  {
    body, tail := BodyOf(v, letters), TailOf(v, depth, depth + 1, letters);
    if InPlace(v) && !(v.Str? && IsLiteral(v.text)) {
      ScalarBranch(v, depth, rest, letters);
      assert tail + rest == rest;
    } else if v.Str? {
      LiteralReadsBack(v.text, depth, rest);
    } else if v.Arr? && IsTable(v.items, letters) {
      TableMember(v.items, letters);
      TableReadsBack(v.items, depth, rest, letters);
    } else if v.Arr? {
      ItemsReadBack(v.items, depth + 1, rest, letters);
      ItemsBranch(v.items, depth, rest, letters);
    } else {
      FieldsReadBack(v.fields, depth + 1, rest, letters);
      FieldsBranch(v.fields, depth, rest, letters);
    }
  }

  /** The same, for the lines under a label. */
  lemma {:induction false} LabelledReadsBack(v: Json, depth: nat, lead: string, rest: seq<string>,
      letters: char -> bool) returns (body: string, tail: seq<string>)
    requires WellFormed(v) && IsLabel(lead) && Outdented(rest, depth + 1)
    ensures Lines(v, depth, lead, letters) == [Head(depth, lead, body)] + tail
    ensures ReadValue(body, depth, tail + rest) == Reading(v, rest)
    decreases v, 2
  {
    body, tail := ValueReadsBack(v, depth, rest, letters);
    LabelledShape(v, depth, lead, letters);
  }

  lemma {:induction false} Regroup(a: seq<string>, b: seq<string>, c: seq<string>, d: seq<string>)
    ensures ((a + b) + c) + d == a + (b + (c + d))
  {
  }

  lemma {:induction false} FieldLinesSplit(fields: seq<Field>, depth: nat, rest: seq<string>, line: string,
      tail: seq<string>, letters: char -> bool)
    requires fields != []
    requires Lines(fields[0].value, depth, RenderString(fields[0].key, letters) + ": ", letters) == [line] + tail
    ensures FieldLines(fields, depth, letters) + rest == [line]
        + (tail + (FieldLines(fields[1..], depth, letters) + rest))
  {
    Regroup([line], tail, FieldLines(fields[1..], depth, letters), rest);
  }

  /** The first field reads back before what follows it. */
  lemma {:induction false} FirstField(fields: seq<Field>, depth: nat, rest: seq<string>, more: seq<string>,
      letters: char -> bool) returns (body: string, tail: seq<string>)
    requires fields != [] && (forall f :: f in fields ==> WellFormed(f.value)) && Outdented(rest, depth)
    requires more == FieldLines(fields[1..], depth, letters) + rest
    ensures FieldLines(fields, depth, letters) + rest ==
        [Head(depth, RenderString(fields[0].key, letters) + ": ", body)] + (tail + more)
    ensures ReadValue(body, depth, tail + more) == Reading(fields[0].value, more)
    decreases fields, 1
  {
    assert fields[0] in fields && forall x :: x in fields[1..] ==> x in fields;
    KeyIsLabel(fields[0].key, letters);
    Shallower(rest, depth);
    FieldLinesAreAt(fields[1..], depth, rest, letters);
    body, tail := LabelledReadsBack(fields[0].value, depth, RenderString(fields[0].key, letters) + ": ", more, letters);
    FieldLinesSplit(fields, depth, rest, Head(depth, RenderString(fields[0].key, letters) + ": ", body), tail, letters);
  }

  lemma {:induction false} NoFieldsReadBack(depth: nat, rest: seq<string>, letters: char -> bool)
    requires Outdented(rest, depth)
    ensures ReadFields(depth, FieldLines([], depth, letters) + rest) == Reading([], rest)
  {
    assert FieldLines([], depth, letters) + rest == rest;
  }

  lemma {:induction false} FieldsReadBack(fields: seq<Field>, depth: nat, rest: seq<string>, letters: char -> bool)
    requires (forall f :: f in fields ==> WellFormed(f.value)) && Outdented(rest, depth)
    ensures ReadFields(depth, FieldLines(fields, depth, letters) + rest) == Reading(fields, rest)
    decreases fields, 2
  {
    hide ReadFields, ReadValue, Lines, FieldLines, Outdented, Head, WellFormed;
    if fields == [] {
      NoFieldsReadBack(depth, rest, letters);
    } else {
      var more := FieldLines(fields[1..], depth, letters) + rest;
      assert forall x :: x in fields[1..] ==> x in fields;
      FieldsReadBack(fields[1..], depth, rest, letters);
      var body, tail := FirstField(fields, depth, rest, more, letters);
      FieldStep(depth, fields[0], body, tail, more, Reading(fields[1..], rest), letters);
      assert [fields[0]] + fields[1..] == fields;
    }
  }

  lemma {:induction false} FieldStep(depth: nat, f: Field, body: string, tail: seq<string>, more: seq<string>,
      r: Reading<seq<Field>>, letters: char -> bool)
    requires ReadValue(body, depth, tail + more) == Reading(f.value, more) && ReadFields(depth, more) == r
    ensures ReadFields(depth, [Head(depth, RenderString(f.key, letters) + ": ", body)] + (tail + more)) ==
        Reading([f] + r.value, r.rest)
  {
    var line := Head(depth, RenderString(f.key, letters) + ": ", body);
    FieldHead(depth, f.key, body, letters);
    NameReadsBack(f.key, body, letters);
    assert ([line] + (tail + more))[1..] == tail + more;
  }

  lemma {:induction false} ItemLinesSplit(items: seq<Json>, depth: nat, rest: seq<string>, line: string,
      tail: seq<string>, letters: char -> bool)
    requires items != [] && Lines(items[0], depth, "- ", letters) == [line] + tail
    ensures ItemLines(items, depth, letters) + rest == [line] + (tail + (ItemLines(items[1..], depth, letters) + rest))
  {
    Regroup([line], tail, ItemLines(items[1..], depth, letters), rest);
  }

  /** The first item reads back before what follows it. */
  lemma {:induction false} FirstItem(items: seq<Json>, depth: nat, rest: seq<string>, more: seq<string>,
      letters: char -> bool) returns (body: string, tail: seq<string>)
    requires items != [] && (forall x :: x in items ==> WellFormed(x)) && Outdented(rest, depth)
    requires more == ItemLines(items[1..], depth, letters) + rest
    ensures ItemLines(items, depth, letters) + rest == [Head(depth, "- ", body)] + (tail + more)
    ensures ReadValue(body, depth, tail + more) == Reading(items[0], more)
    decreases items, 1
  {
    assert items[0] in items && forall x :: x in items[1..] ==> x in items;
    ItemHead(depth, "");
    Shallower(rest, depth);
    ItemLinesAreAt(items[1..], depth, rest, letters);
    body, tail := LabelledReadsBack(items[0], depth, "- ", more, letters);
    ItemLinesSplit(items, depth, rest, Head(depth, "- ", body), tail, letters);
  }

  lemma {:induction false} ItemsReadBack(items: seq<Json>, depth: nat, rest: seq<string>, letters: char -> bool)
    requires (forall x :: x in items ==> WellFormed(x)) && Outdented(rest, depth)
    ensures ReadItems(depth, ItemLines(items, depth, letters) + rest) == Reading(items, rest)
    decreases items, 2
  {
    if items == [] {
      assert ItemLines(items, depth, letters) + rest == rest;
    } else {
      var more := ItemLines(items[1..], depth, letters) + rest;
      assert forall x :: x in items[1..] ==> x in items;
      ItemsReadBack(items[1..], depth, rest, letters);
      var body, tail := FirstItem(items, depth, rest, more, letters);
      ItemStep(depth, items[0], body, tail, more, Reading(items[1..], rest));
      assert [items[0]] + items[1..] == items;
    }
  }

  lemma {:induction false} ItemStep(depth: nat, v: Json, body: string, tail: seq<string>, more: seq<string>,
      r: Reading<seq<Json>>)
    requires ReadValue(body, depth, tail + more) == Reading(v, more) && ReadItems(depth, more) == r
    ensures ReadItems(depth, [Head(depth, "- ", body)] + (tail + more)) == Reading([v] + r.value, r.rest)
  {
    ItemHead(depth, body);
    assert ([Head(depth, "- ", body)] + (tail + more))[1..] == tail + more;
  }

  // ---------------------------------------------------------------- documents

  lemma {:induction false} FieldIsNoTable(key: string, body: string, letters: char -> bool)
    ensures !StartsWith(RenderString(key, letters) + AfterName(body), "table[")
  {
    var name := RenderString(key, letters);
    var line := name + AfterName(body);
    KeyIsLabel(key, letters);
    if IsPlain(key, letters) {
      assert '[' in PUNCTUATION;
      assert |name| >= 6 ==> line[..6][5] == name[5] && name[5] in name;
      assert |name| < 6 && |line| >= 6 ==> line[..6][|name|] == ':';
      assert "table["[5] == '[' && (forall i :: 0 <= i < 6 ==> "table["[i] != ':');
    } else {
      assert |line| >= 6 ==> line[..6][0] == '"';
      assert "table["[0] == 't';
    }
  }

  lemma {:induction false} TopFields(fields: seq<Field>, letters: char -> bool)
    requires fields != [] && WellFormed(Obj(fields))
    ensures ReadDocument(FieldLines(fields, 0, letters)) == Obj(fields)
  {
    var lines := FieldLines(fields, 0, letters);
    FieldsReadBack(fields, 0, [], letters);
    assert lines + [] == lines;
    var body, tail := FirstField(fields, 0, [], FieldLines(fields[1..], 0, letters) + [], letters);
    var line := lines[0];
    FieldHead(0, fields[0].key, body, letters);
    NameReadsBack(fields[0].key, body, letters);
    FieldIsNoTable(fields[0].key, body, letters);
    assert line[0..] == line;
    assert |line| >= 2 ==> line[..2][0] == line[0];
    assert "|2"[0] == '|';
  }

  lemma {:induction false} TopItems(items: seq<Json>, letters: char -> bool)
    requires items != [] && WellFormed(Arr(items))
    ensures ReadDocument(ItemLines(items, 0, letters)) == Arr(items)
  {
    var lines := ItemLines(items, 0, letters);
    ItemsReadBack(items, 0, [], letters);
    assert lines + [] == lines;
    var body, tail := FirstItem(items, 0, [], ItemLines(items[1..], 0, letters) + [], letters);
    ItemHead(0, body);
  }

  /** A document reads back from its lines. */
  lemma {:induction false} DocumentReadsBack(v: Json, letters: char -> bool)
    requires WellFormed(v)
    ensures ReadDocument(Lines(v, 0, "", letters)) == v
  {
    var lines := Lines(v, 0, "", letters);
    if InPlace(v) && !(v.Str? && IsLiteral(v.text)) {
      var s := RenderScalar(v, letters);
      assert lines == [s] by { assert Indent(0) + "" + s == s; }
      ScalarHead(v, letters);
      ScalarReadsBack(v, "", letters);
      assert s + "" == s;
    } else if v.Str? || (v.Arr? && IsTable(v.items, letters)) {
      var body, tail := ValueReadsBack(v, 0, [], letters);
      assert tail + [] == tail;
      TopLine(v, letters);
    } else if v.Arr? {
      TopItems(v.items, letters);
      assert lines == ItemLines(v.items, 0, letters);
    } else {
      TopFields(v.fields, letters);
      assert lines == FieldLines(v.fields, 0, letters);
    }
  }

  lemma {:induction false} TopLine(v: Json, letters: char -> bool)
    requires (v.Str? && IsLiteral(v.text)) || (v.Arr? && IsTable(v.items, letters))
    ensures Lines(v, 0, "", letters) == [BodyOf(v, letters)] + TailOf(v, 0, 1, letters)
    ensures StartsWith(BodyOf(v, letters), "|2") || StartsWith(BodyOf(v, letters), "table[")
    ensures BodyOf(v, letters)[0] != '-'
  {
    hide Decimal, Joined, RenderKeys, Keys, TextLines, Indented, RowLines;
    var body := BodyOf(v, letters);
    if v.Str? {
      assert Indent(0) + "" + "|2" + Chomping(v.text) == body && body[..2] == "|2";
    } else {
      HeadingConcat("", Decimal(|v.items|), Joined(RenderKeys(Keys(v.items[0].fields), letters), " | "));
      assert Indent(0) + "" == "" && "" + body == body;
      assert body[..6] == "table[";
    }
  }

  // ---------------------------------------------------------------- lines without line breaks

  lemma {:induction false} EscapeHoldsNoBreak(c: char)
    ensures '\n' !in Escaped(c)
  {
    if (c < ' ' || c == '\U{85}' || IsLineSeparator(c)) && c as int < 0x1_0000 {
      assert '\n' !in "0123456789abcdef";
      assert '\n' !in Hex4(c);
    }
  }

  lemma {:induction false} EscapesHoldNoBreak(s: string)
    ensures '\n' !in EscapedAll(s)
  {
    if s != [] {
      EscapeHoldsNoBreak(s[0]);
      EscapesHoldNoBreak(s[1..]);
    }
  }

  predicate OneLine(s: string) {
    '\n' !in s
  }

  predicate AllOneLine(lines: seq<string>) {
    forall l :: l in lines ==> OneLine(l)
  }

  lemma {:induction false} StringIsOneLine(s: string, letters: char -> bool)
    ensures OneLine(RenderString(s, letters))
  {
    EscapesHoldNoBreak(s);
  }

  lemma {:induction false} ScalarIsOneLine(v: Json, letters: char -> bool)
    requires v.Num? ==> IsNumber(v.lexeme)
    ensures OneLine(RenderScalar(v, letters))
  {
    match v
    case Str(s) => StringIsOneLine(s, letters);
    case Num(l) => assert !NumberChar('\n');
    case _ =>
  }

  lemma {:induction false} JoinedIsOneLine(parts: seq<string>, separator: string)
    requires AllOneLine(parts) && OneLine(separator)
    ensures OneLine(Joined(parts, separator))
  {
    if parts != [] {
      assert parts[0] in parts && forall p :: p in parts[1..] ==> p in parts;
      JoinedIsOneLine(parts[1..], separator);
    }
  }

  lemma {:induction false} KeysAreOneLine(keys: seq<string>, letters: char -> bool)
    ensures AllOneLine(RenderKeys(keys, letters))
  {
    if keys != [] {
      KeysAreOneLine(keys[1..], letters);
      StringIsOneLine(keys[0], letters);
    }
  }

  lemma {:induction false} ValuesAreOneLine(fields: seq<Field>, letters: char -> bool)
    requires forall f :: f in fields ==> WellFormed(f.value)
    ensures AllOneLine(RenderValues(fields, letters))
  {
    if fields != [] {
      assert fields[0] in fields && forall f :: f in fields[1..] ==> f in fields;
      ValuesAreOneLine(fields[1..], letters);
      ScalarIsOneLine(fields[0].value, letters);
    }
  }

  lemma {:induction false} RowsAreOneLine(rows: seq<Json>, letters: char -> bool)
    requires forall x :: x in rows ==> x.Obj? && WellFormed(x)
    ensures AllOneLine(RowTexts(rows, letters))
  {
    if rows != [] {
      assert rows[0] in rows && forall x :: x in rows[1..] ==> x in rows;
      RowsAreOneLine(rows[1..], letters);
      ValuesAreOneLine(rows[0].fields, letters);
      JoinedIsOneLine(RenderValues(rows[0].fields, letters), " | ");
    }
  }

  lemma {:induction false} IndentedIsOneLine(texts: seq<string>, depth: nat)
    requires AllOneLine(texts)
    ensures AllOneLine(Indented(texts, depth))
  {
    if texts != [] {
      assert texts[0] in texts && forall t :: t in texts[1..] ==> t in texts;
      IndentedIsOneLine(texts[1..], depth);
    }
  }

  lemma {:induction false} DecimalIsOneLine(n: nat)
    ensures OneLine(Decimal(n))
    decreases n
  {
    if n >= 10 {
      DecimalIsOneLine(n / 10);
    }
  }

  lemma {:induction false} TrimIsOneLine(s: string)
    requires OneLine(s)
    ensures OneLine(TrimEnd(s))
  {
    if s != [] && IsWhitespace(s[|s| - 1]) {
      TrimIsOneLine(s[..|s| - 1]);
    }
  }

  lemma {:induction false} TableIsOneLine(items: seq<Json>, depth: nat, lead: string, letters: char -> bool)
    requires WellFormed(Arr(items)) && IsTable(items, letters) && OneLine(lead)
    ensures AllOneLine(Lines(Arr(items), depth, lead, letters))
  {
    var keys := Keys(items[0].fields);
    TableRowsAreOneLine(items, keys, depth, letters);
    DecimalIsOneLine(|items|);
    KeysAreOneLine(keys, letters);
    JoinedIsOneLine(RenderKeys(keys, letters), " | ");
    hide Indent, Decimal, Joined, RenderKeys, RowLines, WellFormed, Keys;
    var heading :=
      Indent(depth) + lead + "table[" + Decimal(|items|) + "]: " + Joined(RenderKeys(keys, letters), " | ");
    TableHeadIsOneLine(depth, lead, Decimal(|items|), Joined(RenderKeys(keys, letters), " | "));
    BothAreOneLine([heading], RowLines(items, keys, depth, letters));
  }

  lemma {:induction false} TableHeadIsOneLine(depth: nat, lead: string, count: string, keys: string)
    requires OneLine(lead) && OneLine(count) && OneLine(keys)
    ensures AllOneLine([Indent(depth) + lead + "table[" + count + "]: " + keys])
  {
  }

  lemma {:induction false} TableRowsAreOneLine(items: seq<Json>, keys: seq<string>, depth: nat, letters: char -> bool)
    requires WellFormed(Arr(items)) && IsTable(items, letters) && keys == Keys(items[0].fields)
    ensures AllOneLine(RowLines(items, keys, depth, letters)) && (forall x :: x in items ==> x.Obj?)
    ensures Keyed(items[0].fields)
  {
    forall x | x in items ensures x.Obj? && Keys(x.fields) == keys && Keyed(x.fields) && WellFormed(x) {
      assert RowFits(x, keys, letters);
    }
    RowsAreIndented(items, keys, depth, letters);
    RowsAreOneLine(items, letters);
    IndentedIsOneLine(RowTexts(items, letters), depth);
  }

  lemma {:induction false} HeadIsOneLine(depth: nat, lead: string, body: string)
    requires OneLine(lead) && OneLine(body)
    ensures AllOneLine([Indent(depth) + lead + body]) && AllOneLine(HeaderLines(depth, lead))
  {
    TrimIsOneLine(Indent(depth) + lead);
  }

  lemma {:induction false} BothAreOneLine(a: seq<string>, b: seq<string>)
    requires AllOneLine(a) && AllOneLine(b)
    ensures AllOneLine(a + b)
  {
  }

  lemma {:induction false} TextAsOneLines(s: string)
    requires IsLiteral(s)
    ensures AllOneLine(TextLines(s))
  {
    TextReadsBack(s);
  }

  lemma {:induction false} MarkIsOneLine(s: string)
    ensures OneLine("|2" + Chomping(s))
  {
  }

  lemma {:induction false} LiteralIsOneLine(s: string, depth: nat, lead: string, letters: char -> bool)
    requires IsLiteral(s) && OneLine(lead)
    ensures AllOneLine(Lines(Str(s), depth, lead, letters))
  {
    hide OneLine, AllOneLine, TextLines, Indented, Chomping, Indent, IsLiteral;
    TextAsOneLines(s);
    IndentedIsOneLine(TextLines(s), depth);
    MarkIsOneLine(s);
    HeadIsOneLine(depth, lead, "|2" + Chomping(s));
    assert Indent(depth) + lead + ("|2" + Chomping(s)) == Indent(depth) + lead + "|2" + Chomping(s);
    BothAreOneLine([Indent(depth) + lead + "|2" + Chomping(s)], Indented(TextLines(s), depth));
  }

  lemma {:induction false} LinesAreOneLine(v: Json, depth: nat, lead: string, letters: char -> bool)
    requires WellFormed(v) && OneLine(lead)
    ensures AllOneLine(Lines(v, depth, lead, letters))
    decreases v, 1
  {
    HeadIsOneLine(depth, lead, "");
    if InPlace(v) && !(v.Str? && IsLiteral(v.text)) {
      ScalarIsOneLine(v, letters);
      HeadIsOneLine(depth, lead, RenderScalar(v, letters));
    } else if v.Str? {
      LiteralIsOneLine(v.text, depth, lead, letters);
    } else if v.Arr? && IsTable(v.items, letters) {
      TableIsOneLine(v.items, depth, lead, letters);
    } else if v.Arr? {
      ItemsAreOneLine(v.items, ChildDepth(depth, lead), letters);
      BothAreOneLine(HeaderLines(depth, lead), ItemLines(v.items, ChildDepth(depth, lead), letters));
    } else {
      FieldsAreOneLine(v.fields, ChildDepth(depth, lead), letters);
      BothAreOneLine(HeaderLines(depth, lead), FieldLines(v.fields, ChildDepth(depth, lead), letters));
    }
  }

  lemma {:induction false} FieldsAreOneLine(fields: seq<Field>, depth: nat, letters: char -> bool)
    requires forall f :: f in fields ==> WellFormed(f.value)
    ensures AllOneLine(FieldLines(fields, depth, letters))
    decreases fields, 0
  {
    if fields != [] {
      assert fields[0] in fields && forall f :: f in fields[1..] ==> f in fields;
      StringIsOneLine(fields[0].key, letters);
      LinesAreOneLine(fields[0].value, depth, RenderString(fields[0].key, letters) + ": ", letters);
      FieldsAreOneLine(fields[1..], depth, letters);
    }
  }

  lemma {:induction false} ItemsAreOneLine(items: seq<Json>, depth: nat, letters: char -> bool)
    requires forall x :: x in items ==> WellFormed(x)
    ensures AllOneLine(ItemLines(items, depth, letters))
    decreases items, 0
  {
    if items != [] {
      assert items[0] in items && forall x :: x in items[1..] ==> x in items;
      LinesAreOneLine(items[0], depth, "- ", letters);
      ItemsAreOneLine(items[1..], depth, letters);
    }
  }

  // ---------------------------------------------------------------- the theorem

  /** Reading back what was rendered gives the value, for all nestings, layouts and strings. */
  lemma {:induction false} PorcelainRoundTrips(v: Json, letters: char -> bool)
    requires WellFormed(v)
    ensures ReadPorcelain(Rendered(v, letters)) == v
  {
    var lines := Lines(v, 0, "", letters);
    LinesAreOneLine(v, 0, "", letters);
    LinesReadBack(lines);
    DocumentReadsBack(v, letters);
  }

  /** Two values with the same porcelain are the same value. */
  lemma {:induction false} PorcelainIsLossless(v: Json, w: Json, letters: char -> bool)
    requires WellFormed(v) && WellFormed(w) && Rendered(v, letters) == Rendered(w, letters)
    ensures v == w
  {
    PorcelainRoundTrips(v, letters);
    PorcelainRoundTrips(w, letters);
  }
}
