/** The encoder as it is written: one list of lines that loops and recursion push on. */
module PorcelainEncoder {
  import opened Porcelain
  import opened PorcelainRoundTrip
  import PorcelainLossless

  lemma {:induction false} FieldsUnfold(fields: seq<Field>, i: nat, depth: nat, letters: char -> bool)
    requires i < |fields|
    ensures FieldLines(fields[i..], depth, letters)
         == Lines(fields[i].value, depth, RenderString(fields[i].key, letters) + ": ", letters)
             + FieldLines(fields[i + 1..], depth, letters)
  {
    assert fields[i..][1..] == fields[i + 1..];
  }

  lemma {:induction false} ItemsUnfold(items: seq<Json>, i: nat, depth: nat, letters: char -> bool)
    requires i < |items|
    ensures ItemLines(items[i..], depth, letters) == Lines(items[i], depth, "- ", letters)
        + ItemLines(items[i + 1..], depth, letters)
  {
    assert items[i..][1..] == items[i + 1..];
  }

  lemma {:induction false} RowsUnfold(items: seq<Json>, i: nat, keys: seq<string>, depth: nat, letters: char -> bool)
    requires i < |items| && forall x :: x in items ==> x.Obj?
    ensures forall x :: x in items[i..] ==> x.Obj?
    ensures forall x :: x in items[i + 1..] ==> x.Obj?
    ensures RowLines(items[i..], keys, depth, letters)
         == [Indent(depth) + "  " + Joined(Cells(items[i].fields, keys, letters), " | ")]
             + RowLines(items[i + 1..], keys, depth, letters)
  {
    assert items[i..][1..] == items[i + 1..];
  }

  lemma {:induction false} IndentedUnfold(texts: seq<string>, i: nat, depth: nat)
    requires i < |texts|
    ensures Indented(texts[i..], depth) == [Indent(depth) + "  " + texts[i]] + Indented(texts[i + 1..], depth)
  {
    assert texts[i..][1..] == texts[i + 1..];
  }

  lemma {:induction false} Regrouped(a: seq<string>, b: seq<string>, c: seq<string>)
    ensures (a + b) + c == a + (b + c)
  {
  }

  /** Two or more short records with the same one to twelve keys make a table under those keys. */
  method TableKeys(items: seq<Json>, letters: char -> bool) returns (table: bool, keys: seq<string>)
    ensures table == IsTable(items, letters)
    ensures table ==> items != [] && items[0].Obj? && keys == Keys(items[0].fields)
  {
    table, keys := false, [];
    if |items| < 2 || !items[0].Obj? || items[0].fields == [] || |items[0].fields| > 12 {
      return;
    }
    keys := Keys(items[0].fields);
    for i := 0 to |items|
      invariant forall k :: 0 <= k < i ==> RowFits(items[k], keys, letters)
    {
      if !RowFits(items[i], keys, letters) {
        assert items[i] in items;
        return;
      }
    }
    table := true;
  }

  method RenderTable(items: seq<Json>, keys: seq<string>, depth: nat, lines: seq<string>,
      letters: char -> bool) returns (out: seq<string>)
    requires forall x :: x in items ==> x.Obj?
    ensures out == lines + RowLines(items, keys, depth, letters)
  {
    out := lines;
    for i := 0 to |items|
      invariant forall x :: x in items[i..] ==> x.Obj?
      invariant out + RowLines(items[i..], keys, depth, letters) == lines + RowLines(items, keys, depth, letters)
    {
      RowsUnfold(items, i, keys, depth, letters);
      Regrouped(out, [Indent(depth) + "  " + Joined(Cells(items[i].fields, keys, letters), " | ")],
        RowLines(items[i + 1..], keys, depth, letters));
      out := out + [Indent(depth) + "  " + Joined(Cells(items[i].fields, keys, letters), " | ")];
    }
  }

  method RenderLiteral(texts: seq<string>, depth: nat, lines: seq<string>) returns (out: seq<string>)
    ensures out == lines + Indented(texts, depth)
  {
    out := lines;
    for i := 0 to |texts|
      invariant out + Indented(texts[i..], depth) == lines + Indented(texts, depth)
    {
      IndentedUnfold(texts, i, depth);
      Regrouped(out, [Indent(depth) + "  " + texts[i]], Indented(texts[i + 1..], depth));
      out := out + [Indent(depth) + "  " + texts[i]];
    }
  }

  method RenderFields(fields: seq<Field>, depth: nat, lines: seq<string>, letters: char -> bool)
    returns (out: seq<string>)
    ensures out == lines + FieldLines(fields, depth, letters)
    decreases fields, 0
  {
    out := lines;
    for i := 0 to |fields|
      invariant out + FieldLines(fields[i..], depth, letters) == lines + FieldLines(fields, depth, letters)
    {
      var lead := RenderString(fields[i].key, letters) + ": ";
      FieldsUnfold(fields, i, depth, letters);
      Regrouped(out, Lines(fields[i].value, depth, lead, letters), FieldLines(fields[i + 1..], depth, letters));
      out := RenderValue(fields[i].value, depth, lead, out, letters);
    }
  }

  method RenderItems(items: seq<Json>, depth: nat, lines: seq<string>, letters: char -> bool) returns (out: seq<string>)
    ensures out == lines + ItemLines(items, depth, letters)
    decreases items, 0
  {
    out := lines;
    for i := 0 to |items|
      invariant out + ItemLines(items[i..], depth, letters) == lines + ItemLines(items, depth, letters)
    {
      ItemsUnfold(items, i, depth, letters);
      Regrouped(out, Lines(items[i], depth, "- ", letters), ItemLines(items[i + 1..], depth, letters));
      out := RenderValue(items[i], depth, "- ", out, letters);
    }
  }

  /** Pushes the label of a collection, unless it has none, and says how deep its members are. */
  method RenderHeader(depth: nat, lead: string, lines: seq<string>) returns (out: seq<string>, child: nat)
    ensures out == lines + HeaderLines(depth, lead) && child == ChildDepth(depth, lead)
  {
    if lead == "" {
      out, child := lines, depth;
    } else {
      out, child := lines + [TrimEnd(Indent(depth) + lead)], depth + 1;
    }
  }

  method RenderArray(items: seq<Json>, depth: nat, lead: string, lines: seq<string>, letters: char -> bool)
    returns (out: seq<string>)
    requires items != []
    ensures out == lines + Lines(Arr(items), depth, lead, letters)
    decreases items, 1
  {
    var table, keys := TableKeys(items, letters);
    if table {
      forall x | x in items ensures x.Obj? {
        assert RowFits(x, keys, letters);
      }
      var heading := Indent(depth) + lead + "table[" + Decimal(|items|) + "]: " + Joined(RenderKeys(keys, letters),
        " | ");
      Regrouped(lines, [heading], RowLines(items, keys, depth, letters));
      out := RenderTable(items, keys, depth, lines + [heading], letters);
    } else {
      var child;
      out, child := RenderHeader(depth, lead, lines);
      Regrouped(lines, HeaderLines(depth, lead), ItemLines(items, child, letters));
      out := RenderItems(items, child, out, letters);
    }
  }

  method RenderValue(v: Json, depth: nat, lead: string, lines: seq<string>, letters: char -> bool)
    returns (out: seq<string>)
    ensures out == lines + Lines(v, depth, lead, letters)
    decreases v, 1
  {
    if v.Obj? && v.fields != [] {
      var child;
      out, child := RenderHeader(depth, lead, lines);
      Regrouped(lines, HeaderLines(depth, lead), FieldLines(v.fields, child, letters));
      out := RenderFields(v.fields, child, out, letters);
    } else if v.Arr? && v.items != [] {
      out := RenderArray(v.items, depth, lead, lines, letters);
    } else if v.Str? && IsLiteral(v.text) {
      var heading := Indent(depth) + lead + "|2" + Chomping(v.text);
      Regrouped(lines, [heading], Indented(TextLines(v.text), depth));
      out := RenderLiteral(TextLines(v.text), depth, lines + [heading]);
    } else {
      out := lines + [Indent(depth) + lead + RenderScalar(v, letters)];
    }
  }

  /** The text of a value, from which the value can be read back. */
  method RenderJsonPorcelain(v: Json, letters: char -> bool) returns (text: string)
    ensures text == Rendered(v, letters)
    ensures WellFormed(v) ==> ReadPorcelain(text) == v
  {
    var lines := RenderValue(v, 0, "", [], letters);
    assert lines == Lines(v, 0, "", letters);
    text := Joined(lines + [""], "\n");
    if WellFormed(v) {
      PorcelainLossless.PorcelainRoundTrips(v, letters);
    }
  }
}
