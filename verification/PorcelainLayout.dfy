/** Which layout a value gets. Any choice could be read back; these are the ones that the encoder makes. */
module PorcelainLayout {
  import opened Porcelain

  // ---------------------------------------------------------------- strings

  lemma {:induction false} TrimEndKeeps(s: string)
    ensures TrimEnd(s) <= s
    ensures TrimEnd(s) == s <==> s == [] || !IsWhitespace(s[|s| - 1])
  {
    if s != [] && IsWhitespace(s[|s| - 1]) {
      TrimEndKeeps(s[..|s| - 1]);
    }
  }

  lemma {:induction false} TrimStartKeeps(s: string)
    ensures |TrimStart(s)| <= |s|
    ensures TrimStart(s) == s <==> s == [] || !IsWhitespace(s[0])
  {
    if s != [] && IsWhitespace(s[0]) {
      TrimStartKeeps(s[1..]);
    }
  }

  lemma {:induction false} NothingToTrim(s: string)
    ensures Trim(s) == s <==> s == [] || (!IsWhitespace(s[0]) && !IsWhitespace(s[|s| - 1]))
  {
    TrimStartKeeps(s);
    TrimEndKeeps(TrimStart(s));
  }

  lemma {:induction false} QuotedIsLonger(s: string)
    ensures |EscapedAll(s)| >= |s|
  {
    if s != [] {
      QuotedIsLonger(s[1..]);
    }
  }

  /** A string stands bare exactly if it begins like a word, has no space around it and no mark in it
      that the text itself uses, and is no word that readers take for something else, in any case. */
  lemma {:induction false} WordsStandBare(s: string, letters: char -> bool)
    ensures RenderString(s, letters) == s <==> (
      && s != []
      && (s[0] == '_' || 'a' <= s[0] <= 'z' || 'A' <= s[0] <= 'Z' || (s[0] >= '\U{80}' && letters(s[0])))
      && !IsWhitespace(s[0]) && !IsWhitespace(s[|s| - 1])
      && (forall c :: c in s ==> c >= ' ' && !('\U{7F}' <= c <= '\U{9F}') && c != '\U{2028}' && c != '\U{2029}')
      && (forall c :: c in s ==> c !in {':', '[', ']', '{', '}', '|', '"', '\'', '\\', '#'})
      && Lower(s) !in {"null", "true", "false", "yes", "no", "on", "off", "y", "n"})
  {
    hide Lower, Trim, IsWhitespace;
    NothingToTrim(s);
    QuotedIsLonger(s);
    assert |Quoted(s)| > |s|;
  }

  lemma {:induction false} BarsAreQuoted(s: string, letters: char -> bool)
    ensures RenderString(s, letters) != "" && RenderString(s, letters)[0] != '|'
  {
  }

  /** A text is written as a block exactly if it has a line break and no other character that a block
      could not carry. */
  lemma {:induction false} TextsAreBlocks(s: string, letters: char -> bool)
    ensures "|2" <= Rendered(Str(s), letters) <==> (
      && '\n' in s
      && (forall c :: c in s && c != '\n' && c != '\t' ==>
           c >= ' ' && !('\U{7F}' <= c <= '\U{9F}') && c != '\U{2028}' && c != '\U{2029}'))
  {
    hide RenderString, TextLines, Chomping;
    var lines := Lines(Str(s), 0, "", letters);
    assert Indent(0) == "" && forall t: string :: "" + t == t;
    JoinedBegins(lines + [""]);
    if IsLiteral(s) {
      assert lines[0] == "|2" + Chomping(s);
    } else {
      assert RenderScalar(Str(s), letters) == RenderString(s, letters) && lines == [RenderString(s, letters)];
      BarsAreQuoted(s, letters);
    }
  }

  lemma {:induction false} JoinedBegins(lines: seq<string>)
    requires lines != []
    ensures lines[0] <= Joined(lines, "\n")
  {
  }

  // ---------------------------------------------------------------- collections

  lemma {:induction false} KeysAreInOrder(fields: seq<Field>)
    ensures |Keys(fields)| == |fields|
    ensures forall k :: 0 <= k < |fields| ==> Keys(fields)[k] == fields[k].key
  {
    if fields != [] {
      KeysAreInOrder(fields[1..]);
    }
  }

  /** The same keys as the first record in the same order, and nothing nested or long under them. */
  predicate Short(row: seq<Field>, first: seq<Field>, letters: char -> bool) {
    && |row| == |first|
    && (forall k :: 0 <= k < |row| ==> row[k].key == first[k].key)
    && (forall k :: 0 <= k < |row| ==>
         !row[k].value.Arr? && !row[k].value.Obj? && |RenderScalar(row[k].value, letters)| <= 96)
  }

  lemma {:induction false} FitsIfShort(v: Json, first: seq<Field>, letters: char -> bool)
    ensures RowFits(v, Keys(first), letters) <==> v.Obj? && Short(v.fields, first, letters)
  {
    hide RenderScalar;
    KeysAreInOrder(first);
    if v.Obj? {
      KeysAreInOrder(v.fields);
      assert forall k :: 0 <= k < |v.fields| ==> v.fields[k] in v.fields;
    }
  }

  /** Two or more short records with the same one to twelve keys become a table; others are listed. */
  lemma {:induction false} RecordsMakeTables(items: seq<Json>, letters: char -> bool)
    ensures IsTable(items, letters) <==> (
      && |items| >= 2 && items[0].Obj? && 1 <= |items[0].fields| <= 12
      && (forall i :: 0 <= i < |items| ==> items[i].Obj? && Short(items[i].fields, items[0].fields, letters)))
  {
    hide RowFits, Short;
    if |items| >= 2 && items[0].Obj? {
      forall x | x in items
        ensures RowFits(x, Keys(items[0].fields), letters) <==>
            x.Obj? && Short(x.fields, items[0].fields, letters)
      {
        FitsIfShort(x, items[0].fields, letters);
      }
      assert forall i :: 0 <= i < |items| ==> items[i] in items;
    }
  }
}
