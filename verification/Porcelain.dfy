/** The porcelain encoder: JSON values as indented text. The text is lossless, which is shown by a
    reader for it: reading back what was rendered gives the value again, for every value. */
module Porcelain {

  // ---------------------------------------------------------------- values and characters

  /** A JSON value. Numbers keep the lexeme that they are printed with; object fields keep the order
      in which they are printed. */
  datatype Json =
    | Null
    | Bool(b: bool)
    | Num(lexeme: string)
    | Str(text: string)
    | Arr(items: seq<Json>)
    | Obj(fields: seq<Field>)

  datatype Field = Field(key: string, value: Json)

  predicate IsDigit(c: char) {
    '0' <= c <= '9'
  }

  predicate NumberChar(c: char) {
    IsDigit(c) || c in "+-.eE"
  }

  predicate IsNumber(s: string) {
    && s != [] && (forall c :: c in s ==> NumberChar(c))
    && (IsDigit(s[0]) || (s[0] == '-' && |s| > 1 && IsDigit(s[1])))
  }

  predicate Keyed(fields: seq<Field>) {
    forall i, j :: 0 <= i < j < |fields| ==> fields[i].key != fields[j].key
  }

  /** Numbers are numbers, and no object has a key twice. */
  predicate WellFormed(v: Json) {
    match v
    case Num(l) => IsNumber(l)
    case Arr(items) => forall x :: x in items ==> WellFormed(x)
    case Obj(fields) => Keyed(fields) && forall f :: f in fields ==> WellFormed(f.value)
    case _ => true
  }

  predicate IsControl(c: char) {
    c < ' ' || '\U{7F}' <= c <= '\U{9F}'
  }

  predicate IsWhitespace(c: char) {
    || '\t' <= c <= '\r' || c == ' ' || c == '\U{85}' || c == '\U{A0}' || c == '\U{1680}'
    || '\U{2000}' <= c <= '\U{200A}' || c == '\U{2028}' || c == '\U{2029}' || c == '\U{202F}'
    || c == '\U{205F}' || c == '\U{3000}'
  }

  predicate IsLineSeparator(c: char) {
    c == '\U{2028}' || c == '\U{2029}'
  }

  /** Which characters beyond ASCII are letters is left to the character tables. */
  predicate IsAlphabetic(c: char, letters: char -> bool) {
    if c < '\U{80}' then 'a' <= c <= 'z' || 'A' <= c <= 'Z' else letters(c)
  }

  function Lower(s: string): string {
    if s == [] then []
    else [if 'A' <= s[0] <= 'Z' then ((s[0] as int) + 32) as char else s[0]] + Lower(s[1..])
  }

  function TrimEnd(s: string): string {
    if s != [] && IsWhitespace(s[|s| - 1]) then TrimEnd(s[..|s| - 1]) else s
  }

  function TrimStart(s: string): string {
    if s != [] && IsWhitespace(s[0]) then TrimStart(s[1..]) else s
  }

  function Trim(s: string): string {
    TrimEnd(TrimStart(s))
  }

  // ---------------------------------------------------------------- scalars

  const RESERVED: set<string> := {"null", "true", "false", "yes", "no", "on", "off", "y", "n"}
  const PUNCTUATION: string := ":[]{}|\"'\\#\U{2028}\U{2029}"

  predicate IsPlain(s: string, letters: char -> bool) {
    && s != [] && (IsAlphabetic(s[0], letters) || s[0] == '_')
    && Trim(s) == s
    && (forall c :: c in s ==> !IsControl(c) && c !in PUNCTUATION)
    && Lower(s) !in RESERVED
  }

  function HexDigit(n: int): char
    requires 0 <= n < 16
  {
    "0123456789abcdef"[n]
  }

  function Hex4(c: char): (h: string)
    requires c as int < 0x1_0000
    ensures |h| == 4
  {
    var n := c as int;
    [HexDigit(n / 4096), HexDigit(n / 256 % 16), HexDigit(n / 16 % 16), HexDigit(n % 16)]
  }

  /** One character of a quoted string: JSON's escapes, and three more for characters that readers
      of text may take for line breaks. */
  function Escaped(c: char): string {
    if c == '"' then "\\\""
    else if c == '\\' then "\\\\"
    else if c == '\U{08}' then "\\b"
    else if c == '\U{0C}' then "\\f"
    else if c == '\n' then "\\n"
    else if c == '\r' then "\\r"
    else if c == '\t' then "\\t"
    else if c < ' ' || c == '\U{85}' || IsLineSeparator(c) then "\\u" + Hex4(c)
    else [c]
  }

  function EscapedAll(s: string): string {
    if s == [] then [] else Escaped(s[0]) + EscapedAll(s[1..])
  }

  function Quoted(s: string): string {
    "\"" + EscapedAll(s) + "\""
  }

  function RenderString(s: string, letters: char -> bool): string {
    if IsPlain(s, letters) then s else Quoted(s)
  }

  function RenderScalar(v: Json, letters: char -> bool): string {
    match v
    case Str(s) => RenderString(s, letters)
    case Null => "null"
    case Bool(b) => if b then "true" else "false"
    case Num(l) => l
    case Arr(_) => "[]"
    case Obj(_) => "{}"
  }

  // ---------------------------------------------------------------- layout

  function Indent(depth: nat): string {
    seq(2 * depth, i => ' ')
  }

  function Decimal(n: nat): string {
    if n < 10 then [(n + '0' as int) as char] else Decimal(n / 10) + [(n % 10 + '0' as int) as char]
  }

  predicate IsScalar(v: Json) {
    !v.Arr? && !v.Obj?
  }

  function Keys(fields: seq<Field>): seq<string> {
    if fields == [] then [] else [fields[0].key] + Keys(fields[1..])
  }

  predicate RowFits(v: Json, keys: seq<string>, letters: char -> bool) {
    && v.Obj? && Keys(v.fields) == keys
    && (forall f :: f in v.fields ==> IsScalar(f.value) && |RenderScalar(f.value, letters)| <= 96)
  }

  /** Two or more short records with the same one to twelve keys. */
  predicate IsTable(items: seq<Json>, letters: char -> bool) {
    && |items| >= 2 && items[0].Obj? && 1 <= |items[0].fields| <= 12
    && (forall x :: x in items ==> RowFits(x, Keys(items[0].fields), letters))
  }

  function Joined(parts: seq<string>, separator: string): string {
    if parts == [] then ""
    else if |parts| == 1 then parts[0]
    else parts[0] + separator + Joined(parts[1..], separator)
  }

  function RenderKeys(keys: seq<string>, letters: char -> bool): seq<string> {
    if keys == [] then [] else [RenderString(keys[0], letters)] + RenderKeys(keys[1..], letters)
  }

  /** The value under a key. */
  function Lookup(fields: seq<Field>, key: string): Json {
    if fields == [] then Null else if fields[0].key == key then fields[0].value else Lookup(fields[1..], key)
  }

  function Cells(row: seq<Field>, keys: seq<string>, letters: char -> bool): seq<string> {
    if keys == [] then [] else [RenderScalar(Lookup(row, keys[0]), letters)] + Cells(row, keys[1..], letters)
  }

  function RowLines(rows: seq<Json>, keys: seq<string>, depth: nat, letters: char -> bool): seq<string>
    requires forall x :: x in rows ==> x.Obj?
  {
    if rows == [] then [] else
      [Indent(depth) + "  " + Joined(Cells(rows[0].fields, keys, letters), " | ")]
      + RowLines(rows[1..], keys, depth, letters)
  }

  predicate IsLiteral(s: string) {
    '\n' in s && forall c :: c in s ==> !(IsControl(c) && c != '\n' && c != '\t') && !IsLineSeparator(c)
  }

  predicate EndsWith(s: string, t: string) {
    |s| >= |t| && s[|s| - |t|..] == t
  }

  function Chomping(s: string): string {
    if EndsWith(s, "\n\n") || s == "\n" then "+" else if EndsWith(s, "\n") then "" else "-"
  }

  /** The offset of the first line break, or the length. */
  function Break(s: string): (n: nat)
    ensures n <= |s| && (n < |s| ==> s[n] == '\n') && '\n' !in s[..n]
  {
    if s == [] || s[0] == '\n' then 0
    else
      var rest := Break(s[1..]);
      assert s[..1 + rest] == [s[0]] + s[1..][..rest];
      1 + rest
  }

  /** The lines of a text; a final line break ends its line and starts no other. */
  function TextLines(s: string): seq<string>
    decreases |s|
  {
    if s == [] then [] else if Break(s) == |s| then [s] else [s[..Break(s)]] + TextLines(s[Break(s) + 1..])
  }

  function Indented(lines: seq<string>, depth: nat): seq<string> {
    if lines == [] then [] else [Indent(depth) + "  " + lines[0]] + Indented(lines[1..], depth)
  }

  // ---------------------------------------------------------------- the encoder

  function HeaderLines(depth: nat, lead: string): seq<string> {
    if lead == "" then [] else [TrimEnd(Indent(depth) + lead)]
  }

  function ChildDepth(depth: nat, lead: string): nat {
    if lead == "" then depth else depth + 1
  }

  function Lines(v: Json, depth: nat, lead: string, letters: char -> bool): seq<string>
    decreases v, 1
  {
    match v
    case Obj(fields) =>
      if fields == [] then [Indent(depth) + lead + RenderScalar(v, letters)]
      else HeaderLines(depth, lead) + FieldLines(fields, ChildDepth(depth, lead), letters)
    case Arr(items) =>
      if items == [] then [Indent(depth) + lead + RenderScalar(v, letters)]
      else if IsTable(items, letters) then
        [Indent(depth) + lead + "table[" + Decimal(|items|) + "]: "
            + Joined(RenderKeys(Keys(items[0].fields), letters), " | ")]
        + RowLines(items, Keys(items[0].fields), depth, letters)
      else HeaderLines(depth, lead) + ItemLines(items, ChildDepth(depth, lead), letters)
    case Str(s) =>
      if IsLiteral(s) then [Indent(depth) + lead + "|2" + Chomping(s)] + Indented(TextLines(s), depth)
      else [Indent(depth) + lead + RenderScalar(v, letters)]
    case _ => [Indent(depth) + lead + RenderScalar(v, letters)]
  }

  function FieldLines(fields: seq<Field>, depth: nat, letters: char -> bool): seq<string>
    decreases fields, 0
  {
    if fields == [] then [] else
      Lines(fields[0].value, depth, RenderString(fields[0].key, letters) + ": ", letters)
      + FieldLines(fields[1..], depth, letters)
  }

  function ItemLines(items: seq<Json>, depth: nat, letters: char -> bool): seq<string>
    decreases items, 0
  {
    if items == [] then []
    else Lines(items[0], depth, "- ", letters) + ItemLines(items[1..], depth, letters)
  }

  function Rendered(v: Json, letters: char -> bool): string {
    Joined(Lines(v, 0, "", letters) + [""], "\n")
  }
}
