/**
 * JSON values as JavaScript holds them, and `JSON.stringify`.
 *
 * An object is the sequence of its own enumerable properties in property
 * order. A number is its shortest round-trip text, so `0` and `-0` are one
 * value. `undefined` and lone surrogates are not represented.
 */
module Json {
  import opened Options

  datatype Json =
    | Null
    | Bool(b: bool)
    | Num(text: string)
    | Str(s: string)
    | Arr(items: seq<Json>)
    | Obj(fields: seq<Field>)

  datatype Field = Field(key: string, value: Json)

  predicate IsNumberChar(c: char) {
    '0' <= c <= '9' || c in "+-.eE"
  }

  ghost predicate DistinctKeys(fields: seq<Field>) {
    forall i, j | 0 <= i < j < |fields| :: fields[i].key != fields[j].key
  }

  /** What every value reached through `JSON.parse` or an object literal satisfies. */
  ghost predicate WellFormed(j: Json) {
    match j
    case Num(text) => |text| > 0 && forall i | 0 <= i < |text| :: IsNumberChar(text[i])
    case Arr(items) => forall i | 0 <= i < |items| :: WellFormed(items[i])
    case Obj(fields) => DistinctKeys(fields) && forall i | 0 <= i < |fields| :: WellFormed(fields[i].value)
    case _ => true
  }

  /** `object[key]`. */
  function Lookup(fields: seq<Field>, key: string): (r: Option<Json>)
    ensures r.Some? <==> exists i :: 0 <= i < |fields| && fields[i].key == key
    ensures r.Some? ==> Field(key, r.value) in fields
  {
    if fields == [] then None
    else if fields[0].key == key then Some(fields[0].value)
    else
      var r := Lookup(fields[1..], key);
      assert r.Some? ==> Field(key, r.value) in fields[1..];
      assert forall i :: 0 < i < |fields| ==> fields[1..][i - 1] == fields[i];
      r
  }

  /** What JavaScript's `trim` removes: white space and line terminators. */
  predicate IsSpace(c: char) {
    || '\t' <= c <= '\r' || c == ' ' || c == '\U{A0}' || c == '\U{1680}' || '\U{2000}' <= c <= '\U{200A}'
    || c == '\U{2028}' || c == '\U{2029}' || c == '\U{202F}' || c == '\U{205F}' || c == '\U{3000}' || c == '\U{FEFF}'
  }

  /** `s.trim()` is empty. */
  predicate IsBlank(s: string) {
    forall i | 0 <= i < |s| :: IsSpace(s[i])
  }

  // ----- JSON.stringify -----

  function HexDigit(n: nat): char
    requires n < 16
  {
    "0123456789abcdef"[n]
  }

  function Escape(c: char): (s: string)
    ensures |s| > 0 && s[0] != '"'
  {
    if c == '"' then "\\\""
    else if c == '\\' then "\\\\"
    else if c as int == 8 then "\\b"
    else if c as int == 9 then "\\t"
    else if c as int == 10 then "\\n"
    else if c as int == 12 then "\\f"
    else if c as int == 13 then "\\r"
    else if c as int < 32 then "\\u00" + [HexDigit(c as int / 16), HexDigit(c as int % 16)]
    else [c]
  }

  /** The escaped characters of `s`, a closing quote, then `rest`. */
  function WriteTail(s: string, rest: string): (r: string)
    ensures |r| > |rest|
  {
    if s == [] then ['"'] + rest else Escape(s[0]) + WriteTail(s[1..], rest)
  }

  function WriteString(s: string, rest: string): string {
    ['"'] + WriteTail(s, rest)
  }

  /** The text of `j` followed by `rest`. */
  function Write(j: Json, rest: string): string
    decreases j, 1
  {
    match j
    case Null => "null" + rest
    case Bool(b) => (if b then "true" else "false") + rest
    case Num(text) => text + rest
    case Str(s) => WriteString(s, rest)
    case Arr(items) => ['['] + WriteItems(items, [']'] + rest)
    case Obj(fields) => ['{'] + WriteFields(fields, ['}'] + rest)
  }

  /** The comma-separated texts of `items`, then `rest`. */
  function WriteItems(items: seq<Json>, rest: string): string
    decreases items, 0
  {
    if items == [] then rest
    else Write(items[0], if |items| == 1 then rest else [','] + WriteItems(items[1..], rest))
  }

  function WriteFields(fields: seq<Field>, rest: string): string
    decreases fields, 0
  {
    if fields == [] then rest
    else WriteField(fields[0], if |fields| == 1 then rest else [','] + WriteFields(fields[1..], rest))
  }

  function WriteField(field: Field, rest: string): string
    decreases field, 0
  {
    WriteString(field.key, [':'] + Write(field.value, rest))
  }

  /** `JSON.stringify(j)`. */
  function Print(j: Json): string {
    Write(j, "")
  }

  // ----- reading JSON text (RFC 8259), without white space between tokens -----

  function HexValue(c: char): Option<nat> {
    if '0' <= c <= '9' then Some(c as nat - '0' as nat)
    else if 'a' <= c <= 'f' then Some(c as nat - 'a' as nat + 10)
    else if 'A' <= c <= 'F' then Some(c as nat - 'A' as nat + 10)
    else None
  }

  /** The character of four hexadecimal digits, unless it is a surrogate. */
  function FourDigits(a: char, b: char, c: char, d: char): Option<char> {
    match (HexValue(a), HexValue(b), HexValue(c), HexValue(d))
    case (Some(p), Some(q), Some(r), Some(s)) =>
      var code := ((p * 16 + q) * 16 + r) * 16 + s;
      if code < 0xD800 then Some(code as char) else if 0xE000 <= code < 0x10000 then Some(code as char) else None
    case _ => None
  }

  /** Section 7: the next character of a string, escaped or not, and what follows it. */
  function ReadChar(text: string): (r: Option<(char, string)>)
    ensures r.Some? ==> |r.value.1| < |text|
  {
    if text == [] || text[0] == '"' || text[0] as nat < 32 then None
    else if text[0] != '\\' then Some((text[0], text[1..]))
    else if |text| < 2 then None
    else if text[1] in ['"', '\\', '/'] then Some((text[1], text[2..]))
    else if text[1] == 'b' then Some((8 as char, text[2..]))
    else if text[1] == 't' then Some((9 as char, text[2..]))
    else if text[1] == 'n' then Some((10 as char, text[2..]))
    else if text[1] == 'f' then Some((12 as char, text[2..]))
    else if text[1] == 'r' then Some((13 as char, text[2..]))
    else if text[1] != 'u' || |text| < 6 then None
    else
      match FourDigits(text[2], text[3], text[4], text[5])
      case Some(c) => Some((c, text[6..]))
      case None => None
  }

  /** A string behind its opening quote, and what follows its closing one. */
  function ReadString(text: string): (r: Option<(string, string)>)
    ensures r.Some? ==> |r.value.1| < |text|
    decreases |text|
  {
    if text == [] then None
    else if text[0] == '"' then Some(("", text[1..]))
    else
      match ReadChar(text)
      case None => None
      case Some((c, rest)) =>
        match ReadString(rest)
        case None => None
        case Some((s, after)) => Some(([c] + s, after))
  }

  /** The characters of a number, as many as there are. */
  function ReadNumber(text: string): (r: (string, string))
    ensures text == r.0 + r.1
  {
    if text == [] || !IsNumberChar(text[0]) then ([], text)
    else
      var (number, rest) := ReadNumber(text[1..]);
      ([text[0]] + number, rest)
  }

  function ReadWord(text: string, word: string, value: Json): (r: Option<(Json, string)>)
    requires word != []
    ensures r.Some? ==> |r.value.1| < |text|
  {
    if word <= text then Some((value, text[|word|..])) else None
  }

  /** A value, and what follows it. */
  function ReadValue(text: string): (r: Option<(Json, string)>)
    ensures r.Some? ==> |r.value.1| < |text|
    decreases |text|, 0
  {
    if text == [] then None
    else if text[0] == 'n' then ReadWord(text, "null", Null)
    else if text[0] == 't' then ReadWord(text, "true", Bool(true))
    else if text[0] == 'f' then ReadWord(text, "false", Bool(false))
    else if text[0] == '"' then
      match ReadString(text[1..])
      case Some((s, rest)) => Some((Str(s), rest))
      case None => None
    else if text[0] == '[' then ReadArray(text[1..])
    else if text[0] == '{' then ReadObject(text[1..])
    else
      var (number, rest) := ReadNumber(text);
      if number == [] then None else Some((Num(number), rest))
  }

  /** An array behind its bracket. */
  function ReadArray(text: string): (r: Option<(Json, string)>)
    ensures r.Some? ==> |r.value.1| < |text|
    decreases |text|, 3
  {
    if text != [] && text[0] == ']' then Some((Arr([]), text[1..]))
    else
      match ReadItems(text)
      case Some((items, rest)) => Some((Arr(items), rest))
      case None => None
  }

  /** An object behind its brace. */
  function ReadObject(text: string): (r: Option<(Json, string)>)
    ensures r.Some? ==> |r.value.1| < |text|
    decreases |text|, 3
  {
    if text != [] && text[0] == '}' then Some((Obj([]), text[1..]))
    else
      match ReadFields(text)
      case Some((fields, rest)) => Some((Obj(fields), rest))
      case None => None
  }

  /** The values up to the end of the array. */
  function ReadItems(text: string): (r: Option<(seq<Json>, string)>)
    ensures r.Some? ==> |r.value.1| < |text|
    decreases |text|, 1
  {
    match ReadValue(text)
    case None => None
    case Some((value, rest)) =>
      if rest == [] then None
      else if rest[0] == ']' then Some(([value], rest[1..]))
      else if rest[0] != ',' then None
      else
        match ReadItems(rest[1..])
        case Some((values, after)) => Some(([value] + values, after))
        case None => None
  }

  /** The entries up to the end of the object. */
  function ReadFields(text: string): (r: Option<(seq<Field>, string)>)
    ensures r.Some? ==> |r.value.1| < |text|
    decreases |text|, 2
  {
    match ReadField(text)
    case None => None
    case Some((field, rest)) =>
      if rest == [] then None
      else if rest[0] == '}' then Some(([field], rest[1..]))
      else if rest[0] != ',' then None
      else
        match ReadFields(rest[1..])
        case Some((fields, after)) => Some(([field] + fields, after))
        case None => None
  }

  function ReadField(text: string): (r: Option<(Field, string)>)
    ensures r.Some? ==> |r.value.1| < |text|
    decreases |text|, 1
  {
    if text == [] || text[0] != '"' then None
    else
      match ReadString(text[1..])
      case None => None
      case Some((key, rest)) =>
        if rest == [] || rest[0] != ':' then None
        else
          match ReadValue(rest[1..])
          case Some((value, after)) => Some((Field(key, value), after))
          case None => None
  }

  // ----- what is printed is read back -----

  predicate StartsWithDelimiter(rest: string) {
    rest == [] || rest[0] in ",]}"
  }

  /** Only quotes, backslashes and control characters are escaped, and a reader gets each of them back. */
  lemma EscapeRead(c: char, rest: string)
    ensures ReadChar(Escape(c) + rest) == Some((c, rest))
    ensures Escape(c) == [c] <==> c != '"' && c != '\\' && c as nat >= 32
    ensures |Escape(c)| == 2 <==> c == '"' || c == '\\' || c as nat in {8, 9, 10, 12, 13}
    ensures |Escape(c)| in {1, 2, 6}
  {
    var text := Escape(c) + rest;
    assert text[|Escape(c)|..] == rest;
    if |Escape(c)| == 6 { HexRead(c as nat); }
  }

  lemma HexRead(n: nat)
    requires n < 32
    ensures FourDigits('0', '0', HexDigit(n / 16), HexDigit(n % 16)) == Some(n as char)
  {
    HexDigitRead(n / 16);
    HexDigitRead(n % 16);
  }

  lemma HexDigitRead(n: nat)
    requires n < 16
    ensures HexValue(HexDigit(n)) == Some(n)
  {}

  lemma {:induction false} StringRead(s: string, rest: string)
    ensures ReadString(WriteTail(s, rest)) == Some((s, rest))
  {
    if s == [] {
      assert (['"'] + rest)[1..] == rest;
    } else {
      EscapeRead(s[0], WriteTail(s[1..], rest));
      StringRead(s[1..], rest);
      assert s == [s[0]] + s[1..];
    }
  }

  lemma {:induction false} NumberRead(number: string, rest: string)
    requires (forall i | 0 <= i < |number| :: IsNumberChar(number[i])) && StartsWithDelimiter(rest)
    ensures ReadNumber(number + rest) == (number, rest)
  {
    if number == [] {
      assert number + rest == rest;
    } else {
      assert (number + rest)[1..] == number[1..] + rest;
      NumberRead(number[1..], rest);
      assert number == [number[0]] + number[1..];
    }
  }

  lemma DropHead(head: string, rest: string)
    ensures head <= head + rest && (head + rest)[|head|..] == rest
  {}

  lemma WordRead(j: Json, rest: string)
    requires j.Null? || j.Bool?
    ensures ReadValue(Write(j, rest)) == Some((j, rest))
  {
    var word := if j.Null? then "null" else if j.b then "true" else "false";
    DropHead(word, rest);
  }

  /** `JSON.stringify` loses nothing: a printed value that a delimiter follows is read back as it was. */
  lemma {:induction false} ValueRead(j: Json, rest: string)
    requires WellFormed(j) && StartsWithDelimiter(rest)
    ensures ReadValue(Write(j, rest)) == Some((j, rest))
    ensures Write(j, rest) != [] && Write(j, rest)[0] !in "]}"
    decreases j, 1
  {
    match j
    case Num(text) => NumberRead(text, rest);
    case Str(s) =>
      DropHead(['"'], WriteTail(s, rest));
      StringRead(s, rest);
    case Arr(items) => ArrayRead(items, rest);
    case Obj(fields) => ObjectRead(fields, rest);
    case _ => WordRead(j, rest);
  }

  lemma {:induction false} ArrayRead(items: seq<Json>, rest: string)
    requires forall i | 0 <= i < |items| :: WellFormed(items[i])
    ensures ReadValue(Write(Arr(items), rest)) == Some((Arr(items), rest))
    decreases items, 1
  {
    DropHead(['['], WriteItems(items, [']'] + rest));
    if items == [] { DropHead([']'], rest); } else { ItemsRead(items, rest); }
  }

  lemma {:induction false} ObjectRead(fields: seq<Field>, rest: string)
    requires forall i | 0 <= i < |fields| :: WellFormed(fields[i].value)
    ensures ReadValue(Write(Obj(fields), rest)) == Some((Obj(fields), rest))
    decreases fields, 1
  {
    DropHead(['{'], WriteFields(fields, ['}'] + rest));
    if fields == [] { DropHead(['}'], rest); } else { FieldsRead(fields, rest); }
  }

  lemma {:induction false} ItemsRead(items: seq<Json>, rest: string)
    requires items != [] && forall i | 0 <= i < |items| :: WellFormed(items[i])
    ensures ReadItems(WriteItems(items, [']'] + rest)) == Some((items, rest))
    ensures WriteItems(items, [']'] + rest) != [] && WriteItems(items, [']'] + rest)[0] !in "]}"
    decreases items, 0
  {
    var end := [']'] + rest;
    DropHead([']'], rest);
    if |items| == 1 {
      ValueRead(items[0], end);
      assert items == [items[0]];
    } else {
      ValueRead(items[0], [','] + WriteItems(items[1..], end));
      ItemsRead(items[1..], rest);
      assert items == [items[0]] + items[1..];
    }
  }

  lemma {:induction false} FieldsRead(fields: seq<Field>, rest: string)
    requires fields != [] && forall i | 0 <= i < |fields| :: WellFormed(fields[i].value)
    ensures ReadFields(WriteFields(fields, ['}'] + rest)) == Some((fields, rest))
    ensures WriteFields(fields, ['}'] + rest) != [] && WriteFields(fields, ['}'] + rest)[0] == '"'
    decreases fields, 0
  {
    var end := ['}'] + rest;
    DropHead(['}'], rest);
    if |fields| == 1 {
      FieldRead(fields[0], end);
      assert fields == [fields[0]];
    } else {
      FieldRead(fields[0], [','] + WriteFields(fields[1..], end));
      FieldsRead(fields[1..], rest);
      assert fields == [fields[0]] + fields[1..];
    }
  }

  lemma {:induction false} FieldRead(field: Field, rest: string)
    requires WellFormed(field.value) && StartsWithDelimiter(rest)
    ensures ReadField(WriteField(field, rest)) == Some((field, rest))
    decreases field, 0
  {
    StringRead(field.key, [':'] + Write(field.value, rest));
    ValueRead(field.value, rest);
  }

  /** Reading a printed value gives exactly the value. */
  lemma PrintReads(j: Json)
    requires WellFormed(j)
    ensures ReadValue(Print(j)) == Some((j, ""))
  {
    ValueRead(j, "");
  }

  /** Two values print the same text exactly when they are the same value. */
  lemma PrintInjective(a: Json, b: Json)
    requires WellFormed(a) && WellFormed(b)
    ensures Print(a) == Print(b) <==> a == b
  {
    PrintReads(a);
    PrintReads(b);
  }
}
