/** The worker's flat JSON: what the parser accepts, as functions on the text still to be read. */
module JsonText {
  import opened Options

  datatype JsonValue = JsonString(text: string) | JsonNumber(text: string) | JsonBoolean(boolean: bool) | JsonNull

  type JsonObject = map<string, JsonValue>

  datatype Error =
    | Malformed | ControlCharacter | TruncatedEscape | UnsupportedEscape | Unterminated
    | MissingValue | UnsupportedValue | DuplicateField(key: string) | TrailingData

  /** A parsed value and the text after it, or the exception thrown. */
  datatype Parsed<+T> = Ok(value: T, rest: string) | Err(error: Error)

  predicate IsSpace(c: char) {
    c in {' ', '\t', '\n', '\r', '\U{0B}', '\U{0C}'}
  }

  function SkipSpace(s: string): (rest: string)
    ensures |rest| <= |s| && (rest == "" || !IsSpace(rest[0]))
  {
    if s != "" && IsSpace(s[0]) then SkipSpace(s[1..]) else s
  }

  function Unescape(c: char): Option<char> {
    if c in {'"', '\\', '/'} then Some(c)
    else if c == 'b' then Some('\U{08}')
    else if c == 'f' then Some('\U{0C}')
    else if c == 'n' then Some('\n')
    else if c == 'r' then Some('\r')
    else if c == 't' then Some('\t')
    else None
  }

  function Prefixed(c: char, parsed: Parsed<string>): Parsed<string> {
    if parsed.Ok? then parsed.(value := [c] + parsed.value) else parsed
  }

  /** The characters of a string up to its closing quote. */
  function Scan(s: string): (parsed: Parsed<string>)
    ensures parsed.Ok? ==> |parsed.rest| < |s|
    decreases |s|
  {
    if s == "" then Err(Unterminated)
    else if s[0] == '"' then Ok("", s[1..])
    else if s[0] < ' ' then Err(ControlCharacter)
    else if s[0] != '\\' then Prefixed(s[0], Scan(s[1..]))
    else if |s| == 1 then Err(TruncatedEscape)
    else if Unescape(s[1]).None? then Err(UnsupportedEscape)
    else Prefixed(Unescape(s[1]).value, Scan(s[2..]))
  }

  function ParseString(s: string): (parsed: Parsed<string>)
    ensures parsed.Ok? ==> |parsed.rest| < |s|
  {
    if s != "" && s[0] == '"' then Scan(s[1..]) else Err(Malformed)
  }

  /** How many characters precede the next comma or closing brace. */
  function TokenLength(s: string): (n: nat)
    ensures n <= |s|
    ensures n == |s| || s[n] in {',', '}'}
    ensures forall i :: 0 <= i < n ==> s[i] !in {',', '}'}
  {
    if s == "" || s[0] in {',', '}'} then 0 else 1 + TokenLength(s[1..])
  }

  function TrimEnd(s: string): string {
    if s != "" && IsSpace(s[|s| - 1]) then TrimEnd(s[..|s| - 1]) else s
  }

  predicate IsDigits(s: string) {
    s != "" && forall i :: 0 <= i < |s| ==> '0' <= s[i] <= '9'
  }

  function Token(text: string): Option<JsonValue> {
    if text == "true" then Some(JsonBoolean(true))
    else if text == "false" then Some(JsonBoolean(false))
    else if text == "null" then Some(JsonNull)
    else if IsDigits(text) then Some(JsonNumber(text))
    else None
  }

  function ParseValue(s: string): (parsed: Parsed<JsonValue>)
    ensures parsed.Ok? ==> |parsed.rest| <= |s|
  {
    if s == "" then Err(MissingValue)
    else if s[0] == '"' then
      var text := ParseString(s);
      if text.Ok? then Ok(JsonString(text.value), text.rest) else Err(text.error)
    else
      var token := Token(TrimEnd(s[..TokenLength(s)]));
      if token.Some? then Ok(token.value, s[TokenLength(s)..]) else Err(UnsupportedValue)
  }

  predicate StartsWith(s: string, c: char) {
    s != "" && s[0] == c
  }

  /** A key, a colon and a value; the key must be new. */
  function Member(s: string, fields: JsonObject): (parsed: Parsed<JsonObject>)
    ensures parsed.Ok? ==> |parsed.rest| < |s|
  {
    var key := ParseString(SkipSpace(s));
    if key.Err? then Err(key.error)
    else if !StartsWith(SkipSpace(key.rest), ':') then Err(Malformed)
    else
      var value := ParseValue(SkipSpace(SkipSpace(key.rest)[1..]));
      if value.Err? then Err(value.error)
      else if key.value in fields then Err(DuplicateField(key.value))
      else Ok(fields[key.value := value.value], value.rest)
  }

  /** The members up to and including the closing brace. */
  function Members(s: string, fields: JsonObject): Parsed<JsonObject>
    decreases |s|
  {
    var member := Member(s, fields);
    if member.Err? then member
    else
      var after := SkipSpace(member.rest);
      if StartsWith(after, '}') then Ok(member.value, after[1..])
      else if StartsWith(after, ',') then Members(after[1..], member.value)
      else Err(Malformed)
  }

  function AtEnd(parsed: Parsed<JsonObject>): Parsed<JsonObject> {
    if parsed.Err? then parsed
    else if SkipSpace(parsed.rest) != "" then Err(TrailingData)
    else Ok(parsed.value, "")
  }

  function Parse(s: string): Parsed<JsonObject> {
    var open := SkipSpace(s);
    if !StartsWith(open, '{') then Err(Malformed)
    else
      var body := SkipSpace(open[1..]);
      if StartsWith(body, '}') then AtEnd(Ok(map[], body[1..])) else AtEnd(Members(body, map[]))
  }

  // ---- writing ----

  /** Control characters that jsonEscape cannot serialize. */
  predicate Escapable(s: string) {
    forall i :: 0 <= i < |s| ==> s[i] >= ' ' || s[i] in {'\n', '\r', '\t'}
  }

  function EscapedChar(c: char): string {
    if c == '"' then "\\\""
    else if c == '\\' then "\\\\"
    else if c == '\n' then "\\n"
    else if c == '\r' then "\\r"
    else if c == '\t' then "\\t"
    else [c]
  }

  function EscapedBody(s: string): string {
    if s == "" then "" else EscapedChar(s[0]) + EscapedBody(s[1..])
  }

  function Escaped(s: string): string {
    "\"" + EscapedBody(s) + "\""
  }

  datatype Field = Field(key: string, value: JsonValue)

  predicate Writable(field: Field) {
    && Escapable(field.key)
    && (field.value.JsonString? ==> Escapable(field.value.text))
    && (field.value.JsonNumber? ==> IsDigits(field.value.text))
  }

  function ValueText(value: JsonValue): string {
    match value
    case JsonString(text) => Escaped(text)
    case JsonNumber(text) => text
    case JsonBoolean(b) => if b then "true" else "false"
    case JsonNull => "null"
  }

  function FieldText(field: Field): string {
    Escaped(field.key) + ":" + ValueText(field.value)
  }

  function FieldsText(fields: seq<Field>): string
    requires fields != []
  {
    if |fields| == 1 then FieldText(fields[0]) + "}" else FieldText(fields[0]) + "," + FieldsText(fields[1..])
  }

  function ObjectText(fields: seq<Field>): string {
    if fields == [] then "{}" else "{" + FieldsText(fields)
  }

  function WithFields(known: JsonObject, fields: seq<Field>): JsonObject
    decreases |fields|
  {
    if fields == [] then known else WithFields(known[fields[0].key := fields[0].value], fields[1..])
  }

  predicate DistinctKeys(fields: seq<Field>) {
    forall i, j :: 0 <= i < j < |fields| ==> fields[i].key != fields[j].key
  }

  lemma {:induction false} ScanEscaped(s: string, rest: string)
    requires Escapable(s)
    ensures Scan(EscapedBody(s) + "\"" + rest) == Ok(s, rest)
  {
    var tail := "\"" + rest;
    if s == "" {
      assert EscapedBody(s) + "\"" + rest == tail;
    } else {
      ScanEscaped(s[1..], rest);
      var more := EscapedBody(s[1..]) + "\"" + rest;
      assert EscapedBody(s) + "\"" + rest == EscapedChar(s[0]) + more;
      ScanChar(s[0], more);
      assert [s[0]] + s[1..] == s;
    }
  }

  lemma ScanChar(c: char, more: string)
    requires c >= ' ' || c in {'\n', '\r', '\t'}
    ensures Scan(EscapedChar(c) + more) == Prefixed(c, Scan(more))
  {
    var text := EscapedChar(c) + more;
    if |EscapedChar(c)| == 1 {
      assert text[1..] == more;
    } else {
      assert text[2..] == more;
    }
  }

  lemma StringReadsBack(s: string, rest: string)
    requires Escapable(s)
    ensures ParseString(Escaped(s) + rest) == Ok(s, rest)
    ensures StartsWith(Escaped(s) + rest, '"')
  {
    assert (Escaped(s) + rest)[1..] == EscapedBody(s) + "\"" + rest;
    ScanEscaped(s, rest);
  }

  lemma {:induction false} TokenOfPrefix(token: string, rest: string)
    requires forall i :: 0 <= i < |token| ==> token[i] !in {',', '}'}
    requires rest != "" && rest[0] in {',', '}'}
    ensures TokenLength(token + rest) == |token|
  {
    if token == "" {
      assert token + rest == rest;
    } else {
      assert (token + rest)[1..] == token[1..] + rest;
      TokenOfPrefix(token[1..], rest);
    }
  }

  lemma ValueReadsBack(value: JsonValue, rest: string)
    requires Writable(Field("", value)) && rest != "" && rest[0] in {',', '}'}
    ensures ParseValue(ValueText(value) + rest) == Ok(value, rest)
    ensures ValueText(value) != "" && !IsSpace((ValueText(value) + rest)[0])
  {
    hide Escaped, ParseString, TokenLength, TrimEnd;
    if value.JsonString? {
      StringReadsBack(value.text, rest);
    } else {
      TokenReadsBack(value, rest);
    }
  }

  lemma TokenReadsBack(value: JsonValue, rest: string)
    requires !value.JsonString? && Writable(Field("", value)) && rest != "" && rest[0] in {',', '}'}
    ensures ParseValue(ValueText(value) + rest) == Ok(value, rest)
    ensures ValueText(value) != "" && !IsSpace((ValueText(value) + rest)[0])
  {
    hide Escaped, ParseString, TokenLength, TrimEnd;
    var text := ValueText(value);
    PlainToken(value);
    TokenOfPrefix(text, rest);
    assert (text + rest)[..|text|] == text && (text + rest)[|text|..] == rest;
    Untrimmed(text);
  }

  /** Numbers, booleans and null are written without white space, quotes or delimiters. */
  lemma PlainToken(value: JsonValue)
    requires !value.JsonString? && Writable(Field("", value))
    ensures var text := ValueText(value);
      && text != "" && text[0] != '"' && Token(text) == Some(value)
      && forall i :: 0 <= i < |text| ==> text[i] !in {',', '}'} && !IsSpace(text[i])
  {
  }

  lemma Untrimmed(text: string)
    requires text != "" && !IsSpace(text[|text| - 1])
    ensures TrimEnd(text) == text
  {
  }

  lemma NoSpace(s: string)
    requires s == "" || !IsSpace(s[0])
    ensures SkipSpace(s) == s
  {
  }

  lemma MemberReadsBack(field: Field, rest: string, known: JsonObject)
    requires Writable(field) && field.key !in known && rest != "" && rest[0] in {',', '}'}
    ensures Member(FieldText(field) + rest, known) == Ok(known[field.key := field.value], rest)
  {
    hide Scan, ParseString, ParseValue, SkipSpace, Escaped, ValueText;
    var afterKey := ":" + ValueText(field.value) + rest;
    assert FieldText(field) + rest == Escaped(field.key) + afterKey;
    StringReadsBack(field.key, afterKey);
    NoSpace(Escaped(field.key) + afterKey);
    NoSpace(afterKey);
    assert afterKey[1..] == ValueText(field.value) + rest;
    ValueReadsBack(field.value, rest);
    NoSpace(ValueText(field.value) + rest);
  }

  lemma {:induction false} MembersReadBack(fields: seq<Field>, known: JsonObject)
    requires fields != [] && DistinctKeys(fields)
    requires forall i :: 0 <= i < |fields| ==> Writable(fields[i]) && fields[i].key !in known
    ensures Members(FieldsText(fields), known) == Ok(WithFields(known, fields), "")
    decreases |fields|
  {
    hide Member, FieldText, SkipSpace, Writable;
    var field := fields[0];
    var rest := if |fields| == 1 then "}" else "," + FieldsText(fields[1..]);
    assert FieldsText(fields) == FieldText(field) + rest;
    MemberReadsBack(field, rest, known);
    NoSpace(rest);
    if |fields| == 1 {
      assert fields[1..] == [];
      assert rest[1..] == "";
    } else {
      assert rest[1..] == FieldsText(fields[1..]);
      MembersReadBack(fields[1..], known[field.key := field.value]);
    }
  }

  /** Main result: the text of a flat object with distinct keys parses back to that object. */
  lemma ObjectReadsBack(fields: seq<Field>)
    requires DistinctKeys(fields) && forall i :: 0 <= i < |fields| ==> Writable(fields[i])
    ensures Parse(ObjectText(fields)) == Ok(WithFields(map[], fields), "")
  {
    hide Members, Writable, SkipSpace, FieldText, FieldsText, WithFields, DistinctKeys;
    var text := ObjectText(fields);
    NoSpace(text);
    NoSpace("");
    if fields == [] {
      EmptyObject();
    } else {
      assert text[1..] == FieldsText(fields);
      FieldsStart(fields);
      NoSpace(FieldsText(fields));
      MembersReadBack(fields, map[]);
    }
  }

  lemma EmptyObject()
    ensures Parse("{}") == Ok(map[], "") && WithFields(map[], []) == map[]
  {
    hide Members;
    NoSpace("{}");
    NoSpace("}");
    NoSpace("");
  }

  lemma FieldsStart(fields: seq<Field>)
    requires fields != []
    ensures StartsWith(FieldsText(fields), '"') && !StartsWith(FieldsText(fields), '}') && !IsSpace(FieldsText(fields)[0])
  {
    assert FieldText(fields[0])[0] == '"';
  }

  /** What ends up under a key is what was written there. */
  lemma {:induction false} WithFieldsLookup(known: JsonObject, fields: seq<Field>, i: nat)
    requires DistinctKeys(fields) && i < |fields|
    ensures fields[i].key in WithFields(known, fields) && WithFields(known, fields)[fields[i].key] == fields[i].value
    decreases |fields|
  {
    if i > 0 {
      WithFieldsLookup(known[fields[0].key := fields[0].value], fields[1..], i - 1);
    } else {
      Untouched(known[fields[0].key := fields[0].value], fields[1..], fields[0].key);
    }
  }

  lemma {:induction false} Untouched(known: JsonObject, fields: seq<Field>, key: string)
    requires key in known && forall i :: 0 <= i < |fields| ==> fields[i].key != key
    ensures key in WithFields(known, fields) && WithFields(known, fields)[key] == known[key]
    decreases |fields|
  {
    if fields != [] {
      Untouched(known[fields[0].key := fields[0].value], fields[1..], key);
    }
  }

  // ---- unsigned integers ----

  const UINT64_MAX: nat := 0xffff_ffff_ffff_ffff

  function DecimalValue(s: string): nat
    requires forall i :: 0 <= i < |s| ==> '0' <= s[i] <= '9'
  {
    if s == "" then 0 else DecimalValue(s[..|s| - 1]) * 10 + (s[|s| - 1] as int - '0' as int)
  }

  /** parseUint64: a number or a string holding nothing but digits, within range. */
  function ParseUint64(value: JsonValue): Option<nat> {
    if (value.JsonNumber? || value.JsonString?) && IsDigits(value.text) && DecimalValue(value.text) <= UINT64_MAX
    then Some(DecimalValue(value.text)) else None
  }

  /** decimal: std::to_string. */
  function Decimal(n: nat): (s: string)
    ensures IsDigits(s)
  {
    if n < 10 then [('0' as int + n) as char] else Decimal(n / 10) + [('0' as int + n % 10) as char]
  }

  lemma {:induction false} DecimalReadsBack(n: nat)
    ensures DecimalValue(Decimal(n)) == n
  {
    if n < 10 {
      assert Decimal(n)[..0] == "";
    } else {
      DecimalReadsBack(n / 10);
      assert Decimal(n)[..|Decimal(n)| - 1] == Decimal(n / 10);
    }
  }

  lemma Uint64RoundTrip(n: nat)
    ensures ParseUint64(JsonString(Decimal(n))) == (if n <= UINT64_MAX then Some(n) else None)
    ensures ParseUint64(JsonNumber(Decimal(n))) == (if n <= UINT64_MAX then Some(n) else None)
  {
    DecimalReadsBack(n);
  }
}
