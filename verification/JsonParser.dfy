/** The parser object that advances an offset through its input, and the escaping loop. */
module JsonParser {
  import opened Options
  import opened JsonText

  /** A returned value or a thrown exception. */
  datatype Result<+T> = Success(value: T) | Failure(error: Error)

  /** The result says what `parsed` says, with `rest` still to be read. */
  predicate Agrees<T(==)>(result: Result<T>, rest: string, parsed: Parsed<T>) {
    match result
    case Success(value) => parsed == Ok(value, rest)
    case Failure(error) => parsed == Err(error)
  }

  function PrefixedBy(text: string, parsed: Parsed<string>): Parsed<string> {
    if parsed.Ok? then parsed.(value := text + parsed.value) else parsed
  }

  lemma PrefixGrows(text: string, c: char, parsed: Parsed<string>)
    ensures PrefixedBy(text, Prefixed(c, parsed)) == PrefixedBy(text + [c], parsed)
    ensures PrefixedBy("", parsed) == parsed
  {
    if parsed.Ok? {
      assert text + ([c] + parsed.value) == text + [c] + parsed.value;
      assert "" + parsed.value == parsed.value;
    }
  }

  lemma TokenStep(s: string)
    requires s != "" && s[0] !in {',', '}'}
    ensures TokenLength(s) == 1 + TokenLength(s[1..])
  {
  }

  lemma TokenStop(s: string)
    requires s == "" || s[0] in {',', '}'}
    ensures TokenLength(s) == 0
  {
  }

  lemma TrimStep(s: string)
    requires s != "" && IsSpace(s[|s| - 1])
    ensures TrimEnd(s) == TrimEnd(s[..|s| - 1])
  {
  }

  lemma TrimStop(s: string)
    requires s == "" || !IsSpace(s[|s| - 1])
    ensures TrimEnd(s) == s
  {
  }

  class Parser {
    const input: string
    var offset: nat

    ghost predicate Valid()
      reads this
    {
      offset <= |input|
    }

    ghost function Rest(): string
      reads this
      requires Valid()
    {
      input[offset..]
    }

    constructor (text: string)
      ensures Valid() && input == text && Rest() == text
    {
      input, offset := text, 0;
    }

    method SkipWhitespace()
      requires Valid()
      modifies this
      ensures Valid() && Rest() == SkipSpace(old(Rest()))
    {
      while offset < |input| && IsSpace(input[offset])
        invariant Valid() && SkipSpace(Rest()) == SkipSpace(old(Rest()))
      {
        assert input[offset..][1..] == input[offset + 1..];
        offset := offset + 1;
      }
    }

    method Consume(expected: char) returns (consumed: bool)
      requires Valid()
      modifies this
      ensures Valid() && consumed == StartsWith(old(Rest()), expected)
      ensures Rest() == if consumed then old(Rest())[1..] else old(Rest())
    {
      if offset < |input| && input[offset] == expected {
        offset := offset + 1;
        return true;
      }
      return false;
    }

    method ParseText() returns (result: Result<string>)
      requires Valid()
      modifies this
      ensures Valid() && Agrees(result, Rest(), ParseString(old(Rest())))
    {
      var quoted := Consume('"');
      if !quoted {
        return Failure(Malformed);
      }
      ghost var whole := Rest();
      var text := "";
      PrefixGrows("", 'x', Scan(whole));
      while offset < |input|
        invariant Valid() && PrefixedBy(text, Scan(Rest())) == Scan(whole)
      {
        ghost var rest := Rest();
        var value := input[offset];
        offset := offset + 1;
        assert rest[1..] == Rest();
        if value == '"' {
          assert text + "" == text;
          return Success(text);
        }
        if value < ' ' {
          return Failure(ControlCharacter);
        }
        if value != '\\' {
          PrefixGrows(text, value, Scan(Rest()));
          text := text + [value];
          continue;
        }
        if offset == |input| {
          return Failure(TruncatedEscape);
        }
        var escaped := input[offset];
        offset := offset + 1;
        assert rest[2..] == Rest() && rest[1] == escaped;
        var plain := Unescape(escaped);
        if plain.None? {
          return Failure(UnsupportedEscape);
        }
        PrefixGrows(text, plain.value, Scan(Rest()));
        text := text + [plain.value];
      }
      assert Rest() == "";
      return Failure(Unterminated);
    }

    method ParseOne() returns (result: Result<JsonValue>)
      requires Valid()
      modifies this
      ensures Valid() && Agrees(result, Rest(), ParseValue(old(Rest())))
    {
      hide TokenLength, TrimEnd, Token, ParseString;
      if offset == |input| {
        return Failure(MissingValue);
      }
      if input[offset] == '"' {
        var text := ParseText();
        if text.Failure? {
          return Failure(text.error);
        }
        return Success(JsonString(text.value));
      }
      var text := ReadToken();
      var token := Token(text);
      if token.None? {
        return Failure(UnsupportedValue);
      }
      return Success(token.value);
    }

    /** Everything up to the next comma or brace, without trailing white space. */
    method ReadToken() returns (text: string)
      requires Valid()
      modifies this
      ensures Valid() && TokenLength(old(Rest())) <= |old(Rest())|
      ensures Rest() == old(Rest())[TokenLength(old(Rest()))..]
      ensures text == TrimEnd(old(Rest())[..TokenLength(old(Rest()))])
    {
      hide TokenLength, TrimEnd;
      ghost var whole := Rest();
      var start := offset;
      while offset < |input| && input[offset] != ',' && input[offset] != '}'
        invariant start <= offset && Valid()
        invariant TokenLength(whole) == offset - start + TokenLength(Rest())
      {
        TokenStep(Rest());
        assert input[offset..][1..] == input[offset + 1..];
        offset := offset + 1;
      }
      TokenStop(Rest());
      var end := offset;
      ghost var token := input[start..end];
      assert token == whole[..TokenLength(whole)] && Rest() == whole[TokenLength(whole)..];
      while end > start && IsSpace(input[end - 1])
        invariant Valid() && start <= end <= |input|
        invariant TrimEnd(input[start..end]) == TrimEnd(token)
        invariant Rest() == whole[TokenLength(whole)..]
      {
        TrimStep(input[start..end]);
        assert input[start..end][..|input[start..end]| - 1] == input[start..end - 1];
        end := end - 1;
      }
      TrimStop(input[start..end]);
      return input[start..end];
    }

    /** One pass of the loop up to the comma or brace after the member. */
    method ParseMember(fields: JsonObject) returns (result: Result<JsonObject>)
      requires Valid()
      modifies this
      ensures Valid() && Agrees(result, Rest(), Member(old(Rest()), fields))
    {
      SkipWhitespace();
      var key := ParseText();
      if key.Failure? {
        return Failure(key.error);
      }
      SkipWhitespace();
      var colon := Consume(':');
      if !colon {
        return Failure(Malformed);
      }
      SkipWhitespace();
      var value := ParseOne();
      if value.Failure? {
        return Failure(value.error);
      }
      if key.value in fields {
        return Failure(DuplicateField(key.value));
      }
      return Success(fields[key.value := value.value]);
    }

    method EnsureEnd(fields: JsonObject) returns (result: Result<JsonObject>)
      requires Valid()
      modifies this
      ensures Valid() && Agrees(result, "", AtEnd(Ok(fields, old(Rest()))))
    {
      SkipWhitespace();
      if offset != |input| {
        return Failure(TrailingData);
      }
      return Success(fields);
    }

    method ParseObject() returns (result: Result<JsonObject>)
      requires Valid()
      modifies this
      ensures Valid() && Agrees(result, "", Parse(old(Rest())))
    {
      SkipWhitespace();
      var open := Consume('{');
      if !open {
        return Failure(Malformed);
      }
      SkipWhitespace();
      var empty := Consume('}');
      if empty {
        result := EnsureEnd(map[]);
        return;
      }
      ghost var body := Rest();
      var fields: JsonObject := map[];
      while true
        invariant Valid() && Members(Rest(), fields) == Members(body, map[])
        decreases |input| - offset
      {
        ghost var before := Rest();
        var member := ParseMember(fields);
        if member.Failure? {
          return Failure(member.error);
        }
        fields := member.value;
        SkipWhitespace();
        var closed := Consume('}');
        if closed {
          break;
        }
        var comma := Consume(',');
        if !comma {
          return Failure(Malformed);
        }
      }
      result := EnsureEnd(fields);
    }
  }

  /** parseFlatJsonObject. */
  method ParseFlatJsonObject(input: string) returns (result: Result<JsonObject>)
    ensures Agrees(result, "", Parse(input))
  {
    var parser := new Parser(input);
    result := parser.ParseObject();
  }

  /** jsonEscape; None where it throws. */
  method JsonEscape(value: string) returns (escaped: Option<string>)
    ensures escaped.Some? <==> Escapable(value)
    ensures escaped.Some? ==> escaped.value == Escaped(value)
  {
    var result := "\"";
    for i := 0 to |value|
      invariant Escapable(value[..i])
      invariant result + EscapedBody(value[i..]) == "\"" + EscapedBody(value)
    {
      var c := value[i];
      if c < ' ' && c !in {'\n', '\r', '\t'} {
        return None;
      }
      BodyStep(result, value, i);
      result := result + EscapedChar(c);
    }
    assert value[..|value|] == value && value[|value|..] == "";
    return Some(result + "\"");
  }

  lemma BodyStep(result: string, value: string, i: nat)
    requires i < |value|
    ensures result + EscapedChar(value[i]) + EscapedBody(value[i + 1..]) == result + EscapedBody(value[i..])
  {
    assert value[i..][1..] == value[i + 1..];
    assert result + EscapedChar(value[i]) + EscapedBody(value[i + 1..]) == result + (EscapedChar(value[i]) + EscapedBody(value[i + 1..]));
  }
}
