/** Key search and value extraction over configuration text, as the hand-written parser does them. The
    functions work on suffixes of the text; the methods move positions through it. */
module ConfigText {
  import opened Words

  predicate IsSpace(c: char) {
    c == ' ' || '\t' <= c <= '\r'
  }

  predicate IsDigit(c: char) {
    '0' <= c <= '9'
  }

  /** The text from the first occurrence of a pattern on, or nothing. */
  function Seek(s: string, pattern: string): (r: string)
    requires pattern != []
    ensures |r| <= |s|
  {
    if |s| < |pattern| then []
    else if pattern <= s then s
    else Seek(s[1..], pattern)
  }

  function SkipSpace(s: string): (r: string)
    ensures |r| <= |s|
  {
    if s != [] && IsSpace(s[0]) then SkipSpace(s[1..]) else s
  }

  /** The closing quote: the first one from `i` on that no backslash precedes. */
  function QuoteEnd(s: string, i: nat): (r: Option<nat>)
    requires 1 <= i
    ensures r.Some? ==> i <= r.value < |s|
    decreases |s| - i
  {
    if i >= |s| then None
    else if s[i] == '"' && s[i - 1] != '\\' then Some(i)
    else QuoteEnd(s, i + 1)
  }

  /** The bracket that closes the one at position 0, counting only brackets of its kind. */
  function CloseAt(s: string, open: char, close: char, i: nat, depth: nat): (r: Option<nat>)
    ensures r.Some? ==> i <= r.value < |s|
    decreases |s| - i
  {
    if i >= |s| then None
    else if s[i] == open then CloseAt(s, open, close, i + 1, depth + 1)
    else if s[i] == close then if depth <= 1 then Some(i) else CloseAt(s, open, close, i + 1, depth - 1)
    else CloseAt(s, open, close, i + 1, depth)
  }

  /** A bare value runs to the next comma or closing bracket. */
  function Scalar(s: string): (r: string)
    ensures |r| <= |s|
  {
    if s == [] || s[0] in {',', '}', ']'} then [] else [s[0]] + Scalar(s[1..])
  }

  /** The value text at the front of a suffix. */
  function ValueText(s: string): string {
    if s == [] then []
    else if s[0] == '"' then
      match QuoteEnd(s, 1) case None => [] case Some(i) => s[..i + 1]
    else if s[0] == '{' || s[0] == '[' then
      match CloseAt(s, s[0], if s[0] == '{' then '}' else ']', 1, 1) case None => [] case Some(i) => s[..i + 1]
    else Scalar(s)
  }

  function KeyPattern(key: string): (p: string)
    ensures |p| == |key| + 2
  {
    "\"" + key + "\""
  }

  /** The raw value of a key: what follows the first colon after the key's first occurrence anywhere. */
  function RawValue(s: string, key: string): string {
    var k := Seek(s, KeyPattern(key));
    var c := Seek(k, ":");
    if c == [] then [] else ValueText(SkipSpace(c[1..]))
  }

  /** Top-level objects of an array's text; an object that never closes ends the list. */
  function Objects(s: string): seq<string>
    decreases |s|
  {
    var t := Seek(s, "{");
    if t == [] then []
    else match CloseAt(t, '{', '}', 1, 1)
      case None => []
      case Some(i) => [t[..i + 1]] + Objects(t[i + 1..])
  }

  // ---------------------------------------------------------------- the methods

  /** `std::string::find`. */
  method Find(s: string, pattern: string, from: nat) returns (r: Option<nat>)
    requires pattern != [] && from <= |s|
    ensures r.None? ==> Seek(s[from..], pattern) == []
    ensures r.Some? ==> from <= r.value < |s| && s[r.value..] == Seek(s[from..], pattern) && pattern <= s[r.value..]
  {
    var i := from;
    while i + |pattern| <= |s|
      invariant from <= i <= |s|
      invariant Seek(s[i..], pattern) == Seek(s[from..], pattern)
    {
      if s[i..i + |pattern|] == pattern {
        assert s[i..][..|pattern|] == pattern;
        return Some(i);
      }
      assert s[i..][..|pattern|] == s[i..i + |pattern|];
      assert s[i..][1..] == s[i + 1..];
      i := i + 1;
    }
    r := None;
  }

  method FindRawValue(json: string, key: string) returns (raw: string)
    ensures raw == RawValue(json, key)
  {
    assert json[0..] == json;
    var k := Find(json, KeyPattern(key), 0);
    if k.None? {
      assert Seek([], ":") == [];
      return [];
    }
    var c := Find(json, ":", k.value);
    if c.None? {
      return [];
    }
    var pos := c.value + 1;
    assert json[c.value..][1..] == json[pos..];
    while pos < |json| && IsSpace(json[pos])
      invariant c.value < pos <= |json|
      invariant SkipSpace(json[pos..]) == SkipSpace(json[c.value + 1..])
    {
      assert json[pos..][1..] == json[pos + 1..];
      pos := pos + 1;
    }
    if pos >= |json| {
      return [];
    }
    if json[pos] == '"' {
      raw := QuotedText(json, pos);
    } else if json[pos] == '{' || json[pos] == '[' {
      raw := BracketedText(json, pos);
    } else {
      raw := ScalarText(json, pos);
    }
  }

  method QuotedText(json: string, pos: nat) returns (raw: string)
    requires pos < |json| && json[pos] == '"'
    ensures raw == ValueText(json[pos..])
  {
    ghost var s := json[pos..];
    var end := Find(json, "\"", pos + 1);
    NextQuote(json, pos, pos + 1, end);
    while end.Some? && json[end.value - 1] == '\\'
      invariant end.Some? ==> pos < end.value < |json| && json[end.value] == '"'
      invariant QuoteEnd(s, 1) == if end.None? then None else QuoteEnd(s, end.value - pos)
      decreases if end.None? then 0 else |json| - end.value
    {
      var at := end.value;
      end := Find(json, "\"", at + 1);
      NextQuote(json, pos, at + 1, end);
    }
    if end.None? {
      return [];
    }
    raw := json[pos..end.value + 1];
    assert raw == s[..end.value - pos + 1];
  }

  /** Finding the next quote skips nothing that could end the string. */
  lemma {:induction false} NextQuote(json: string, pos: nat, from: nat, end: Option<nat>)
    requires pos < from <= |json|
    requires end.None? ==> Seek(json[from..], "\"") == []
    requires end.Some? ==> from <= end.value < |json| && json[end.value..] == Seek(json[from..], "\"")
                           && "\"" <= json[end.value..]
    ensures end.Some? ==> json[end.value] == '"'
    ensures QuoteEnd(json[pos..], from - pos) == if end.None? then None else QuoteEnd(json[pos..], end.value - pos)
    decreases |json| - from
  {
    if end.Some? {
      assert json[end.value..][0] == json[end.value];
    }
    if from < |json| {
      assert json[from..][0] == json[from] == json[pos..][from - pos] && json[from..][1..] == json[from + 1..];
      if json[from] != '"' {
        NextQuote(json, pos, from + 1, end);
      } else {
        assert "\"" <= json[from..];
      }
    }
  }

  /** The bracket loop of both callers: the position of the bracket that closes the one at `pos`. */
  method MatchBracket(text: string, pos: nat, open: char, close: char) returns (end: Option<nat>)
    requires pos < |text|
    ensures CloseAt(text[pos..], open, close, 1, 1) == if end.None? then None else Some(end.value - pos)
    ensures end.Some? ==> pos < end.value < |text|
  {
    ghost var s := text[pos..];
    var depth, i := 1, pos + 1;
    while i < |text|
      invariant pos < i <= |text| && depth >= 1
      invariant CloseAt(s, open, close, i - pos, depth) == CloseAt(s, open, close, 1, 1)
    {
      assert s[i - pos] == text[i];
      if text[i] == open {
        depth := depth + 1;
      } else if text[i] == close {
        if depth == 1 {
          return Some(i);
        }
        depth := depth - 1;
      }
      i := i + 1;
    }
    end := None;
  }

  method BracketedText(json: string, pos: nat) returns (raw: string)
    requires pos < |json| && (json[pos] == '{' || json[pos] == '[')
    ensures raw == ValueText(json[pos..])
  {
    var end := MatchBracket(json, pos, json[pos], if json[pos] == '{' then '}' else ']');
    if end.None? {
      return [];
    }
    raw := json[pos..end.value + 1];
    assert raw == json[pos..][..end.value - pos + 1];
  }

  /** The plain value at `pos` runs on at `end`. */
  ghost predicate ScalarSoFar(json: string, pos: nat, end: nat)
    requires pos <= end <= |json|
  {
    Scalar(json[pos..]) == json[pos..end] + Scalar(json[end..])
  }

  lemma ScalarRunsOn(json: string, pos: nat, end: nat)
    requires pos <= end < |json| && json[end] !in {',', '}', ']'} && ScalarSoFar(json, pos, end)
    ensures ScalarSoFar(json, pos, end + 1)
  {
    assert json[end..][1..] == json[end + 1..];
    assert json[pos..end + 1] == json[pos..end] + [json[end]];
  }

  method ScalarText(json: string, pos: nat) returns (raw: string)
    requires pos < |json| && json[pos] !in {'"', '{', '['}
    ensures raw == ValueText(json[pos..])
  {
    var end := pos;
    while end < |json| && json[end] != ',' && json[end] != '}' && json[end] != ']'
      invariant pos <= end <= |json| && ScalarSoFar(json, pos, end)
    {
      ScalarRunsOn(json, pos, end);
      end := end + 1;
    }
    raw := json[pos..end];
  }

  /** `done` holds the objects that end before position `pos`. */
  ghost predicate SplitSoFar(text: string, pos: nat, done: seq<string>)
    requires pos <= |text|
  {
    done + Objects(text[pos..]) == Objects(text)
  }

  lemma ObjectsStep(text: string, pos: nat, start: nat, end: nat, done: seq<string>)
    requires pos <= start < end < |text| && text[start..] == Seek(text[pos..], "{")
    requires CloseAt(text[start..], '{', '}', 1, 1) == Some(end - start) && SplitSoFar(text, pos, done)
    ensures SplitSoFar(text, end + 1, done + [text[start..end + 1]])
  {
    var s := text[start..];
    assert text[start..end + 1] == s[..end - start + 1];
    assert text[end + 1..] == s[end - start + 1..];
    assert Objects(text[pos..]) == [text[start..end + 1]] + Objects(text[end + 1..]);
    assert done + [text[start..end + 1]] + Objects(text[end + 1..]) == done + Objects(text[pos..]);
  }

  method SplitObjects(text: string) returns (result: seq<string>)
    ensures result == Objects(text)
  {
    result := [];
    var pos := 0;
    assert text[0..] == text;
    while true
      invariant pos <= |text|
      invariant SplitSoFar(text, pos, result)
      decreases |text| - pos
    {
      var start := Find(text, "{", pos);
      if start.None? {
        break;
      }
      var end := MatchBracket(text, start.value, '{', '}');
      if end.None? {
        break;
      }
      ObjectsStep(text, pos, start.value, end.value, result);
      result := result + [text[start.value..end.value + 1]];
      pos := end.value + 1;
    }
  }
}
