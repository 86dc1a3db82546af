/**
 * SlackHelper: the JSON key/value fragments every payload is built from, and
 * Slack's `<url|label>` link markup.
 *
 * The client escapes exactly two characters in JSON strings, backslash and
 * double quote, in that order. Beside the encoder sits a decoder for the
 * string grammar of section 7 of RFC 8259 (without `\u` escapes), so that
 * the round trip can be stated; it holds exactly for strings without
 * control characters, since those are passed through unescaped.
 */
module SlackHelper {
  import opened Wrappers
  import opened Text

  // ---------------------------------------------------------------------
  // Escaping

  /** What the two `Replace` calls turn one character into. */
  function EscapeChar(c: char): string
  {
    if c == '\\' then "\\\\" else if c == '"' then "\\\"" else [c]
  }

  /** Character-by-character reference definition of the escaping. */
  function EscapeChars(s: string): string
  {
    if s == [] then [] else EscapeChar(s[0]) + EscapeChars(s[1..])
  }

  /**
   * Replacing backslash first and quote second escapes each character on its
   * own: the backslashes the second pass inserts are never doubled.
   */
  lemma {:induction false} EscapeIsCharwise(s: string)
    ensures Escape(s) == EscapeChars(s)
  {
    if s != [] {
      var head, tail := [s[0]], s[1..];
      assert s == head + tail;
      ReplaceCharAppend(head, tail, '\\', "\\\\");
      var once := ReplaceChar(head, '\\', "\\\\");
      ReplaceCharAppend(once, ReplaceChar(tail, '\\', "\\\\"), '"', "\\\"");
      EscapeIsCharwise(tail);
      ReplaceCharSingle(s[0], '\\', "\\\\");
      if s[0] == '"' {
        ReplaceCharSingle(s[0], '"', "\\\"");
      } else {
        ReplaceCharNone(once, '"', "\\\"");
      }
    }
  }

  /** `value.Replace("\\", "\\\\").Replace("\"", "\\\"")`. */
  function Escape(s: string): string
  {
    ReplaceChar(ReplaceChar(s, '\\', "\\\\"), '"', "\\\"")
  }

  /** A string with neither a backslash nor a quote is left as it is. */
  lemma EscapePlain(s: string)
    requires forall i :: 0 <= i < |s| ==> s[i] != '\\' && s[i] != '"'
    ensures Escape(s) == s
  {
    ReplaceCharNone(s, '\\', "\\\\");
    ReplaceCharNone(s, '"', "\\\"");
  }

  /** No character below U+0020, which RFC 8259 does not allow unescaped in a string. */
  predicate ControlFree(s: string)
  {
    forall i :: 0 <= i < |s| ==> s[i] >= ' '
  }

  /** The character a two-character escape sequence `\e` stands for. */
  function Unescape(e: char): Option<char>
  {
    if e == '"' then Some('"')
    else if e == '\\' then Some('\\')
    else if e == '/' then Some('/')
    else if e == 'b' then Some(8 as char)
    else if e == 'f' then Some(12 as char)
    else if e == 'n' then Some('\n')
    else if e == 'r' then Some('\r')
    else if e == 't' then Some('\t')
    else None
  }

  function Prepend(c: char, o: Option<(string, string)>): Option<(string, string)>
  {
    match o
    case None => None
    case Some((d, rest)) => Some(([c] + d, rest))
  }

  /**
   * Reads the body of a JSON string literal (the opening quote already
   * consumed) up to its closing quote: the decoded text and what follows the
   * quote, or None when the text is not a well-formed string.
   */
  function ReadString(s: string): Option<(string, string)>
    decreases |s|
  {
    if s == [] then None
    else if s[0] == '"' then Some(([], s[1..]))
    else if s[0] < ' ' then None
    else if s[0] == '\\' then
      if |s| < 2 then None
      else match Unescape(s[1])
        case None => None
        case Some(c) => Prepend(c, ReadString(s[2..]))
    else Prepend(s[0], ReadString(s[1..]))
  }

  /** Reading one escaped character: the character itself, unless it is a control character. */
  lemma ReadEscapedChar(c: char, t: string)
    ensures ReadString(EscapeChar(c) + t) == if c < ' ' then None else Prepend(c, ReadString(t))
  {
    if c == '\\' {
      assert ("\\\\" + t)[2..] == t;
    } else if c == '"' {
      assert ("\\\"" + t)[2..] == t;
    } else {
      assert ([c] + t)[1..] == t;
    }
  }

  lemma ControlFreeCons(v: string)
    requires v != []
    ensures ControlFree(v) <==> v[0] >= ' ' && ControlFree(v[1..])
  {
    if v[0] >= ' ' && ControlFree(v[1..]) {
      forall i | 0 <= i < |v| ensures v[i] >= ' ' {
        if i > 0 { assert v[i] == v[1..][i - 1]; }
      }
    }
  }

  lemma {:induction false} EscapeCharsRoundTrip(v: string, rest: string)
    ensures ReadString(EscapeChars(v) + "\"" + rest) == if ControlFree(v) then Some((v, rest)) else None
  {
    if v == [] {
      assert EscapeChars(v) + "\"" + rest == "\"" + rest;
    } else {
      var t := EscapeChars(v[1..]) + "\"" + rest;
      EscapeCharsRoundTrip(v[1..], rest);
      assert EscapeChars(v) + "\"" + rest == EscapeChar(v[0]) + t;
      ReadEscapedChar(v[0], t);
      ControlFreeCons(v);
      assert [v[0]] + v[1..] == v;
    }
  }

  /**
   * Escaping round trip: an escaped string followed by a quote reads back as
   * the original and leaves what follows untouched, exactly when the string
   * has no control characters; otherwise a strict reader rejects it.
   */
  lemma EscapeRoundTrip(v: string, rest: string)
    ensures ReadString(Escape(v) + "\"" + rest) == if ControlFree(v) then Some((v, rest)) else None
  {
    EscapeIsCharwise(v);
    EscapeCharsRoundTrip(v, rest);
  }

  // ---------------------------------------------------------------------
  // Rendering the values handed to SimpleJSONValue

  /** The values the client passes as SimpleJSONValue's `object` argument. */
  datatype JsonValue =
    | Raw(text: string)  // a string, inserted as it is (an already quoted string, an array)
    | Int(n: int)        // an Int32 timestamp
    | Bool(b: bool)

  predicate IsDigits(s: string)
  {
    forall i :: 0 <= i < |s| ==> '0' <= s[i] <= '9'
  }

  function DigitChar(d: int): char
    requires 0 <= d < 10
  {
    ('0' as int + d) as char
  }

  /** The decimal digits of `n`, most significant first, with no leading zero. */
  function NatText(n: nat): (r: string)
    ensures r != [] && IsDigits(r)
    ensures r[0] == '0' <==> n == 0
  {
    if n < 10 then [DigitChar(n)] else NatText(n / 10) + [DigitChar(n % 10)]
  }

  /** The number a string of decimal digits denotes. */
  function DigitsValue(s: string): nat
    requires IsDigits(s)
  {
    if s == [] then 0 else DigitsValue(s[..|s| - 1]) * 10 + (s[|s| - 1] as int - '0' as int)
  }

  lemma {:induction false} NatTextValue(n: nat)
    ensures DigitsValue(NatText(n)) == n
  {
    if n >= 10 {
      NatTextValue(n / 10);
      var r := NatText(n);
      assert r[..|r| - 1] == NatText(n / 10);
    }
  }

  /** `int.ToString()`: a minus sign for a negative number, then its decimal digits. */
  function IntText(n: int): string
  {
    if n < 0 then "-" + NatText(-n) else NatText(n)
  }

  /** Reads an optionally negative decimal integer that fills the whole string. */
  function ReadInt(s: string): Option<int>
  {
    if |s| > 1 && s[0] == '-' && IsDigits(s[1..]) then Some(-(DigitsValue(s[1..]) as int))
    else if s != [] && IsDigits(s) then Some(DigitsValue(s))
    else None
  }

  /** The `ts` value reads back as the timestamp it was rendered from. */
  lemma IntTextRoundTrip(n: int)
    ensures ReadInt(IntText(n)) == Some(n)
  {
    if n < 0 {
      NatTextValue(-n);
      assert ("-" + NatText(-n))[1..] == NatText(-n);
    } else {
      NatTextValue(n);
    }
  }

  function LowerChar(c: char): char
  {
    if 'A' <= c <= 'Z' then (c as int + 32) as char else c
  }

  /** `string.ToLower()` on the ASCII letters it is applied to here. */
  function ToLower(s: string): string
  {
    seq(|s|, i requires 0 <= i < |s| => LowerChar(s[i]))
  }

  /** `bool.ToString()`. */
  function BoolText(b: bool): string
  {
    if b then "True" else "False"
  }

  /** `value.ToString()`, lower-cased when the value is a bool. */
  function ValueText(v: JsonValue): string
  {
    match v
    case Raw(t) => t
    case Int(n) => IntText(n)
    case Bool(b) => ToLower(BoolText(b))
  }

  /** A bool renders as the JSON literal `true` or `false`. */
  lemma BoolValueIsJsonLiteral(b: bool)
    ensures ValueText(Bool(b)) == if b then "true" else "false"
  {
    var t := ValueText(Bool(b));
    if b {
      assert t[0] == 't' && t[1] == 'r' && t[2] == 'u' && t[3] == 'e';
    } else {
      assert t[0] == 'f' && t[1] == 'a' && t[2] == 'l' && t[3] == 's' && t[4] == 'e';
    }
  }

  // ---------------------------------------------------------------------
  // SimpleJSONValue and SimpleJSONString

  /** `"name": value` with the name escaped and the value's text inserted as it is. */
  function SimpleJSONValue(name: string, value: JsonValue): string
  {
    "\"" + Escape(name) + "\": " + ValueText(value)
  }

  /** `"name": "value"` with both the name and the value escaped. */
  function SimpleJSONString(name: string, value: string): string
  {
    SimpleJSONValue(name, Raw("\"" + Escape(value) + "\""))
  }

  /** Reads `"key": ` and returns the decoded key and everything after it. */
  function ReadKey(s: string): Option<(string, string)>
  {
    if s == [] || s[0] != '"' then None
    else match ReadString(s[1..])
      case None => None
      case Some((k, after)) =>
        if |after| >= 2 && after[..2] == ": " then Some((k, after[2..])) else None
  }

  /** Reads a whole `"key": "value"` member and returns the decoded key and value. */
  function ReadStringMember(s: string): Option<(string, string)>
  {
    match ReadKey(s)
    case None => None
    case Some((k, after)) =>
      if after == [] || after[0] != '"' then None
      else match ReadString(after[1..])
        case None => None
        case Some((v, tail)) => if tail == [] then Some((k, v)) else None
  }

  /**
   * SimpleJSONValue escapes the key and nothing else: the key reads back and
   * what follows `": "` is the value's text, verbatim.
   */
  lemma SimpleJSONValueReadsBack(name: string, value: JsonValue)
    requires ControlFree(name)
    ensures ReadKey(SimpleJSONValue(name, value)) == Some((name, ValueText(value)))
  {
    var s := SimpleJSONValue(name, value);
    EscapeRoundTrip(name, ": " + ValueText(value));
    assert s[1..] == Escape(name) + "\"" + (": " + ValueText(value));
  }

  /**
   * SimpleJSONString is `"` + esc(name) + `": "` + esc(value) + `"`, and a
   * strict reader recovers both the name and the value exactly, unless the
   * value holds a control character, which makes the member unreadable.
   */
  lemma SimpleJSONStringReadsBack(name: string, value: string)
    requires ControlFree(name)
    ensures SimpleJSONString(name, value) == "\"" + Escape(name) + "\": \"" + Escape(value) + "\""
    ensures ReadStringMember(SimpleJSONString(name, value))
            == if ControlFree(value) then Some((name, value)) else None
  {
    var quoted := "\"" + Escape(value) + "\"";
    SimpleJSONValueReadsBack(name, Raw(quoted));
    EscapeRoundTrip(value, "");
    assert quoted[1..] == Escape(value) + "\"" + "";
  }

  // ---------------------------------------------------------------------
  // Members: the clauses GenerateJSON and PreparePayload append

  /** One `"key": value` clause, as produced by SimpleJSONString or SimpleJSONValue. */
  datatype Member =
    | StringMember(key: string, text: string)
    | ValueMember(key: string, value: JsonValue)

  function Render(m: Member): string
  {
    match m
    case StringMember(k, t) => SimpleJSONString(k, t)
    case ValueMember(k, v) => SimpleJSONValue(k, v)
  }

  function Keys(ms: seq<Member>): (r: seq<string>)
    ensures |r| == |ms| && forall i :: 0 <= i < |ms| ==> r[i] == ms[i].key
  {
    if ms == [] then [] else Keys(ms[..|ms| - 1]) + [ms[|ms| - 1].key]
  }

  /** The JSON object whose members are `ms`, separated by `sep`. */
  function ObjectText(sep: string, ms: seq<Member>): string
  {
    "{" + Join(sep, Map(Render, ms)) + "}"
  }

  /** What a StringBuilder holds after `Append(clause); Append(sep)` for each clause in turn. */
  function Terminated(sep: string, ms: seq<Member>): string
  {
    if ms == [] then "" else Terminated(sep, ms[..|ms| - 1]) + Render(ms[|ms| - 1]) + sep
  }

  lemma TerminatedSingle(sep: string, m: Member)
    ensures Terminated(sep, [m]) == Render(m) + sep
  {
    assert [m][..0] == [];
  }

  lemma TerminatedSnoc(sep: string, ms: seq<Member>, m: Member)
    ensures Terminated(sep, ms + [m]) == Terminated(sep, ms) + Render(m) + sep
  {
    assert (ms + [m])[..|ms|] == ms;
  }

  /** `sb.Append(SimpleJSONString(key, value)); sb.Append(sep);` on a builder holding `done`. */
  method AppendString(sb: string, ghost done: seq<Member>, key: string, value: string, sep: string)
    returns (sb': string, ghost done': seq<Member>)
    requires sb == Terminated(sep, done)
    ensures sb' == Terminated(sep, done + [StringMember(key, value)])
    ensures done' == done + [StringMember(key, value)]
  {
    sb' := sb + SimpleJSONString(key, value) + sep;
    TerminatedSnoc(sep, done, StringMember(key, value));
    done' := done + [StringMember(key, value)];
  }

  /** `sb.Append(SimpleJSONValue(key, value)); sb.Append(sep);` on a builder holding `done`. */
  method AppendValue(sb: string, ghost done: seq<Member>, key: string, value: JsonValue, sep: string)
    returns (sb': string, ghost done': seq<Member>)
    requires sb == Terminated(sep, done)
    ensures sb' == Terminated(sep, done + [ValueMember(key, value)])
    ensures done' == done + [ValueMember(key, value)]
  {
    sb' := sb + SimpleJSONValue(key, value) + sep;
    TerminatedSnoc(sep, done, ValueMember(key, value));
    done' := done + [ValueMember(key, value)];
  }

  /**
   * `sb.Append(SimpleJSONValue(key, value));` with no separator after it: the
   * builder then holds exactly its clauses joined by `sep`.
   */
  method AppendLastValue(sb: string, ghost done: seq<Member>, key: string, value: JsonValue, sep: string)
    returns (sb': string)
    requires done != [] && sb == Terminated(sep, done)
    ensures sb' == Join(sep, Map(Render, done + [ValueMember(key, value)]))
  {
    sb' := sb + SimpleJSONValue(key, value);
    TerminatedIsJoin(sep, done);
    MapSnoc(Render, done, ValueMember(key, value));
    JoinSnoc(sep, Map(Render, done), Render(ValueMember(key, value)));
  }

  /** An object is its clauses but the last each followed by `sep`, then the last clause and the closing brace. */
  lemma ObjectTextSplit(sep: string, ms: seq<Member>)
    requires ms != []
    ensures ObjectText(sep, ms) == "{" + Terminated(sep, ms[..|ms| - 1]) + Render(ms[|ms| - 1]) + "}"
  {
    var n := |ms|;
    var init := ms[..n - 1];
    var rs := Map(Render, ms);
    assert rs[..n - 1] == Map(Render, init);
    if n == 1 {
      assert init == [];
    } else {
      TerminatedIsJoin(sep, init);
      assert Join(sep, rs) == Join(sep, rs[..n - 1]) + sep + rs[n - 1];
    }
  }

  /** The formatting switch renders as a JSON literal: `"mrkdown": true` or `"mrkdown": false`. */
  lemma MarkdownClause(b: bool)
    ensures Render(ValueMember("mrkdown", Bool(b))) == "\"mrkdown\": " + (if b then "true" else "false")
  {
    BoolValueIsJsonLiteral(b);
    EscapePlain("mrkdown");
  }

  /**
   * Every clause followed by a separator is the join plus one trailing
   * separator; so dropping the last separator (GenerateJSON) and not
   * appending it (PreparePayload) give the same text.
   */
  lemma {:induction false} TerminatedIsJoin(sep: string, ms: seq<Member>)
    requires ms != []
    ensures Terminated(sep, ms) == Join(sep, Map(Render, ms)) + sep
  {
    if |ms| > 1 {
      var init := ms[..|ms| - 1];
      TerminatedIsJoin(sep, init);
      assert Map(Render, ms)[..|ms| - 1] == Map(Render, init);
    }
  }

  /** A raw value clause ends with its value. */
  lemma ValueMemberEndsWithValue(k: string, t: string, tail: string)
    requires tail != []
    ensures var r := Render(ValueMember(k, Raw(t + tail))); r != [] && r[|r| - 1] == tail[|tail| - 1]
  {
    var r := Render(ValueMember(k, Raw(t + tail)));
    assert r == ("\"" + Escape(k) + "\": " + t) + tail;
  }

  /** A string clause ends with the quote that closes its value. */
  lemma StringMemberEndsWithQuote(k: string, t: string)
    ensures Render(StringMember(k, t)) != [] && Render(StringMember(k, t))[|Render(StringMember(k, t))| - 1] == '"'
  {
  }

  // ---------------------------------------------------------------------
  // CreateLink

  /** What the three `Replace` calls turn one character into (percent-encoding, section 2.1 of RFC 3986). */
  function EncodeChar(c: char): string
  {
    if c == '<' then "%3C" else if c == '>' then "%3E" else if c == '|' then "%7C" else [c]
  }

  function EncodeChars(s: string): string
  {
    if s == [] then [] else EncodeChar(s[0]) + EncodeChars(s[1..])
  }

  lemma {:induction false} EncodeIsCharwise(s: string)
    ensures Encode(s) == EncodeChars(s)
  {
    if s != [] {
      var head, tail := [s[0]], s[1..];
      assert s == head + tail;
      ReplaceCharAppend(head, tail, '<', "%3C");
      var a, at := ReplaceChar(head, '<', "%3C"), ReplaceChar(tail, '<', "%3C");
      ReplaceCharAppend(a, at, '>', "%3E");
      var b, bt := ReplaceChar(a, '>', "%3E"), ReplaceChar(at, '>', "%3E");
      ReplaceCharAppend(b, bt, '|', "%7C");
      EncodeIsCharwise(tail);
      ReplaceCharSingle(s[0], '<', "%3C");
      if s[0] == '>' {
        ReplaceCharSingle(s[0], '>', "%3E");
      } else {
        ReplaceCharNone(a, '>', "%3E");
      }
      if s[0] == '|' {
        ReplaceCharSingle(s[0], '|', "%7C");
      } else {
        ReplaceCharNone(b, '|', "%7C");
      }
    }
  }

  /** `s.Replace("<", "%3C").Replace(">", "%3E").Replace("|", "%7C")`. */
  function Encode(s: string): string
  {
    ReplaceChar(ReplaceChar(ReplaceChar(s, '<', "%3C"), '>', "%3E"), '|', "%7C")
  }

  /** Holds none of the characters that delimit Slack's link markup. */
  predicate LinkSafe(s: string)
  {
    forall i :: 0 <= i < |s| ==> s[i] != '<' && s[i] != '>' && s[i] != '|'
  }

  lemma LinkSafeCons(c: char, s: string)
    ensures LinkSafe([c] + s) <==> c != '<' && c != '>' && c != '|' && LinkSafe(s)
  {
    if c != '<' && c != '>' && c != '|' && LinkSafe(s) {
      forall i | 0 <= i < |[c] + s| ensures ([c] + s)[i] != '<' && ([c] + s)[i] != '>' && ([c] + s)[i] != '|' {
        if i > 0 { assert ([c] + s)[i] == s[i - 1]; }
      }
    }
    if LinkSafe([c] + s) {
      assert ([c] + s)[0] == c;
      forall i | 0 <= i < |s| ensures s[i] != '<' && s[i] != '>' && s[i] != '|' {
        assert s[i] == ([c] + s)[i + 1];
      }
    }
  }

  /** Encoded text never holds `<`, `>` or `|`. */
  lemma {:induction false} EncodedIsLinkSafe(s: string)
    ensures LinkSafe(EncodeChars(s))
  {
    if s != [] {
      EncodedIsLinkSafe(s[1..]);
      var e, rest := EncodeChar(s[0]), EncodeChars(s[1..]);
      forall i | 0 <= i < |e + rest| ensures (e + rest)[i] != '<' && (e + rest)[i] != '>' && (e + rest)[i] != '|' {
        if i >= |e| { assert (e + rest)[i] == rest[i - |e|]; }
      }
    }
  }

  /** Encoding changes a string exactly when it holds one of `<`, `>`, `|`. */
  lemma {:induction false} EncodeFixesExactlySafe(s: string)
    ensures EncodeChars(s) == s <==> LinkSafe(s)
  {
    EncodedIsLinkSafe(s);
    if s != [] {
      EncodeFixesExactlySafe(s[1..]);
      LinkSafeCons(s[0], s[1..]);
      assert s == [s[0]] + s[1..];
    }
  }

  /** Encoding twice is encoding once: the `%` it introduces is never encoded. */
  lemma EncodeIdempotent(s: string)
    ensures Encode(Encode(s)) == Encode(s)
  {
    EncodeIsCharwise(s);
    EncodeIsCharwise(Encode(s));
    EncodedIsLinkSafe(s);
    EncodeFixesExactlySafe(EncodeChars(s));
  }

  /** `CreateLink(url, name)`: `<url|label>`, the label being the encoded url when no name is given. */
  function CreateLink(url: string, name: string := ""): string
  {
    var encodedUrl := Encode(url);
    var caption := if name == "" then encodedUrl else Encode(name);
    "<" + encodedUrl + "|" + caption + ">"
  }

  /** The index of the first `c` in `s`. */
  function IndexOf(s: string, c: char): (r: Option<nat>)
    ensures r.Some? ==> r.value < |s| && s[r.value] == c
  {
    if s == [] then None
    else if s[0] == c then Some(0)
    else match IndexOf(s[1..], c)
      case None => None
      case Some(i) => Some(i + 1)
  }

  /** Reads Slack's `<url|label>` markup, splitting at the first `|`. */
  function SplitLink(s: string): Option<(string, string)>
  {
    if |s| < 2 || s[0] != '<' || s[|s| - 1] != '>' then None
    else
      var inner := s[1..|s| - 1];
      match IndexOf(inner, '|')
      case None => None
      case Some(i) => Some((inner[..i], inner[i + 1..]))
  }

  lemma {:induction false} IndexOfAfterSafe(a: string, b: string)
    requires LinkSafe(a)
    ensures IndexOf(a + "|" + b, '|') == Some(|a|)
  {
    if a != [] {
      LinkSafeCons(a[0], a[1..]);
      assert a == [a[0]] + a[1..];
      IndexOfAfterSafe(a[1..], b);
      assert (a + "|" + b)[1..] == a[1..] + "|" + b;
    }
  }

  /** Markup around a link-safe url splits back into the url and the label. */
  lemma SplitLinkOf(u: string, caption: string)
    requires LinkSafe(u)
    ensures SplitLink("<" + u + "|" + caption + ">") == Some((u, caption))
  {
    var s := "<" + u + "|" + caption + ">";
    var inner := u + "|" + caption;
    assert s[1..|s| - 1] == inner;
    IndexOfAfterSafe(u, caption);
    assert inner[..|u|] == u;
    assert inner[|u| + 1..] == caption;
  }

  /**
   * The link markup is unambiguous: reading it back yields the encoded url
   * and, as label, the encoded name, or the encoded url itself (encoded once,
   * not twice) when the name is empty. Neither part holds `<`, `>` or `|`.
   */
  lemma CreateLinkReadsBack(url: string, name: string)
    ensures SplitLink(CreateLink(url, name))
            == Some((EncodeChars(url), EncodeChars(if name == "" then url else name)))
    ensures LinkSafe(EncodeChars(url)) && LinkSafe(EncodeChars(name))
  {
    EncodeIsCharwise(url);
    EncodeIsCharwise(name);
    EncodedIsLinkSafe(url);
    EncodedIsLinkSafe(name);
    SplitLinkOf(EncodeChars(url), EncodeChars(if name == "" then url else name));
  }
}
