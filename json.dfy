/**
 * `JSON.stringify` of the flat, string-valued objects that `logAudit`
 * receives as `meta` (`{ issuer: "user" }`, `{ reason: "merchant_issued" }`,
 * ...), with the string quoting of ECMAScript's QuoteJSONString, and a reader
 * that takes such text back apart.
 */
module Json {
  import opened Common
  import Hex

  /** A JavaScript object literal with string values, in insertion order. */
  type Meta = seq<(string, string)>

  /** One code point as QuoteJSONString writes it. */
  function EscapeChar(c: char): string {
    if c == '\U{0008}' then "\\b"
    else if c == '\t' then "\\t"
    else if c == '\n' then "\\n"
    else if c == '\U{000C}' then "\\f"
    else if c == '\r' then "\\r"
    else if c == '"' then "\\\""
    else if c == '\\' then "\\\\"
    else if c < ' ' then "\\u00" + [Hex.Digit(c as int / 16), Hex.Digit(c as int % 16)]
    else [c]
  }

  function Escape(s: string): string {
    if s == [] then [] else EscapeChar(s[0]) + Escape(s[1..])
  }

  function Quote(s: string): string {
    "\"" + Escape(s) + "\""
  }

  function Members(m: Meta): string {
    if m == [] then []
    else Quote(m[0].0) + ":" + Quote(m[0].1) + (if |m| == 1 then [] else "," + Members(m[1..]))
  }

  /** `JSON.stringify(meta)` */
  function Serialize(m: Meta): string {
    "{" + Members(m) + "}"
  }

  /** The character a one-letter escape after `\` stands for. */
  function Unescape1(c: char): Option<char> {
    if c == 'b' then Some('\U{0008}')
    else if c == 't' then Some('\t')
    else if c == 'n' then Some('\n')
    else if c == 'f' then Some('\U{000C}')
    else if c == 'r' then Some('\r')
    else if c == '"' then Some('"')
    else if c == '\\' then Some('\\')
    else None
  }

  /**
   * Reads the body of a JSON string up to and including its closing quote,
   * returning the decoded text and what follows the quote.
   */
  function ReadString(s: string): Option<(string, string)>
    decreases |s|
  {
    if s == [] then None
    else if s[0] == '"' then Some(([], s[1..]))
    else if s[0] == '\\' then
      if |s| >= 2 && Unescape1(s[1]).Some? then
        Prepend(Unescape1(s[1]).value, ReadString(s[2..]))
      else if |s| >= 6 && s[1..4] == "u00" && Hex.IsLowerHex(s[4]) && Hex.IsLowerHex(s[5]) then
        Prepend((Hex.DigitValue(s[4]) * 16 + Hex.DigitValue(s[5])) as char, ReadString(s[6..]))
      else None
    else if s[0] < ' ' then None
    else Prepend(s[0], ReadString(s[1..]))
  }

  function Prepend(c: char, r: Option<(string, string)>): Option<(string, string)> {
    match r
    case None => None
    case Some((t, rest)) => Some(([c] + t, rest))
  }

  lemma EscapeCharRead(c: char, tail: string)
    ensures ReadString(EscapeChar(c) + tail) == Prepend(c, ReadString(tail))
  {
    var e := EscapeChar(c);
    if c < ' ' && c != '\U{0008}' && c != '\t' && c != '\n' && c != '\U{000C}' && c != '\r' {
      var s := e + tail;
      assert s[0] == '\\' && s[1..4] == "u00";
      assert s[6..] == tail;
      var hi, lo := c as int / 16, c as int % 16;
      assert Hex.DigitValue(s[4]) == hi && Hex.DigitValue(s[5]) == lo;
      assert (hi * 16 + lo) as char == c;
    } else if |e| == 2 {
      assert (e + tail)[2..] == tail;
    } else {
      assert (e + tail)[1..] == tail;
    }
  }

  /** Quoting loses nothing: reading the quoted text gives the string back. */
  lemma {:induction false} EscapeRoundTrip(s: string, tail: string)
    ensures ReadString(Escape(s) + "\"" + tail) == Some((s, tail))
  {
    if s == [] {
      assert Escape(s) + "\"" + tail == "\"" + tail;
      assert ("\"" + tail)[1..] == tail;
    } else {
      calc {
        ReadString(Escape(s) + "\"" + tail);
        { assert Escape(s) + "\"" + tail == EscapeChar(s[0]) + (Escape(s[1..]) + "\"" + tail); }
        ReadString(EscapeChar(s[0]) + (Escape(s[1..]) + "\"" + tail));
        { EscapeCharRead(s[0], Escape(s[1..]) + "\"" + tail); }
        Prepend(s[0], ReadString(Escape(s[1..]) + "\"" + tail));
        { EscapeRoundTrip(s[1..], tail); }
        Some(([s[0]] + s[1..], tail));
        { assert [s[0]] + s[1..] == s; }
        Some((s, tail));
      }
    }
  }

  /** Reads one `"key":"value"` member and returns what follows it. */
  function ReadMember(s: string): (r: Option<((string, string), string)>)
    ensures r.Some? ==> |r.value.1| < |s|
  {
    if |s| == 0 || s[0] != '"' then None
    else match ReadString(s[1..])
      case None => None
      case Some((k, r1)) =>
        if |r1| < 2 || r1[0] != ':' || r1[1] != '"' then None
        else match ReadString(r1[2..])
          case None => None
          case Some((v, r2)) =>
            ReadStringShortens(s[1..]);
            ReadStringShortens(r1[2..]);
            Some(((k, v), r2))
  }

  /** Reads members separated by `,` up to the closing `}`. */
  function ReadMembers(s: string): Option<Meta>
    decreases |s|
  {
    match ReadMember(s)
    case None => None
    case Some((kv, rest)) =>
      if rest == "}" then Some([kv])
      else if |rest| > 0 && rest[0] == ',' then
        match ReadMembers(rest[1..])
        case None => None
        case Some(more) => Some([kv] + more)
      else None
  }

  /** Reads the text `JSON.stringify` produced for a flat string object. */
  function Parse(s: string): (r: Option<Meta>) {
    if s == "{}" then Some([])
    else if |s| >= 1 && s[0] == '{' then ReadMembers(s[1..])
    else None
  }

  /** Reading a string consumes input: what is left is shorter than what was read from. */
  lemma ReadStringShortens(s: string)
    ensures ReadString(s).Some? ==> |ReadString(s).value.1| < |s|
    decreases |s|
  {
    if |s| >= 2 && s[0] == '\\' && Unescape1(s[1]).Some? {
      ReadStringShortens(s[2..]);
    } else if |s| >= 6 && s[0] == '\\' {
      ReadStringShortens(s[6..]);
    } else if |s| >= 1 {
      ReadStringShortens(s[1..]);
    }
  }

  /** `ReadMember` in terms of the two string reads it makes. */
  lemma ReadMemberOf(s: string, k: string, r1: string, v: string, r2: string)
    requires |s| > 0 && s[0] == '"' && ReadString(s[1..]) == Some((k, r1))
    requires |r1| >= 2 && r1[0] == ':' && r1[1] == '"' && ReadString(r1[2..]) == Some((v, r2))
    ensures ReadMember(s) == Some(((k, v), r2))
  {
  }

  /** How the text of one member splits around its two strings `a` and `b`. */
  lemma MemberText(a: string, b: string, more: string)
    ensures var s := ("\"" + a + "\"") + ":" + ("\"" + b + "\"") + more;
            var r1 := ":\"" + (b + "\"" + more);
            && |s| > 0 && s[0] == '"' && s[1..] == a + "\"" + r1
            && |r1| >= 2 && r1[0] == ':' && r1[1] == '"' && r1[2..] == b + "\"" + more
            && |more| < |s|
  {
    var r1 := ":\"" + (b + "\"" + more);
    var s := ("\"" + a + "\"") + ":" + ("\"" + b + "\"") + more;
    assert s == "\"" + (a + "\"" + r1);
  }

  lemma MemberRoundTrip(k: string, v: string, more: string)
    ensures ReadMember(Quote(k) + ":" + Quote(v) + more) == Some(((k, v), more))
  {
    var r1 := ":\"" + (Escape(v) + "\"" + more);
    MemberText(Escape(k), Escape(v), more);
    EscapeRoundTrip(k, r1);
    EscapeRoundTrip(v, more);
    ReadMemberOf(Quote(k) + ":" + Quote(v) + more, k, r1, v, more);
  }

  /** `ReadMembers` in terms of the first member read and what follows it. */
  lemma ReadMembersOf(s: string, kv: (string, string), rest: string)
    requires ReadMember(s) == Some((kv, rest))
    ensures rest == "}" ==> ReadMembers(s) == Some([kv])
    ensures |rest| > 0 && rest[0] == ',' && ReadMembers(rest[1..]).Some? ==>
              ReadMembers(s) == Some([kv] + ReadMembers(rest[1..]).value)
  {
  }

  /** The text of the members splits into the first member and what follows it. */
  lemma MembersText(m: Meta) returns (more: string)
    requires m != []
    ensures Members(m) + "}" == Quote(m[0].0) + ":" + Quote(m[0].1) + more
    ensures |m| == 1 ==> more == "}"
    ensures |m| > 1 ==> |more| > 0 && more[0] == ',' && more[1..] == Members(m[1..]) + "}"
  {
    var head := Quote(m[0].0) + ":" + Quote(m[0].1);
    var tail := if |m| == 1 then [] else "," + Members(m[1..]);
    more := tail + "}";
    assert Members(m) == head + tail;
  }

  lemma {:induction false} MembersRoundTrip(m: Meta)
    requires m != []
    ensures ReadMembers(Members(m) + "}") == Some(m)
  {
    var k, v := m[0].0, m[0].1;
    var more := MembersText(m);
    MemberRoundTrip(k, v, more);
    ReadMembersOf(Members(m) + "}", (k, v), more);
    if |m| == 1 {
      assert m == [(k, v)];
    } else {
      MembersRoundTrip(m[1..]);
      assert [(k, v)] + m[1..] == m;
    }
  }

  /** The stored `meta` text determines the object that was logged. */
  lemma SerializeRoundTrip(m: Meta)
    ensures Parse(Serialize(m)) == Some(m)
  {
    if m == [] {
      assert Serialize(m) == "{}";
    } else {
      var s := Serialize(m);
      var _ := MembersText(m);
      assert s == "{" + (Members(m) + "}");
      assert |s| > 2 && s[0] == '{' && s[1..] == Members(m) + "}";
      MembersRoundTrip(m);
    }
  }

  lemma SerializeInjective(a: Meta, b: Meta)
    requires Serialize(a) == Serialize(b)
    ensures a == b
  {
    SerializeRoundTrip(a);
    SerializeRoundTrip(b);
  }
}
