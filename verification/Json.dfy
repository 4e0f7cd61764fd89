/**
 Compact JSON text as `serde_json::to_string` writes it, and a reader for that text.
 Strings are escaped as section 7 of RFC 8259 allows, with the short forms serde_json chooses.
 */
module Json {
  import opened Decimal
  import opened Wrappers

  datatype Value =
    | Null
    | Str(text: string)
    | Num(number: nat)
    | Arr(items: seq<Value>)
    | Obj(members: seq<Member>)

  datatype Member = Member(name: string, value: Value)

  const QUOTE: char := '\"'
  const BACKSLASH: char := '\\'

  /* ----- strings ----- */

  function HexDigit(n: nat): char
    requires n < 16
  {
    "0123456789abcdef"[n]
  }

  function HexValue(c: char): Option<nat> {
    if '0' <= c <= '9' then Some(c as int - '0' as int)
    else if 'a' <= c <= 'f' then Some(c as int - 'a' as int + 10)
    else if 'A' <= c <= 'F' then Some(c as int - 'A' as int + 10)
    else None
  }

  function ShortEscape(c: char): Option<char> {
    var n := c as int;
    if c == QUOTE || c == BACKSLASH then Some(c)
    else if n == 8 then Some('b')
    else if n == 9 then Some('t')
    else if n == 10 then Some('n')
    else if n == 12 then Some('f')
    else if n == 13 then Some('r')
    else None
  }

  function EscapeChar(c: char): string {
    var n := c as int;
    if ShortEscape(c).Some? then [BACKSLASH, ShortEscape(c).value]
    else if n < 0x20 then [BACKSLASH, 'u', '0', '0', HexDigit(n / 16), HexDigit(n % 16)]
    else [c]
  }

  function Escape(s: string): string {
    if s == "" then "" else EscapeChar(s[0]) + Escape(s[1..])
  }

  function ReadHex4(t: string): (r: Option<Parsed<char>>)
    ensures r.Some? ==> |r.value.rest| < |t|
  {
    if |t| < 4 then None
    else
      match (HexValue(t[0]), HexValue(t[1]), HexValue(t[2]), HexValue(t[3]))
      case (Some(a), Some(b), Some(c), Some(d)) =>
        var n := ((a * 16 + b) * 16 + c) * 16 + d;
        if n < 0xD800 || 0xE000 <= n < 0x1_0000 then Some(Parsed(n as char, t[4..])) else None
      case _ => None
  }

  // Reads what follows a backslash.
  function ReadEscape(t: string): (r: Option<Parsed<char>>)
    ensures r.Some? ==> |r.value.rest| < |t|
  {
    if t == "" then None
    else
      match t[0]
      case '\"' => Some(Parsed(QUOTE, t[1..]))
      case '\\' => Some(Parsed(BACKSLASH, t[1..]))
      case '/' => Some(Parsed('/', t[1..]))
      case 'b' => Some(Parsed(8 as char, t[1..]))
      case 't' => Some(Parsed(9 as char, t[1..]))
      case 'n' => Some(Parsed(10 as char, t[1..]))
      case 'f' => Some(Parsed(12 as char, t[1..]))
      case 'r' => Some(Parsed(13 as char, t[1..]))
      case 'u' => ReadHex4(t[1..])
      case _ => None
  }

  // Reads a string whose opening quote has been consumed.
  function ReadString(t: string): (r: Option<Parsed<string>>)
    ensures r.Some? ==> |r.value.rest| < |t|
  {
    if t == "" || t[0] as int < 0x20 then None
    else if t[0] == QUOTE then Some(Parsed("", t[1..]))
    else
      var head := if t[0] == BACKSLASH then ReadEscape(t[1..]) else Some(Parsed(t[0], t[1..]));
      if head.None? then None
      else
        var tail := ReadString(head.value.rest);
        if tail.None? then None
        else Some(Parsed([head.value.value] + tail.value.value, tail.value.rest))
  }

  lemma ReadEscapedChar(c: char, rest: string)
    ensures var t := EscapeChar(c) + rest;
            && t[0] as int >= 0x20 && t[0] != QUOTE
            && (t[0] == BACKSLASH ==> ReadEscape(t[1..]) == Some(Parsed(c, rest)))
            && (t[0] != BACKSLASH ==> t[0] == c && t[1..] == rest)
  {
    var n := c as int;
    var t := EscapeChar(c) + rest;
    if ShortEscape(c).Some? {
      assert t[1..] == [ShortEscape(c).value] + rest;
      assert t[1..][1..] == rest;
    } else if n < 0x20 {
      assert t[1..][1..] == ['0', '0', HexDigit(n / 16), HexDigit(n % 16)] + rest;
      assert t[1..][1..][4..] == rest;
      assert HexValue(HexDigit(n / 16)) == Some(n / 16) && HexValue(HexDigit(n % 16)) == Some(n % 16);
    }
  }

  // Reading undoes escaping, for every string, and stops exactly at the closing quote.
  lemma {:induction false} ReadEscaped(s: string, rest: string)
    ensures ReadString(Escape(s) + [QUOTE] + rest) == Some(Parsed(s, rest))
  {
    if s == "" {
      assert Escape(s) + [QUOTE] + rest == [QUOTE] + rest;
    } else {
      var tail := Escape(s[1..]) + [QUOTE] + rest;
      assert Escape(s) + [QUOTE] + rest == EscapeChar(s[0]) + tail;
      ReadEscapedChar(s[0], tail);
      ReadEscaped(s[1..], rest);
      assert s == [s[0]] + s[1..];
    }
  }

  // Only quotes, backslashes and control characters are escaped.
  lemma {:induction false} EscapeVerbatim(s: string)
    ensures Escape(s) == s <==> forall k :: 0 <= k < |s| ==> s[k] as int >= 0x20 && s[k] !in {QUOTE, BACKSLASH}
  {
    if s != "" {
      EscapeVerbatim(s[1..]);
      EscapeIsLonger(s[1..]);
      assert s == [s[0]] + s[1..];
      assert forall k :: 1 <= k < |s| ==> s[k] == s[1..][k - 1];
    }
  }

  lemma {:induction false} EscapeIsLonger(s: string)
    ensures |Escape(s)| >= |s|
  {
    if s != "" {
      EscapeIsLonger(s[1..]);
    }
  }

  /* ----- values ----- */

  function Print(v: Value): string
    decreases v, 1
  {
    match v
    case Null => "null"
    case Str(s) => [QUOTE] + Escape(s) + [QUOTE]
    case Num(n) => PrintNat(n)
    case Arr(items) => if items == [] then "[]" else "[" + Print(items[0]) + PrintItems(items[1..])
    case Obj(members) =>
      if members == [] then "{}" else "{" + PrintMember(members[0]) + PrintMembers(members[1..])
  }

  // What follows the first item, up to the closing bracket.
  function PrintItems(items: seq<Value>): string
    decreases items, 0
  {
    if items == [] then "]" else "," + Print(items[0]) + PrintItems(items[1..])
  }

  function PrintMember(m: Member): string
    decreases m, 2
  {
    [QUOTE] + Escape(m.name) + [QUOTE] + ":" + Print(m.value)
  }

  function PrintMembers(members: seq<Member>): string
    decreases members, 0
  {
    if members == [] then "}" else "," + PrintMember(members[0]) + PrintMembers(members[1..])
  }

  function Read(t: string): (r: Option<Parsed<Value>>)
    ensures r.Some? ==> |r.value.rest| < |t|
    decreases |t|, 0
  {
    if t == "" then None
    else if t[0] == QUOTE then
      var s := ReadString(t[1..]);
      if s.None? then None else Some(Parsed(Str(s.value.value), s.value.rest))
    else if IsDigit(t[0]) then
      var n := ReadDigits(0, t);
      assert n == ReadDigits(t[0] as int - '0' as int, t[1..]);
      Some(Parsed(Num(n.value), n.rest))
    else if "null" <= t then Some(Parsed(Null, t[4..]))
    else if "[]" <= t then Some(Parsed(Arr([]), t[2..]))
    else if "{}" <= t then Some(Parsed(Obj([]), t[2..]))
    else if t[0] == '[' then
      var first := Read(t[1..]);
      if first.None? then None
      else
        var others := ReadItems(first.value.rest);
        if others.None? then None
        else Some(Parsed(Arr([first.value.value] + others.value.value), others.value.rest))
    else if t[0] == '{' then
      var first := ReadMember(t[1..]);
      if first.None? then None
      else
        var others := ReadMembers(first.value.rest);
        if others.None? then None
        else Some(Parsed(Obj([first.value.value] + others.value.value), others.value.rest))
    else None
  }

  function ReadItems(t: string): (r: Option<Parsed<seq<Value>>>)
    ensures r.Some? ==> |r.value.rest| < |t|
    decreases |t|, 1
  {
    if t == "" then None
    else if t[0] == ']' then Some(Parsed([], t[1..]))
    else if t[0] == ',' then
      var first := Read(t[1..]);
      if first.None? then None
      else
        var others := ReadItems(first.value.rest);
        if others.None? then None
        else Some(Parsed([first.value.value] + others.value.value, others.value.rest))
    else None
  }

  function ReadMember(t: string): (r: Option<Parsed<Member>>)
    ensures r.Some? ==> |r.value.rest| < |t|
    decreases |t|, 1
  {
    if t == "" || t[0] != QUOTE then None
    else
      var name := ReadString(t[1..]);
      if name.None? || name.value.rest == "" || name.value.rest[0] != ':' then None
      else
        var value := Read(name.value.rest[1..]);
        if value.None? then None
        else Some(Parsed(Member(name.value.value, value.value.value), value.value.rest))
  }

  function ReadMembers(t: string): (r: Option<Parsed<seq<Member>>>)
    ensures r.Some? ==> |r.value.rest| < |t|
    decreases |t|, 1
  {
    if t == "" then None
    else if t[0] == '}' then Some(Parsed([], t[1..]))
    else if t[0] == ',' then
      var first := ReadMember(t[1..]);
      if first.None? then None
      else
        var others := ReadMembers(first.value.rest);
        if others.None? then None
        else Some(Parsed([first.value.value] + others.value.value, others.value.rest))
    else None
  }

  // No printed value is mistaken for the continuation of a number.
  predicate EndsNumber(rest: string) {
    rest != "" ==> !IsDigit(rest[0])
  }

  lemma FirstCharOfPrint(v: Value)
    ensures Print(v) != "" && Print(v)[0] !in {']', '}'}
  {
  }

  lemma FirstCharOfMember(m: Member)
    ensures PrintMember(m) != "" && PrintMember(m)[0] == QUOTE
  {
  }

  lemma PrintObject(first: Member, others: seq<Member>, rest: string)
    ensures Print(Obj([first] + others)) + rest == "{" + (PrintMember(first) + (PrintMembers(others) + rest))
  {
  }

  lemma PrintArray(first: Value, others: seq<Value>, rest: string)
    ensures Print(Arr([first] + others)) + rest == "[" + (Print(first) + (PrintItems(others) + rest))
  {
  }

  lemma ReadArray(inner: string, first: Value, tail: string, others: seq<Value>, rest: string)
    requires inner != "" && inner[0] != ']'
    requires Read(inner) == Some(Parsed(first, tail)) && ReadItems(tail) == Some(Parsed(others, rest))
    ensures Read("[" + inner) == Some(Parsed(Arr([first] + others), rest))
  {
    assert ("[" + inner)[1..] == inner;
    assert ("[" + inner)[1] != ']';
  }

  lemma ReadObject(inner: string, first: Member, tail: string, others: seq<Member>, rest: string)
    requires inner != "" && inner[0] != '}'
    requires ReadMember(inner) == Some(Parsed(first, tail)) && ReadMembers(tail) == Some(Parsed(others, rest))
    ensures Read("{" + inner) == Some(Parsed(Obj([first] + others), rest))
  {
    assert ("{" + inner)[1..] == inner;
    assert ("{" + inner)[1] != '}';
  }

  lemma ReadScalar(v: Value, rest: string)
    requires !v.Arr? && !v.Obj? && EndsNumber(rest)
    ensures Read(Print(v) + rest) == Some(Parsed(v, rest))
  {
    var t := Print(v) + rest;
    match v
    case Null =>
      assert t[4..] == rest;
    case Str(s) =>
      assert t[1..] == Escape(s) + [QUOTE] + rest;
      ReadEscaped(s, rest);
    case Num(n) =>
      ReadPrintedNat(n, rest);
  }

  lemma ReadEmpty(rest: string)
    ensures Read("[]" + rest) == Some(Parsed(Arr([]), rest)) && Read("{}" + rest) == Some(Parsed(Obj([]), rest))
  {
  }

  /** Reading undoes printing, for every value and whatever text follows it. */
  lemma {:induction false} ReadPrinted(v: Value, rest: string)
    requires EndsNumber(rest)
    ensures Read(Print(v) + rest) == Some(Parsed(v, rest))
    decreases v, 1
  {
    match v
    case Arr(items) => ReadPrintedArray(items, rest);
    case Obj(members) => ReadPrintedObject(members, rest);
    case _ => ReadScalar(v, rest);
  }

  lemma {:induction false} ReadPrintedArray(items: seq<Value>, rest: string)
    ensures Read(Print(Arr(items)) + rest) == Some(Parsed(Arr(items), rest))
    decreases items, 1
  {
    if items == [] {
      ReadEmpty(rest);
    } else {
      var first, others := items[0], items[1..];
      var tail := PrintItems(others) + rest;
      ReadPrinted(first, tail);
      ReadPrintedItems(others, rest);
      FirstCharOfPrint(first);
      ReadArray(Print(first) + tail, first, tail, others, rest);
      assert items == [first] + others;
      PrintArray(first, others, rest);
    }
  }

  lemma {:induction false} ReadPrintedObject(members: seq<Member>, rest: string)
    ensures Read(Print(Obj(members)) + rest) == Some(Parsed(Obj(members), rest))
    decreases members, 1
  {
    if members == [] {
      ReadEmpty(rest);
    } else {
      var first, others := members[0], members[1..];
      var tail := PrintMembers(others) + rest;
      ReadPrintedMember(first, tail);
      ReadPrintedMembers(others, rest);
      FirstCharOfMember(first);
      ReadObject(PrintMember(first) + tail, first, tail, others, rest);
      assert members == [first] + others;
      PrintObject(first, others, rest);
    }
  }

  lemma {:induction false} ReadPrintedItems(items: seq<Value>, rest: string)
    ensures ReadItems(PrintItems(items) + rest) == Some(Parsed(items, rest))
    decreases items, 0
  {
    var t := PrintItems(items) + rest;
    if items == [] {
      assert t[1..] == rest;
    } else {
      var tail := PrintItems(items[1..]) + rest;
      assert t[1..] == Print(items[0]) + tail;
      ReadPrinted(items[0], tail);
      ReadPrintedItems(items[1..], rest);
      assert items == [items[0]] + items[1..];
    }
  }

  lemma {:induction false} ReadPrintedMember(m: Member, rest: string)
    requires EndsNumber(rest)
    ensures ReadMember(PrintMember(m) + rest) == Some(Parsed(m, rest))
    decreases m, 2
  {
    var t := PrintMember(m) + rest;
    var tail := ":" + (Print(m.value) + rest);
    assert t[1..] == Escape(m.name) + [QUOTE] + tail;
    ReadEscaped(m.name, tail);
    assert tail[1..] == Print(m.value) + rest;
    ReadPrinted(m.value, rest);
  }

  lemma {:induction false} ReadPrintedMembers(members: seq<Member>, rest: string)
    ensures ReadMembers(PrintMembers(members) + rest) == Some(Parsed(members, rest))
    decreases members, 0
  {
    var t := PrintMembers(members) + rest;
    if members == [] {
      assert t[1..] == rest;
    } else {
      var tail := PrintMembers(members[1..]) + rest;
      assert t[1..] == PrintMember(members[0]) + tail;
      ReadPrintedMember(members[0], tail);
      ReadPrintedMembers(members[1..], rest);
      assert members == [members[0]] + members[1..];
    }
  }
}
