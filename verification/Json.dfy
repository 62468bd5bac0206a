/**
 * JSON texts (RFC 8259): the parser behind `JSON.parse` and the two layouts of `JSON.stringify` that
 * the modelled code uses. Strings are sequences of Unicode scalar values.
 */
module Json {
  import opened Text
  import opened Wrappers

  datatype Value =
    | Null
    | Bool(value: bool)
    | Number(text: string)
    | Str(chars: string)
    | Array(items: seq<Value>)
    | Object(fields: seq<Field>)

  datatype Field = Field(key: string, value: Value)

  /** A nullable string. */
  function OrNull(s: Option<string>): Value {
    if s.Some? then Str(s.value) else Null
  }

  // ---------------------------------------------------------------- printing

  /** `JSON.stringify(value)` and `JSON.stringify(value, null, 2)`. */
  datatype Layout = Compact | Indented

  function HexDigit(v: nat): char
    requires v < 16
  {
    if v < 10 then '0' + v as char else 'a' + (v - 10) as char
  }

  /** One character inside a string literal, in front of `rest` (section 7 of RFC 8259). */
  function EscapedTo(c: char, rest: string): string {
    if c == '"' then ['\\', '"'] + rest
    else if c == '\\' then ['\\', '\\'] + rest
    else if c == 8 as char then ['\\', 'b'] + rest
    else if c == 12 as char then ['\\', 'f'] + rest
    else if c == '\n' then ['\\', 'n'] + rest
    else if c == '\r' then ['\\', 'r'] + rest
    else if c == '\t' then ['\\', 't'] + rest
    else if c < ' ' then ['\\', 'u', '0', '0', HexDigit(c as int / 16), HexDigit(c as int % 16)] + rest
    else [c] + rest
  }

  /** The characters of a string literal and its closing quote, in front of `rest`. */
  function CharsTo(s: string, rest: string): string {
    if s == "" then ['"'] + rest else EscapedTo(s[0], CharsTo(s[1..], rest))
  }

  function QuotedTo(s: string, rest: string): string {
    ['"'] + CharsTo(s, rest)
  }

  function SpacesTo(n: nat, rest: string): string {
    if n == 0 then rest else [' '] + SpacesTo(n - 1, rest)
  }

  function BreakTo(layout: Layout, depth: nat, rest: string): string {
    if layout.Compact? then rest else ['\n'] + SpacesTo(2 * depth, rest)
  }

  function ColonTo(layout: Layout, rest: string): string {
    if layout.Compact? then [':'] + rest else [':', ' '] + rest
  }

  /** The values the modelled code prints: no numbers and no arrays. */
  predicate Printable(v: Value) {
    match v
    case Null => true
    case Bool(_) => true
    case Str(_) => true
    case Object(fields) => forall i :: 0 <= i < |fields| ==> Printable(fields[i].value)
    case _ => false
  }

  /** The text of `v` in front of `rest`. */
  function PrintedTo(v: Value, layout: Layout, depth: nat, rest: string): string
    requires Printable(v)
    decreases v
  {
    match v
    case Null => "null" + rest
    case Bool(b) => (if b then "true" else "false") + rest
    case Str(s) => QuotedTo(s, rest)
    case Object(fields) =>
      if fields == [] then "{}" + rest
      else ['{'] + BreakTo(layout, depth + 1, FieldsTo(fields, layout, depth + 1, BreakTo(layout, depth, ['}'] + rest)))
  }

  function FieldsTo(fields: seq<Field>, layout: Layout, depth: nat, rest: string): string
    requires fields != [] && forall i :: 0 <= i < |fields| ==> Printable(fields[i].value)
    decreases fields
  {
    var after :=
      if |fields| == 1 then rest else [','] + BreakTo(layout, depth, FieldsTo(fields[1..], layout, depth, rest));
    QuotedTo(fields[0].key, ColonTo(layout, PrintedTo(fields[0].value, layout, depth, after)))
  }

  function Print(v: Value, layout: Layout): string
    requires Printable(v)
  {
    PrintedTo(v, layout, 0, "")
  }

  // ---------------------------------------------------------------- parsing

  function SkipSpace(s: string): (rest: string)
    ensures |rest| <= |s|
  {
    if s != "" && (s[0] == ' ' || s[0] == '\t' || s[0] == '\n' || s[0] == '\r') then SkipSpace(s[1..]) else s
  }

  function HexValue(c: char): Option<nat> {
    if '0' <= c <= '9' then Some((c - '0') as nat)
    else if 'a' <= c <= 'f' then Some((c - 'a') as nat + 10)
    else if 'A' <= c <= 'F' then Some((c - 'A') as nat + 10)
    else None
  }

  function Hex4(s: string): (v: Option<nat>)
    ensures v.Some? ==> |s| >= 4 && v.value < 0x10000
  {
    if |s| < 4 then None
    else
      match (HexValue(s[0]), HexValue(s[1]), HexValue(s[2]), HexValue(s[3]))
      case (Some(a), Some(b), Some(c), Some(d)) =>
        if a < 16 && b < 16 && c < 16 && d < 16 then Some(4096 * a + 256 * b + 16 * c + d) else None
      case _ => None
  }

  /** What follows a backslash: the character it denotes and the remaining text. */
  function Escape(s: string): (r: Option<(char, string)>)
    ensures r.Some? ==> |r.value.1| < |s|
  {
    if s == "" then None
    else
      match s[0]
      case '"' => Some(('"', s[1..]))
      case '\\' => Some(('\\', s[1..]))
      case '/' => Some(('/', s[1..]))
      case 'b' => Some((8 as char, s[1..]))
      case 'f' => Some((12 as char, s[1..]))
      case 'n' => Some(('\n', s[1..]))
      case 'r' => Some(('\r', s[1..]))
      case 't' => Some(('\t', s[1..]))
      case 'u' => UnicodeEscape(s[1..])
      case _ => None
  }

  /** `\uXXXX`, with surrogate pairs combined; a lone surrogate denotes no scalar value. */
  function UnicodeEscape(s: string): (r: Option<(char, string)>)
    ensures r.Some? ==> |r.value.1| <= |s|
  {
    match Hex4(s)
    case None => None
    case Some(v) =>
      if v < 0xD800 || 0xE000 <= v then Some((v as char, s[4..]))
      else if v < 0xDC00 && |s| >= 6 && s[4] == '\\' && s[5] == 'u' then
        match Hex4(s[6..])
        case Some(w) =>
          if 0xDC00 <= w < 0xE000 then Some(((0x10000 + (v - 0xD800) * 0x400 + (w - 0xDC00)) as char, s[10..])) else None
        case None => None
      else None
  }

  /** The rest of a string literal after its opening quote. */
  function Chars(s: string): (r: Option<(string, string)>)
    ensures r.Some? ==> |r.value.1| < |s|
    decreases |s|
  {
    if s == "" || s[0] < ' ' then None
    else if s[0] == '"' then Some(("", s[1..]))
    else if s[0] == '\\' then
      match Escape(s[1..])
      case None => None
      case Some((c, rest)) =>
        match Chars(rest)
        case None => None
        case Some((tail, after)) => Some(([c] + tail, after))
    else
      match Chars(s[1..])
      case None => None
      case Some((tail, after)) => Some(([s[0]] + tail, after))
  }

  function DigitRun(s: string): nat {
    if s != "" && '0' <= s[0] <= '9' then 1 + DigitRun(s[1..]) else 0
  }

  lemma DigitRunFits(s: string)
    ensures DigitRun(s) <= |s|
  {
  }

  /** `0|[1-9]\d*` */
  function WholeLength(s: string): (n: nat)
    ensures n <= |s|
  {
    DigitRunFits(s);
    if s != "" && s[0] == '0' then 1 else DigitRun(s)
  }

  /** `(\.\d+)?`, or nothing for a point without digits. */
  function FractionLength(s: string): (n: Option<nat>)
    ensures n.Some? ==> n.value <= |s|
  {
    if s == "" || s[0] != '.' then Some(0)
    else
      DigitRunFits(s[1..]);
      if DigitRun(s[1..]) == 0 then None else Some(1 + DigitRun(s[1..]))
  }

  /** `([eE][+-]?\d+)?`, or nothing for an exponent without digits. */
  function ExponentLength(s: string): (n: Option<nat>)
    ensures n.Some? ==> n.value <= |s|
  {
    if s == "" || (s[0] != 'e' && s[0] != 'E') then Some(0)
    else
      var k := if |s| > 1 && (s[1] == '+' || s[1] == '-') then 2 else 1;
      DigitRunFits(s[k..]);
      if DigitRun(s[k..]) == 0 then None else Some(k + DigitRun(s[k..]))
  }

  function UnsignedLength(s: string): (n: nat)
    ensures n <= |s|
  {
    var whole := WholeLength(s);
    if whole == 0 then 0
    else
      var t := s[whole..];
      match FractionLength(t)
      case None => 0
      case Some(fraction) =>
        match ExponentLength(t[fraction..])
        case None => 0
        case Some(exponent) => whole + (fraction + exponent)
  }

  /** Length of the number at the front, or 0 if there is none. */
  function NumberLength(s: string): (n: nat)
    ensures n <= |s|
  {
    if s != "" && s[0] == '-' then
      var n := UnsignedLength(s[1..]);
      if n == 0 then 0 else 1 + n
    else UnsignedLength(s)
  }

  /** A value, possibly after white space, and the remaining text. */
  function ParseValue(s: string): (r: Option<(Value, string)>)
    ensures r.Some? ==> |r.value.1| < |s|
    decreases |s|, 1
  {
    var t := SkipSpace(s);
    if t == "" then None
    else if t[0] == '"' then
      match Chars(t[1..])
      case None => None
      case Some((chars, rest)) => Some((Str(chars), rest))
    else if t[0] == '{' then
      var u := SkipSpace(t[1..]);
      if u != "" && u[0] == '}' then Some((Object([]), u[1..]))
      else
        match ParseFields(t[1..])
        case None => None
        case Some((fields, rest)) => Some((Object(fields), rest))
    else if t[0] == '[' then
      var u := SkipSpace(t[1..]);
      if u != "" && u[0] == ']' then Some((Array([]), u[1..]))
      else
        match ParseItems(t[1..])
        case None => None
        case Some((items, rest)) => Some((Array(items), rest))
    else if "null" <= t then Some((Null, t[4..]))
    else if "true" <= t then Some((Bool(true), t[4..]))
    else if "false" <= t then Some((Bool(false), t[5..]))
    else
      var n := NumberLength(t);
      if n == 0 then None else Some((Number(t[..n]), t[n..]))
  }

  /** A quoted name and a colon, and the remaining text. */
  function ParseKey(s: string): (r: Option<(string, string)>)
    ensures r.Some? ==> |r.value.1| < |s|
  {
    var t := SkipSpace(s);
    if t == "" || t[0] != '"' then None
    else
      match Chars(t[1..])
      case None => None
      case Some((key, afterKey)) =>
        var u := SkipSpace(afterKey);
        if u == "" || u[0] != ':' then None else Some((key, u[1..]))
  }

  /** One or more fields up to and including the closing brace. */
  function ParseFields(s: string): (r: Option<(seq<Field>, string)>)
    ensures r.Some? ==> |r.value.1| < |s|
    decreases |s|, 0
  {
    match ParseKey(s)
    case None => None
    case Some((key, afterColon)) =>
      match ParseValue(afterColon)
      case None => None
      case Some((value, afterValue)) =>
        var w := SkipSpace(afterValue);
        if w != "" && w[0] == '}' then Some(([Field(key, value)], w[1..]))
        else if w != "" && w[0] == ',' then
          match ParseFields(w[1..])
          case None => None
          case Some((fields, rest)) => Some(([Field(key, value)] + fields, rest))
        else None
  }

  /** One or more items up to and including the closing bracket. */
  function ParseItems(s: string): (r: Option<(seq<Value>, string)>)
    ensures r.Some? ==> |r.value.1| < |s|
    decreases |s|, 2
  {
    match ParseValue(s)
    case None => None
    case Some((value, afterValue)) =>
      var w := SkipSpace(afterValue);
      if w != "" && w[0] == ']' then Some(([value], w[1..]))
      else if w != "" && w[0] == ',' then
        match ParseItems(w[1..])
        case None => None
        case Some((items, rest)) => Some(([value] + items, rest))
      else None
  }

  /** `JSON.parse`; a `SyntaxError` is `None`. */
  function Parse(text: string): Option<Value> {
    match ParseValue(text)
    case None => None
    case Some((value, rest)) => if SkipSpace(rest) == "" then Some(value) else None
  }

  /** The property an object has after parsing: a repeated key keeps its last value. */
  function Lookup(fields: seq<Field>, key: string): Option<Value> {
    if fields == [] then None
    else if fields[|fields| - 1].key == key then Some(fields[|fields| - 1].value)
    else Lookup(fields[..|fields| - 1], key)
  }

  /** A property that is a string. */
  function LookupText(fields: seq<Field>, key: string): Option<string> {
    match Lookup(fields, key)
    case Some(Str(s)) => Some(s)
    case _ => None
  }

  lemma {:induction false} LookupAt(fields: seq<Field>, i: nat)
    requires i < |fields| && forall j :: i < j < |fields| ==> fields[j].key != fields[i].key
    ensures Lookup(fields, fields[i].key) == Some(fields[i].value)
  {
    if i < |fields| - 1 {
      LookupAt(fields[..|fields| - 1], i);
    }
  }

  // ---------------------------------------------------------------- parsing undoes printing

  lemma EscapeUndone(c: char, rest: string)
    ensures var t := EscapedTo(c, rest);
            && t != "" && t[0] >= ' ' && t[0] != '"'
            && (if t[0] == '\\' then Escape(t[1..]) == Some((c, rest)) else t[0] == c && t[1..] == rest)
  {
    var t := EscapedTo(c, rest);
    if t[0] == '\\' && t[1] == 'u' {
      assert t[2..] == ['0', '0', HexDigit(c as int / 16), HexDigit(c as int % 16)] + rest;
      assert Hex4(t[2..]) == Some(c as nat);
      assert t[2..][4..] == rest && t[1..][1..] == t[2..];
    } else if t[0] == '\\' {
      assert t[1..][1..] == rest;
    }
  }

  lemma {:induction false} CharsUndone(s: string, rest: string)
    ensures Chars(CharsTo(s, rest)) == Some((s, rest))
  {
    if s == "" {
      assert (['"'] + rest)[1..] == rest;
    } else {
      CharsUndone(s[1..], rest);
      EscapeUndone(s[0], CharsTo(s[1..], rest));
      assert [s[0]] + s[1..] == s;
    }
  }

  lemma {:induction false} SpacesSkipped(n: nat, rest: string)
    ensures SkipSpace(SpacesTo(n, rest)) == SkipSpace(rest)
  {
    if n > 0 {
      SpacesSkipped(n - 1, rest);
      assert SpacesTo(n, rest)[1..] == SpacesTo(n - 1, rest);
    }
  }

  lemma BreakSkipped(layout: Layout, depth: nat, rest: string)
    ensures SkipSpace(BreakTo(layout, depth, rest)) == SkipSpace(rest)
  {
    if layout.Indented? {
      SpacesSkipped(2 * depth, rest);
      assert BreakTo(layout, depth, rest)[1..] == SpacesTo(2 * depth, rest);
    }
  }

  /** Printing and parsing round trip, in both layouts, at any depth and before any text. */
  lemma {:induction false} ParseUndoesPrinting(v: Value, layout: Layout, depth: nat, rest: string)
    requires Printable(v)
    ensures ParseValue(PrintedTo(v, layout, depth, rest)) == Some((v, rest))
    decreases v
  {
    if v.Object? && v.fields != [] {
      var inner := FieldsTo(v.fields, layout, depth + 1, BreakTo(layout, depth, ['}'] + rest));
      BreakSkipped(layout, depth, ['}'] + rest);
      FieldsUndone(v.fields, layout, depth + 1, BreakTo(layout, depth, ['}'] + rest), rest);
      ObjectUndone(['{'] + BreakTo(layout, depth + 1, inner), layout, depth, inner, v.fields, rest);
    } else {
      AtomUndone(v, layout, depth, rest);
    }
  }

  lemma StringUndone(s: string, rest: string)
    ensures ParseValue(QuotedTo(s, rest)) == Some((Str(s), rest))
  {
    CharsUndone(s, rest);
    assert QuotedTo(s, rest)[1..] == CharsTo(s, rest);
  }

  lemma EmptyObjectUndone(rest: string)
    ensures ParseValue("{}" + rest) == Some((Object([]), rest))
  {
    var t := "{}" + rest;
    assert t[1..] == ['}'] + rest && (['}'] + rest)[1..] == rest;
  }

  lemma NullUndone(rest: string)
    ensures ParseValue("null" + rest) == Some((Null, rest))
  {
    assert ("null" + rest)[4..] == rest;
  }

  lemma BoolUndone(b: bool, rest: string)
    ensures ParseValue((if b then "true" else "false") + rest) == Some((Bool(b), rest))
  {
    if b {
      assert ("true" + rest)[4..] == rest;
    } else {
      assert ("false" + rest)[5..] == rest;
    }
  }

  lemma AtomUndone(v: Value, layout: Layout, depth: nat, rest: string)
    requires Printable(v) && (v.Object? ==> v.fields == [])
    ensures ParseValue(PrintedTo(v, layout, depth, rest)) == Some((v, rest))
  {
    match v
    case Null => NullUndone(rest);
    case Bool(b) => BoolUndone(b, rest);
    case Str(s) => StringUndone(s, rest);
    case Object(_) => EmptyObjectUndone(rest);
  }

  lemma ObjectUndone(t: string, layout: Layout, depth: nat, inner: string, fields: seq<Field>, rest: string)
    requires t == ['{'] + BreakTo(layout, depth + 1, inner)
    requires inner != "" && inner[0] == '"' && SkipSpace(inner) == inner && ParseFields(inner) == Some((fields, rest))
    ensures ParseValue(t) == Some((Object(fields), rest))
  {
    assert t[1..] == BreakTo(layout, depth + 1, inner);
    BreakSkipped(layout, depth + 1, inner);
    SameFields(t[1..], inner);
  }

  lemma SameFields(s: string, t: string)
    requires SkipSpace(s) == SkipSpace(t)
    ensures ParseFields(s) == ParseFields(t)
  {
  }

  /** One step of the field parser, from its parts. */
  lemma FieldStep(t: string, key: string, u: string, v: Value, after: string)
    requires t != "" && t[0] == '"' && Chars(t[1..]) == Some((key, u))
    requires u != "" && u[0] == ':' && SkipSpace(u) == u && ParseValue(u[1..]) == Some((v, after))
    ensures SkipSpace(t) == t
    ensures var w := SkipSpace(after);
            && (w != "" && w[0] == '}' ==> ParseFields(t) == Some(([Field(key, v)], w[1..])))
            && (w != "" && w[0] == ',' && ParseFields(w[1..]).Some? ==>
                  ParseFields(t) == Some(([Field(key, v)] + ParseFields(w[1..]).value.0, ParseFields(w[1..]).value.1)))
  {
  }

  lemma {:induction false} FieldsUndone(fields: seq<Field>, layout: Layout, depth: nat, closing: string, rest: string)
    requires fields != [] && forall i :: 0 <= i < |fields| ==> Printable(fields[i].value)
    requires SkipSpace(closing) == ['}'] + rest
    ensures var t := FieldsTo(fields, layout, depth, closing);
            && t != "" && t[0] == '"' && SkipSpace(t) == t
            && ParseFields(t) == Some((fields, rest))
    decreases fields
  {
    var t := FieldsTo(fields, layout, depth, closing);
    var more := if |fields| == 1 then "" else FieldsTo(fields[1..], layout, depth, closing);
    var after := if |fields| == 1 then closing else [','] + BreakTo(layout, depth, more);
    var value := PrintedTo(fields[0].value, layout, depth, after);
    var u := ColonTo(layout, value);
    CharsUndone(fields[0].key, u);
    assert t[1..] == CharsTo(fields[0].key, u);
    ParseUndoesPrinting(fields[0].value, layout, depth, after);
    ColonSkipped(layout, value, fields[0].value, after);
    FieldStep(t, fields[0].key, u, fields[0].value, after);
    if |fields| == 1 {
      assert (['}'] + rest)[1..] == rest;
      assert [Field(fields[0].key, fields[0].value)] == fields;
    } else {
      FieldsUndone(fields[1..], layout, depth, closing, rest);
      CommaSkipped(layout, depth, more);
      HeadAndTail(fields);
    }
  }

  lemma HeadAndTail(fields: seq<Field>)
    requires fields != []
    ensures [Field(fields[0].key, fields[0].value)] + fields[1..] == fields
  {
  }

  lemma CommaSkipped(layout: Layout, depth: nat, more: string)
    ensures var t := [','] + BreakTo(layout, depth, more);
            SkipSpace(t) == t && t[0] == ',' && ParseFields(t[1..]) == ParseFields(more)
  {
    var t := [','] + BreakTo(layout, depth, more);
    assert t[1..] == BreakTo(layout, depth, more);
    BreakSkipped(layout, depth, more);
    SameFields(t[1..], more);
  }

  lemma ColonSkipped(layout: Layout, text: string, v: Value, after: string)
    requires ParseValue(text) == Some((v, after))
    ensures var t := ColonTo(layout, text);
            SkipSpace(t) == t && t[0] == ':' && ParseValue(t[1..]) == Some((v, after))
  {
    if layout.Indented? {
      assert [':', ' '] + text == [':'] + ([' '] + text);
      BlankSkipped(text);
      AfterColon([' '] + text);
      SameValue([' '] + text, text);
    } else {
      AfterColon(text);
    }
  }

  lemma AfterColon(text: string)
    ensures var t := [':'] + text;
            SkipSpace(t) == t && t[0] == ':' && t[1..] == text
  {
  }

  lemma BlankSkipped(text: string)
    ensures SkipSpace([' '] + text) == SkipSpace(text)
  {
    assert ([' '] + text)[1..] == text;
  }

  lemma SameValue(s: string, t: string)
    requires SkipSpace(s) == SkipSpace(t)
    ensures ParseValue(s) == ParseValue(t)
  {
  }

  /** `JSON.parse(JSON.stringify(v))` gives `v` back; in particular printing is injective. */
  lemma PrintRoundTrips(v: Value, layout: Layout)
    requires Printable(v)
    ensures Parse(Print(v, layout)) == Some(v)
  {
    ParseUndoesPrinting(v, layout, 0, "");
  }

  // ---------------------------------------------------------------- length of printed texts

  /** Characters that print as themselves, in one byte. */
  predicate IsVerbatim(c: char) {
    ' ' <= c <= '~' && c != '"' && c != '\\'
  }

  predicate AllVerbatim(s: string) {
    forall i :: 0 <= i < |s| ==> IsVerbatim(s[i])
  }

  /** Every key and string prints as itself. */
  predicate Verbatim(v: Value) {
    match v
    case Null => true
    case Bool(_) => true
    case Str(s) => AllVerbatim(s)
    case Object(fields) => forall i :: 0 <= i < |fields| ==> AllVerbatim(fields[i].key) && Verbatim(fields[i].value)
    case _ => false
  }

  predicate AllFieldsVerbatim(fields: seq<Field>) {
    forall i :: 0 <= i < |fields| ==> AllVerbatim(fields[i].key) && Verbatim(fields[i].value)
  }

  function BreakSize(layout: Layout, depth: nat): nat {
    if layout.Compact? then 0 else 1 + 2 * depth
  }

  function Size(v: Value, layout: Layout, depth: nat): nat
    requires Verbatim(v)
    decreases v
  {
    match v
    case Null => 4
    case Bool(b) => if b then 4 else 5
    case Str(s) => |s| + 2
    case Object(fields) =>
      if fields == [] then 2 else 2 + BreakSize(layout, depth + 1) + FieldsSize(fields, layout, depth + 1) + BreakSize(layout, depth)
  }

  function FieldsSize(fields: seq<Field>, layout: Layout, depth: nat): nat
    requires fields != [] && AllFieldsVerbatim(fields)
    decreases fields
  {
    |fields[0].key| + 2 + (if layout.Compact? then 1 else 2) + Size(fields[0].value, layout, depth)
    + if |fields| == 1 then 0 else 1 + BreakSize(layout, depth) + FieldsSize(fields[1..], layout, depth)
  }

  lemma {:induction false} VerbatimIsPrintable(v: Value)
    requires Verbatim(v)
    ensures Printable(v)
    decreases v
  {
    if v.Object? {
      forall i | 0 <= i < |v.fields|
        ensures Printable(v.fields[i].value)
      {
        VerbatimIsPrintable(v.fields[i].value);
      }
    }
  }

  lemma {:induction false} CharsSize(s: string, rest: string)
    requires AllVerbatim(s)
    ensures |CharsTo(s, rest)| == |s| + 1 + |rest| && (IsAscii(rest) ==> IsAscii(CharsTo(s, rest)))
  {
    if s != "" {
      CharsSize(s[1..], rest);
    }
  }

  lemma {:induction false} SpacesSize(n: nat, rest: string)
    ensures |SpacesTo(n, rest)| == n + |rest| && (IsAscii(rest) ==> IsAscii(SpacesTo(n, rest)))
  {
    if n > 0 {
      SpacesSize(n - 1, rest);
    }
  }

  lemma BreaksSize(layout: Layout, depth: nat, rest: string)
    ensures |BreakTo(layout, depth, rest)| == BreakSize(layout, depth) + |rest|
    ensures IsAscii(rest) ==> IsAscii(BreakTo(layout, depth, rest))
  {
    SpacesSize(2 * depth, rest);
  }

  lemma AtomSize(v: Value, layout: Layout, depth: nat, rest: string)
    requires Verbatim(v) && Printable(v) && (v.Object? ==> v.fields == [])
    ensures |PrintedTo(v, layout, depth, rest)| == Size(v, layout, depth) + |rest|
    ensures IsAscii(rest) ==> IsAscii(PrintedTo(v, layout, depth, rest))
  {
    if v.Str? {
      CharsSize(v.chars, rest);
    }
  }

  lemma ObjectSize(v: Value, layout: Layout, depth: nat, rest: string, inner: string)
    requires Verbatim(v) && Printable(v) && v.Object? && v.fields != []
    requires inner == FieldsTo(v.fields, layout, depth + 1, BreakTo(layout, depth, ['}'] + rest))
    requires |inner| == FieldsSize(v.fields, layout, depth + 1) + |BreakTo(layout, depth, ['}'] + rest)|
    requires IsAscii(BreakTo(layout, depth, ['}'] + rest)) ==> IsAscii(inner)
    ensures |PrintedTo(v, layout, depth, rest)| == Size(v, layout, depth) + |rest|
    ensures IsAscii(rest) ==> IsAscii(PrintedTo(v, layout, depth, rest))
  {
    BreaksSize(layout, depth, ['}'] + rest);
    BreaksSize(layout, depth + 1, inner);
  }

  /** `Size` is the length of the printed text, and the text is ASCII. */
  lemma {:induction false} PrintedSize(v: Value, layout: Layout, depth: nat, rest: string)
    requires Verbatim(v) && Printable(v)
    ensures |PrintedTo(v, layout, depth, rest)| == Size(v, layout, depth) + |rest|
    ensures IsAscii(rest) ==> IsAscii(PrintedTo(v, layout, depth, rest))
    decreases v
  {
    if v.Object? && v.fields != [] {
      var closing := BreakTo(layout, depth, ['}'] + rest);
      FieldsPrintedSize(v.fields, layout, depth + 1, closing);
      ObjectSize(v, layout, depth, rest, FieldsTo(v.fields, layout, depth + 1, closing));
    } else {
      AtomSize(v, layout, depth, rest);
    }
  }

  lemma {:induction false} FieldsPrintedSize(fields: seq<Field>, layout: Layout, depth: nat, rest: string)
    requires fields != [] && AllFieldsVerbatim(fields) && forall i :: 0 <= i < |fields| ==> Printable(fields[i].value)
    ensures |FieldsTo(fields, layout, depth, rest)| == FieldsSize(fields, layout, depth) + |rest|
    ensures IsAscii(rest) ==> IsAscii(FieldsTo(fields, layout, depth, rest))
    decreases fields
  {
    var after := rest;
    if |fields| > 1 {
      FieldsPrintedSize(fields[1..], layout, depth, rest);
      BreaksSize(layout, depth, FieldsTo(fields[1..], layout, depth, rest));
      after := [','] + BreakTo(layout, depth, FieldsTo(fields[1..], layout, depth, rest));
    }
    FieldPrintedSize(fields[0], layout, depth, after);
  }

  lemma {:induction false} FieldPrintedSize(field: Field, layout: Layout, depth: nat, after: string)
    requires AllVerbatim(field.key) && Verbatim(field.value) && Printable(field.value)
    ensures var t := QuotedTo(field.key, ColonTo(layout, PrintedTo(field.value, layout, depth, after)));
            && |t| == |field.key| + 2 + (if layout.Compact? then 1 else 2) + Size(field.value, layout, depth) + |after|
            && (IsAscii(after) ==> IsAscii(t))
    decreases field
  {
    PrintedSize(field.value, layout, depth, after);
    CharsSize(field.key, ColonTo(layout, PrintedTo(field.value, layout, depth, after)));
  }
}
