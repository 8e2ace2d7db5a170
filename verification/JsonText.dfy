/**
 The compact JSON text of `serde_json`, which the log pipeline writes one value a line
 (backend/src/monitoring/event.rs). The text of a number is left to `serde_json`.
 */
module JsonText {
  import opened Collections

  predicate NumberChar(c: char) {
    c in "0123456789+-.eE"
  }

  type NumberText = s: string | s != "" && forall c | c in s :: NumberChar(c) witness "0"

  datatype Json =
    | Null
    | Bool(b: bool)
    | Number(text: NumberText)
    | Text(s: string)
    | Array(items: seq<Json>)
    | Object(fields: seq<Field>)

  datatype Field = Field(name: string, value: Json)

  const HEX := "0123456789abcdef"

  // --- JSON text ---

  function EscapeChar(c: char): string {
    if c == '\"' then "\\\""
    else if c == '\\' then "\\\\"
    else if c as int == 8 then "\\b"
    else if c as int == 9 then "\\t"
    else if c as int == 10 then "\\n"
    else if c as int == 12 then "\\f"
    else if c as int == 13 then "\\r"
    else if c as int < 32 then "\\u00" + [HEX[c as int / 16], HEX[c as int % 16]]
    else [c]
  }

  function Escape(s: string): string {
    if s == "" then "" else EscapeChar(s[0]) + Escape(s[1..])
  }

  function Quote(s: string): string {
    "\"" + Escape(s) + "\""
  }

  function Render(j: Json): string
    decreases j, 0
  {
    match j
    case Null => "null"
    case Bool(b) => if b then "true" else "false"
    case Number(text) => text
    case Text(s) => Quote(s)
    case Array(items) => "[" + RenderItems(items) + "]"
    case Object(fields) => "{" + RenderFields(fields) + "}"
  }

  function RenderItems(items: seq<Json>): string
    decreases items, 1
  {
    if items == [] then ""
    else Render(items[0]) + (if |items| == 1 then "" else ",") + RenderItems(items[1..])
  }

  function RenderFields(fields: seq<Field>): string
    decreases fields, 1
  {
    if fields == [] then ""
    else
      Quote(fields[0].name) + ":" + Render(fields[0].value)
      + (if |fields| == 1 then "" else ",") + RenderFields(fields[1..])
  }

  predicate OneLine(s: string) {
    '\n' !in s
  }

  lemma EscapeCharOneLine(c: char)
    ensures OneLine(EscapeChar(c))
  {
    assert forall i | 0 <= i < |HEX| :: HEX[i] != '\n';
  }

  lemma {:induction false} EscapeOneLine(s: string)
    ensures OneLine(Escape(s)) && OneLine(Quote(s))
  {
    if s != "" {
      EscapeCharOneLine(s[0]);
      EscapeOneLine(s[1..]);
      JoinOneLine(EscapeChar(s[0]), Escape(s[1..]));
    }
    JoinOneLine("\"", Escape(s));
    JoinOneLine("\"" + Escape(s), "\"");
  }

  lemma JoinOneLine(a: string, b: string)
    requires OneLine(a) && OneLine(b)
    ensures OneLine(a + b)
  {
  }

  /** JSON text never contains a raw newline, whatever strings it carries. */
  lemma {:induction false} RenderOneLine(j: Json)
    ensures OneLine(Render(j))
    decreases j, 0
  {
    match j
    case Text(s) => EscapeOneLine(s);
    case Array(items) => ItemsOneLine(items);
    case Object(fields) => FieldsOneLine(fields);
    case Number(text) =>
      forall c | c in text ensures c != '\n' { assert NumberChar(c); }
    case _ =>
  }

  lemma {:induction false} ItemsOneLine(items: seq<Json>)
    ensures OneLine(RenderItems(items))
    decreases items, 1
  {
    if items != [] {
      RenderOneLine(items[0]);
      ItemsOneLine(items[1..]);
    }
  }

  lemma {:induction false} FieldsOneLine(fields: seq<Field>)
    ensures OneLine(RenderFields(fields))
    decreases fields, 1
  {
    if fields != [] {
      EscapeOneLine(fields[0].name);
      RenderOneLine(fields[0].value);
      FieldsOneLine(fields[1..]);
    }
  }

  // --- The text determines the value ---

  /** What follows a value cannot be taken for more digits. */
  predicate Ends(x: string) {
    x == "" || !NumberChar(x[0])
  }

  lemma Nothing(x: string)
    ensures "" + x == x
  {
  }

  lemma Assoc(a: string, b: string, c: string)
    ensures (a + b) + c == a + (b + c)
  {
  }

  lemma HexInjective(a: nat, b: nat)
    requires a < 16 && b < 16 && HEX[a] == HEX[b]
    ensures a == b
  {
  }

  lemma EscapeCharShape(c: char)
    ensures var e := EscapeChar(c);
            && e != "" && e[0] != '\"'
            && (if |e| == 1 then e == [c] && c != '\\' else e[0] == '\\')
            && (|e| == 1 || |e| == 2 || (|e| == 6 && e[1] == 'u' && (c as int) < 32))
            && (|e| == 2 ==> e[1] != 'u')
  {
  }

  lemma ShortEscapeDetermines(c: char, d: char)
    requires |EscapeChar(c)| == 2 && EscapeChar(c) == EscapeChar(d)
    ensures c == d
  {
    assert EscapeChar(c)[1] == EscapeChar(d)[1];
  }

  lemma LongEscapeDetermines(c: char, d: char)
    requires |EscapeChar(c)| == 6 && EscapeChar(c) == EscapeChar(d)
    ensures c == d
  {
    assert EscapeChar(c)[4] == HEX[c as int / 16] && EscapeChar(c)[5] == HEX[c as int % 16];
    assert EscapeChar(d)[4] == HEX[d as int / 16] && EscapeChar(d)[5] == HEX[d as int % 16];
    HexInjective(c as int / 16, d as int / 16);
    HexInjective(c as int % 16, d as int % 16);
    assert c as int == d as int;
  }

  lemma EscapeCharReadsBack(c: char, x: string, d: char, y: string)
    requires EscapeChar(c) + x == EscapeChar(d) + y
    ensures c == d && x == y
  {
    var e, f := EscapeChar(c), EscapeChar(d);
    EscapeCharShape(c);
    EscapeCharShape(d);
    assert e[0] == (e + x)[0] && f[0] == (f + y)[0];
    assert |e| > 1 ==> e[1] == (e + x)[1];
    assert |f| > 1 ==> f[1] == (f + y)[1];
    assert |e| == |f|;
    assert e == (e + x)[..|e|] && f == (f + y)[..|f|];
    if |e| == 2 { ShortEscapeDetermines(c, d); }
    if |e| == 6 { LongEscapeDetermines(c, d); }
    Cancel(e, x, y);
  }

  /** Escaped text ends at the first bare quote. */
  lemma {:induction false} EscapeReadsBack(s: string, x: string, t: string, y: string)
    requires Escape(s) + "\"" + x == Escape(t) + "\"" + y
    ensures s == t && x == y
  {
    Assoc(Escape(s), "\"", x);
    Assoc(Escape(t), "\"", y);
    Nothing("\"" + x);
    Nothing("\"" + y);
    if s != "" { EscapeStep(s, "\"" + x); }
    if t != "" { EscapeStep(t, "\"" + y); }
    if s == "" && t == "" {
      Cancel("\"", x, y);
    } else if s != "" && t != "" {
      EscapeCharReadsBack(s[0], Escape(s[1..]) + ("\"" + x), t[0], Escape(t[1..]) + ("\"" + y));
      Assoc(Escape(s[1..]), "\"", x);
      Assoc(Escape(t[1..]), "\"", y);
      EscapeReadsBack(s[1..], x, t[1..], y);
      assert s == [s[0]] + s[1..] && t == [t[0]] + t[1..];
    }
  }

  lemma EscapeStep(s: string, x: string)
    requires s != ""
    ensures Escape(s) + x == EscapeChar(s[0]) + (Escape(s[1..]) + x)
    ensures (Escape(s) + x)[0] != '\"'
  {
    EscapeCharShape(s[0]);
    Assoc(EscapeChar(s[0]), Escape(s[1..]), x);
  }

  lemma QuoteReadsBack(s: string, x: string, t: string, y: string)
    requires Quote(s) + x == Quote(t) + y
    ensures s == t && x == y
  {
    QuoteShape(s, x);
    QuoteShape(t, y);
    Cancel("\"", Escape(s) + "\"" + x, Escape(t) + "\"" + y);
    EscapeReadsBack(s, x, t, y);
  }

  lemma QuoteShape(s: string, x: string)
    ensures Quote(s) + x == "\"" + (Escape(s) + "\"" + x)
  {
  }

  lemma NextChar(s: string, x: string, t: string, y: string)
    requires s + x == t + y && |s| < |t|
    ensures x != "" && x[0] in t
  {
    assert |s + x| == |t + y|;
    assert (t + y)[|s|] == t[|s|];
    assert x != "" ==> (s + x)[|s|] == x[0];
  }

  lemma NumberReadsBack(s: NumberText, x: string, t: NumberText, y: string)
    requires s + x == t + y && Ends(x) && Ends(y)
    ensures s == t && x == y
  {
    if |s| < |t| {
      NextChar(s, x, t, y);
    } else if |t| < |s| {
      NextChar(t, y, s, x);
    } else {
      assert (s + x)[..|s|] == s && (t + y)[..|t|] == t;
      Cancel(s, x, y);
    }
  }

  /** The first character tells the kind of value. */
  lemma FirstChar(j: Json)
    ensures Render(j) != ""
    ensures match j
      case Null => Render(j)[0] == 'n'
      case Bool(b) => Render(j)[0] == if b then 't' else 'f'
      case Number(_) => NumberChar(Render(j)[0])
      case Text(_) => Render(j)[0] == '\"'
      case Array(_) => Render(j)[0] == '['
      case Object(_) => Render(j)[0] == '{'
  {
    if j.Number? {
      assert j.text[0] in j.text;
    }
  }

  /** Two values whose texts begin the same line are the same value. */
  lemma {:induction false} RenderReadsBack(a: Json, x: string, b: Json, y: string)
    requires Render(a) + x == Render(b) + y && Ends(x) && Ends(y)
    ensures a == b && x == y
    decreases a, 0
  {
    FirstChar(a);
    FirstChar(b);
    assert (Render(a) + x)[0] == Render(a)[0] && (Render(b) + y)[0] == Render(b)[0];
    match a
    case Null => Cancel("null", x, y);
    case Bool(v) => Cancel(Render(a), x, y);
    case Number(text) => NumberReadsBack(text, x, b.text, y);
    case Text(s) => QuoteReadsBack(s, x, b.s, y);
    case Array(items) =>
      Bracket("[", RenderItems(items), "]", x);
      Bracket("[", RenderItems(b.items), "]", y);
      Cancel("[", RenderItems(items) + ("]" + x), RenderItems(b.items) + ("]" + y));
      ItemsReadBack(items, x, b.items, y);
    case Object(fields) =>
      Bracket("{", RenderFields(fields), "}", x);
      Bracket("{", RenderFields(b.fields), "}", y);
      Cancel("{", RenderFields(fields) + ("}" + x), RenderFields(b.fields) + ("}" + y));
      FieldsReadBack(fields, x, b.fields, y);
  }

  lemma Bracket(l: string, m: string, r: string, x: string)
    ensures (l + m + r) + x == l + (m + (r + x))
  {
  }

  /** What comes after the first element of a list: its closing bracket, or a comma and the other elements. */
  function After(more: bool, rest: string, close: string): string {
    if more then "," + (rest + close) else close
  }

  /** Both lists stop at the same element, or both go on. */
  lemma TailsAgree(more: bool, rest: string, x: string, more': bool, rest': string, y: string, close: string)
    requires |close| == 1 && close != ","
    requires After(more, rest, close + x) == After(more', rest', close + y)
    ensures more == more' && (if more then rest + (close + x) == rest' + (close + y) else x == y)
  {
    Head(close, x);
    Head(close, y);
    if more {
      Head(",", rest + (close + x));
      Cancel(",", rest + (close + x), rest' + (close + y));
    } else {
      Cancel(close, x, y);
    }
  }

  lemma Head(first: string, rest: string)
    requires first != ""
    ensures (first + rest)[0] == first[0]
  {
  }

  lemma StartsAlike(text: string, first: string, rest: string)
    requires first != "" && text == first + rest
    ensures text != "" && text[0] == first[0]
  {
    Head(first, rest);
  }

  lemma ItemsStep(items: seq<Json>, close: string)
    requires items != []
    ensures RenderItems(items) + close == Render(items[0]) + After(|items| > 1, RenderItems(items[1..]), close)
  {
    var first, rest := Render(items[0]), RenderItems(items[1..]);
    if |items| == 1 {
      assert rest == "";
      OnlyOne(first, close);
    } else {
      MoreToCome(first, rest, close);
    }
  }

  lemma ItemsHead(items: seq<Json>, close: string)
    requires items != []
    ensures RenderItems(items) + close != "" && (RenderItems(items) + close)[0] != ']'
  {
    ItemsStep(items, close);
    FirstChar(items[0]);
    StartsAlike(RenderItems(items) + close, Render(items[0]), After(|items| > 1, RenderItems(items[1..]), close));
    assert Render(items[0])[0] != ']';
  }

  lemma OnlyOne(first: string, close: string)
    ensures first + "" + "" + close == first + close
  {
  }

  lemma MoreToCome(first: string, rest: string, close: string)
    ensures first + "," + rest + close == first + ("," + (rest + close))
  {
  }

  lemma {:induction false} ItemsReadBack(a: seq<Json>, x: string, b: seq<Json>, y: string)
    requires RenderItems(a) + ("]" + x) == RenderItems(b) + ("]" + y)
    ensures a == b && x == y
    decreases a, 1
  {
    Nothing("]" + x);
    Nothing("]" + y);
    if a != [] { ItemsHead(a, "]" + x); }
    if b != [] { ItemsHead(b, "]" + y); }
    if a == [] && b == [] {
      Cancel("]", x, y);
    } else if a != [] && b != [] {
      ItemsStep(a, "]" + x);
      ItemsStep(b, "]" + y);
      var r, q := RenderItems(a[1..]), RenderItems(b[1..]);
      RenderReadsBack(a[0], After(|a| > 1, r, "]" + x), b[0], After(|b| > 1, q, "]" + y));
      TailsAgree(|a| > 1, r, x, |b| > 1, q, y, "]");
      assert |a| == 1 ==> a[1..] == [] && b[1..] == [];
      if |a| > 1 { ItemsReadBack(a[1..], x, b[1..], y); }
      SameElements(a, b);
    }
  }

  lemma FieldsStep(fields: seq<Field>, close: string)
    requires fields != []
    ensures RenderFields(fields) + close
         == Quote(fields[0].name)
            + (":" + (Render(fields[0].value) + After(|fields| > 1, RenderFields(fields[1..]), close)))
    ensures RenderFields(fields) + close != "" && (RenderFields(fields) + close)[0] == '\"'
  {
    var name, value, rest := Quote(fields[0].name), Render(fields[0].value), RenderFields(fields[1..]);
    if |fields| == 1 {
      assert rest == "";
      OnlyOne(name + ":" + value, close);
    } else {
      MoreToCome(name + ":" + value, rest, close);
    }
    Named(name, value, After(|fields| > 1, rest, close));
  }

  lemma Named(name: string, value: string, rest: string)
    ensures name + ":" + value + rest == name + (":" + (value + rest))
  {
  }

  lemma {:induction false} FieldsReadBack(a: seq<Field>, x: string, b: seq<Field>, y: string)
    requires RenderFields(a) + ("}" + x) == RenderFields(b) + ("}" + y)
    ensures a == b && x == y
    decreases a, 1
  {
    Nothing("}" + x);
    Nothing("}" + y);
    if a != [] { FieldsStep(a, "}" + x); }
    if b != [] { FieldsStep(b, "}" + y); }
    if a == [] && b == [] {
      Cancel("}", x, y);
    } else if a != [] && b != [] {
      var r, q := RenderFields(a[1..]), RenderFields(b[1..]);
      var u, v := After(|a| > 1, r, "}" + x), After(|b| > 1, q, "}" + y);
      QuoteReadsBack(a[0].name, ":" + (Render(a[0].value) + u), b[0].name, ":" + (Render(b[0].value) + v));
      Cancel(":", Render(a[0].value) + u, Render(b[0].value) + v);
      RenderReadsBack(a[0].value, u, b[0].value, v);
      TailsAgree(|a| > 1, r, x, |b| > 1, q, y, "}");
      assert |a| == 1 ==> a[1..] == [] && b[1..] == [];
      if |a| > 1 { FieldsReadBack(a[1..], x, b[1..], y); }
      SameElements(a, b);
    }
  }

  /** The text of a value can be read back: no two values share it. */
  lemma RenderInjective(a: Json, b: Json)
    requires Render(a) == Render(b)
    ensures a == b
  {
    assert Render(a) + "" == Render(b) + "";
    RenderReadsBack(a, "", b, "");
  }
}
