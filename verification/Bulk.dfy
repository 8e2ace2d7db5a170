/**
 Bulk bodies for the log index (backend/src/monitoring/event.rs): documents, their
 daily index, and newline-delimited framing.
 */
module Bulk {
  import opened Collections
  import opened JsonText

  /** The UTC date of a timestamp; the calendar itself is the business of the `time` crate. */
  datatype Date = Date(year: nat, month: nat, day: nat) {
    predicate Valid() {
      year <= 9999 && 1 <= month <= 12 && 1 <= day <= 31
    }
  }

  datatype LogDoc = LogDoc(date: Date, body: seq<Field>)

  // --- Daily index ---

  function Digit(n: nat): char
    requires n < 10
  {
    "0123456789"[n]
  }

  function TwoDigits(n: nat): string
    requires n < 100
  {
    [Digit(n / 10), Digit(n % 10)]
  }

  function FourDigits(n: nat): string
    requires n < 10000
  {
    TwoDigits(n / 100) + TwoDigits(n % 100)
  }

  function IndexNameFor(prefix: string, d: Date): string
    requires d.Valid()
  {
    prefix + "-" + FourDigits(d.year) + "." + TwoDigits(d.month) + "." + TwoDigits(d.day)
  }

  lemma TwoDigitsInjective(a: nat, b: nat)
    requires a < 100 && b < 100 && TwoDigits(a) == TwoDigits(b)
    ensures a == b
  {
    assert TwoDigits(a)[0] == TwoDigits(b)[0] && TwoDigits(a)[1] == TwoDigits(b)[1];
    assert a == 10 * (a / 10) + a % 10 && b == 10 * (b / 10) + b % 10;
    DigitInjective(a / 10, b / 10);
    DigitInjective(a % 10, b % 10);
  }

  lemma DigitInjective(a: nat, b: nat)
    requires a < 10 && b < 10 && Digit(a) == Digit(b)
    ensures a == b
  {
  }

  /** What follows the prefix, position by position. */
  lemma IndexNameParts(prefix: string, d: Date)
    requires d.Valid()
    ensures var x, n := IndexNameFor(prefix, d), |prefix|;
            && |x| == n + 11
            && x[n + 1..n + 3] == TwoDigits(d.year / 100) && x[n + 3..n + 5] == TwoDigits(d.year % 100)
            && x[n + 6..n + 8] == TwoDigits(d.month) && x[n + 9..n + 11] == TwoDigits(d.day)
  {
  }

  /** The number that decimal digits spell. */
  ghost function NumberOf(s: string): int {
    if s == "" then 0 else 10 * NumberOf(s[..|s| - 1]) + (s[|s| - 1] as int - '0' as int)
  }

  ghost predicate Decimal(s: string) {
    forall i | 0 <= i < |s| :: '0' <= s[i] <= '9'
  }

  lemma TwoDigitsRead(n: nat)
    requires n < 100
    ensures |TwoDigits(n)| == 2 && Decimal(TwoDigits(n)) && NumberOf(TwoDigits(n)) == n
  {
    var s := TwoDigits(n);
    assert s[..1] == [s[0]] && [s[0]][..0] == "";
    DigitReads(n / 10);
    DigitReads(n % 10);
    assert NumberOf([s[0]]) == 10 * NumberOf("") + n / 10;
  }

  lemma DigitReads(n: nat)
    requires n < 10
    ensures '0' <= Digit(n) <= '9' && Digit(n) as int - '0' as int == n
  {
  }

  lemma FourDigitsRead(n: nat)
    requires n < 10000
    ensures |FourDigits(n)| == 4 && Decimal(FourDigits(n)) && NumberOf(FourDigits(n)) == n
  {
    var hi, lo := TwoDigits(n / 100), TwoDigits(n % 100);
    TwoDigitsRead(n / 100);
    TwoDigitsRead(n % 100);
    assert (hi + lo)[..3] == hi + [lo[0]] && (hi + [lo[0]])[..2] == hi;
    assert lo[..1] == [lo[0]] && [lo[0]][..0] == "";
    assert NumberOf(lo) == 10 * (10 * NumberOf("") + (lo[0] as int - '0' as int)) + (lo[1] as int - '0' as int);
    assert NumberOf(hi + lo) == 10 * NumberOf(hi + [lo[0]]) + (lo[1] as int - '0' as int);
  }

  /** The name of an index is its prefix and its date, in decimal digits: four, two and two. */
  lemma IndexNameSpellsTheDate(prefix: string, d: Date)
    requires d.Valid()
    ensures var x, n := IndexNameFor(prefix, d), |prefix|;
            && |x| == n + 11 && x[..n] == prefix && x[n] == '-' && x[n + 5] == '.' && x[n + 8] == '.'
            && Decimal(x[n + 1..n + 5]) && NumberOf(x[n + 1..n + 5]) == d.year
            && Decimal(x[n + 6..n + 8]) && NumberOf(x[n + 6..n + 8]) == d.month
            && Decimal(x[n + 9..]) && NumberOf(x[n + 9..]) == d.day
  {
    var x, n := IndexNameFor(prefix, d), |prefix|;
    FourDigitsRead(d.year);
    TwoDigitsRead(d.month);
    TwoDigitsRead(d.day);
    assert x[n + 1..n + 5] == FourDigits(d.year) && x[n + 6..n + 8] == TwoDigits(d.month);
    assert x[n + 9..] == TwoDigits(d.day);
  }

  /** Two documents go to the same index exactly when they carry the same date. */
  lemma SameIndexSameDay(prefix: string, a: Date, b: Date)
    requires a.Valid() && b.Valid()
    ensures IndexNameFor(prefix, a) == IndexNameFor(prefix, b) <==> a == b
  {
    if IndexNameFor(prefix, a) == IndexNameFor(prefix, b) {
      IndexNameParts(prefix, a);
      IndexNameParts(prefix, b);
      TwoDigitsInjective(a.year / 100, b.year / 100);
      TwoDigitsInjective(a.year % 100, b.year % 100);
      TwoDigitsInjective(a.month, b.month);
      TwoDigitsInjective(a.day, b.day);
      assert a.year == 100 * (a.year / 100) + a.year % 100 && b.year == 100 * (b.year / 100) + b.year % 100;
    }
  }

  // --- Framing ---

  function ActionOf(prefix: string, doc: LogDoc): Json
    requires doc.date.Valid()
  {
    Object([Field("create", Object([Field("_index", Text(IndexNameFor(prefix, doc.date)))]))])
  }

  function ActionLine(prefix: string, doc: LogDoc): string
    requires doc.date.Valid()
  {
    Render(ActionOf(prefix, doc))
  }

  function BodyLine(doc: LogDoc): string {
    Render(Object(doc.body))
  }

  predicate Plain(s: string) {
    forall i | 0 <= i < |s| :: 32 <= s[i] as int && s[i] != '\"' && s[i] != '\\'
  }

  lemma {:induction false} PlainIsUnescaped(s: string)
    requires Plain(s)
    ensures Escape(s) == s && Quote(s) == "\"" + s + "\""
  {
    if s != "" {
      PlainIsUnescaped(s[1..]);
      assert EscapeChar(s[0]) == [s[0]] && [s[0]] + s[1..] == s;
    }
  }

  lemma OneField(name: string, value: Json)
    ensures Render(Object([Field(name, value)])) == "{" + (Quote(name) + ":" + Render(value)) + "}"
  {
    var fields := [Field(name, value)];
    assert fields[1..] == [] && RenderFields(fields[1..]) == "";
    assert RenderFields(fields) == Quote(name) + ":" + Render(value);
  }

  lemma WordsAreUnescaped()
    ensures Quote("create") == "\"" + "create" + "\"" && Quote("_index") == "\"" + "_index" + "\""
  {
    CreateIsUnescaped();
    var index := "_index";
    assert Plain(index);
    PlainIsUnescaped(index);
  }

  lemma CreateIsUnescaped()
    ensures Quote("create") == "\"" + "create" + "\""
  {
    var create := "create";
    assert Plain(create);
    PlainIsUnescaped(create);
  }

  /** The action line asks to create the document in the index of its day. */
  lemma ActionLineText(prefix: string, doc: LogDoc)
    requires doc.date.Valid() && Plain(IndexNameFor(prefix, doc.date))
    ensures var index := "\"" + IndexNameFor(prefix, doc.date) + "\"";
            var target := "{" + ("\"" + "_index" + "\"" + ":" + index) + "}";
            ActionLine(prefix, doc) == "{" + ("\"" + "create" + "\"" + ":" + target) + "}"
  {
    var name := IndexNameFor(prefix, doc.date);
    PlainIsUnescaped(name);
    WordsAreUnescaped();
    OneField("_index", Text(name));
    OneField("create", Object([Field("_index", Text(name))]));
  }

  predicate Dated(docs: seq<LogDoc>) {
    forall i | 0 <= i < |docs| :: docs[i].date.Valid()
  }

  ghost function Framed(docs: seq<LogDoc>, prefix: string): string
    requires Dated(docs)
  {
    if docs == [] then ""
    else ActionLine(prefix, docs[0]) + "\n" + (BodyLine(docs[0]) + "\n" + Framed(docs[1..], prefix))
  }

  lemma Regroup(out: string, a: string, b: string, rest: string)
    ensures out + a + "\n" + b + "\n" + rest == out + (a + "\n" + (b + "\n" + rest))
  {
  }

  /** The loop of `to_bulk_ndjson`, appending to one growing string. */
  method ToBulkNdjson(docs: seq<LogDoc>, prefix: string) returns (out: string)
    requires Dated(docs)
    ensures out == Framed(docs, prefix) && Frames(out, docs, prefix)
  {
    out := "";
    assert docs[0..] == docs;
    for i := 0 to |docs|
      invariant out + Framed(docs[i..], prefix) == Framed(docs, prefix)
    {
      assert docs[i..][1..] == docs[i + 1..];
      Regroup(out, ActionLine(prefix, docs[i]), BodyLine(docs[i]), Framed(docs[i + 1..], prefix));
      out := out + ActionLine(prefix, docs[i]);
      out := out + "\n";
      out := out + BodyLine(docs[i]);
      out := out + "\n";
    }
    assert out == Framed(docs, prefix);
    FramingRoundTrip(docs, prefix);
  }

  /** The lines of a text, each ended by a newline. */
  function Lines(s: string): seq<string>
    decreases |s|
  {
    var n := LineLength(s);
    if n == |s| then [] else [s[..n]] + Lines(s[n + 1..])
  }

  function LineLength(s: string): (n: nat)
    ensures n <= |s| && OneLine(s[..n]) && (n < |s| ==> s[n] == '\n')
  {
    if s == "" || s[0] == '\n' then 0 else
      var n := 1 + LineLength(s[1..]);
      assert s[..n] == [s[0]] + s[1..][..n - 1];
      n
  }

  lemma {:induction false} LineLengthIs(l: string, rest: string)
    requires OneLine(l)
    ensures LineLength(l + "\n" + rest) == |l|
  {
    if l == "" {
      assert (l + "\n" + rest)[0] == '\n';
    } else {
      assert (l + "\n" + rest)[1..] == l[1..] + "\n" + rest;
      assert l[0] in l;
      LineLengthIs(l[1..], rest);
    }
  }

  predicate Ended(body: string) {
    body == "" || body[|body| - 1] == '\n'
  }

  lemma FirstLine(l: string, rest: string)
    requires OneLine(l)
    ensures Lines(l + "\n" + rest) == [l] + Lines(rest)
    ensures Ended(rest) ==> Ended(l + "\n" + rest)
  {
    LineLengthIs(l, rest);
    assert (l + "\n" + rest)[..|l|] == l && (l + "\n" + rest)[|l| + 1..] == rest;
  }

  function Unframed(lines: seq<string>): seq<(string, string)> {
    if |lines| < 2 then [] else [(lines[0], lines[1])] + Unframed(lines[2..])
  }

  function Pairs(docs: seq<LogDoc>, prefix: string): seq<(string, string)>
    requires Dated(docs)
  {
    if docs == [] then [] else [(ActionLine(prefix, docs[0]), BodyLine(docs[0]))] + Pairs(docs[1..], prefix)
  }

  /** `body` is made of whole lines, two a document: its action and itself. */
  ghost predicate Frames(body: string, docs: seq<LogDoc>, prefix: string)
    requires Dated(docs)
  {
    && Ended(body)
    && |Lines(body)| == 2 * |docs|
    && Unframed(Lines(body)) == Pairs(docs, prefix)
  }

  /** Splitting a body on newlines gives back the (action, document) pairs, in order, and nothing else. */
  lemma {:induction false} FramingRoundTrip(docs: seq<LogDoc>, prefix: string)
    requires Dated(docs)
    ensures Frames(Framed(docs, prefix), docs, prefix)
  {
    if docs != [] {
      var a, b, rest := ActionLine(prefix, docs[0]), BodyLine(docs[0]), Framed(docs[1..], prefix);
      RenderOneLine(ActionOf(prefix, docs[0]));
      RenderOneLine(Object(docs[0].body));
      FramingRoundTrip(docs[1..], prefix);
      FirstLine(b, rest);
      FirstLine(a, b + "\n" + rest);
      TwoMore(a, b, Lines(rest));
    }
  }

  lemma TwoMore(a: string, b: string, lines: seq<string>)
    ensures [a] + ([b] + lines) == [a, b] + lines
    ensures Unframed([a, b] + lines) == [(a, b)] + Unframed(lines)
  {
    assert ([a, b] + lines)[2..] == lines;
  }

  /** A line pair gives back its document: the action line its day, the body line its fields. */
  lemma LinesDetermine(prefix: string, a: LogDoc, b: LogDoc)
    requires a.date.Valid() && b.date.Valid()
    requires ActionLine(prefix, a) == ActionLine(prefix, b) && BodyLine(a) == BodyLine(b)
    ensures a == b
  {
    RenderInjective(ActionOf(prefix, a), ActionOf(prefix, b));
    assert ActionOf(prefix, a).fields[0].value.fields[0].value == ActionOf(prefix, b).fields[0].value.fields[0].value;
    SameIndexSameDay(prefix, a.date, b.date);
    RenderInjective(Object(a.body), Object(b.body));
  }

  lemma {:induction false} PairsDetermine(prefix: string, a: seq<LogDoc>, b: seq<LogDoc>)
    requires Dated(a) && Dated(b) && Pairs(a, prefix) == Pairs(b, prefix)
    ensures a == b
  {
    if a != [] && b != [] {
      assert Pairs(a, prefix)[0] == (ActionLine(prefix, a[0]), BodyLine(a[0]));
      assert Pairs(b, prefix)[0] == (ActionLine(prefix, b[0]), BodyLine(b[0]));
      LinesDetermine(prefix, a[0], b[0]);
      assert Pairs(a, prefix)[1..] == Pairs(a[1..], prefix) && Pairs(b, prefix)[1..] == Pairs(b[1..], prefix);
      PairsDetermine(prefix, a[1..], b[1..]);
      SameElements(a, b);
    }
  }

  /** A bulk body can be read back: it frames one list of documents only, each with its day and its fields. */
  lemma BodyDeterminesDocs(prefix: string, body: string, a: seq<LogDoc>, b: seq<LogDoc>)
    requires Dated(a) && Dated(b) && Frames(body, a, prefix) && Frames(body, b, prefix)
    ensures a == b
  {
    PairsDetermine(prefix, a, b);
  }
}
