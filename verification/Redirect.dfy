/**
 The post-login redirect check (frontend/lib/redirect.ts). A `char` stands for one
 UTF-16 code unit.
 */
module Redirect {
  datatype Candidate = NotText | Given(text: string)

  const DEFAULT_AFTER_LOGIN := "/profile"
  const MAX_LENGTH := 512

  predicate StartsWith(s: string, p: string) {
    p <= s
  }

  predicate HasControl(s: string) {
    exists i :: 0 <= i < |s| && (s[i] as int <= 0x1f || s[i] as int == 0x7f)
  }

  predicate HasBackslash(s: string) {
    '\\' in s
  }

  /** `/%2f|%5c|%00/i` matches at position `i`. */
  predicate EncodedAt(s: string, i: nat)
    requires i + 2 < |s|
  {
    s[i] == '%' &&
    (|| (s[i + 1] == '2' && s[i + 2] in "fF")
     || (s[i + 1] == '5' && s[i + 2] in "cC")
     || (s[i + 1] == '0' && s[i + 2] == '0'))
  }

  predicate HasEncodedSeparator(s: string) {
    exists i :: 0 <= i < |s| - 2 && EncodedAt(s, i)
  }

  /** `split(/[?#]/, 1)[0]`: what comes before the first `?` or `#`. */
  function PathOnly(s: string): string {
    if s == "" || s[0] == '?' || s[0] == '#' then "" else [s[0]] + PathOnly(s[1..])
  }

  function Segments(s: string): (r: seq<string>)
    ensures r != []
  {
    if s == "" then [""]
    else
      var rest := Segments(s[1..]);
      if s[0] == '/' then [""] + rest else [[s[0]] + rest[0]] + rest[1..]
  }

  predicate HasDotSegment(s: string) {
    exists seg | seg in Segments(s) :: seg == "." || seg == ".."
  }

  predicate Allowed(path: string) {
    path == "/" || path == "/profile" || path == "/admin" || StartsWith(path, "/admin/")
  }

  function SafeNextPath(raw: Candidate): string {
    if raw.NotText? || raw.text == "" || |raw.text| > MAX_LENGTH then DEFAULT_AFTER_LOGIN
    else
      var s := raw.text;
      if !StartsWith(s, "/") || StartsWith(s, "//") || StartsWith(s, "/\\") then DEFAULT_AFTER_LOGIN
      else if HasControl(s) then DEFAULT_AFTER_LOGIN
      else if HasBackslash(s) then DEFAULT_AFTER_LOGIN
      else if HasEncodedSeparator(s) then DEFAULT_AFTER_LOGIN
      else
        var path := PathOnly(s);
        if HasDotSegment(path) then DEFAULT_AFTER_LOGIN
        else if Allowed(path) then path
        else DEFAULT_AFTER_LOGIN
  }

  /** A path no browser or later decoder reads as anything but an internal page of the list. */
  ghost predicate Safe(p: string) {
    && Allowed(p)
    && !StartsWith(p, "//")
    && !HasControl(p) && !HasBackslash(p) && !HasEncodedSeparator(p) && !HasDotSegment(p)
    && '?' !in p && '#' !in p
    && |p| <= MAX_LENGTH
  }

  lemma {:induction false} PathOnlyIsPrefix(s: string)
    ensures PathOnly(s) <= s
    ensures '?' !in PathOnly(s) && '#' !in PathOnly(s)
    ensures |PathOnly(s)| < |s| ==> s[|PathOnly(s)|] in "?#"
  {
    if s != "" && s[0] != '?' && s[0] != '#' {
      PathOnlyIsPrefix(s[1..]);
    }
  }

  lemma {:induction false} PathOnlyOfPath(s: string)
    requires '?' !in s && '#' !in s
    ensures PathOnly(s) == s
  {
    if s != "" {
      assert s[0] in s;
      assert forall c | c in s[1..] :: c in s;
      PathOnlyOfPath(s[1..]);
      assert [s[0]] + s[1..] == s;
    }
  }

  /** Every character check that passes on a text passes on what is left of it after the cut. */
  lemma CutKeepsChecks(p: string, s: string)
    requires p <= s && !HasControl(s) && !HasBackslash(s) && !HasEncodedSeparator(s)
    ensures !HasControl(p) && !HasBackslash(p) && !HasEncodedSeparator(p)
  {
    forall i | 0 <= i < |p| ensures p[i] == s[i] { }
    if i :| 0 <= i < |p| - 2 && EncodedAt(p, i) {
      assert EncodedAt(s, i);
    }
  }

  /** The literal paths of the list contain none of the refused characters and no dot segment. */
  lemma DefaultIsSafe()
    ensures Safe(DEFAULT_AFTER_LOGIN)
  {
    assert DEFAULT_AFTER_LOGIN[1] == 'p';
    DefaultHasNoDotSegment();
  }

  lemma DefaultHasNoDotSegment()
    ensures !HasDotSegment(DEFAULT_AFTER_LOGIN)
  {
    OneSegment("profile");
    assert DEFAULT_AFTER_LOGIN[1..] == "profile";
    assert Segments(DEFAULT_AFTER_LOGIN) == ["", "profile"];
  }

  lemma {:induction false} OneSegment(s: string)
    requires '/' !in s
    ensures Segments(s) == [s]
  {
    if s != "" {
      assert s[0] in s;
      OneSegment(s[1..]);
      assert [s[0]] + s[1..] == s;
    }
  }

  /** Whatever is given, the result is a safe internal path. */
  lemma ResultIsSafe(raw: Candidate)
    ensures Safe(SafeNextPath(raw))
  {
    DefaultIsSafe();
    if raw.Given? {
      PathOnlyIsPrefix(raw.text);
      if !HasControl(raw.text) && !HasBackslash(raw.text) && !HasEncodedSeparator(raw.text) {
        CutKeepsChecks(PathOnly(raw.text), raw.text);
      }
    }
  }

  /** A safe path is left as it is. */
  lemma SafeIsFixed(p: string)
    requires Safe(p)
    ensures SafeNextPath(Given(p)) == p
  {
    PathOnlyOfPath(p);
    assert p[0] == '/';
    assert |p| >= 2 ==> p[1] in p;
  }

  lemma {:induction false} CutAt(p: string, q: string)
    requires '?' !in p && '#' !in p && (q == "" || q[0] == '?' || q[0] == '#')
    ensures PathOnly(p + q) == p
  {
    if p == "" {
      assert p + q == q;
    } else {
      assert p[0] in p && (p + q)[1..] == p[1..] + q;
      assert forall c | c in p[1..] :: c in p;
      CutAt(p[1..], q);
      assert [p[0]] + p[1..] == p;
    }
  }

  lemma CleanConcat(p: string, q: string)
    requires q == "" || q[0] == '?' || q[0] == '#'
    requires !HasControl(p) && !HasBackslash(p) && !HasEncodedSeparator(p)
    ensures HasControl(p + q) <==> HasControl(q)
    ensures HasBackslash(p + q) <==> HasBackslash(q)
    ensures HasEncodedSeparator(p + q) <==> HasEncodedSeparator(q)
  {
    var s := p + q;
    assert forall i | 0 <= i < |p| :: s[i] == p[i];
    assert forall i | |p| <= i < |s| :: s[i] == q[i - |p|];
    assert forall i | 0 <= i < |q| :: s[|p| + i] == q[i];
    if i :| 0 <= i < |q| - 2 && EncodedAt(q, i) { assert EncodedAt(s, |p| + i); }
    if i :| 0 <= i < |s| - 2 && EncodedAt(s, i) {
      if i >= |p| {
        assert EncodedAt(q, i - |p|);
      } else if i + 2 < |p| {
        assert EncodedAt(p, i);
      }
    }
    if HasControl(q) {
      var i :| 0 <= i < |q| && (q[i] as int <= 0x1f || q[i] as int == 0x7f);
      assert s[|p| + i] as int <= 0x1f || s[|p| + i] as int == 0x7f;
    }
    if HasControl(s) {
      var i :| 0 <= i < |s| && (s[i] as int <= 0x1f || s[i] as int == 0x7f);
    }
  }

  /**
   A query or a fragment after a safe path is dropped, unless it holds a refused character or makes the text too long.
   */
  lemma QueryIsDropped(p: string, q: string)
    requires Safe(p) && (q == "" || q[0] == '?' || q[0] == '#')
    ensures SafeNextPath(Given(p + q))
         == if |p + q| <= MAX_LENGTH && !HasControl(q) && !HasBackslash(q) && !HasEncodedSeparator(q) then p
            else DEFAULT_AFTER_LOGIN
  {
    CutAt(p, q);
    CleanConcat(p, q);
    assert p[0] == '/' && (p + q)[0] == '/';
    assert |p + q| >= 2 ==> (p + q)[1] == if |p| >= 2 then p[1] else q[0];
    assert |p| >= 2 ==> p[1] in p;
  }

  /** The result is the default page or what stands before the first `?` or `#` of the text. */
  lemma ResultIsCutOrDefault(raw: Candidate)
    ensures var r := SafeNextPath(raw);
            || r == DEFAULT_AFTER_LOGIN
            || (raw.Given? && r <= raw.text && '?' !in r && '#' !in r && (|r| < |raw.text| ==> raw.text[|r|] in "?#"))
  {
    if raw.Given? {
      PathOnlyIsPrefix(raw.text);
    }
  }

  /** So checking twice changes nothing. */
  lemma Idempotent(raw: Candidate)
    ensures SafeNextPath(Given(SafeNextPath(raw))) == SafeNextPath(raw)
  {
    ResultIsSafe(raw);
    SafeIsFixed(SafeNextPath(raw));
  }

  /** The paths that can come out are exactly the safe ones. */
  lemma ResultsAreExactlySafe(p: string)
    ensures Safe(p) <==> exists raw :: SafeNextPath(raw) == p
  {
    if Safe(p) {
      SafeIsFixed(p);
    }
    forall raw | SafeNextPath(raw) == p ensures Safe(p) {
      ResultIsSafe(raw);
    }
  }

  // --- The same, character by character ---

  /** The segment that begins at `i` is `seg`. */
  ghost predicate SegmentAt(p: string, i: nat, seg: string) {
    && i + |seg| <= |p| && p[i..i + |seg|] == seg
    && (i == 0 || p[i - 1] == '/') && (i + |seg| == |p| || p[i + |seg|] == '/')
  }

  lemma {:induction false} FirstSegment(s: string, seg: string)
    requires '/' !in seg
    ensures Segments(s)[0] == seg <==> SegmentAt(s, 0, seg)
  {
    if s != "" {
      if s[0] == '/' {
        assert seg != "" ==> seg[0] in seg;
        assert |seg| <= |s| && seg != "" ==> s[..|seg|][0] == s[0];
      } else if seg != "" {
        assert forall c | c in seg[1..] :: c in seg;
        FirstSegment(s[1..], seg[1..]);
        assert seg == [seg[0]] + seg[1..];
        if |seg| <= |s| {
          assert s[..|seg|] == [s[0]] + s[1..][..|seg| - 1];
        }
      }
    }
  }

  lemma NextPosition(s: string, i: nat, seg: string)
    requires s != ""
    ensures SegmentAt(s, i + 1, seg) <==> SegmentAt(s[1..], i, seg) && (i > 0 || s[0] == '/')
  {
    if i + 1 + |seg| <= |s| {
      assert s[i + 1..i + 1 + |seg|] == s[1..][i..i + |seg|];
    }
  }

  lemma {:induction false} LaterSegments(s: string, seg: string)
    requires '/' !in seg && seg != ""
    ensures seg in Segments(s)[1..] <==> exists i: nat :: i > 0 && SegmentAt(s, i, seg)
  {
    if s != "" {
      FirstSegment(s[1..], seg);
      LaterSegments(s[1..], seg);
      InOrFirst(Segments(s[1..]), seg);
      if seg in Segments(s)[1..] {
        var i: nat :| SegmentAt(s[1..], i, seg) && (i > 0 || s[0] == '/');
        NextPosition(s, i, seg);
      }
      if i: nat :| i > 0 && SegmentAt(s, i, seg) {
        NextPosition(s, i - 1, seg);
      }
    }
  }

  lemma InOrFirst<T>(parts: seq<T>, x: T)
    requires parts != []
    ensures x in parts <==> x == parts[0] || x in parts[1..]
  {
    assert parts == [parts[0]] + parts[1..];
  }

  lemma HasSegment(s: string, seg: string)
    requires '/' !in seg && seg != ""
    ensures seg in Segments(s) <==> exists i: nat :: SegmentAt(s, i, seg)
  {
    FirstSegment(s, seg);
    LaterSegments(s, seg);
    InOrFirst(Segments(s), seg);
  }

  /** A percent code for a slash, a backslash or a zero byte, in either case. */
  ghost predicate CodeAt(p: string, i: nat) {
    i + 3 <= |p| && p[i..i + 3] in {"%2f", "%2F", "%5c", "%5C", "%00"}
  }

  /** A safe path, said without the checks of the code. */
  ghost predicate PlainlySafe(p: string) {
    && (p == "/" || p == "/profile" || p == "/admin" || (|p| >= 7 && p[..7] == "/admin/"))
    && |p| <= 512
    && (forall i | 0 <= i < |p| ::
          0x20 <= p[i] as int != 0x7f && p[i] != '\\' && p[i] != '?' && p[i] != '#')
    && (forall i: nat :: !CodeAt(p, i))
    && (forall i: nat :: !SegmentAt(p, i, ".") && !SegmentAt(p, i, ".."))
  }

  lemma EncodedMeans(s: string, i: nat)
    requires i + 2 < |s|
    ensures EncodedAt(s, i) <==> CodeAt(s, i)
  {
    assert s[i..i + 3] == [s[i], s[i + 1], s[i + 2]];
  }

  lemma CodesMean(p: string)
    ensures HasEncodedSeparator(p) <==> exists i: nat :: CodeAt(p, i)
  {
    if i :| 0 <= i < |p| - 2 && EncodedAt(p, i) { EncodedMeans(p, i); }
    if i: nat :| CodeAt(p, i) { EncodedMeans(p, i); }
  }

  lemma DotsMean(p: string)
    ensures HasDotSegment(p) <==> exists i: nat :: SegmentAt(p, i, ".") || SegmentAt(p, i, "..")
  {
    HasSegment(p, ".");
    HasSegment(p, "..");
  }

  lemma PlainMeans(p: string)
    ensures (!HasControl(p) && !HasBackslash(p) && '?' !in p && '#' !in p) <==>
              forall i | 0 <= i < |p| ::
                0x20 <= p[i] as int != 0x7f && p[i] != '\\' && p[i] != '?' && p[i] != '#'
  {
  }

  lemma AllowedMeans(p: string)
    ensures Allowed(p) && !StartsWith(p, "//") <==>
              p == "/" || p == "/profile" || p == "/admin" || (|p| >= 7 && p[..7] == "/admin/")
  {
    assert "/profile"[1] == 'p' && "/admin"[1] == 'a' && "/admin/"[1] == 'a' && "//"[1] == '/' && |"/admin/"| == 7;
    assert "/admin/" <= p <==> |p| >= 7 && p[..7] == "/admin/";
    assert |p| >= 7 ==> p[..7][1] == p[1];
    assert "//" <= p ==> p[1] == '/';
  }

  lemma SafeIsPlainlySafe(p: string)
    ensures Safe(p) <==> PlainlySafe(p)
  {
    CodesMean(p);
    DotsMean(p);
    PlainMeans(p);
    AllowedMeans(p);
  }

  /** The results are exactly the plainly safe paths, and each of them is its own result. */
  lemma ResultsArePlainlySafe(raw: Candidate, p: string)
    ensures PlainlySafe(SafeNextPath(raw))
    ensures PlainlySafe(p) ==> SafeNextPath(Given(p)) == p
  {
    ResultIsSafe(raw);
    SafeIsPlainlySafe(SafeNextPath(raw));
    SafeIsPlainlySafe(p);
    if Safe(p) { SafeIsFixed(p); }
  }
}
