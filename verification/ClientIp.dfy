/**
 The trusted client address (backend/src/middleware/client.rs). `X-Forwarded-For` is a
 comma-separated list to which each trusted proxy appends one entry on the right.
 Parsing an address is the standard library's: a function parameter.
 */
module ClientIp {
  import opened Options

  predicate Blank(c: char) {
    c == ' ' || c == '\t'
  }

  /** `HeaderValue::to_str` succeeds on visible ASCII and tabs. */
  predicate Readable(s: string) {
    forall i | 0 <= i < |s| :: (32 <= s[i] as int < 127) || s[i] == '\t'
  }

  function TrimLeft(s: string): string {
    if s != "" && Blank(s[0]) then TrimLeft(s[1..]) else s
  }

  function TrimRight(s: string): string {
    if s != "" && Blank(s[|s| - 1]) then TrimRight(s[..|s| - 1]) else s
  }

  function Trim(s: string): string {
    TrimRight(TrimLeft(s))
  }

  function Split(s: string): (r: seq<string>)
    ensures r != []
  {
    if s == "" then [""]
    else
      var rest := Split(s[1..]);
      if s[0] == ',' then [""] + rest else [[s[0]] + rest[0]] + rest[1..]
  }

  function Entries(parts: seq<string>): seq<string> {
    if parts == [] then []
    else (if Trim(parts[0]) == "" then [] else [Trim(parts[0])]) + Entries(parts[1..])
  }

  /** The non-empty trimmed entries of a header, left to right. */
  function Chain(xff: string): seq<string> {
    Entries(Split(xff))
  }

  function ClientIp<Ip>(xff: Option<string>, peer: Option<Ip>, trustedHops: nat,
                        parse: string -> Option<Ip>): Option<Ip> {
    if trustedHops == 0 then peer
    else if xff.Some? && Readable(xff.value) then
      var chain := Chain(xff.value);
      if |chain| >= trustedHops then
        var ip := parse(chain[|chain| - trustedHops]);
        if ip.Some? then ip else peer
      else peer
    else peer
  }

  /** `RateLimitKeyExtractor::extract`: no key is an error. */
  function RateLimitKey<Ip>(xff: Option<string>, peer: Option<Ip>, trustedHops: nat,
                            parse: string -> Option<Ip>): Option<Ip> {
    ClientIp(xff, peer, trustedHops, parse)
  }

  predicate NoComma(s: string) {
    ',' !in s
  }

  /** One entry as a proxy writes it: no comma, and something besides blanks. */
  predicate ProxyEntry(s: string) {
    NoComma(s) && Trim(s) != "" && Readable(s)
  }

  function Join(entries: seq<string>): string
    requires entries != []
  {
    if |entries| == 1 then entries[0] else entries[0] + "," + Join(entries[1..])
  }

  lemma {:induction false} SplitNoComma(s: string)
    requires NoComma(s)
    ensures Split(s) == [s]
  {
    if s != "" {
      assert s[0] in s;
      SplitNoComma(s[1..]);
      assert [s[0]] + s[1..] == s;
    }
  }

  lemma {:induction false} SplitConcat(a: string, b: string)
    ensures Split(a + "," + b) == Split(a) + Split(b)
  {
    if a == "" {
      assert ("" + "," + b)[1..] == b;
    } else {
      assert (a + "," + b)[1..] == a[1..] + "," + b;
      SplitConcat(a[1..], b);
    }
  }

  lemma {:induction false} EntriesConcat(a: seq<string>, b: seq<string>)
    ensures Entries(a + b) == Entries(a) + Entries(b)
  {
    if a == [] {
      assert a + b == b;
    } else {
      assert (a + b)[1..] == a[1..] + b;
      EntriesConcat(a[1..], b);
    }
  }

  lemma ChainConcat(a: string, b: string)
    ensures Chain(a + "," + b) == Chain(a) + Chain(b)
  {
    SplitConcat(a, b);
    EntriesConcat(Split(a), Split(b));
  }

  lemma {:induction false} ChainOfProxies(entries: seq<string>)
    requires entries != [] && forall i | 0 <= i < |entries| :: ProxyEntry(entries[i])
    ensures |Chain(Join(entries))| == |entries| && Chain(Join(entries))[0] == Trim(entries[0])
    ensures Readable(Join(entries))
  {
    SplitNoComma(entries[0]);
    assert ProxyEntry(entries[0]);
    assert Entries([entries[0]][1..]) == [];
    assert Chain(entries[0]) == [Trim(entries[0])];
    if |entries| > 1 {
      ChainConcat(entries[0], Join(entries[1..]));
      ChainOfProxies(entries[1..]);
    }
  }

  /**
   With `k >= 1` trusted hops and `k` entries appended by the trusted proxies, the address is the first
   appended entry if it parses, and the peer otherwise, whatever readable text the client sent before.
   */
  lemma PrefixIndependence<Ip>(prefix: string, entries: seq<string>, peer: Option<Ip>, parse: string -> Option<Ip>)
    requires Readable(prefix) && entries != [] && forall i | 0 <= i < |entries| :: ProxyEntry(entries[i])
    ensures var own := parse(Trim(entries[0])); var trusted := if own.Some? then own else peer;
            && ClientIp(Some(prefix + "," + Join(entries)), peer, |entries|, parse) == trusted
            && ClientIp(Some(Join(entries)), peer, |entries|, parse) == trusted
  {
    ChainOfProxies(entries);
    ChainConcat(prefix, Join(entries));
    ReadableConcat(prefix, Join(entries));
    TrustedEntry(prefix + "," + Join(entries), Chain(prefix), Chain(Join(entries)), peer, parse);
    assert [] + Chain(Join(entries)) == Chain(Join(entries));
    TrustedEntry(Join(entries), [], Chain(Join(entries)), peer, parse);
  }

  /** No text in front of the proxies' entries, nor its absence, changes the quota a request counts against. */
  lemma ForgedTextKeepsTheKey<Ip>(forged: string, other: string, entries: seq<string>, peer: Option<Ip>,
                                  parse: string -> Option<Ip>)
    requires Readable(forged) && Readable(other)
    requires entries != [] && forall i | 0 <= i < |entries| :: ProxyEntry(entries[i])
    ensures var key := RateLimitKey(Some(Join(entries)), peer, |entries|, parse);
            && RateLimitKey(Some(forged + "," + Join(entries)), peer, |entries|, parse) == key
            && RateLimitKey(Some(other + "," + Join(entries)), peer, |entries|, parse) == key
            && (peer.Some? ==> key.Some?)
  {
    PrefixIndependence(forged, entries, peer, parse);
    PrefixIndependence(other, entries, peer, parse);
  }

  lemma ReadableConcat(a: string, b: string)
    requires Readable(a) && Readable(b)
    ensures Readable(a + "," + b)
  {
  }

  /** With as many trusted hops as the tail of the chain is long, the head of that tail decides. */
  lemma TrustedEntry<Ip>(xff: string, front: seq<string>, tail: seq<string>, peer: Option<Ip>,
                         parse: string -> Option<Ip>)
    requires Readable(xff) && Chain(xff) == front + tail && tail != []
    ensures ClientIp(Some(xff), peer, |tail|, parse) == var own := parse(tail[0]); if own.Some? then own else peer
  {
    assert (front + tail)[|front|] == tail[0];
  }

  /** A header with fewer entries than trusted hops, or an unreadable one, or none, gives the peer. */
  lemma ShortChainGivesPeer<Ip>(xff: Option<string>, peer: Option<Ip>, hops: nat, parse: string -> Option<Ip>)
    requires xff.Some? && Readable(xff.value) ==> |Chain(xff.value)| < hops
    ensures ClientIp(xff, peer, hops, parse) == peer
  {
  }

  /** Without trusted hops no header is believed. */
  lemma NoHopsGivesPeer<Ip>(xff: Option<string>, peer: Option<Ip>, parse: string -> Option<Ip>)
    ensures ClientIp(xff, peer, 0, parse) == peer
  {
  }

  lemma {:induction false} LeftCut(s: string) returns (i: nat)
    ensures i <= |s| && TrimLeft(s) == s[i..] && forall k | 0 <= k < i :: s[k] == ' ' || s[k] == '\t'
  {
    i := 0;
    if s != "" && Blank(s[0]) {
      var rest := LeftCut(s[1..]);
      i := rest + 1;
      assert s[1..][rest..] == s[i..];
      forall k | 0 <= k < i ensures s[k] == ' ' || s[k] == '\t' {
        assert k > 0 ==> s[k] == s[1..][k - 1];
      }
    }
  }

  lemma {:induction false} RightCut(s: string) returns (j: nat)
    ensures j <= |s| && TrimRight(s) == s[..j] && forall k | j <= k < |s| :: s[k] == ' ' || s[k] == '\t'
  {
    j := |s|;
    if s != "" && Blank(s[|s| - 1]) {
      j := RightCut(s[..|s| - 1]);
      assert s[..|s| - 1][..j] == s[..j];
      forall k | j <= k < |s| ensures s[k] == ' ' || s[k] == '\t' {
        assert k < |s| - 1 ==> s[k] == s[..|s| - 1][k];
      }
    }
  }

  /** Trimming takes spaces and tabs off both ends, all of them, and nothing else. */
  lemma TrimIsMiddle(s: string) returns (i: nat, j: nat)
    ensures i <= j <= |s| && Trim(s) == s[i..j]
    ensures forall k | 0 <= k < i || j <= k < |s| :: s[k] == ' ' || s[k] == '\t'
    ensures i < j ==> s[i] != ' ' && s[i] != '\t' && s[j - 1] != ' ' && s[j - 1] != '\t'
  {
    i := LeftCut(s);
    var rest := RightCut(s[i..]);
    j := i + rest;
    assert s[i..][..rest] == s[i..j];
    forall k | j <= k < |s| ensures s[k] == ' ' || s[k] == '\t' { assert s[k] == s[i..][k - i]; }
    TrimIsTight(s);
  }

  /** The parts of a header are what lies between its commas. */
  lemma {:induction false} SplitJoins(s: string)
    ensures Join(Split(s)) == s && forall part | part in Split(s) :: ',' !in part
  {
    if s != "" {
      var rest := Split(s[1..]);
      SplitJoins(s[1..]);
      if s[0] == ',' {
        assert ([""] + rest)[1..] == rest;
        assert "" + "," + Join(rest) == [s[0]] + s[1..];
      } else {
        var parts := [[s[0]] + rest[0]] + rest[1..];
        assert parts[1..] == rest[1..];
        assert ',' !in rest[0];
        assert Join(parts) == [s[0]] + Join(rest);
      }
    }
  }

  /** No entry of a chain is empty or starts or ends with a blank. */
  lemma {:induction false} EntriesAreTrimmed(parts: seq<string>, i: nat)
    requires i < |Entries(parts)|
    ensures var e := Entries(parts)[i]; e != "" && !Blank(e[0]) && !Blank(e[|e| - 1])
  {
    TrimIsTight(parts[0]);
    if Trim(parts[0]) == "" {
      EntriesAreTrimmed(parts[1..], i);
    } else if i > 0 {
      EntriesAreTrimmed(parts[1..], i - 1);
    }
  }

  lemma {:induction false} TrimIsTight(s: string)
    ensures var t := Trim(s); t != "" ==> !Blank(t[0]) && !Blank(t[|t| - 1])
  {
    LeftIsTight(s);
    RightIsTight(TrimLeft(s));
  }

  lemma {:induction false} LeftIsTight(s: string)
    ensures TrimLeft(s) != "" ==> !Blank(TrimLeft(s)[0])
  {
    if s != "" && Blank(s[0]) { LeftIsTight(s[1..]); }
  }

  lemma {:induction false} RightIsTight(s: string)
    ensures TrimRight(s) <= s && (TrimRight(s) != "" ==> !Blank(TrimRight(s)[|TrimRight(s)| - 1]))
  {
    if s != "" && Blank(s[|s| - 1]) { RightIsTight(s[..|s| - 1]); }
  }
}
