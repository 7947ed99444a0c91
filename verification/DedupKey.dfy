// internal/kafka/partition_key.go: the record key on which log compaction deduplicates.
// A string is the sequence of its bytes.
module DedupKey {
  import opened Wrappers
  import opened Events

  // ---------------------------------------------------------------------------------------------------------
  // Decimal rendering (%d)

  function Digit(d: nat): (c: char)
    requires d < 10
    ensures IsDecimalChar(c) && c != '-'
  {
    ('0' as int + d) as char
  }

  predicate IsDecimalChar(c: char) { '0' <= c <= '9' || c == '-' }

  function DecNat(n: nat): string {
    if n < 10 then [Digit(n)] else DecNat(n / 10) + [Digit(n % 10)]
  }

  function Dec(z: int): string {
    if z < 0 then "-" + DecNat(-z) else DecNat(z)
  }

  predicate IsNumeral(s: string) {
    s != [] && forall c | c in s :: IsDecimalChar(c)
  }

  lemma {:induction false} DecNatDigits(n: nat)
    ensures IsNumeral(DecNat(n)) && DecNat(n)[0] != '-'
    ensures |DecNat(n)| == 1 <==> n < 10
  {
    if n >= 10 {
      DecNatDigits(n / 10);
    }
  }

  /** The number a string of decimal digits denotes. */
  function Denotes(s: string): int {
    if s == [] then 0 else 10 * Denotes(s[..|s| - 1]) + (s[|s| - 1] as int - 48)
  }

  lemma {:induction false} DecNatDenotes(n: nat)
    ensures Denotes(DecNat(n)) == n && (n > 0 ==> DecNat(n)[0] != '0')
    ensures forall c | c in DecNat(n) :: '0' <= c <= '9'
  {
    if n < 10 {
      assert DecNat(n)[..0] == [];
    } else {
      DecNatDenotes(n / 10);
      assert DecNat(n)[..|DecNat(n)| - 1] == DecNat(n / 10);
    }
  }

  /** Dec is decimal notation: digits without leading zeros, after a minus sign for negative numbers. */
  lemma DecIsDecimal(z: int)
    ensures var s := Dec(z); var digits := if z < 0 then s[1..] else s;
            && s != [] && (z < 0 ==> s[0] == '-')
            && (forall c | c in digits :: '0' <= c <= '9')
            && Denotes(digits) == (if z < 0 then -z else z) && digits != [] && (z != 0 ==> digits[0] != '0')
  {
    DecNatDigits(if z < 0 then -z else z);
    DecNatDenotes(if z < 0 then -z else z);
  }

  lemma DecIsNumeral(z: int)
    ensures IsNumeral(Dec(z)) && NoColon(Dec(z)) && (Dec(z)[0] == '-' <==> z < 0)
  {
    DecNatDigits(if z < 0 then -z else z);
  }

  lemma {:induction false} DecNatInjective(m: nat, n: nat)
    requires DecNat(m) == DecNat(n)
    ensures m == n
  {
    DecNatDigits(m);
    DecNatDigits(n);
    if m >= 10 && n >= 10 {
      var s := DecNat(m);
      assert s[..|s| - 1] == DecNat(m / 10) == DecNat(n / 10);
      assert s[|s| - 1] == Digit(m % 10) == Digit(n % 10);
      DecNatInjective(m / 10, n / 10);
    } else if m < 10 && n < 10 {
      assert DecNat(m)[0] == Digit(m) == Digit(n);
    }
  }

  lemma DecInjective(y: int, z: int)
    requires Dec(y) == Dec(z)
    ensures y == z
  {
    DecIsNumeral(y);
    DecIsNumeral(z);
    if y < 0 {
      assert Dec(y)[1..] == DecNat(-y) && Dec(z)[1..] == DecNat(-z);
      DecNatInjective(-y, -z);
    } else {
      DecNatInjective(y, z);
    }
  }

  // ---------------------------------------------------------------------------------------------------------
  // Field extraction

  /** strings.Split(s, "."): never empty. */
  function SplitDots(s: string): (parts: seq<string>)
    ensures parts != []
  {
    if s == [] then [[]]
    else
      var rest := SplitDots(s[1..]);
      if s[0] == '.' then [[]] + rest else [[s[0]] + rest[0]] + rest[1..]
  }

  function ProcessOf(e: Event): Option<Process> {
    if e.body.Exec? || e.body.Exit? || e.body.Kprobe? || e.body.Tracepoint? then e.body.process else None
  }

  function RenderPid(p: Option<Process>): string {
    if p.Some? && p.value.pid.Some? then Dec(p.value.pid.value as int) else ""
  }

  function ExtractProcessField(e: Event, field: string): string {
    var p := ProcessOf(e);
    if p.None? then ""
    else if field == "pid" then RenderPid(p)
    else if field == "binary" then p.value.binary
    else if field == "ppid" then RenderPid(e.body.parent)
    else ""
  }

  function ExtractK8sField(e: Event, field: string): string {
    var p := ProcessOf(e);
    if p.None? || p.value.pod.None? then ""
    else
      var pod := p.value.pod.value;
      if field == "namespace" then pod.namespace
      else if field == "pod" then pod.name
      else if field == "container" && pod.container.Some? then pod.container.value
      else ""
  }

  function ExtractFieldValue(e: Event, field: string): string {
    var parts := SplitDots(field);
    if parts[0] == "node" then GetEventNode(e)
    else if parts[0] == "type" then DetectEventType(e)
    else if parts[0] == "process" && |parts| > 1 then ExtractProcessField(e, parts[1])
    else if parts[0] == "k8s" && |parts| > 1 then ExtractK8sField(e, parts[1])
    else if parts[0] == "timestamp" && e.time.Some? then Dec(e.time.value as int)
    else ""
  }

  // ---------------------------------------------------------------------------------------------------------
  // The key

  /** The values that make up the key: empty ones are skipped. */
  function Present(e: Event, fields: seq<string>): (vs: seq<string>)
    ensures forall v | v in vs :: v != ""
  {
    if fields == [] then []
    else
      var front := Present(e, fields[..|fields| - 1]);
      var v := ExtractFieldValue(e, fields[|fields| - 1]);
      if v != "" then front + [v] else front
  }

  function Join(vs: seq<string>, sep: string): string {
    if |vs| == 0 then "" else if |vs| == 1 then vs[0] else Join(vs[..|vs| - 1], sep) + sep + vs[|vs| - 1]
  }

  const HEX_LENGTH := 64

  predicate IsHexDigest(s: string) {
    |s| == HEX_LENGTH && forall c | c in s :: '0' <= c <= '9' || 'a' <= c <= 'f'
  }

  /** `sha256hex` is any function from strings to 64 lower-case hexadecimal characters. */
  ghost predicate IsDigest(sha256hex: string -> string) {
    forall s :: IsHexDigest(sha256hex(s))
  }

  /** Keys above 100 bytes are replaced by the first 32 characters of their digest. */
  function Shorten(raw: string, sha256hex: string -> string): string {
    if |raw| > 100 && |sha256hex(raw)| >= 32 then sha256hex(raw)[..32] else raw
  }

  function DedupKey(e: Event, fields: seq<string>, sep: string, sha256hex: string -> string): string {
    Shorten(Join(Present(e, fields), sep), sha256hex)
  }

  method GenerateDedupKey(e: Event, fields: seq<string>, sep: string, sha256hex: string -> string)
    returns (key: string)
    requires IsDigest(sha256hex)
    ensures key == DedupKey(e, fields, sep, sha256hex)
  {
    var builder := "";
    var first := true;
    for i := 0 to |fields|
      invariant builder == Join(Present(e, fields[..i]), sep)
      invariant first <==> Present(e, fields[..i]) == []
    {
      assert fields[..i + 1][..i] == fields[..i];
      var value := ExtractFieldValue(e, fields[i]);
      if value != "" {
        if !first {
          builder := builder + sep;
        }
        builder := builder + value;
        first := false;
      }
    }
    assert fields[..|fields|] == fields;
    key := builder;
    if |key| > 100 {
      var digest := sha256hex(key);
      assert IsHexDigest(digest);
      return digest[..32];
    }
  }

  // ---------------------------------------------------------------------------------------------------------
  // The default fields: node, type, process.pid, timestamp joined by ":"

  const DEFAULT_FIELDS := ["node", "type", "process.pid", "timestamp"]

  /** The numeric components present in the default key. */
  function PidNumber(e: Event): seq<int> {
    if ProcessOf(e).Some? && ProcessOf(e).value.pid.Some? then [ProcessOf(e).value.pid.value as int] else []
  }

  function TimeNumber(e: Event): seq<int> {
    if e.time.Some? then [e.time.value as int] else []
  }

  function Numbers(e: Event): seq<int> {
    PidNumber(e) + TimeNumber(e)
  }

  function Suffix(t: seq<int>): string {
    if t == [] then "" else Suffix(t[..|t| - 1]) + ":" + Dec(t[|t| - 1])
  }

  function RawKey(e: Event): string {
    Head(e) + Suffix(Numbers(e))
  }

  lemma {:induction false} SplitNoDot(s: string)
    requires '.' !in s
    ensures SplitDots(s) == [s]
  {
    if s != [] {
      SplitNoDot(s[1..]);
      assert [s[0]] + s[1..] == s;
    }
  }

  lemma {:induction false} SplitOneDot(a: string, b: string)
    requires '.' !in a && '.' !in b
    ensures SplitDots(a + "." + b) == [a, b]
  {
    var s := a + "." + b;
    if a == [] {
      SplitNoDot(b);
      assert s[1..] == b;
    } else {
      assert s[1..] == a[1..] + "." + b;
      SplitOneDot(a[1..], b);
      assert [s[0]] + a[1..] == a;
    }
  }

  lemma NodeValue(e: Event)
    ensures ExtractFieldValue(e, "node") == GetEventNode(e) != ""
  {
    SplitNoDot("node");
  }

  lemma TypeValue(e: Event)
    ensures ExtractFieldValue(e, "type") == DetectEventType(e) != ""
  {
    SplitNoDot("type");
  }

  lemma PidValue(e: Event)
    ensures ExtractFieldValue(e, "process.pid") == RenderPid(ProcessOf(e))
  {
    SplitOneDot("process", "pid");
    assert "process.pid" == "process" + "." + "pid";
  }

  function TimeValue(e: Event): string {
    if e.time.Some? then Dec(e.time.value as int) else ""
  }

  lemma TimestampValue(e: Event)
    ensures ExtractFieldValue(e, "timestamp") == TimeValue(e)
  {
    SplitNoDot("timestamp");
  }

  lemma PresentSnoc(e: Event, fields: seq<string>, f: string)
    ensures Present(e, fields + [f]) ==
            if ExtractFieldValue(e, f) != "" then Present(e, fields) + [ExtractFieldValue(e, f)] else Present(e, fields)
  {
    assert (fields + [f])[..|fields|] == fields;
  }

  lemma JoinSnoc(vs: seq<string>, v: string, sep: string)
    requires vs != []
    ensures Join(vs + [v], sep) == Join(vs, sep) + sep + v
  {
    assert (vs + [v])[..|vs|] == vs;
  }

  lemma {:induction false} SuffixOfOne(d: int)
    ensures Suffix([d]) == ":" + Dec(d)
  {
    assert [d][..0] == [];
    assert Suffix([d]) == Suffix([]) + ":" + Dec(d);
  }

  lemma SuffixOfTwo(c: int, d: int)
    ensures Suffix([c] + [d]) == Suffix([c]) + Suffix([d])
  {
    SuffixOfOne(d);
    assert ([c] + [d])[..1] == [c];
    Assoc(Suffix([c]), ":", Dec(d));
  }

  /** node:type, the part of the default key that is always there. */
  function Head(e: Event): string {
    GetEventNode(e) + ":" + DetectEventType(e)
  }

  lemma DefaultHead(e: Event)
    ensures Present(e, ["node", "type"]) == [GetEventNode(e), DetectEventType(e)]
    ensures Join(Present(e, ["node", "type"]), ":") == Head(e)
  {
    NodeValue(e);
    TypeValue(e);
    PresentSnoc(e, [], "node");
    PresentSnoc(e, ["node"], "type");
    assert [] + ["node"] == ["node"] && ["node"] + ["type"] == ["node", "type"];
    JoinSnoc([GetEventNode(e)], DetectEventType(e), ":");
  }

  /** Appending one more field to a key already begun. */
  lemma JoinStep(e: Event, fields: seq<string>, f: string)
    requires Present(e, fields) != []
    ensures Present(e, fields + [f]) != []
    ensures Join(Present(e, fields + [f]), ":") == Join(Present(e, fields), ":") + Appended(ExtractFieldValue(e, f))
  {
    PresentSnoc(e, fields, f);
    if ExtractFieldValue(e, f) != "" {
      JoinSnoc(Present(e, fields), ExtractFieldValue(e, f), ":");
    }
  }

  /** A value appended to a key already begun; an empty one is skipped. */
  function Appended(v: string): string {
    if v != "" then ":" + v else ""
  }

  lemma SuffixOfNumbers(e: Event)
    ensures Suffix(Numbers(e)) == Appended(RenderPid(ProcessOf(e))) + Appended(TimeValue(e))
  {
    DecsNonEmpty(e);
    if PidNumber(e) != [] {
      SuffixOfOne(PidNumber(e)[0]);
    }
    if TimeNumber(e) != [] {
      SuffixOfOne(TimeNumber(e)[0]);
    }
    if PidNumber(e) != [] && TimeNumber(e) != [] {
      SuffixOfTwo(PidNumber(e)[0], TimeNumber(e)[0]);
    } else if PidNumber(e) == [] {
      assert Numbers(e) == TimeNumber(e);
    } else {
      assert Numbers(e) == PidNumber(e);
    }
  }

  lemma DefaultJoin(e: Event)
    ensures Join(Present(e, DEFAULT_FIELDS), ":") == RawKey(e)
  {
    var f2, f3 := ["node", "type"], ["node", "type"] + ["process.pid"];
    assert DEFAULT_FIELDS == f3 + ["timestamp"];
    DefaultHead(e);
    JoinStep(e, f2, "process.pid");
    JoinStep(e, f3, "timestamp");
    PidValue(e);
    TimestampValue(e);
    Assoc(Head(e), Appended(RenderPid(ProcessOf(e))), Appended(TimeValue(e)));
    SuffixOfNumbers(e);
  }

  /** What GenerateDedupKey produces for the default configuration. */
  lemma DefaultKey(e: Event, sha256hex: string -> string)
    ensures DedupKey(e, DEFAULT_FIELDS, ":", sha256hex) == Shorten(RawKey(e), sha256hex)
  {
    DefaultJoin(e);
  }

  lemma Assoc(a: string, b: string, c: string)
    ensures a + b + c == a + (b + c)
  {
  }

  lemma DecsNonEmpty(e: Event)
    ensures e.time.Some? ==> Dec(e.time.value as int) != ""
    ensures ProcessOf(e).Some? && ProcessOf(e).value.pid.Some? ==> RenderPid(ProcessOf(e)) != ""
  {
    if e.time.Some? {
      DecIsNumeral(e.time.value as int);
    }
    if ProcessOf(e).Some? && ProcessOf(e).value.pid.Some? {
      DecIsNumeral(ProcessOf(e).value.pid.value as int);
    }
  }

  predicate NoColon(s: string) { ':' !in s }

  /** The last colon splits a string in one way only. */
  lemma LastColonUnique(a: string, x: string, b: string, y: string)
    requires NoColon(x) && NoColon(y)
    requires a + ":" + x == b + ":" + y
    ensures a == b && x == y
  {
    var s := a + ":" + x;
    assert s[|a|] == ':' && forall i | |a| < i < |s| :: s[i] == x[i - |a| - 1];
    assert s[|b|] == ':' && forall i | |b| < i < |s| :: s[i] == y[i - |b| - 1];
    assert a == s[..|a|] && b == s[..|b|] && x == s[|a| + 1..] && y == s[|b| + 1..];
  }

  lemma TypeIsNoNumeral(e: Event)
    ensures NoColon(DetectEventType(e)) && !IsNumeral(DetectEventType(e))
  {
    assert !IsDecimalChar(DetectEventType(e)[0]);
  }

  lemma PeelString(h1: string, x1: string, c1: string, h2: string, x2: string, c2: string)
    requires NoColon(c1) && NoColon(c2)
    requires h1 + (x1 + ":" + c1) == h2 + (x2 + ":" + c2)
    ensures h1 + x1 == h2 + x2 && c1 == c2
  {
    assert h1 + (x1 + ":" + c1) == (h1 + x1) + ":" + c1;
    assert h2 + (x2 + ":" + c2) == (h2 + x2) + ":" + c2;
    LastColonUnique(h1 + x1, c1, h2 + x2, c2);
  }

  /** The last number of a key can be read off and removed. */
  lemma PeelLast(h1: string, t1: seq<int>, h2: string, t2: seq<int>)
    requires t1 != [] && t2 != [] && h1 + Suffix(t1) == h2 + Suffix(t2)
    ensures t1[|t1| - 1] == t2[|t2| - 1]
    ensures h1 + Suffix(t1[..|t1| - 1]) == h2 + Suffix(t2[..|t2| - 1])
  {
    var d1, d2 := t1[|t1| - 1], t2[|t2| - 1];
    DecIsNumeral(d1);
    DecIsNumeral(d2);
    PeelString(h1, Suffix(t1[..|t1| - 1]), Dec(d1), h2, Suffix(t2[..|t2| - 1]), Dec(d2));
    DecInjective(d1, d2);
  }

  /** A key that ends in a type name is never one that ends in a number. */
  lemma TypeIsNotLastNumber(n1: string, y1: string, h2: string, t2: seq<int>)
    requires t2 != [] && NoColon(y1) && !IsNumeral(y1)
    ensures n1 + ":" + y1 + Suffix([]) != h2 + Suffix(t2)
  {
    var d2 := t2[|t2| - 1];
    DecIsNumeral(d2);
    assert n1 + ":" + y1 + Suffix([]) == n1 + ("" + ":" + y1);
    if n1 + ":" + y1 + Suffix([]) == h2 + Suffix(t2) {
      PeelString(n1, "", y1, h2, Suffix(t2[..|t2| - 1]), Dec(d2));
    }
  }

  /** Reading a key from the right: the node name may contain colons and even look like a key. */
  lemma {:induction false} ParseFromRight(n1: string, y1: string, t1: seq<int>, n2: string, y2: string, t2: seq<int>)
    requires NoColon(y1) && NoColon(y2) && !IsNumeral(y1) && !IsNumeral(y2)
    requires n1 + ":" + y1 + Suffix(t1) == n2 + ":" + y2 + Suffix(t2)
    ensures n1 == n2 && y1 == y2 && t1 == t2
    decreases |t1|
  {
    if t1 != [] && t2 != [] {
      PeelLast(n1 + ":" + y1, t1, n2 + ":" + y2, t2);
      ParseFromRight(n1, y1, t1[..|t1| - 1], n2, y2, t2[..|t2| - 1]);
      SameLast(t1, t2);
    } else if t1 != [] {
      TypeIsNotLastNumber(n2, y2, n1 + ":" + y1, t1);
    } else if t2 != [] {
      TypeIsNotLastNumber(n1, y1, n2 + ":" + y2, t2);
    } else {
      EmptySuffix(n1 + ":" + y1);
      EmptySuffix(n2 + ":" + y2);
      LastColonUnique(n1, y1, n2, y2);
    }
  }

  lemma SameLast(s: seq<int>, t: seq<int>)
    requires s != [] && t != [] && s[|s| - 1] == t[|t| - 1] && s[..|s| - 1] == t[..|t| - 1]
    ensures s == t
  {
    assert s == s[..|s| - 1] + [s[|s| - 1]];
  }

  lemma EmptySuffix(h: string)
    ensures h + Suffix([]) == h
  {
  }

  /** Exactly what the unhashed default key identifies. */
  lemma RawKeyKernel(e1: Event, e2: Event)
    ensures RawKey(e1) == RawKey(e2) <==>
            && GetEventNode(e1) == GetEventNode(e2) && DetectEventType(e1) == DetectEventType(e2)
            && Numbers(e1) == Numbers(e2)
  {
    TypeIsNoNumeral(e1);
    TypeIsNoNumeral(e2);
    if RawKey(e1) == RawKey(e2) {
      ParseFromRight(GetEventNode(e1), DetectEventType(e1), Numbers(e1),
                     GetEventNode(e2), DetectEventType(e2), Numbers(e2));
    }
  }

  /** The two raw keys, when both are hashed, are not a collision of the truncated digest. */
  predicate NoCollision(sha256hex: string -> string, e1: Event, e2: Event) {
    && IsHexDigest(sha256hex(RawKey(e1))) && IsHexDigest(sha256hex(RawKey(e2)))
    && (|RawKey(e1)| > 100 && |RawKey(e2)| > 100 && sha256hex(RawKey(e1))[..32] == sha256hex(RawKey(e2))[..32]
        ==> RawKey(e1) == RawKey(e2))
  }

  function Key(e: Event, sha256hex: string -> string): string {
    DedupKey(e, DEFAULT_FIELDS, ":", sha256hex)
  }

  /** The same for keys of every length: a hashed key has no colon, so it never equals an unhashed one. */
  lemma KeyKernel(e1: Event, e2: Event, sha256hex: string -> string)
    requires NoCollision(sha256hex, e1, e2)
    ensures Key(e1, sha256hex) == Key(e2, sha256hex) <==>
            && GetEventNode(e1) == GetEventNode(e2) && DetectEventType(e1) == DetectEventType(e2)
            && Numbers(e1) == Numbers(e2)
  {
    DefaultKey(e1, sha256hex);
    DefaultKey(e2, sha256hex);
    RawKeyKernel(e1, e2);
    ColonMarksUnhashed(e1, sha256hex);
    ColonMarksUnhashed(e2, sha256hex);
  }

  lemma ColonMarksUnhashed(e: Event, sha256hex: string -> string)
    requires IsHexDigest(sha256hex(RawKey(e)))
    ensures NoColon(Key(e, sha256hex)) <==> |RawKey(e)| > 100
    ensures |RawKey(e)| <= 100 ==> Key(e, sha256hex) == RawKey(e)
  {
    DefaultKey(e, sha256hex);
    assert RawKey(e)[|GetEventNode(e)|] == ':';
    var digest := sha256hex(RawKey(e));
    assert forall c | c in digest[..32] :: c in digest;
  }

  // ---------------------------------------------------------------------------------------------------------
  // The kernel on the fields of the events

  /** The same node name; an event without one counts as coming from "unknown". */
  predicate SameNode(n1: string, n2: string) {
    n1 == n2 || (n1 == "" && n2 == "unknown") || (n1 == "unknown" && n2 == "")
  }

  predicate HasPid(e: Event) {
    (e.body.Exec? || e.body.Exit? || e.body.Kprobe? || e.body.Tracepoint?)
    && e.body.process.Some? && e.body.process.value.pid.Some?
  }

  /** The same pid and the same time, present or absent; or one event has only a pid, the other only a time, and they
      are the same number. */
  predicate SameNumbers(e1: Event, e2: Event) {
    || (e1.time == e2.time && (HasPid(e1) <==> HasPid(e2))
        && (HasPid(e1) ==> e1.body.process.value.pid == e2.body.process.value.pid))
    || (HasPid(e1) && e1.time.None? && !HasPid(e2) && e2.time.Some?
        && e1.body.process.value.pid.value as int == e2.time.value as int)
    || (HasPid(e2) && e2.time.None? && !HasPid(e1) && e1.time.Some?
        && e2.body.process.value.pid.value as int == e1.time.value as int)
  }

  /** What the default key identifies. */
  predicate SameIdentity(e1: Event, e2: Event) {
    SameNode(e1.nodeName, e2.nodeName) && SameKind(e1.body, e2.body) && SameNumbers(e1, e2)
  }

  lemma NumbersOnFields(e1: Event, e2: Event)
    ensures Numbers(e1) == Numbers(e2) <==> SameNumbers(e1, e2)
  {
    assert Numbers(e1) == Numbers(e2) ==> |Numbers(e1)| == |Numbers(e2)|;
    if Numbers(e1) == Numbers(e2) && Numbers(e1) != [] {
      assert Numbers(e1)[0] == Numbers(e2)[0];
      assert |Numbers(e1)| == 2 ==> Numbers(e1)[1] == Numbers(e2)[1];
    }
  }

  lemma IdentityOnFields(e1: Event, e2: Event)
    ensures SameIdentity(e1, e2) <==>
            && GetEventNode(e1) == GetEventNode(e2) && DetectEventType(e1) == DetectEventType(e2)
            && Numbers(e1) == Numbers(e2)
  {
    hide SameNumbers, SameKind, Numbers, DetectEventType;
    TypeIsKind(e1, e2);
    NumbersOnFields(e1, e2);
  }

  /** Two events have one default key exactly when their fields say they are the same. */
  lemma KeyOnFields(e1: Event, e2: Event, sha256hex: string -> string)
    requires NoCollision(sha256hex, e1, e2)
    ensures Key(e1, sha256hex) == Key(e2, sha256hex) <==> SameIdentity(e1, e2)
  {
    hide SameIdentity, Key, NoCollision;
    KeyKernel(e1, e2, sha256hex);
    IdentityOnFields(e1, e2);
  }

  lemma KeyOf(e: Event, sha256hex: string -> string)
    ensures |RawKey(e)| <= 100 ==> Key(e, sha256hex) == RawKey(e)
    ensures |RawKey(e)| > 100 && |sha256hex(RawKey(e))| == 64 ==> Key(e, sha256hex) == sha256hex(RawKey(e))[..32]
  {
    DefaultKey(e, sha256hex);
  }

  /** A key is the readable string itself up to 100 bytes, and 32 characters of its digest above. */
  predicate KeyIs(e: Event, raw: string, sha256hex: string -> string) {
    && (|raw| <= 100 ==> Key(e, sha256hex) == raw)
    && (|raw| > 100 && |sha256hex(raw)| == 64 ==> Key(e, sha256hex) == sha256hex(raw)[..32])
  }

  /** node ":" type ":" pid ":" time */
  function FullKey(node: string, name: string, p: int, t: int): string {
    node + ":" + name + ":" + Dec(p) + ":" + Dec(t)
  }

  /** The key of a process event, literally. */
  lemma ProcessKey(e: Event, node: string, name: string, p: uint32, t: int64, sha256hex: string -> string)
    requires node == (if e.nodeName == "" then "unknown" else e.nodeName) && ConfiguredUnder(e.body, name)
    requires HasPid(e) && e.body.process.value.pid == Some(p) && e.time == Some(t)
    ensures KeyIs(e, FullKey(node, name, p as int, t as int), sha256hex)
  {
    hide Key, RawKey, Dec, KeyIs;
    assert DetectEventType(e) == name && GetEventNode(e) == node;
    assert Numbers(e) == [p as int, t as int] == [p as int] + [t as int];
    SuffixOfOne(p as int);
    SuffixOfOne(t as int);
    SuffixOfTwo(p as int, t as int);
    Assoc(node + ":" + name, ":" + Dec(p as int), ":" + Dec(t as int));
    Assoc(node + ":" + name, ":", Dec(p as int));
    Assoc(node + ":" + name + ":" + Dec(p as int), ":", Dec(t as int));
    RawIs(e, node, name, FullKey(node, name, p as int, t as int), sha256hex);
  }

  lemma RawIs(e: Event, node: string, name: string, raw: string, sha256hex: string -> string)
    requires GetEventNode(e) == node && DetectEventType(e) == name && node + ":" + name + Suffix(Numbers(e)) == raw
    ensures KeyIs(e, raw, sha256hex)
  {
    KeyOf(e, sha256hex);
  }

  lemma ProcessKeys(n: string, p: uint32, t: int64, binary: string, pod: Option<Pod>, parent: Option<Process>,
                    payload: string, sha256hex: string -> string)
    requires n != ""
    ensures var process := Some(Process(Some(p), binary, pod));
            && KeyIs(Event(n, Exec(process, parent), Some(t), payload),
                     FullKey(n, "process_exec", p as int, t as int), sha256hex)
            && KeyIs(Event(n, Exit(process, parent), Some(t), payload),
                     FullKey(n, "process_exit", p as int, t as int), sha256hex)
            && KeyIs(Event(n, Kprobe(process, parent), Some(t), payload),
                     FullKey(n, "process_kprobe", p as int, t as int), sha256hex)
            && KeyIs(Event(n, Tracepoint(process, parent), Some(t), payload),
                     FullKey(n, "process_tracepoint", p as int, t as int), sha256hex)
            && KeyIs(Event("", Exec(process, parent), Some(t), payload),
                     FullKey("unknown", "process_exec", p as int, t as int), sha256hex)
  {
    hide KeyIs, FullKey;
    var process := Some(Process(Some(p), binary, pod));
    ProcessKey(Event(n, Exec(process, parent), Some(t), payload), n, "process_exec", p, t, sha256hex);
    ProcessKey(Event(n, Exit(process, parent), Some(t), payload), n, "process_exit", p, t, sha256hex);
    ProcessKey(Event(n, Kprobe(process, parent), Some(t), payload), n, "process_kprobe", p, t, sha256hex);
    ProcessKey(Event(n, Tracepoint(process, parent), Some(t), payload), n, "process_tracepoint", p, t, sha256hex);
    ProcessKey(Event("", Exec(process, parent), Some(t), payload), "unknown", "process_exec", p, t, sha256hex);
  }

  /** The keys of events that carry no process. */
  lemma OtherKeys(n: string, t: int64, payload: string, sha256hex: string -> string)
    requires n != ""
    ensures KeyIs(Event(n, Test, Some(t), payload), n + ":" + "test" + ":" + Dec(t as int), sha256hex)
    ensures KeyIs(Event(n, Other, Some(t), payload), n + ":" + "unknown" + ":" + Dec(t as int), sha256hex)
  {
    hide KeyIs, Dec, Key, RawKey;
    SuffixOfOne(t as int);
    TimeOnly(Event(n, Test, Some(t), payload), t, "test", sha256hex);
    TimeOnly(Event(n, Other, Some(t), payload), t, "unknown", sha256hex);
  }

  lemma TimeOnly(e: Event, t: int64, name: string, sha256hex: string -> string)
    requires e.nodeName != "" && DetectEventType(e) == name && Numbers(e) == [t as int]
    ensures KeyIs(e, e.nodeName + ":" + name + ":" + Dec(t as int), sha256hex)
  {
    hide KeyIs, Dec, Key, RawKey;
    SuffixOfOne(t as int);
    Assoc(e.nodeName + ":" + name, ":", Dec(t as int));
    RawIs(e, e.nodeName, name, e.nodeName + ":" + name + ":" + Dec(t as int), sha256hex);
  }

  function Decimal(pid: Option<uint32>): string {
    if pid.Some? then Dec(pid.value as int) else ""
  }

  lemma ProcessFieldValue(e: Event, field: string)
    requires '.' !in field
    ensures ExtractFieldValue(e, "process" + "." + field) == ExtractProcessField(e, field)
    ensures ExtractFieldValue(e, "k8s" + "." + field) == ExtractK8sField(e, field)
  {
    SplitOneDot("process", field);
    SplitOneDot("k8s", field);
  }

  /** What the configurable fields of a process event stand for. */
  lemma FieldValues(e: Event, p: Process, parent: Option<Process>)
    requires e.body in {Exec(Some(p), parent), Exit(Some(p), parent),
                        Kprobe(Some(p), parent), Tracepoint(Some(p), parent)}
    ensures ExtractFieldValue(e, "process" + "." + "pid") == Decimal(p.pid)
    ensures ExtractFieldValue(e, "process" + "." + "binary") == p.binary
    ensures ExtractFieldValue(e, "process" + "." + "ppid") == if parent.Some? then Decimal(parent.value.pid) else ""
    ensures ExtractFieldValue(e, "k8s" + "." + "namespace") == if p.pod.Some? then p.pod.value.namespace else ""
    ensures ExtractFieldValue(e, "k8s" + "." + "pod") == if p.pod.Some? then p.pod.value.name else ""
    ensures ExtractFieldValue(e, "k8s" + "." + "container") ==
            if p.pod.Some? && p.pod.value.container.Some? then p.pod.value.container.value else ""
  {
    hide ExtractFieldValue, SplitDots, Dec;
    ProcessFieldValue(e, "pid");
    ProcessFieldValue(e, "binary");
    ProcessFieldValue(e, "ppid");
    ProcessFieldValue(e, "namespace");
    ProcessFieldValue(e, "pod");
    ProcessFieldValue(e, "container");
  }

  /** An event without a process has none of them, and a field nobody knows is empty. */
  lemma NoFieldValues(e: Event, a: string, b: string)
    requires '.' !in a && '.' !in b
    requires e.body.Test? || e.body.Other? || e.body.process.None? || a !in {"process", "k8s"}
             || (a == "process" && b !in {"pid", "binary", "ppid"})
             || (a == "k8s" && b !in {"namespace", "pod", "container"})
    requires a !in {"node", "type", "timestamp"}
    ensures ExtractFieldValue(e, a + "." + b) == ""
  {
    SplitOneDot(a, b);
  }

  /** With pid and timestamp present, the key determines node, type, pid and timestamp, and nothing else. */
  lemma KeyIdentifies(e1: Event, e2: Event, sha256hex: string -> string)
    requires NoCollision(sha256hex, e1, e2)
    requires HasPid(e1) && e1.time.Some? && HasPid(e2) && e2.time.Some?
    ensures Key(e1, sha256hex) == Key(e2, sha256hex) <==>
            && SameNode(e1.nodeName, e2.nodeName) && SameKind(e1.body, e2.body)
            && e1.body.process.value.pid == e2.body.process.value.pid && e1.time == e2.time
  {
    hide Key, NoCollision;
    KeyOnFields(e1, e2, sha256hex);
  }

  /** One key never spans two topics, even with pid or timestamp missing. */
  lemma KeyFixesTopic(e1: Event, e2: Event, sha256hex: string -> string, topics: map<string, string>)
    requires NoCollision(sha256hex, e1, e2) && Key(e1, sha256hex) == Key(e2, sha256hex)
    ensures Route(topics, e1) == Route(topics, e2)
  {
    KeyKernel(e1, e2, sha256hex);
  }

  /** Skipping empty fields loses the position of a number: a pid without a timestamp and the same number as a
      timestamp without a pid share a key. */
  lemma SkippedFieldCollision(node: string, n: uint32, p1: string, p2: string, sha256hex: string -> string)
    ensures var e1 := Event(node, Exec(Some(Process(Some(n), "", None)), None), None, p1);
            var e2 := Event(node, Exec(None, None), Some(n as int64), p2);
            e1 != e2 && Key(e1, sha256hex) == Key(e2, sha256hex)
  {
    var e1 := Event(node, Exec(Some(Process(Some(n), "", None)), None), None, p1);
    var e2 := Event(node, Exec(None, None), Some(n as int64), p2);
    DefaultKey(e1, sha256hex);
    DefaultKey(e2, sha256hex);
    assert Numbers(e1) == [n as int] == Numbers(e2);
  }
}
