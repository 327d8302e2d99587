/** Object keys of shipped log chunks, and the order in which the controller reads them. */
module LogKeys {
  import opened Base

  const U64_LIMIT: nat := 0x1_0000_0000_0000_0000
  const OFFSET_DIGITS: nat := 20
  const MAX_SOURCE_BYTES: nat := 96
  const MARKER_SUFFIX := ".shipped"

  predicate IsAlphanumeric(c: char) {
    'a' <= c <= 'z' || 'A' <= c <= 'Z' || '0' <= c <= '9'
  }

  predicate IsSourceChar(c: char) {
    IsAlphanumeric(c) || c == '.' || c == '-' || c == '_'
  }

  predicate IsIdChar(c: char) {
    IsAlphanumeric(c) || c == '-' || c == '_'
  }

  /** The alphabet and length the transport enforces on a source name. */
  predicate ValidSource(source: string) {
    0 < |source| <= MAX_SOURCE_BYTES && forall i | 0 <= i < |source| :: IsSourceChar(source[i])
  }

  predicate ValidAgentId(id: string) {
    0 < |id| <= 64 && forall i | 0 <= i < |id| :: IsIdChar(id[i])
  }

  predicate EndsWith(s: string, t: string) {
    |t| <= |s| && s[|s| - |t|..] == t
  }

  /** A dot inside the name followed only by `ext`; a leading dot is not an extension. */
  predicate HasExtension(name: string, ext: string) {
    EndsWith(name, "." + ext) && |name| > |ext| + 1
  }

  /** Which file names the shipper takes. */
  predicate SafeSource(name: string) {
    !EndsWith(name, MARKER_SUFFIX)
    && (HasExtension(name, "out") || HasExtension(name, "err") || "agent.log." <= name)
    && |name| <= MAX_SOURCE_BYTES
    && (forall i | 0 <= i < |name| :: IsSourceChar(name[i]))
  }

  function MarkerName(name: string): string {
    name + MARKER_SUFFIX
  }

  /** A marker is never itself shipped, and whatever is shipped the transport accepts. */
  lemma MarkersAreNeverShipped(name: string)
    ensures !SafeSource(MarkerName(name))
    ensures SafeSource(name) ==> ValidSource(name)
  {
    assert MarkerName(name)[|MarkerName(name)| - |MARKER_SUFFIX|..] == MARKER_SUFFIX;
  }

  /** The names that are shipped, told by how they end or begin. */
  lemma ShippedNames(name: string)
    ensures SafeSource(name) <==>
      && |name| <= 96
      && (forall c | c in name :: 'a' <= c <= 'z' || 'A' <= c <= 'Z' || '0' <= c <= '9' || c == '.' || c == '-' || c == '_')
      && (forall log :: name != log + ".shipped")
      && ((exists job :: job != "" && (name == job + ".out" || name == job + ".err")) || exists day :: name == "agent.log." + day)
  {
    hide EndsWith, HasExtension;
    MarkerNames(name);
    JobNames(name, "out");
    JobNames(name, "err");
    DayNames(name);
    assert forall i | 0 <= i < |name| :: name[i] in name;
    assert "." + "out" == ".out" && "." + "err" == ".err";
  }

  lemma MarkerNames(name: string)
    ensures EndsWith(name, MARKER_SUFFIX) <==> exists log :: name == log + ".shipped"
  {
    if EndsWith(name, MARKER_SUFFIX) {
      assert name == name[..|name| - 8] + ".shipped";
    }
    forall log | name == log + ".shipped" ensures EndsWith(name, MARKER_SUFFIX) {
      assert name[|name| - 8..] == ".shipped";
    }
  }

  lemma DayNames(name: string)
    ensures "agent.log." <= name <==> exists day :: name == "agent.log." + day
  {
    assert "agent.log." <= name ==> name == "agent.log." + name[10..];
  }

  lemma JobNames(name: string, ext: string)
    ensures HasExtension(name, ext) <==> exists job :: job != "" && name == job + ("." + ext)
  {
    var dot := "." + ext;
    if HasExtension(name, ext) {
      assert name == name[..|name| - |dot|] + dot;
    }
    forall job | job != "" && name == job + dot ensures HasExtension(name, ext) {
      assert name[|name| - |dot|..] == dot;
    }
  }

  /** The agent ids in use: 1 to 64 letters, digits, dashes and underscores. */
  lemma AgentIds(id: string)
    ensures ValidAgentId(id) <==>
      && 1 <= |id| <= 64
      && forall c | c in id :: 'a' <= c <= 'z' || 'A' <= c <= 'Z' || '0' <= c <= '9' || c == '-' || c == '_'
  {
    assert forall i | 0 <= i < |id| :: id[i] in id;
  }

  function Pow10(n: nat): (r: nat)
    ensures r > 0
  {
    if n == 0 then 1 else 10 * Pow10(n - 1)
  }

  function DigitChar(d: nat): char
    requires d < 10
  {
    '0' + (d as char)
  }

  /** `n` in decimal, zero padded on the left to exactly `width` digits. */
  function Padded(n: nat, width: nat): (s: string)
    requires n < Pow10(width)
    ensures |s| == width
  {
    if width == 0 then [] else Padded(n / 10, width - 1) + [DigitChar(n % 10)]
  }

  lemma LexLastChar(a: string, b: string, x: char, y: char)
    requires |a| == |b|
    ensures LexLess(a + [x], b + [y]) <==> (LexLess(a, b) || (a == b && x < y))
    decreases |a|
  {
    if a == [] {
      assert a + [x] == [x] && b + [y] == [y];
    } else {
      assert (a + [x])[1..] == a[1..] + [x] && (b + [y])[1..] == b[1..] + [y];
      LexLastChar(a[1..], b[1..], x, y);
      assert a == [a[0]] + a[1..] && b == [b[0]] + b[1..];
      assert a == b <==> (a[0] == b[0] && a[1..] == b[1..]);
      LexIrreflexive(a);
    }
  }

  /** Zero padding makes the order of strings the order of numbers, and the form unique. */
  lemma {:induction false} PaddedOrder(m: nat, n: nat, width: nat)
    requires m < Pow10(width) && n < Pow10(width)
    ensures LexLess(Padded(m, width), Padded(n, width)) <==> m < n
    ensures Padded(m, width) == Padded(n, width) <==> m == n
  {
    if width > 0 {
      var a, b := Padded(m / 10, width - 1), Padded(n / 10, width - 1);
      var x, y := DigitChar(m % 10), DigitChar(n % 10);
      PaddedOrder(m / 10, n / 10, width - 1);
      LexLastChar(a, b, x, y);
      assert (a + [x])[..width - 1] == a && (b + [y])[..width - 1] == b;
      assert (a + [x])[width - 1] == x && (b + [y])[width - 1] == y;
      assert m == 10 * (m / 10) + m % 10 && n == 10 * (n / 10) + n % 10;
      assert (x < y <==> m % 10 < n % 10) && (x == y <==> m % 10 == n % 10);
    }
  }

  lemma U64FitsTwentyDigits(n: nat)
    requires n < U64_LIMIT
    ensures n < Pow10(OFFSET_DIGITS)
  {
    assert Pow10(5) == 100000;
    assert Pow10(10) == 100000 * Pow10(5);
    assert Pow10(15) == 100000 * Pow10(10);
    assert Pow10(20) == 100000 * Pow10(15);
  }

  type U64 = x: nat | x < U64_LIMIT

  function Offset20(offset: U64): (s: string)
    ensures |s| == OFFSET_DIGITS
  {
    U64FitsTwentyDigits(offset);
    Padded(offset, OFFSET_DIGITS)
  }

  function LogPrefix(root: string, agent: string): string {
    root + "logs/" + agent + "/"
  }

  function LogKey(root: string, agent: string, source: string, offset: U64): string {
    LogPrefix(root, agent) + source + "-" + Offset20(offset) + ".json"
  }

  lemma KeyShape(root: string, agent: string, source: string, offset: U64)
    ensures LogKey(root, agent, source, offset)
         == LogPrefix(root, agent) + (source + ("-" + (Offset20(offset) + ".json")))
  {
  }

  /** Appending the same separator: two names free of it are equal when the joined forms are. */
  lemma SplitAtSlash(a: string, b: string, x: string, y: string)
    requires '/' !in a && '/' !in b
    requires a + "/" + x <= b + "/" + y || a + "/" + x == b + "/" + y
    ensures a == b
  {
    var l, r := a + "/" + x, b + "/" + y;
    assert l[|a|] == '/' && r[|b|] == '/';
    if |a| < |b| {
      assert false;
    } else if |b| < |a| {
      assert false;
    } else {
      assert l[..|a|] == a && r[..|b|] == b;
    }
  }

  /** The controller's LIST by agent prefix returns that agent's chunks and nobody else's. */
  lemma PrefixSelectsAgent(root: string, agent: string, other: string, source: string, offset: U64)
    requires ValidAgentId(agent) && ValidAgentId(other)
    ensures LogPrefix(root, agent) <= LogKey(root, other, source, offset) <==> agent == other
  {
    var rest := source + ("-" + (Offset20(offset) + ".json"));
    KeyShape(root, other, source, offset);
    var p, k := LogPrefix(root, agent), LogKey(root, other, source, offset);
    assert k == LogPrefix(root, other) + rest;
    if p <= k {
      var head := root + "logs/";
      assert p == head + (agent + "/" + "") && k == head + (other + "/" + rest);
      assert k[|head|..] == other + "/" + rest && p[|head|..] == agent + "/" + "";
      assert k[..|p|] == p;
      assert p[|head|..] <= k[|head|..];
      SplitAtSlash(agent, other, "", rest);
    }
  }

  /** One key, one chunk: agent, source and offset can all be read back from the key. */
  lemma KeyInjective(root: string, agent: string, source: string, offset: U64,
                     agent': string, source': string, offset': U64)
    requires ValidAgentId(agent) && ValidAgentId(agent')
    requires LogKey(root, agent, source, offset) == LogKey(root, agent', source', offset')
    ensures agent == agent' && source == source' && offset == offset'
  {
    var k := LogKey(root, agent, source, offset);
    PrefixSelectsAgent(root, agent, agent', source', offset');
    KeyShape(root, agent, source, offset);
    KeyShape(root, agent', source', offset');
    var p := LogPrefix(root, agent);
    assert agent == agent' by {
      assert k[..|p|] == p;
    }
    var tail, tail' := "-" + (Offset20(offset) + ".json"), "-" + (Offset20(offset') + ".json");
    assert k[|p|..] == source + tail == source' + tail';
    assert |tail| == |tail'|;
    assert (source + tail)[..|source|] == source && (source' + tail')[..|source'|] == source';
    assert (source + tail)[|source|..] == tail && (source' + tail')[|source'|..] == tail';
    assert tail[1..21] == Offset20(offset) && tail'[1..21] == Offset20(offset');
    U64FitsTwentyDigits(offset);
    U64FitsTwentyDigits(offset');
    PaddedOrder(offset, offset', OFFSET_DIGITS);
  }

  lemma KeyOrder(root: string, agent: string, source: string, m: U64, n: U64)
    ensures LexLess(LogKey(root, agent, source, m), LogKey(root, agent, source, n)) <==> m < n
  {
    var p := LogPrefix(root, agent) + source + "-";
    U64FitsTwentyDigits(m);
    U64FitsTwentyDigits(n);
    assert LogKey(root, agent, source, m) == p + (Offset20(m) + ".json");
    assert LogKey(root, agent, source, n) == p + (Offset20(n) + ".json");
    LexCommonPrefix(p, Offset20(m) + ".json", Offset20(n) + ".json");
    LexCommonSuffix(Offset20(m), Offset20(n), ".json");
    PaddedOrder(m, n, OFFSET_DIGITS);
  }

  ghost predicate Sorted(keys: seq<string>) {
    forall i, j | 0 <= i < j < |keys| :: LexLess(keys[i], keys[j])
  }

  /**
   * What the sort of the listed keys achieves: reading any one source's chunks in
   * key order reads them in increasing offset, whatever other sources are listed between.
   */
  lemma SortedKeysGiveIncreasingOffsets(root: string, agent: string, source: string, keys: seq<string>,
                                        i: nat, j: nat, m: U64, n: U64)
    requires Sorted(keys) && i < |keys| && j < |keys|
    requires keys[i] == LogKey(root, agent, source, m) && keys[j] == LogKey(root, agent, source, n)
    ensures i < j <==> m < n
    ensures i == j <==> m == n
  {
    KeyOrder(root, agent, source, m, n);
    KeyOrder(root, agent, source, n, m);
    if i < j { assert LexLess(keys[i], keys[j]); }
    if j < i { assert LexLess(keys[j], keys[i]); }
  }
}
