/**
 * The pure part of the JSON console logger set-up: turning a `DEBUG` string into the list of
 * negative module patterns, and the filter that drops a log record whose module starts with one
 * of them. Everything else the logger set-up does (creating transports, timestamps, JSON
 * formatting, the environment variables) is I/O and is not modelled.
 */
module Logging {
  import opened Wrappers

  /**
   * The value `DEBUG` defaults to when the environment does not set it,
   * "aztec:*,-aztec:avm_simulator*,-aztec:libp2p_service*,-aztec:circuits:artifact_hash,-json-rpc*",
   * written as its comma-separated pieces, each negative one as `-`, module name and any `*`.
   */
  const DEFAULT_DEBUG_STRING: string :=
    "aztec:*" + "," + (("-" + "aztec:avm_simulator" + "*") + "," + (("-" + "aztec:libp2p_service" + "*") + "," +
    (("-" + "aztec:circuits:artifact_hash") + "," + ("-" + "json-rpc" + "*"))))

  /** The first position of `c` in `s`. */
  function IndexOf(s: string, c: char): (k: nat)
    requires c in s
    ensures k < |s| && s[k] == c
    ensures c !in s[..k]
  {
    if s[0] == c then 0 else 1 + IndexOf(s[1..], c)
  }

  /**
   * JavaScript's `s.split(sep)` for a one-character separator: the pieces between the
   * separators, empty pieces included, so there is always at least one.
   */
  function Split(s: string, sep: char): (r: seq<string>)
    ensures |r| >= 1
    ensures forall i | 0 <= i < |r| :: sep !in r[i]
    decreases |s|
  {
    if sep in s then
      var k := IndexOf(s, sep);
      [s[..k]] + Split(s[k + 1..], sep)
    else
      [s]
  }

  /** JavaScript's `segments.join(sep)`; the inverse of `Split`. */
  function Join(segments: seq<string>, sep: char): string
    requires |segments| >= 1
  {
    if |segments| == 1 then segments[0] else segments[0] + [sep] + Join(segments[1..], sep)
  }

  /** JavaScript's `s.startsWith(prefix)`. */
  predicate StartsWith(s: string, prefix: string) {
    |prefix| <= |s| && s[..|prefix|] == prefix
  }

  /** `p.startsWith('-')`: the segment names a module to leave out. */
  predicate IsNegative(p: string) {
    |p| > 0 && p[0] == '-'
  }

  /**
   * JavaScript's `s.replace(c, '')` with a string pattern: only the FIRST occurrence of `c`
   * is removed.
   */
  function ReplaceFirst(s: string, c: char): string {
    if s == [] then []
    else if s[0] == c then s[1..]
    else [s[0]] + ReplaceFirst(s[1..], c)
  }

  /** Removing the first `c` keeps everything before it and everything after it, later `c`s included. */
  lemma {:induction false} ReplaceFirstRemovesFirst(s: string, c: char)
    ensures c !in s ==> ReplaceFirst(s, c) == s
    ensures c in s ==> ReplaceFirst(s, c) == s[..IndexOf(s, c)] + s[IndexOf(s, c) + 1..]
  {
    if s != [] && s[0] != c {
      ReplaceFirstRemovesFirst(s[1..], c);
      if c in s {
        var k := IndexOf(s[1..], c);
        assert s[..k + 1] == [s[0]] + s[1..][..k];
        assert s[k + 2..] == s[1..][k + 1..];
      }
    }
  }

  /** Exactly one `c` goes, if there is one; every other character stays. */
  lemma ReplaceFirstCount(s: string, c: char)
    ensures multiset(ReplaceFirst(s, c)) == multiset(s) - multiset{c}
  {
    ReplaceFirstRemovesFirst(s, c);
    if c in s {
      var k := IndexOf(s, c);
      assert s == s[..k] + [c] + s[k + 1..];
      DropOne(s[..k], c, s[k + 1..]);
    } else {
      assert c !in multiset(s);
    }
  }

  /** Dropping one `c` from between two strings removes one `c` from the multiset of characters. */
  lemma DropOne(before: string, c: char, after: string)
    ensures multiset(before + after) == multiset(before + [c] + after) - multiset{c}
  {
    assert multiset(before + [c] + after) == multiset(before) + multiset{c} + multiset(after);
  }

  /** `p.slice(1)` followed by `.replace('*', '')`. */
  function StripPattern(p: string): string
    requires IsNegative(p)
  {
    ReplaceFirst(p[1..], '*')
  }

  /** The positions, in increasing order, of the negative segments. */
  function NegativeIndices(segments: seq<string>): (r: seq<nat>)
    ensures forall i | 0 <= i < |r| :: r[i] < |segments| && IsNegative(segments[r[i]])
    ensures forall i, j | 0 <= i < j < |r| :: r[i] < r[j]
    ensures forall j | 0 <= j < |segments| && IsNegative(segments[j]) :: j in r
  {
    if segments == [] then []
    else
      var n := |segments| - 1;
      NegativeIndices(segments[..n]) + (if IsNegative(segments[n]) then [n] else [])
  }

  /** The `filter(startsWith('-'))` and the two `map`s, on an already split string. */
  function NegativePatterns(segments: seq<string>): seq<string> {
    if segments == [] then []
    else
      var n := |segments| - 1;
      NegativePatterns(segments[..n]) + (if IsNegative(segments[n]) then [StripPattern(segments[n])] else [])
  }

  /** The i-th pattern is the i-th negative segment, stripped: nothing else contributes, order is kept. */
  lemma {:induction false} NegativePatternsAt(segments: seq<string>)
    ensures |NegativePatterns(segments)| == |NegativeIndices(segments)|
    ensures forall i | 0 <= i < |NegativePatterns(segments)| ::
      NegativePatterns(segments)[i] == StripPattern(segments[NegativeIndices(segments)[i]])
  {
    if segments != [] {
      var n := |segments| - 1;
      var prefix := segments[..n];
      NegativePatternsAt(prefix);
      var patterns, indices := NegativePatterns(prefix), NegativeIndices(prefix);
      var last := if IsNegative(segments[n]) then [StripPattern(segments[n])] else [];
      assert NegativePatterns(segments) == patterns + last;
      assert NegativeIndices(segments) == indices + (if IsNegative(segments[n]) then [n] else []);
      forall i | 0 <= i < |NegativePatterns(segments)|
        ensures NegativePatterns(segments)[i] == StripPattern(segments[NegativeIndices(segments)[i]])
      {
        if i < |patterns| {
          assert NegativePatterns(segments)[i] == patterns[i];
          assert NegativeIndices(segments)[i] == indices[i];
          assert prefix[indices[i]] == segments[indices[i]];
        }
      }
    }
  }

  /** `extractNegativePatterns`. */
  function ExtractNegativePatterns(debugString: string): (r: seq<string>)
    ensures var segments := Split(debugString, ',');
      && |r| == |NegativeIndices(segments)|
      && forall i | 0 <= i < |r| :: r[i] == StripPattern(segments[NegativeIndices(segments)[i]])
  {
    NegativePatternsAt(Split(debugString, ','));
    NegativePatterns(Split(debugString, ','))
  }

  /** `ignorePatterns.some(pattern => module.startsWith(pattern))`. */
  function SomePatternMatches(patterns: seq<string>, moduleName: string): (r: bool)
    ensures r <==> exists i | 0 <= i < |patterns| :: StartsWith(moduleName, patterns[i])
  {
    if patterns == [] then false
    else StartsWith(moduleName, patterns[0]) || SomePatternMatches(patterns[1..], moduleName)
  }

  /** A log record as the formatter sees it; only `moduleName` (`info.module`) matters to the filter. */
  datatype LogInfo = LogInfo(level: string, moduleName: string, message: string)

  /** The `ignoreAztecPattern` formatter: `None` is the `false` that drops the record. */
  function IgnoreAztecPattern(ignorePatterns: seq<string>, info: LogInfo): (r: Option<LogInfo>)
    ensures r.None? <==> exists i | 0 <= i < |ignorePatterns| :: StartsWith(info.moduleName, ignorePatterns[i])
    ensures r.Some? ==> r.value == info
  {
    if SomePatternMatches(ignorePatterns, info.moduleName) then None else Some(info)
  }

  /** Joining a head and at least one more piece puts the separator between them. */
  lemma JoinCons(head: string, rest: seq<string>, sep: char)
    requires |rest| >= 1
    ensures Join([head] + rest, sep) == head + [sep] + Join(rest, sep)
  {
    assert ([head] + rest)[0] == head;
    assert ([head] + rest)[1..] == rest;
  }

  /** Joining the pieces back with the separator gives the original string. */
  lemma {:induction false} JoinSplit(s: string, sep: char)
    ensures Join(Split(s, sep), sep) == s
    decreases |s|
  {
    if sep in s {
      var k := IndexOf(s, sep);
      var rest := Split(s[k + 1..], sep);
      assert Split(s, sep) == [s[..k]] + rest;
      JoinCons(s[..k], rest, sep);
      JoinSplit(s[k + 1..], sep);
      assert s == s[..k] + [sep] + s[k + 1..];
    }
  }

  /** Splitting a join of separator-free pieces gives the pieces back. */
  lemma {:induction false} SplitJoin(segments: seq<string>, sep: char)
    requires |segments| >= 1
    requires forall i | 0 <= i < |segments| :: sep !in segments[i]
    ensures Split(Join(segments, sep), sep) == segments
    decreases |segments|
  {
    if |segments| > 1 {
      var head, rest := segments[0], segments[1..];
      assert segments == [head] + rest;
      JoinCons(head, rest, sep);
      SplitCons(head, sep, Join(rest, sep));
      assert forall i | 0 <= i < |rest| :: sep !in rest[i] by {
        forall i | 0 <= i < |rest| ensures sep !in rest[i] {
          assert rest[i] == segments[i + 1];
        }
      }
      SplitJoin(rest, sep);
    } else {
      assert Join(segments, sep) == segments[0];
      assert sep !in segments[0];
    }
  }

  /** When `c` does not occur in `a`, the first `c` of `a + [c] + b` is right after `a`. */
  lemma {:induction false} IndexOfAfterFree(a: string, c: char, b: string)
    requires c !in a
    ensures IndexOf(a + [c] + b, c) == |a|
  {
    if a != [] {
      assert (a + [c] + b)[1..] == a[1..] + [c] + b;
      IndexOfAfterFree(a[1..], c, b);
    }
  }

  /** The five segments of the default `DEBUG` value. */
  const DEFAULT_SEGMENTS: seq<string> := ["aztec:*", "-" + "aztec:avm_simulator" + "*", "-" + "aztec:libp2p_service" + "*",
                                          "-" + "aztec:circuits:artifact_hash", "-" + "json-rpc" + "*"]

  /** A separator-free head is split off as the first piece. */
  lemma SplitCons(a: string, sep: char, b: string)
    requires sep !in a
    ensures Split(a + [sep] + b, sep) == [a] + Split(b, sep)
  {
    var s := a + [sep] + b;
    IndexOfAfterFree(a, sep, b);
    assert s[..|a|] == a;
    assert s[|a| + 1..] == b;
  }

  /** Putting a separator-free piece in front of a string whose split is known. */
  lemma SplitPrepend(a: string, sep: char, b: string, pieces: seq<string>)
    requires sep !in a && Split(b, sep) == pieces
    ensures Split(a + [sep] + b, sep) == [a] + pieces
  {
    SplitCons(a, sep, b);
  }

  /** Five separator-free pieces joined by the separator split back into those five. */
  lemma SplitFive(a: string, b: string, c: string, d: string, e: string, sep: char)
    requires sep !in a && sep !in b && sep !in c && sep !in d && sep !in e
    ensures Split(a + [sep] + (b + [sep] + (c + [sep] + (d + [sep] + e))), sep) == [a, b, c, d, e]
  {
    var de := d + [sep] + e;
    var cde := c + [sep] + de;
    var bcde := b + [sep] + cde;
    SplitPrepend(d, sep, e, [e]);
    SplitPrepend(c, sep, de, [d, e]);
    SplitPrepend(b, sep, cde, [c, d, e]);
    SplitPrepend(a, sep, bcde, [b, c, d, e]);
  }

  lemma DefaultSplit()
    ensures Split(DEFAULT_DEBUG_STRING, ',') == DEFAULT_SEGMENTS
  {
    SplitFive("aztec:*", "-" + "aztec:avm_simulator" + "*", "-" + "aztec:libp2p_service" + "*",
              "-" + "aztec:circuits:artifact_hash", "-" + "json-rpc" + "*", ',');
  }

  /** Stripping `-` and then one trailing `*` from `-name*`. */
  lemma StripTrailingStar(name: string)
    requires '*' !in name
    ensures StripPattern("-" + name + "*") == name
  {
    var p := "-" + name + "*";
    assert p[1..] == name + "*";
    IndexOfAfterFree(name, '*', "");
    ReplaceFirstRemovesFirst(name + "*", '*');
    assert (name + "*")[..|name|] == name;
  }

  /** Extending the segments by one extends the patterns by that segment's contribution. */
  lemma NegativePatternsSnoc(segments: seq<string>, p: string)
    ensures NegativePatterns(segments + [p])
         == NegativePatterns(segments) + (if IsNegative(p) then [StripPattern(p)] else [])
  {
    assert (segments + [p])[..|segments|] == segments;
  }

  /** Stripping `-` from `-name` when `name` holds no `*`. */
  lemma StripNoStar(name: string)
    requires '*' !in name
    ensures StripPattern("-" + name) == name
  {
    assert ("-" + name)[1..] == name;
    ReplaceFirstRemovesFirst(name, '*');
  }

  lemma DefaultStrip1()
    ensures StripPattern("-" + "aztec:avm_simulator" + "*") == "aztec:avm_simulator"
  {
    StripTrailingStar("aztec:avm_simulator");
  }

  lemma DefaultStrip2()
    ensures StripPattern("-" + "aztec:libp2p_service" + "*") == "aztec:libp2p_service"
  {
    StripTrailingStar("aztec:libp2p_service");
  }

  lemma DefaultStrip3()
    ensures StripPattern("-" + "aztec:circuits:artifact_hash") == "aztec:circuits:artifact_hash"
  {
    StripNoStar("aztec:circuits:artifact_hash");
  }

  lemma DefaultStrip4()
    ensures StripPattern("-" + "json-rpc" + "*") == "json-rpc"
  {
    StripTrailingStar("json-rpc");
  }

  /** A positive segment followed by four negative ones. */
  lemma OnePositiveFourNegative(a: string, b: string, c: string, d: string, e: string)
    requires !IsNegative(a) && IsNegative(b) && IsNegative(c) && IsNegative(d) && IsNegative(e)
    ensures NegativePatterns([a, b, c, d, e])
         == [StripPattern(b), StripPattern(c), StripPattern(d), StripPattern(e)]
  {
    var s := [a, b, c, d, e];
    assert s[..1] == [a];
    assert NegativePatterns([a]) == [] by {
      assert [a][..0] == [];
    }
    NegativePatternsSnoc([a], b);
    assert [a] + [b] == s[..2];
    NegativePatternsSnoc(s[..2], c);
    assert s[..2] + [c] == s[..3];
    NegativePatternsSnoc(s[..3], d);
    assert s[..3] + [d] == s[..4];
    NegativePatternsSnoc(s[..4], e);
    assert s[..4] + [e] == s;
  }

  /** With the default `DEBUG` value four modules are left out; `aztec:*` contributes nothing. */
  lemma DefaultNegativePatterns()
    ensures ExtractNegativePatterns(DEFAULT_DEBUG_STRING)
         == ["aztec:avm_simulator", "aztec:libp2p_service", "aztec:circuits:artifact_hash", "json-rpc"]
  {
    DefaultSplit();
    DefaultStrip1();
    DefaultStrip2();
    DefaultStrip3();
    DefaultStrip4();
    OnePositiveFourNegative("aztec:*", "-" + "aztec:avm_simulator" + "*", "-" + "aztec:libp2p_service" + "*",
                            "-" + "aztec:circuits:artifact_hash", "-" + "json-rpc" + "*");
  }

  /** A pattern that is empty after stripping (from `-` or `-*`) drops every record. */
  lemma EmptyPatternDropsAll(ignorePatterns: seq<string>, info: LogInfo)
    requires "" in ignorePatterns
    ensures IgnoreAztecPattern(ignorePatterns, info) == None
  {
    var i :| 0 <= i < |ignorePatterns| && ignorePatterns[i] == "";
    assert StartsWith(info.moduleName, ignorePatterns[i]);
  }

  /** A bare `-` or `-*` segment in the debug string silences the whole console logger. */
  lemma BareNegationSilencesAll(debugString: string, j: nat, info: LogInfo)
    requires j < |Split(debugString, ',')|
    requires Split(debugString, ',')[j] in ["-", "-*"]
    ensures IgnoreAztecPattern(ExtractNegativePatterns(debugString), info) == None
  {
    var segments := Split(debugString, ',');
    var patterns := ExtractNegativePatterns(debugString);
    var idx := NegativeIndices(segments);
    assert IsNegative(segments[j]);
    var i :| 0 <= i < |idx| && idx[i] == j;
    assert StripPattern(segments[j]) == "" by {
      ReplaceFirstRemovesFirst(segments[j][1..], '*');
    }
    assert patterns[i] == "";
    EmptyPatternDropsAll(patterns, info);
  }
}
