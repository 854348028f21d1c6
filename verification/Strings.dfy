/** The string operations that remotes and change-request links are built from. */
module Strings {
  import opened Outcomes

  function StripPrefix(s: string, prefix: string): Option<string> {
    if prefix <= s then Some(s[|prefix|..]) else None
  }

  function StripSuffix(s: string, suffix: string): string {
    if EndsWith(s, suffix) then s[..|s| - |suffix|] else s
  }

  predicate EndsWith(s: string, suffix: string) {
    |suffix| <= |s| && s[|s| - |suffix|..] == suffix
  }

  function TrimEnd(s: string, c: char): string {
    if s != [] && s[|s| - 1] == c then TrimEnd(s[..|s| - 1], c) else s
  }

  /** The parts before and after the first `c`. */
  function SplitOnce(s: string, c: char): (r: Option<(string, string)>)
    ensures r.Some? <==> c in s
    ensures r.Some? ==> s == r.value.0 + [c] + r.value.1 && c !in r.value.0
  {
    if s == [] then None
    else if s[0] == c then Some(([], s[1..]))
    else
      var rest := SplitOnce(s[1..], c);
      if rest.None? then None else Some(([s[0]] + rest.value.0, rest.value.1))
  }

  /** The parts before and after the last `c`. */
  function RSplitOnce(s: string, c: char): (r: Option<(string, string)>)
    ensures r.Some? <==> c in s
    ensures r.Some? ==> s == r.value.0 + [c] + r.value.1 && c !in r.value.1
  {
    if s == [] then None
    else
      var init, last := s[..|s| - 1], s[|s| - 1];
      if last == c then Some((init, []))
      else
        var rest := RSplitOnce(init, c);
        if rest.None? then None else Some((rest.value.0, rest.value.1 + [last]))
  }

  lemma {:induction false} SplitOnceAt(a: string, c: char, b: string)
    requires c !in a
    ensures SplitOnce(a + [c] + b, c) == Some((a, b))
  {
    var s := a + [c] + b;
    if a == [] {
      assert s == [c] + b;
    } else {
      assert s[1..] == a[1..] + [c] + b;
      assert s[0] == a[0] && a[0] in a;
      assert forall x | x in a[1..] :: x in a;
      SplitOnceAt(a[1..], c, b);
      assert [a[0]] + a[1..] == a;
    }
  }

  lemma {:induction false} RSplitOnceAt(a: string, c: char, b: string)
    requires c !in b
    ensures RSplitOnce(a + [c] + b, c) == Some((a, b))
  {
    var s := a + [c] + b;
    if b == [] {
      assert s[..|s| - 1] == a;
    } else {
      var init := b[..|b| - 1];
      assert s[..|s| - 1] == a + [c] + init && s[|s| - 1] == b[|b| - 1];
      assert b[|b| - 1] in b && forall x | x in init :: x in b;
      RSplitOnceAt(a, c, init);
      assert init + [b[|b| - 1]] == b;
    }
  }

  lemma Regroup(a: string, b: string, c: string)
    ensures (a + b) + c == a + (b + c)
  {
  }

  lemma StripOfPrefixed(prefix: string, rest: string)
    ensures StripPrefix(prefix + rest, prefix) == Some(rest)
  {
    assert (prefix + rest)[|prefix|..] == rest;
  }

  // ----- Paths -----

  /** `split('/')`. */
  function Split(s: string): (segments: seq<string>)
    ensures segments != []
  {
    if s == [] then [[]] else Prepend(s[0], Split(s[1..]))
  }

  /** The segments of a text with `c` in front of it. */
  function Prepend(c: char, segments: seq<string>): (more: seq<string>)
    requires segments != []
    ensures more != []
  {
    if c == '/' then [[]] + segments else [[c] + segments[0]] + segments[1..]
  }

  function Join(segments: seq<string>): string
    requires segments != []
  {
    if |segments| == 1 then segments[0] else segments[0] + "/" + Join(segments[1..])
  }

  lemma {:induction false} JoinOfSplit(s: string)
    ensures Join(Split(s)) == s
    ensures forall segment <- Split(s) :: '/' !in segment
  {
    if s != [] {
      JoinOfSplit(s[1..]);
      var rest := Split(s[1..]);
      if s[0] == '/' {
        assert ([[]] + rest)[1..] == rest;
      } else {
        var segments := [[s[0]] + rest[0]] + rest[1..];
        assert segments[1..] == rest[1..];
      }
    }
  }

  lemma {:induction false} SegmentChars(s: string, segment: string, c: char)
    requires segment in Split(s) && c in segment
    ensures c in s
  {
    if s != [] {
      var rest := Split(s[1..]);
      if s[0] != '/' && segment == [s[0]] + rest[0] {
        if c != s[0] {
          assert c in rest[0];
          SegmentChars(s[1..], rest[0], c);
        }
      } else {
        assert segment in rest;
        SegmentChars(s[1..], segment, c);
      }
    }
  }

  /** Every character but the separator is in some segment. */
  lemma {:induction false} CharInSegment(s: string, c: char) returns (segment: string)
    requires c in s && c != '/'
    ensures segment in Split(s) && c in segment
  {
    var rest := Split(s[1..]);
    if s[0] == c {
      segment := [c] + rest[0];
    } else {
      var inner := CharInSegment(s[1..], c);
      if s[0] != '/' && inner == rest[0] {
        segment := [s[0]] + inner;
        assert c in segment;
      } else {
        segment := inner;
        if s[0] != '/' {
          var k :| 0 <= k < |rest| && rest[k] == inner;
          assert Split(s)[k] == inner;
        } else {
          assert inner in [[]] + rest;
        }
      }
    }
  }

  lemma {:induction false} SplitCount(s: string)
    ensures |Split(s)| == 1 <==> '/' !in s
  {
    if s != [] {
      SplitCount(s[1..]);
      assert s == [s[0]] + s[1..];
    }
  }

  function Slashes(n: nat): string {
    if n == 0 then [] else Slashes(n - 1) + "/"
  }

  /** What `TrimEnd` takes away is a run of slashes. */
  lemma {:induction false} TrimmedSlashes(s: string) returns (n: nat)
    ensures s == TrimEnd(s, '/') + Slashes(n)
    ensures TrimEnd(s, '/') == [] || TrimEnd(s, '/')[|TrimEnd(s, '/')| - 1] != '/'
  {
    if s != [] && s[|s| - 1] == '/' {
      var init := s[..|s| - 1];
      var k := TrimmedSlashes(init);
      n := k + 1;
      assert s == init + "/";
    } else {
      n := 0;
      assert s + [] == s;
    }
  }

  lemma TrimOneSlash(s: string)
    ensures TrimEnd(s + "/", '/') == TrimEnd(s, '/')
  {
    assert (s + "/")[..|s|] == s;
  }

  lemma {:induction false} TrimOfSlashes(s: string, n: nat)
    requires s == [] || s[|s| - 1] != '/'
    ensures TrimEnd(s + Slashes(n), '/') == s
  {
    if n == 0 {
      assert s + [] == s;
    } else {
      hide TrimEnd;
      Regroup(s, Slashes(n - 1), "/");
      TrimOneSlash(s + Slashes(n - 1));
      TrimOfSlashes(s, n - 1);
    }
  }

  lemma {:induction false} SlashesAreSlashes(n: nat)
    ensures forall c <- Slashes(n) :: c == '/'
  {
    if n > 0 {
      SlashesAreSlashes(n - 1);
    }
  }

  lemma {:induction false} SplitOfSegment(segment: string)
    requires '/' !in segment
    ensures Split(segment) == [segment]
  {
    if segment != [] {
      assert segment[0] in segment && forall c | c in segment[1..] :: c in segment;
      SplitOfSegment(segment[1..]);
      assert [segment[0]] + segment[1..] == segment;
    }
  }

  lemma PrependAppend(c: char, a: seq<string>, b: seq<string>)
    requires a != []
    ensures Prepend(c, a + b) == Prepend(c, a) + b
  {
    assert (a + b)[1..] == a[1..] + b;
  }

  lemma {:induction false} SplitOfPath(a: string, b: string)
    ensures Split(a + "/" + b) == Split(a) + Split(b)
  {
    hide Prepend;
    var s := a + "/" + b;
    if a == [] {
      assert s[0] == '/' && s[1..] == b;
      PrependSlash(Split(b));
    } else {
      assert s[1..] == a[1..] + "/" + b && s[0] == a[0];
      SplitOfPath(a[1..], b);
      PrependAppend(a[0], Split(a[1..]), Split(b));
    }
  }

  lemma PrependSlash(segments: seq<string>)
    requires segments != []
    ensures Prepend('/', segments) == [[]] + segments
  {
  }

  lemma {:induction false} SplitOfJoin(segments: seq<string>)
    requires segments != [] && forall segment <- segments :: '/' !in segment
    ensures Split(Join(segments)) == segments
  {
    SplitOfSegment(segments[0]);
    if |segments| > 1 {
      SplitOfJoin(segments[1..]);
      SplitOfPath(segments[0], Join(segments[1..]));
    }
  }

  lemma {:induction false} JoinOfAppend(a: seq<string>, b: seq<string>)
    requires a != [] && b != []
    ensures Join(a + b) == Join(a) + "/" + Join(b)
  {
    if |a| == 1 {
      assert (a + b)[1..] == b;
    } else {
      assert (a + b)[1..] == a[1..] + b;
      JoinOfAppend(a[1..], b);
    }
  }

  // ----- Case -----

  function LowerChar(c: char): char {
    if 'A' <= c <= 'Z' then (c as int + 32) as char else c
  }

  function Lower(s: string): (r: string)
    ensures |r| == |s| && forall i | 0 <= i < |s| :: r[i] == LowerChar(s[i])
  {
    seq(|s|, i requires 0 <= i < |s| => LowerChar(s[i]))
  }

  function LowerAll(segments: seq<string>): (r: seq<string>)
    ensures |r| == |segments| && forall i | 0 <= i < |segments| :: r[i] == Lower(segments[i])
  {
    seq(|segments|, i requires 0 <= i < |segments| => Lower(segments[i]))
  }

  predicate EqIgnoreCase(a: string, b: string) {
    Lower(a) == Lower(b)
  }

  /** ASCII letters in either case, and nothing else, count as the same. */
  lemma EqIgnoreCaseMeans(a: string, b: string)
    ensures EqIgnoreCase(a, b) <==>
            |a| == |b| && forall i | 0 <= i < |a| ::
              || a[i] == b[i]
              || ('A' <= a[i] <= 'Z' && b[i] as int == a[i] as int + 32)
              || ('A' <= b[i] <= 'Z' && a[i] as int == b[i] as int + 32)
  {
    if EqIgnoreCase(a, b) {
      forall i | 0 <= i < |a|
        ensures |a| == |b| && LowerChar(a[i]) == LowerChar(b[i])
      {
        assert Lower(a)[i] == Lower(b)[i];
      }
    }
  }

  lemma LowerConcat(a: string, b: string)
    ensures Lower(a + b) == Lower(a) + Lower(b)
  {
  }

  lemma LowerAllConcat(a: seq<string>, b: seq<string>)
    ensures LowerAll(a + b) == LowerAll(a) + LowerAll(b)
  {
  }

  lemma LowerKeepsSigns(s: string, c: char)
    requires !('A' <= c <= 'Z') && !('a' <= c <= 'z')
    ensures c in Lower(s) <==> c in s
  {
    if c in s {
      var i :| 0 <= i < |s| && s[i] == c;
      assert Lower(s)[i] == c;
    }
  }

  lemma {:induction false} SplitOfLower(s: string)
    ensures Split(Lower(s)) == LowerAll(Split(s))
  {
    if s != [] {
      assert Lower(s)[1..] == Lower(s[1..]);
      SplitOfLower(s[1..]);
      var rest := Split(s[1..]);
      if s[0] == '/' {
        LowerAllConcat([[]], rest);
        assert LowerAll([[]]) == [[]];
      } else {
        var head := [s[0]] + rest[0];
        LowerConcat([s[0]], rest[0]);
        assert Lower([s[0]]) == [LowerChar(s[0])];
        LowerAllConcat([head], rest[1..]);
        assert LowerAll([head]) == [Lower(head)];
        assert LowerAll(rest)[1..] == LowerAll(rest[1..]);
      }
    }
  }

  predicate Digits(s: string) {
    s != [] && forall c <- s :: '0' <= c <= '9'
  }
}
